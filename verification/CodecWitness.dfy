/** The assumptions made of number printing and of the digests can be met: integers printed in decimal, and
    constant digests, meet them. */
module CodecWitness {
  import opened Texts
  import opened Decimal
  import opened Json
  import opened Recorder

  function RenderInteger(n: int): Text {
    if n < 0 then [0x2D] + U(Numeral(-n)) else U(Numeral(n))
  }

  function Render(x: real): Text {
    RenderInteger(x.Floor)
  }

  ghost predicate Renders(n: int, t: Text) {
    SafeInteger(n as real) && t == RenderInteger(n)
  }

  ghost function ReadInteger(t: Text): Number {
    if exists n :: Renders(n, t) then
      var n :| Renders(n, t);
      Finite(n as real)
    else NonFinite
  }

  lemma {:induction false} NumeralUnits(n: nat)
    ensures var t := U(Numeral(n));
      && t != [] && (forall i :: 0 <= i < |t| ==> Digit(t[i]))
      && (t[0] == 0x30 ==> n == 0 && |t| == 1)
  {
    hide Numeral, ValueOf;
    var s := Numeral(n);
    NumeralValue(n);
    forall i | 0 <= i < |s| ensures Digit(U(s)[i]) {
      assert IsDigit(s[i]);
    }
    LeadingDigit(n);
    assert s != [] && IsDigit(s[0]) && U(s)[0] == s[0] as int;
  }

  lemma {:induction false} LeadingDigit(n: nat)
    ensures Numeral(n)[0] == '0' ==> n == 0
    ensures n == 0 ==> Numeral(n) == "0"
  {
    if n >= 10 {
      LeadingDigit(n / 10);
      assert Numeral(n)[0] == Numeral(n / 10)[0];
    }
  }

  lemma {:induction false} AllDigits(t: Text)
    requires forall i :: 0 <= i < |t| ==> Digit(t[i])
    ensures TakeDigits(t) == |t|
  {
    if t != [] {
      AllDigits(t[1..]);
    }
  }

  lemma IntegerToken(n: int)
    ensures NumberToken(RenderInteger(n))
  {
    var digits := U(Numeral(if n < 0 then -n else n));
    NumeralUnits(if n < 0 then -n else n);
    AllDigits(digits);
    assert digits[|digits|..] == [];
    if n < 0 {
      assert RenderInteger(n)[1..] == digits;
    }
  }

  lemma SameUnits(s: string, t: string)
    requires (forall i :: 0 <= i < |s| ==> IsDigit(s[i])) && (forall i :: 0 <= i < |t| ==> IsDigit(t[i]))
    requires U(s) == U(t)
    ensures s == t
  {
    forall i | 0 <= i < |s| ensures s[i] == t[i] {
      assert IsDigit(s[i]) && IsDigit(t[i]);
      assert U(s)[i] == U(t)[i];
    }
  }

  lemma RendersOnce(m: int, n: int)
    requires RenderInteger(m) == RenderInteger(n)
    ensures m == n
  {
    var a, b := if m < 0 then -m else m, if n < 0 then -n else n;
    NumeralUnits(a);
    NumeralUnits(b);
    assert m < 0 <==> RenderInteger(m)[0] == 0x2D;
    assert n < 0 <==> RenderInteger(n)[0] == 0x2D;
    assert m < 0 ==> RenderInteger(m)[1..] == U(Numeral(a)) && RenderInteger(n)[1..] == U(Numeral(b));
    NumeralValue(a);
    NumeralValue(b);
    SameUnits(Numeral(a), Numeral(b));
  }

  lemma ReadsRendered(x: real)
    requires SafeInteger(x)
    ensures NumberToken(Render(x)) && ReadInteger(Render(x)) == Finite(x)
  {
    hide RenderInteger;
    IntegerToken(x.Floor);
    assert Renders(x.Floor, Render(x));
    forall n | Renders(n, Render(x)) ensures n == x.Floor {
      RendersOnce(n, x.Floor);
    }
  }

  /** The hypotheses of the recorder's and the printer's theorems hold of some setup. */
  lemma GoodSetupExists() returns (env: Setup)
    ensures GoodSetup(env)
  {
    hide Render, NumberToken;
    var codec := NumberCodec(SafeInteger, Render, ReadInteger);
    forall x | codec.isDouble(x) ensures NumberToken(codec.render(x)) && codec.read(codec.render(x)) == Finite(x) {
      ReadsRendered(x);
    }
    assert GoodCodec(codec);
    var digest: Text := seq(64, _ => 0x30);
    env := Setup(codec, _ => digest, _ => digest, [], [], [], []);
  }
}
