/** The streaming decoder against the UTF-8 form of scalar values. */
module Utf8Laws {
  import opened Options
  import opened Texts
  import opened AuthRefresh
  import opened AuthRefreshLaws
  import Recorder

  type Scalar = n: int | 0 <= n < 0xD800 || 0xE000 <= n < 0x11_0000

  /** RFC 3629, section 3. */
  function Utf8(n: Scalar): (bytes: seq<Byte>)
    ensures 1 <= |bytes| <= 4
  {
    if n < 0x80 then [n]
    else if n < 0x800 then [0xC0 + n / 0x40, 0x80 + n % 0x40]
    else if n < 0x1_0000 then [0xE0 + n / 0x1000, 0x80 + n / 0x40 % 0x40, 0x80 + n % 0x40]
    else [0xF0 + n / 0x4_0000, 0x80 + n / 0x1000 % 0x40, 0x80 + n / 0x40 % 0x40, 0x80 + n % 0x40]
  }

  function Bytes(scalars: seq<Scalar>): seq<Byte> {
    if scalars == [] then [] else Utf8(scalars[0]) + Bytes(scalars[1..])
  }

  /** The scalar value that the code units of one character stand for: RFC 2781, section 2.2. */
  ghost predicate StandsFor(units: Text, n: Scalar) {
    if n < 0x1_0000 then units == [n]
    else
      && |units| == 2 && 0xD800 <= units[0] < 0xDC00 && 0xDC00 <= units[1] < 0xE000
      && var high: int, low: int := units[0], units[1]; n == 0x1_0000 + (high - 0xD800) * 0x400 + (low - 0xDC00)
  }

  /** The text is that of the scalar values, one after another. */
  ghost predicate TextOf(text: Text, scalars: seq<Scalar>) {
    if scalars == [] then text == []
    else exists k :: 0 < k <= |text| && StandsFor(text[..k], scalars[0]) && TextOf(text[k..], scalars[1..])
  }

  const BYTE_ORDER_MARK: Scalar := 0xFEFF

  /** What is left of them when a byte order mark at the start is dropped. */
  function Unmarked(scalars: seq<Scalar>, atStart: bool): seq<Scalar> {
    if atStart && scalars != [] && scalars[0] == BYTE_ORDER_MARK then scalars[1..] else scalars
  }

  /** The decoder is between characters. */
  function Between(atStart: bool): Decoder {
    FRESH.(atStart := atStart)
  }

  lemma UnitsStandFor(n: Scalar)
    ensures StandsFor(EncodeUnits(n), n) && EncodeUnits(n) != []
  {
  }

  lemma TwoBytes(d: Decoder, a: Byte, b: Byte)
    ensures Decode(d, [a, b]) ==
      var x := DecodeByte(d, a);
      if x.None? then None
      else
        var y := DecodeByte(x.value.0, b);
        if y.None? then None else Some((y.value.0, x.value.1 + y.value.1))
  {
    hide DecodeByte;
    assert [a, b][1..] == [b] && [b][1..] == [];
    OneByte(d, a);
    var x := DecodeByte(d, a);
    if x.Some? {
      OneByte(x.value.0, b);
    }
  }

  lemma OneByte(d: Decoder, a: Byte)
    ensures Decode(d, [a]) == DecodeByte(d, a)
  {
    hide DecodeByte;
    assert [a][1..] == [];
    var x := DecodeByte(d, a);
    assert x.Some? ==> x.value.1 + [] == x.value.1;
  }

  lemma Lead(atStart: bool, b: Byte)
    ensures var d := DecodeByte(Between(atStart), b);
      && (0xC2 <= b <= 0xDF ==> d == Some((Decoder(b as int - 0xC0, 1, 0x80, 0xBF, atStart), [])))
      && (0xE0 <= b <= 0xEF ==>
            d == Some((Decoder(b as int - 0xE0, 2, if b == 0xE0 then 0xA0 else 0x80, if b == 0xED then 0x9F else 0xBF,
                               atStart), [])))
      && (0xF0 <= b <= 0xF4 ==>
            d == Some((Decoder(b as int - 0xF0, 3, if b == 0xF0 then 0x90 else 0x80, if b == 0xF4 then 0x8F else 0xBF,
                               atStart), [])))
  {
  }

  lemma Follow(d: Decoder, b: Byte)
    requires d.needed > 0 && d.lower <= b <= d.upper && 0x80 <= b < 0xC0
    ensures var codePoint := d.codePoint * 0x40 + (b as int - 0x80);
      DecodeByte(d, b) == if d.needed == 1 then Some(Emit(d, codePoint))
                          else Some((Decoder(codePoint, d.needed - 1, 0x80, 0xBF, d.atStart), []))
  {
    hide EncodeUnits;
    assert b % 64 == b as int - 0x80;
  }

  lemma ThreeDigits(n: nat)
    requires n < 0x1_0000
    ensures (n / 0x1000 * 0x40 + n / 0x40 % 0x40) * 0x40 + n % 0x40 == n && n / 0x1000 < 0x10
  {
    assert n / 0x1000 == n / 0x40 / 0x40;
  }

  lemma FourDigits(n: nat)
    requires n < 0x11_0000
    ensures ((n / 0x4_0000 * 0x40 + n / 0x1000 % 0x40) * 0x40 + n / 0x40 % 0x40) * 0x40 + n % 0x40 == n
    ensures n / 0x4_0000 <= 4
  {
    assert n / 0x1000 == n / 0x40 / 0x40 && n / 0x4_0000 == n / 0x40 / 0x40 / 0x40;
  }

  lemma DecodeTwo(n: Scalar, atStart: bool)
    requires 0x80 <= n < 0x800
    ensures Decode(Between(atStart), Utf8(n)) == Some(Emit(Between(atStart), n))
  {
    hide Emit, DecodeByte;
    var d, bytes := Between(atStart), Utf8(n);
    TwoBytes(d, bytes[0], bytes[1]);
    Lead(atStart, bytes[0]);
    var x := Decoder(n / 0x40, 1, 0x80, 0xBF, atStart);
    Follow(x, bytes[1]);
    EmitSame(x, atStart, n);
  }

  lemma EmitSame(d: Decoder, atStart: bool, n: nat)
    requires d.atStart == atStart
    ensures Emit(d, n) == Emit(Between(atStart), n) && [] + Emit(d, n).1 == Emit(d, n).1
  {
    hide EncodeUnits;
  }

  lemma DecodeThree(n: Scalar, atStart: bool)
    requires 0x800 <= n < 0x1_0000
    ensures Decode(Between(atStart), Utf8(n)) == Some(Emit(Between(atStart), n))
  {
    hide Emit, DecodeByte;
    var d, bytes := Between(atStart), Utf8(n);
    ThreeDigits(n);
    Lead(atStart, bytes[0]);
    var a, b, c := n / 0x1000, n / 0x40 % 0x40, n % 0x40;
    var x := Decoder(a, 2, if a == 0 then 0xA0 else 0x80, if a == 0xD then 0x9F else 0xBF, atStart);
    assert a == 0 ==> b >= 0x20;
    assert a == 0xD ==> b < 0x20;
    Follow(x, bytes[1]);
    var y := Decoder(a * 0x40 + b, 1, 0x80, 0xBF, atStart);
    Follow(y, bytes[2]);
    EmitSame(y, atStart, n);
    TwoBytes(d, bytes[0], bytes[1]);
    OneByte(y, bytes[2]);
    DecodeConcat(d, [bytes[0], bytes[1]], [bytes[2]]);
    assert bytes == [bytes[0], bytes[1]] + [bytes[2]];
  }

  lemma DecodeFour(n: Scalar, atStart: bool)
    requires 0x1_0000 <= n
    ensures Decode(Between(atStart), Utf8(n)) == Some(Emit(Between(atStart), n))
  {
    hide Emit, DecodeByte;
    var d, bytes := Between(atStart), Utf8(n);
    FourDigits(n);
    Lead(atStart, bytes[0]);
    var a, b, c, e := n / 0x4_0000, n / 0x1000 % 0x40, n / 0x40 % 0x40, n % 0x40;
    var x := Decoder(a, 3, if a == 0 then 0x90 else 0x80, if a == 4 then 0x8F else 0xBF, atStart);
    assert a == 0 ==> b >= 0x10;
    assert a == 4 ==> b < 0x10;
    Follow(x, bytes[1]);
    var y := Decoder(a * 0x40 + b, 2, 0x80, 0xBF, atStart);
    Follow(y, bytes[2]);
    var z := Decoder((a * 0x40 + b) * 0x40 + c, 1, 0x80, 0xBF, atStart);
    Follow(z, bytes[3]);
    EmitSame(z, atStart, n);
    TwoBytes(d, bytes[0], bytes[1]);
    TwoBytes(y, bytes[2], bytes[3]);
    DecodeConcat(d, [bytes[0], bytes[1]], [bytes[2], bytes[3]]);
    assert bytes == [bytes[0], bytes[1]] + [bytes[2], bytes[3]];
  }

  /** One character decodes to its code units. */
  lemma DecodeScalar(n: Scalar, atStart: bool)
    ensures Decode(Between(atStart), Utf8(n))
         == Some((Between(false), if atStart && n == BYTE_ORDER_MARK then [] else EncodeUnits(n)))
  {
    hide Decode, EncodeUnits;
    if n < 0x80 {
      OneByte(Between(atStart), Utf8(n)[0]);
      assert Utf8(n) == [Utf8(n)[0]];
    } else if n < 0x800 {
      DecodeTwo(n, atStart);
    } else if n < 0x1_0000 {
      DecodeThree(n, atStart);
    } else {
      DecodeFour(n, atStart);
    }
  }

  /** Every sequence of scalar values, encoded, is decoded as its code units, less a byte order mark at the start. */
  lemma {:induction false} EncodedIsDecoded(scalars: seq<Scalar>, atStart: bool)
    ensures var r := Decode(Between(atStart), Bytes(scalars));
      && r.Some? && r.value.0 == Between(atStart && scalars == [])
      && TextOf(r.value.1, Unmarked(scalars, atStart))
  {
    hide DecodeByte, Utf8, EncodeUnits, StandsFor;
    if scalars != [] {
      var n, rest := scalars[0], scalars[1..];
      DecodeScalar(n, atStart);
      DecodeConcat(Between(atStart), Utf8(n), Bytes(rest));
      EncodedIsDecoded(rest, false);
      var text := Decode(Between(false), Bytes(rest)).value.1;
      if !(atStart && n == BYTE_ORDER_MARK) {
        UnitsStandFor(n);
        TextMore(EncodeUnits(n), text, scalars);
      } else {
        assert [] + text == text;
      }
    }
  }

  lemma TextMore(units: Text, text: Text, scalars: seq<Scalar>)
    requires scalars != [] && units != [] && StandsFor(units, scalars[0]) && TextOf(text, scalars[1..])
    ensures TextOf(units + text, scalars)
  {
    hide StandsFor;
    assert (units + text)[..|units|] == units && (units + text)[|units|..] == text;
  }

  // ---- and nothing else decodes ----

  /** How many bytes the character takes that the byte begins. */
  function Width(b: Byte): nat {
    if b < 0x80 then 1 else if b < 0xE0 then 2 else if b < 0xF0 then 3 else 4
  }

  lemma TakesWidth(atStart: bool, bytes: seq<Byte>)
    requires bytes != [] && Decode(Between(atStart), bytes).Some?
    requires Decode(Between(atStart), bytes).value.0.needed == 0
    ensures Width(bytes[0]) <= |bytes|
    ensures exists n: Scalar :: Utf8(n) == bytes[..Width(bytes[0])]
  {
    var d := Between(atStart);
    if Width(bytes[0]) == 1 {
      assert Utf8(bytes[0]) == bytes[..1];
    } else if Width(bytes[0]) == 2 {
      TwoNeeded(d, bytes);
    } else if Width(bytes[0]) == 3 {
      ThreeNeeded(d, bytes);
    } else {
      FourNeeded(d, bytes);
    }
  }

  lemma MoreNeeded(d: Decoder, bytes: seq<Byte>)
    requires bytes != [] && Decode(d, bytes).Some? && Decode(d, bytes).value.0.needed == 0
    ensures DecodeByte(d, bytes[0]).Some?
    ensures DecodeByte(d, bytes[0]).value.0.needed > 0 ==> |bytes| > 1
    ensures |bytes| > 1 ==>
      var next := DecodeByte(d, bytes[0]).value.0;
      Decode(next, bytes[1..]).Some? && Decode(next, bytes[1..]).value.0.needed == 0
  {
    hide DecodeByte;
    if |bytes| == 1 {
      assert bytes[1..] == [];
    }
  }

  lemma TwoNeeded(d: Decoder, bytes: seq<Byte>)
    requires bytes != [] && d.needed == 0 && Width(bytes[0]) == 2
    requires Decode(d, bytes).Some? && Decode(d, bytes).value.0.needed == 0
    ensures |bytes| >= 2 && exists n: Scalar :: Utf8(n) == bytes[..2]
  {
    hide Decode;
    MoreNeeded(d, bytes);
    var x := DecodeByte(d, bytes[0]).value.0;
    MoreNeeded(x, bytes[1..]);
    var a: int, b: int := bytes[0] as int - 0xC0, bytes[1] as int - 0x80;
    var n := a * 0x40 + b;
    assert 2 <= a < 0x20 && 0 <= b < 0x40 && n / 0x40 == a && n % 0x40 == b;
    assert bytes[..2] == [bytes[0], bytes[1]] == Utf8(n);
  }

  lemma ThreeNeeded(d: Decoder, bytes: seq<Byte>)
    requires bytes != [] && d.needed == 0 && Width(bytes[0]) == 3
    requires Decode(d, bytes).Some? && Decode(d, bytes).value.0.needed == 0
    ensures |bytes| >= 3 && exists n: Scalar :: Utf8(n) == bytes[..3]
  {
    hide Decode;
    MoreNeeded(d, bytes);
    var x := DecodeByte(d, bytes[0]).value.0;
    MoreNeeded(x, bytes[1..]);
    var y := DecodeByte(x, bytes[1]).value.0;
    MoreNeeded(y, bytes[1..][1..]);
    var n := ThreeBytes(bytes[0], bytes[1], bytes[2]);
    assert bytes[..3] == [bytes[0], bytes[1], bytes[2]];
  }

  lemma ThreeBytes(p: Byte, q: Byte, r: Byte) returns (n: Scalar)
    requires 0xE0 <= p < 0xF0 && 0x80 <= q < 0xC0 && 0x80 <= r < 0xC0
    requires (p == 0xE0 ==> q >= 0xA0) && (p == 0xED ==> q < 0xA0)
    ensures Utf8(n) == [p, q, r]
  {
    var a: int, b: int, c: int := p as int - 0xE0, q as int - 0x80, r as int - 0x80;
    n := a * 0x1000 + b * 0x40 + c;
    assert n / 0x40 == a * 0x40 + b && n % 0x40 == c;
    assert n / 0x1000 == a;
  }

  lemma FourNeeded(d: Decoder, bytes: seq<Byte>)
    requires bytes != [] && d.needed == 0 && Width(bytes[0]) == 4
    requires Decode(d, bytes).Some? && Decode(d, bytes).value.0.needed == 0
    ensures |bytes| >= 4 && exists n: Scalar :: Utf8(n) == bytes[..4]
  {
    hide Decode;
    MoreNeeded(d, bytes);
    var x := DecodeByte(d, bytes[0]).value.0;
    MoreNeeded(x, bytes[1..]);
    var y := DecodeByte(x, bytes[1]).value.0;
    MoreNeeded(y, bytes[1..][1..]);
    var z := DecodeByte(y, bytes[2]).value.0;
    MoreNeeded(z, bytes[1..][1..][1..]);
    var n := FourBytes(bytes[0], bytes[1], bytes[2], bytes[3]);
    assert bytes[..4] == [bytes[0], bytes[1], bytes[2], bytes[3]];
  }

  lemma FourBytes(p: Byte, q: Byte, r: Byte, s: Byte) returns (n: Scalar)
    requires 0xF0 <= p <= 0xF4 && 0x80 <= q < 0xC0 && 0x80 <= r < 0xC0 && 0x80 <= s < 0xC0
    requires (p == 0xF0 ==> q >= 0x90) && (p == 0xF4 ==> q < 0x90)
    ensures Utf8(n) == [p, q, r, s]
  {
    var a: int, b: int, c: int, e: int := p as int - 0xF0, q as int - 0x80, r as int - 0x80, s as int - 0x80;
    n := a * 0x4_0000 + b * 0x1000 + c * 0x40 + e;
    assert n / 0x40 == a * 0x1000 + b * 0x40 + c && n % 0x40 == e;
    assert n / 0x1000 == a * 0x40 + b && n / 0x4_0000 == a;
  }

  /** Bytes that decode without leaving a character open are the encoding of scalar values: no overlong form, no
      surrogate and nothing beyond U+10FFFF is taken. */
  lemma {:induction false} DecodedIsEncoded(bytes: seq<Byte>, atStart: bool) returns (scalars: seq<Scalar>)
    requires Decode(Between(atStart), bytes).Some? && Decode(Between(atStart), bytes).value.0.needed == 0
    ensures bytes == Bytes(scalars)
    decreases |bytes|
  {
    hide DecodeByte, Utf8, EncodeUnits, Decode;
    if bytes == [] {
      return [];
    }
    TakesWidth(atStart, bytes);
    var w := Width(bytes[0]);
    var n: Scalar :| Utf8(n) == bytes[..w];
    assert bytes == bytes[..w] + bytes[w..];
    DecodeConcat(Between(atStart), bytes[..w], bytes[w..]);
    DecodeScalar(n, atStart);
    var rest := DecodedIsEncoded(bytes[w..], false);
    scalars := [n] + rest;
    assert scalars[1..] == rest;
  }

  // ---- the length of a state file ----

  /** The recorder's bound counts the bytes of the text's UTF-8 form. */
  lemma {:induction false} LengthIsBytes(text: Text, scalars: seq<Scalar>)
    requires TextOf(text, scalars)
    ensures Recorder.Utf8Length(text) == |Bytes(scalars)|
    decreases |scalars|
  {
    hide Utf8, StandsFor, Recorder.Utf8Length;
    if scalars == [] {
      NoLength();
    } else {
      var k :| 0 < k <= |text| && StandsFor(text[..k], scalars[0]) && TextOf(text[k..], scalars[1..]);
      LengthIsBytes(text[k..], scalars[1..]);
      LengthOfOne(text, k, scalars[0]);
    }
  }

  lemma NoLength()
    ensures Recorder.Utf8Length([]) == 0
  {
  }

  lemma LengthOfOne(text: Text, k: nat, n: Scalar)
    requires 0 < k <= |text| && StandsFor(text[..k], n)
    ensures Recorder.Utf8Length(text) == |Utf8(n)| + Recorder.Utf8Length(text[k..])
  {
    assert text[0] == text[..k][0];
    if k == 2 {
      assert text[1] == text[..k][1] && text[1..][1..] == text[2..];
    }
  }
}
