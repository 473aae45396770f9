/** Which of the texts that read alike the canonical printer chooses: order of keys, and escapes. */
module PrinterLaws {
  import opened Lists
  import opened Texts
  import opened Json
  import opened JsonLaws
  import opened CanonicalTheorems

  // ---- the order of keys ----

  /** The texts share their first n units, and there the first one ends or has the smaller unit. */
  predicate SmallerAt(a: Text, b: Text, n: nat) {
    n <= |a| && n < |b| && a[..n] == b[..n] && (n == |a| || a[n] < b[n])
  }

  lemma SharedHead(a: Text, b: Text)
    ensures forall n: nat | SmallerAt(a, b, n) :: n > 0 ==> a != [] && b != [] && a[0] == b[0]
  {
    forall n: nat | SmallerAt(a, b, n) && n > 0 ensures a[0] == b[0] {
      assert a[0] == a[..n][0] && b[0] == b[..n][0];
    }
  }

  /** Code-unit order is what it says. */
  lemma {:induction false} LessIff(a: Text, b: Text)
    ensures Less(a, b) <==> exists n :: SmallerAt(a, b, n)
  {
    if a == [] || b == [] || a[0] != b[0] {
      if b != [] && (a == [] || a[0] < b[0]) {
        assert SmallerAt(a, b, 0);
      }
      SharedHead(a, b);
    } else {
      var x, y := a[1..], b[1..];
      LessIff(x, y);
      if n: nat :| SmallerAt(x, y, n) {
        assert a[..n + 1] == [a[0]] + x[..n] && b[..n + 1] == [b[0]] + y[..n];
        assert SmallerAt(a, b, n + 1);
      }
      if n: nat :| SmallerAt(a, b, n) {
        assert n > 0 && x[..n - 1] == a[..n][1..] && y[..n - 1] == b[..n][1..];
        assert SmallerAt(x, y, n - 1);
      }
    }
  }

  /** The keys of an object are printed, and read back, in ascending order. */
  lemma KeysAscend(fields: seq<Field>, i: nat, j: nat)
    requires DistinctKeys(fields) && i < j < |Normal(Obj(fields)).fields|
    ensures Less(Normal(Obj(fields)).fields[i].key, Normal(Obj(fields)).fields[j].key)
  {
    hide Less, Sort;
    var keys, r := SortedKeys(fields), Normal(Obj(fields)).fields;
    SortedKeysAreKeys(fields);
    NormalKeysDistinct(fields);
    SortSorts(KeysOf(fields), Self);
    assert r[i].key == keys[i] && r[j].key == keys[j];
    LessTotal(keys[i], keys[j]);
  }

  // ---- escapes ----

  /** The unit stands in a surrogate pair. */
  predicate InPair(s: Text, i: nat)
    requires i < |s|
  {
    (High(s[i]) && i + 1 < |s| && Low(s[i + 1])) || (Low(s[i]) && i > 0 && High(s[i - 1]))
  }

  /** No surrogate stands alone. */
  predicate WellPaired(s: Text) {
    forall i :: 0 <= i < |s| && (High(s[i]) || Low(s[i])) ==> InPair(s, i)
  }

  predicate NoSurrogate(s: Text) {
    forall i :: 0 <= i < |s| ==> !High(s[i]) && !Low(s[i])
  }

  lemma PairedConcat(a: Text, b: Text)
    requires WellPaired(a) && WellPaired(b)
    ensures WellPaired(a + b)
  {
    var t := a + b;
    forall i | 0 <= i < |t| && (High(t[i]) || Low(t[i])) ensures InPair(t, i) {
      if i < |a| {
        assert InPair(a, i);
      } else {
        assert t[i] == b[i - |a|] && InPair(b, i - |a|);
        assert i > |a| ==> t[i - 1] == b[i - |a| - 1];
      }
    }
  }

  /** The form of an escape: six units, the digits in lower case, and their value. */
  lemma UnicodeEscapeIs(u: Unit)
    ensures var t := UnicodeEscape(u);
      && |t| == 6 && t[0] == BACKSLASH && t[1] == 0x75
      && (forall i :: 2 <= i < 6 ==> (0x30 <= t[i] <= 0x39 || 0x61 <= t[i] <= 0x66) && HexValue(t[i]) >= 0)
      && u == 4096 * HexValue(t[2]) + 256 * HexValue(t[3]) + 16 * HexValue(t[4]) + HexValue(t[5])
  {
    HexRoundTrip(u);
  }

  lemma EscapeHasNoSurrogate(u: Unit)
    ensures NoSurrogate(EscapeUnit(u)) && EscapeUnit(u) != []
  {
    if ShortEscape(u) < 0 && (u < 0x20 || High(u) || Low(u)) {
      UnicodeEscapeIs(u);
    }
  }

  /** What is printed is well-formed UTF-16, whatever the string holds. */
  lemma {:induction false} PrintedIsWellPaired(s: Text)
    ensures WellPaired(QuoteBody(s))
  {
    hide EscapeUnit;
    if s != [] {
      if High(s[0]) && |s| > 1 && Low(s[1]) {
        PrintedIsWellPaired(s[2..]);
        PairedConcat([s[0], s[1]], QuoteBody(s[2..]));
      } else {
        PrintedIsWellPaired(s[1..]);
        EscapeHasNoSurrogate(s[0]);
        PairedConcat(EscapeUnit(s[0]), QuoteBody(s[1..]));
      }
    }
  }

  /** The fewest units in which a string may hold the unit. */
  function Cost(u: Unit): nat {
    if u == QUOTE || u == BACKSLASH || u in {8, 9, 10, 12, 13} then 2 else if u < 0x20 then 6 else 1
  }

  function CostOf(s: Text): nat {
    if s == [] then 0 else Cost(s[0]) + CostOf(s[1..])
  }

  /** Six units more than its own for each surrogate that stands alone, less the one. */
  lemma EscapeCosts(u: Unit)
    ensures |EscapeUnit(u)| == if High(u) || Low(u) then 6 else Cost(u)
  {
  }

  lemma {:induction false} PairedTail(s: Text, n: nat)
    requires WellPaired(s) && n <= |s| && (n == 0 || n == |s| || !(High(s[n - 1]) && Low(s[n])))
    ensures WellPaired(s[n..])
  {
    var t := s[n..];
    forall i | 0 <= i < |t| && (High(t[i]) || Low(t[i])) ensures InPair(t, i) {
      assert t[i] == s[n + i] && InPair(s, n + i);
      assert i > 0 ==> t[i - 1] == s[n + i - 1];
      assert i + 1 < |t| ==> t[i + 1] == s[n + i + 1];
    }
  }

  lemma HeadIsPlain(s: Text)
    requires WellPaired(s) && s != [] && !(High(s[0]) && |s| > 1 && Low(s[1]))
    ensures !High(s[0]) && !Low(s[0])
  {
    assert High(s[0]) || Low(s[0]) <==> InPair(s, 0);
  }

  /** A string in which no surrogate stands alone is printed in the fewest units. */
  lemma {:induction false} PrintedCosts(s: Text)
    requires WellPaired(s)
    ensures |QuoteBody(s)| == CostOf(s)
  {
    hide EscapeUnit, Cost;
    if s != [] {
      if High(s[0]) && |s| > 1 && Low(s[1]) {
        PairedTail(s, 2);
        PrintedCosts(s[2..]);
        assert s[1..][1..] == s[2..];
        SurrogateCost(s[0]);
        SurrogateCost(s[1]);
      } else {
        HeadIsPlain(s);
        PairedTail(s, 1);
        PrintedCosts(s[1..]);
        EscapeCosts(s[0]);
      }
    }
  }

  lemma SurrogateCost(u: Unit)
    ensures High(u) || Low(u) ==> Cost(u) == 1
  {
  }

  /** Whatever reads as the string takes at least that many units. */
  lemma {:induction false} ReadCosts(t: Text)
    ensures ParseString(t).Parse? ==> |t| >= CostOf(ParseString(t).value) + 1 + |ParseString(t).rest|
    decreases |t|
  {
    hide Cost;
    if t == [] || t[0] < 0x20 || t[0] == QUOTE {
    } else if t[0] == BACKSLASH {
      if |t| >= 2 && ShortUnescape(t[1]) >= 0 {
        ReadCosts(t[2..]);
        ShortCost(t[1]);
      } else if |t| >= 6 && t[1] == 0x75 && HexValue(t[2]) >= 0 && HexValue(t[3]) >= 0
                && HexValue(t[4]) >= 0 && HexValue(t[5]) >= 0 {
        ReadCosts(t[6..]);
        AnyCost(4096 * HexValue(t[2]) + 256 * HexValue(t[3]) + 16 * HexValue(t[4]) + HexValue(t[5]));
      }
    } else {
      ReadCosts(t[1..]);
      PlainCost(t[0]);
    }
  }

  lemma ShortCost(u: Unit)
    requires ShortUnescape(u) >= 0
    ensures Cost(ShortUnescape(u)) <= 2
  {
  }

  lemma AnyCost(u: Unit)
    ensures Cost(u) <= 6
  {
  }

  lemma PlainCost(u: Unit)
    requires u >= 0x20 && u != QUOTE && u != BACKSLASH
    ensures Cost(u) == 1
  {
  }

  /** The canonical text of a string in which no surrogate stands alone is the shortest JSON text that reads as it. */
  lemma PrintedIsShortest(s: Text, t: Text)
    requires WellPaired(s) && ParseString(t) == Parse(s, [])
    ensures |QuoteBody(s) + [QUOTE]| <= |t|
  {
    PrintedCosts(s);
    ReadCosts(t);
  }

  /** And a surrogate that stands alone is escaped, nothing else beside it changing. */
  lemma {:induction false} LoneIsEscaped(a: Text, u: Unit, b: Text)
    requires (High(u) || Low(u)) && WellPaired(a)
    requires (High(u) && b != [] ==> !Low(b[0])) && (Low(u) && a != [] ==> !High(a[|a| - 1]))
    ensures QuoteBody(a + [u] + b) == QuoteBody(a) + (UnicodeEscape(u) + QuoteBody(b))
  {
    hide UnicodeEscape, EscapeUnit, WellPaired, QuoteBody;
    var s, tail := a + [u] + b, UnicodeEscape(u) + QuoteBody(b);
    if a == [] {
      assert s == [u] + b;
      LoneHead(u, b);
      NothingQuoted(tail);
    } else {
      var n := if High(a[0]) && |a| > 1 && Low(a[1]) then 2 else 1;
      if n == 1 {
        HeadIsPlain(a);
      }
      PairedTail(a, n);
      LoneIsEscaped(a[n..], u, b);
      assert s[n..] == a[n..] + [u] + b && s[0] == a[0] && (n == 2 ==> s[1] == a[1]);
      QuoteHead(a);
      QuoteHead(s);
      Assoc(if n == 2 then [a[0], a[1]] else EscapeUnit(a[0]), QuoteBody(a[n..]), tail);
    }
  }

  lemma LoneHead(u: Unit, b: Text)
    requires (High(u) || Low(u)) && (High(u) && b != [] ==> !Low(b[0]))
    ensures QuoteBody([u] + b) == UnicodeEscape(u) + QuoteBody(b)
  {
    hide UnicodeEscape;
    assert ([u] + b)[1..] == b;
  }

  lemma NothingQuoted(tail: Text)
    ensures QuoteBody([]) + tail == tail
  {
  }

  lemma QuoteHead(s: Text)
    requires s != []
    ensures QuoteBody(s) == if High(s[0]) && |s| > 1 && Low(s[1]) then [s[0], s[1]] + QuoteBody(s[2..])
                            else EscapeUnit(s[0]) + QuoteBody(s[1..])
  {
    hide EscapeUnit;
  }
}
