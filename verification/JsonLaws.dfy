/** Laws of the canonical printer: it inverts the RFC 8259 parser, forgets key order and
    nothing else, and `ParseCanonicalState` accepts exactly its outputs. */
module JsonLaws {
  import opened Lists
  import opened Texts
  import opened Json

  // ---- what survives printing ----

  /** The value read back from the canonical text: keys sorted, -0 is 0, undefined is its stand-in. */
  function Normal(v: Json): Json
    decreases v, 0
  {
    match v
    case Undefined => Obj([Field(UNDEFINED_KEY, Bool(true))])
    case Num(NegativeZero) => Num(Finite(0.0))
    case Arr(items) => Arr(NormalItems(items))
    case Obj(fields) =>
      SortedKeysAreKeys(fields);
      Obj(NormalMembers(fields, SortedKeys(fields)))
    case _ => v
  }

  function NormalItems(items: seq<Json>): (r: seq<Json>)
    ensures |r| == |items|
    ensures forall i :: 0 <= i < |items| ==> r[i] == Normal(items[i])
    decreases items, 0
  {
    if items == [] then [] else [Normal(items[0])] + NormalItems(items[1..])
  }

  function NormalMembers(fields: seq<Field>, keys: seq<Text>): (r: seq<Field>)
    requires forall k | k in keys :: HasKey(fields, k)
    ensures |r| == |keys|
    ensures forall i :: 0 <= i < |keys| ==>
      r[i] == Field(keys[i], Normal(fields[IndexOf(fields, keys[i])].value))
    decreases fields, |keys|
  {
    if keys == [] then []
    else [Field(keys[0], Normal(fields[IndexOf(fields, keys[0])].value))] + NormalMembers(fields, keys[1..])
  }

  // ---- strings ----

  lemma Assoc<T>(a: seq<T>, b: seq<T>, c: seq<T>)
    ensures (a + b) + c == a + (b + c)
  {
  }

  lemma HexRoundTrip(u: Unit)
    ensures 4096 * (u / 4096) + 256 * (u / 256 % 16) + 16 * (u / 16 % 16) + u % 16 == u
  {
    var v := u / 16;
    var w := v / 16;
    assert u == 16 * v + u % 16 && v == 16 * w + v % 16 && w == 16 * (w / 16) + w % 16;
    assert w == u / 256 && w / 16 == u / 4096;
  }

  lemma UnescapeUnit(u: Unit, rest: Text)
    requires !(u >= 0x20 && !High(u) && !Low(u) && ShortEscape(u) < 0)
    ensures ParseString(EscapeUnit(u) + rest) == Prepend(u, ParseString(rest))
  {
    var s := EscapeUnit(u) + rest;
    if ShortEscape(u) >= 0 {
      assert s[2..] == rest;
    } else {
      HexRoundTrip(u);
      assert s[6..] == rest;
      assert s[1] == 0x75 && ShortUnescape(s[1]) == -1;
    }
  }

  lemma PlainUnit(u: Unit, rest: Text)
    requires u >= 0x20 && u != QUOTE && u != BACKSLASH
    ensures ParseString([u] + rest) == Prepend(u, ParseString(rest))
  {
    assert ([u] + rest)[1..] == rest;
  }

  lemma {:induction false} ParseQuoted(s: Text, rest: Text)
    ensures ParseString(QuoteBody(s) + ([QUOTE] + rest)) == Parse(s, rest)
  {
    var end := [QUOTE] + rest;
    if s == [] {
      assert QuoteBody(s) + end == end && end[1..] == rest;
    } else if High(s[0]) && |s| > 1 && Low(s[1]) {
      var tail := QuoteBody(s[2..]) + end;
      ParseQuoted(s[2..], rest);
      PlainUnit(s[1], tail);
      PlainUnit(s[0], [s[1]] + tail);
      Assoc([s[0], s[1]], QuoteBody(s[2..]), end);
      Assoc([s[0]], [s[1]], tail);
      assert [s[0]] + ([s[1]] + s[2..]) == s;
    } else {
      var tail := QuoteBody(s[1..]) + end;
      ParseQuoted(s[1..], rest);
      Assoc(EscapeUnit(s[0]), QuoteBody(s[1..]), end);
      assert ParseString(EscapeUnit(s[0]) + tail) == Prepend(s[0], ParseString(tail)) by {
        if s[0] >= 0x20 && !High(s[0]) && !Low(s[0]) && ShortEscape(s[0]) < 0 {
          PlainUnit(s[0], tail);
        } else {
          UnescapeUnit(s[0], tail);
        }
      }
      assert [s[0]] + s[1..] == s;
    }
  }

  // ---- numbers ----

  lemma DigitsAreNumberUnits(s: Text)
    ensures forall i :: 0 <= i < TakeDigits(s) ==> Digit(s[i])
  {
  }

  lemma ExponentUnits(s: Text)
    requires ExponentPart(s)
    ensures forall i :: 0 <= i < |s| ==> NumberUnit(s[i])
  {
    if s != [] {
      var sign := if |s| > 1 && (s[1] == 0x2B || s[1] == 0x2D) then 2 else 1;
      DigitsAreNumberUnits(s[sign..]);
      forall i | sign <= i < |s| ensures NumberUnit(s[i]) {
        assert s[i] == s[sign..][i - sign];
      }
    }
  }

  lemma FractionUnits(s: Text)
    requires FractionPart(s)
    ensures forall i :: 0 <= i < |s| ==> NumberUnit(s[i])
  {
    if s != [] && s[0] == 0x2E {
      var n := 1 + TakeDigits(s[1..]);
      DigitsAreNumberUnits(s[1..]);
      ExponentUnits(s[n..]);
      forall i | 1 <= i < |s| ensures NumberUnit(s[i]) {
        assert if i < n then s[i] == s[1..][i - 1] else s[i] == s[n..][i - n];
      }
    } else {
      ExponentUnits(s);
    }
  }

  lemma NumberUnits(t: Text)
    requires NumberToken(t)
    ensures t != [] && (Digit(t[0]) || t[0] == 0x2D)
    ensures forall i :: 0 <= i < |t| ==> NumberUnit(t[i])
  {
    var sign := if t[0] == 0x2D then 1 else 0;
    var s := t[sign..];
    var n := if s[0] == 0x30 then 1 else TakeDigits(s);
    DigitsAreNumberUnits(s);
    FractionUnits(s[n..]);
    forall i | sign <= i < |t| ensures NumberUnit(t[i]) {
      assert t[i] == s[i - sign];
      assert i - sign >= n ==> s[i - sign] == s[n..][i - sign - n];
    }
  }

  /** No number goes on into the rest. */
  predicate Ends(rest: Text) {
    rest == [] || !NumberUnit(rest[0])
  }

  lemma {:induction false} NumberRunStops(t: Text, rest: Text)
    requires forall i :: 0 <= i < |t| ==> NumberUnit(t[i])
    requires Ends(rest)
    ensures NumberRun(t + rest) == |t|
  {
    if t == [] {
      assert t + rest == rest;
    } else {
      NumberRunStops(t[1..], rest);
      assert (t + rest)[1..] == t[1..] + rest;
    }
  }

  // ---- the parser inverts the printer ----

  lemma PrintStart(c: NumberCodec, v: Json)
    requires GoodCodec(c) && WellFormed(c, v) && Printable(v)
    ensures Print(c, v) != [] && !Whitespace(Print(c, v)[0])
    ensures Print(c, v)[0] != CLOSE_BRACKET && Print(c, v)[0] != CLOSE_BRACE
  {
    if v.Num? {
      ZeroIsDouble(c);
      NumberUnits(PrintNumber(c, v.n));
    }
  }

  lemma ZeroIsDouble(c: NumberCodec)
    requires GoodCodec(c)
    ensures c.isDouble(0.0)
  {
    assert SafeInteger(0.0);
  }

  lemma ParseToken(c: NumberCodec, t: Text, rest: Text)
    requires NumberToken(t) && Ends(rest)
    ensures ParseValue(c, t + rest) == Parse(Num(c.read(t)), rest)
  {
    hide NumberToken, ParseItems, ParseMembers, ParseString, NumberRun;
    var s := t + rest;
    NumberUnits(t);
    NumberRunStops(t, rest);
    TokenStarts(t);
    assert s[0] == t[0];
    assert U("true")[0] == 0x74 && U("false")[0] == 0x66 && U("null")[0] == 0x6E;
    assert SkipSpace(s) == s;
    assert s[..|t|] == t && s[|t|..] == rest;
  }

  lemma TokenStarts(t: Text)
    requires NumberToken(t)
    ensures t != [] && !Whitespace(t[0])
    ensures t[0] !in {QUOTE, OPEN_BRACKET, OPEN_BRACE, 0x74, 0x66, 0x6E}
  {
    NumberUnits(t);
  }

  lemma ParseNumber(c: NumberCodec, v: Json, rest: Text)
    requires GoodCodec(c) && WellFormed(c, v) && Printable(v) && v.Num? && Ends(rest)
    ensures ParseValue(c, Print(c, v) + rest) == Parse(Normal(v), rest)
  {
    hide ParseValue, NumberToken;
    ZeroIsDouble(c);
    ParseToken(c, PrintNumber(c, v.n), rest);
  }

  lemma ParseLiteral(c: NumberCodec, v: Json, rest: Text)
    requires v.Null? || v.Bool?
    ensures ParseValue(c, Print(c, v) + rest) == Parse(v, rest)
  {
    var t := Print(c, v);
    var s := t + rest;
    assert s[0] == t[0] && s[1] == t[1];
    assert t <= s && s[|t|..] == rest;
    assert U("true")[0] == 0x74 && U("false")[0] == 0x66 && U("null")[0] == 0x6E;
    assert v != Bool(true) ==> !(U("true") <= s);
    assert v == Null ==> !(U("false") <= s);
    assert SkipSpace(s) == s;
  }

  lemma ParseQuotedValue(c: NumberCodec, t: Text, rest: Text)
    ensures ParseValue(c, Quote(t) + rest) == Parse(Str(t), rest)
  {
    QuotedKey(t, rest);
    assert SkipSpace(Quote(t) + rest) == Quote(t) + rest;
  }

  lemma ParseEmpty(c: NumberCodec, rest: Text)
    ensures ParseValue(c, [OPEN_BRACKET, CLOSE_BRACKET] + rest) == Parse(Arr([]), rest)
    ensures ParseValue(c, [OPEN_BRACE, CLOSE_BRACE] + rest) == Parse(Obj([]), rest)
  {
    forall u: Unit, w: Unit ensures ([u, w] + rest)[1..] == [w] + rest && ([w] + rest)[1..] == rest {
    }
  }

  lemma ParseArray(c: NumberCodec, items: seq<Json>, text: Text, rest: Text)
    requires text != [] && !Whitespace(text[0]) && text[0] != CLOSE_BRACKET
    requires ParseItems(c, text + ([CLOSE_BRACKET] + rest)) == Parse(items, rest)
    ensures ParseValue(c, [OPEN_BRACKET] + text + [CLOSE_BRACKET] + rest) == Parse(Arr(items), rest)
  {
    hide ParseItems;
    var body := text + ([CLOSE_BRACKET] + rest);
    assert [OPEN_BRACKET] + text + [CLOSE_BRACKET] + rest == [OPEN_BRACKET] + body;
    assert ([OPEN_BRACKET] + body)[1..] == body;
    assert body[0] == text[0];
  }

  lemma ParseObject(c: NumberCodec, members: seq<Field>, text: Text, rest: Text)
    requires text != [] && text[0] == QUOTE
    requires ParseMembers(c, text + ([CLOSE_BRACE] + rest)) == Parse(members, rest)
    requires DistinctKeys(members)
    ensures ParseValue(c, [OPEN_BRACE] + text + [CLOSE_BRACE] + rest) == Parse(Obj(members), rest)
  {
    hide ParseMembers;
    var body := text + ([CLOSE_BRACE] + rest);
    assert [OPEN_BRACE] + text + [CLOSE_BRACE] + rest == [OPEN_BRACE] + body;
    assert ([OPEN_BRACE] + body)[1..] == body;
    assert body[0] == text[0];
    LastWinsDistinct(members);
  }

  lemma ParseUndefined(c: NumberCodec, rest: Text)
    ensures ParseValue(c, Print(c, Undefined) + rest) == Parse(Normal(Undefined), rest)
  {
    hide ParseMembers, ParseValue, QuoteBody;
    var end := [CLOSE_BRACE] + rest;
    var text := Quote(UNDEFINED_KEY) + ([COLON] + U("true"));
    ParseLiteral(c, Bool(true), end);
    ParseMember(c, UNDEFINED_KEY, Bool(true), U("true"), end);
    assert end[1..] == rest;
    Assoc(Quote(UNDEFINED_KEY), [COLON] + U("true"), end);
    Assoc([COLON], U("true"), end);
    ParseObject(c, [Field(UNDEFINED_KEY, Bool(true))], text, rest);
    assert Print(c, Undefined) == [OPEN_BRACE] + text + [CLOSE_BRACE];
  }

  lemma {:induction false} ParsePrint(c: NumberCodec, v: Json, rest: Text)
    requires GoodCodec(c) && WellFormed(c, v) && Printable(v) && Ends(rest)
    ensures ParseValue(c, Print(c, v) + rest) == Parse(Normal(v), rest)
    decreases v, 0
  {
    match v
    case Null => ParseLiteral(c, v, rest);
    case Bool(_) => ParseLiteral(c, v, rest);
    case Str(t) => ParseQuotedValue(c, t, rest);
    case Num(_) => ParseNumber(c, v, rest);
    case Undefined => ParseUndefined(c, rest);
    case Arr(items) =>
      if items == [] {
        ParseEmpty(c, rest);
        assert Print(c, v) == [OPEN_BRACKET, CLOSE_BRACKET];
      } else {
        ParsePrintItems(c, items, rest);
        PrintItemsStart(c, items);
        ParseArray(c, NormalItems(items), PrintItems(c, items), rest);
      }
    case Obj(fields) =>
      SortedKeysAreKeys(fields);
      var keys := SortedKeys(fields);
      if keys == [] {
        ParseEmpty(c, rest);
        assert Print(c, v) == [OPEN_BRACE, CLOSE_BRACE];
      } else {
        ParsePrintMembers(c, fields, keys, rest);
        SortedKeysDistinct(fields);
        ParseObject(c, NormalMembers(fields, keys), PrintMembers(c, fields, keys), rest);
      }
  }

  lemma PrintItemsStart(c: NumberCodec, items: seq<Json>)
    requires GoodCodec(c) && items != []
    requires forall x | x in items :: WellFormed(c, x) && Printable(x)
    ensures PrintItems(c, items) != [] && !Whitespace(PrintItems(c, items)[0])
    ensures PrintItems(c, items)[0] != CLOSE_BRACKET
  {
    PrintStart(c, items[0]);
  }

  /** One element and what follows it. */
  lemma ParseItem(c: NumberCodec, v: Json, text: Text, after: Text)
    requires ParseValue(c, text + after) == Parse(v, after)
    requires after != [] && (after[0] == CLOSE_BRACKET || after[0] == COMMA)
    ensures ParseItems(c, text + after) ==
      if after[0] == CLOSE_BRACKET then Parse([v], after[1..])
      else
        var tail := ParseItems(c, after[1..]);
        if tail.Parse? then Parse([v] + tail.value, tail.rest) else NoParse
  {
    assert SkipSpace(after) == after;
  }

  lemma ParseItemThen(c: NumberCodec, v: Json, text: Text, vs: seq<Json>, more: Text, end: Text, rest: Text)
    requires ParseValue(c, text + ([COMMA] + (more + end))) == Parse(v, [COMMA] + (more + end))
    requires ParseItems(c, more + end) == Parse(vs, rest)
    ensures ParseItems(c, text + [COMMA] + more + end) == Parse([v] + vs, rest)
  {
    ParseItem(c, v, text, [COMMA] + (more + end));
    assert ([COMMA] + (more + end))[1..] == more + end;
    Assoc(text + [COMMA], more, end);
    Assoc(text, [COMMA], more + end);
  }

  lemma {:induction false} ParsePrintItems(c: NumberCodec, items: seq<Json>, rest: Text)
    requires GoodCodec(c) && items != []
    requires forall x | x in items :: WellFormed(c, x) && Printable(x)
    ensures ParseItems(c, PrintItems(c, items) + ([CLOSE_BRACKET] + rest)) == Parse(NormalItems(items), rest)
    decreases items, 0
  {
    var end := [CLOSE_BRACKET] + rest;
    if |items| == 1 {
      ParsePrint(c, items[0], end);
      ParseItem(c, Normal(items[0]), Print(c, items[0]), end);
      assert end[1..] == rest;
      assert NormalItems(items) == [Normal(items[0])];
    } else {
      var tail := items[1..];
      ParsePrint(c, items[0], [COMMA] + (PrintItems(c, tail) + end));
      ParsePrintItems(c, tail, rest);
      ParseItemThen(c, Normal(items[0]), Print(c, items[0]), NormalItems(tail), PrintItems(c, tail), end, rest);
    }
  }

  lemma QuotedKey(key: Text, rest: Text)
    ensures (Quote(key) + rest)[0] == QUOTE
    ensures ParseString((Quote(key) + rest)[1..]) == Parse(key, rest)
  {
    ParseQuoted(key, rest);
    assert (Quote(key) + rest)[1..] == QuoteBody(key) + ([QUOTE] + rest);
  }

  /** One member: the key, the colon and the value are read back. */
  lemma ParseMember(c: NumberCodec, key: Text, v: Json, text: Text, after: Text)
    requires ParseValue(c, text + after) == Parse(v, after)
    requires after != [] && (after[0] == CLOSE_BRACE || after[0] == COMMA)
    ensures ParseMembers(c, Quote(key) + ([COLON] + (text + after))) ==
      if after[0] == CLOSE_BRACE then Parse([Field(key, v)], after[1..])
      else
        var tail := ParseMembers(c, after[1..]);
        if tail.Parse? then Parse([Field(key, v)] + tail.value, tail.rest) else NoParse
  {
    hide QuoteBody, ParseString, ParseValue;
    var colon := [COLON] + (text + after);
    var s := Quote(key) + colon;
    QuotedKey(key, colon);
    assert SkipSpace(s) == s && SkipSpace(after) == after && SkipSpace(colon) == colon;
    assert colon[1..] == text + after;
  }

  lemma ParseMemberThen(c: NumberCodec, key: Text, v: Json, text: Text, vs: seq<Field>, more: Text, end: Text,
                        rest: Text)
    requires ParseValue(c, text + ([COMMA] + (more + end))) == Parse(v, [COMMA] + (more + end))
    requires ParseMembers(c, more + end) == Parse(vs, rest)
    ensures ParseMembers(c, Quote(key) + [COLON] + text + [COMMA] + more + end) == Parse([Field(key, v)] + vs, rest)
  {
    var after := [COMMA] + (more + end);
    ParseMember(c, key, v, text, after);
    assert after[1..] == more + end;
    MemberAssoc(key, text, after);
    Assoc(Quote(key) + [COLON] + text + [COMMA], more, end);
    Assoc(Quote(key) + [COLON] + text, [COMMA], more + end);
  }

  lemma {:induction false} ParsePrintMembers(c: NumberCodec, fields: seq<Field>, keys: seq<Text>, rest: Text)
    requires GoodCodec(c) && keys != []
    requires forall f | f in fields :: WellFormed(c, f.value) && Printable(f.value)
    requires forall k | k in keys :: HasKey(fields, k)
    ensures ParseMembers(c, PrintMembers(c, fields, keys) + ([CLOSE_BRACE] + rest))
         == Parse(NormalMembers(fields, keys), rest)
    decreases fields, |keys|
  {
    var v := fields[IndexOf(fields, keys[0])].value;
    var end := [CLOSE_BRACE] + rest;
    if |keys| == 1 {
      ParsePrint(c, v, end);
      ParseMember(c, keys[0], Normal(v), Print(c, v), end);
      assert end[1..] == rest;
      assert NormalMembers(fields, keys) == [Field(keys[0], Normal(v))];
      MemberAssoc(keys[0], Print(c, v), end);
    } else {
      var more := PrintMembers(c, fields, keys[1..]);
      ParsePrint(c, v, [COMMA] + (more + end));
      ParsePrintMembers(c, fields, keys[1..], rest);
      ParseMemberThen(c, keys[0], Normal(v), Print(c, v), NormalMembers(fields, keys[1..]), more, end, rest);
    }
  }

  lemma MemberAssoc(key: Text, text: Text, after: Text)
    ensures Quote(key) + [COLON] + text + after == Quote(key) + ([COLON] + (text + after))
  {
    Assoc(Quote(key) + [COLON], text, after);
    Assoc(Quote(key), [COLON], text + after);
  }

  // ---- keys ----

  lemma SortedKeysDistinct(fields: seq<Field>)
    requires DistinctKeys(fields)
    ensures var keys := SortedKeys(fields); forall i, j :: 0 <= i < j < |keys| ==> keys[i] != keys[j]
  {
    SortSorts(KeysOf(fields), Self);
    DistinctIgnoresOrder(KeysOf(fields), SortedKeys(fields));
  }

  lemma {:induction false} LastWinsDistinct(members: seq<Field>)
    requires DistinctKeys(members)
    ensures LastWins(members) == members
  {
    if members != [] {
      var last := |members| - 1;
      var front := members[..last];
      LastWinsDistinct(front);
      assert !HasKey(front, members[last].key);
      assert SetField(front, members[last].key, members[last].value) == front + [members[last]];
      assert members == front + [members[last]];
    }
  }
}
