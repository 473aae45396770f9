/** `canonicalJson` and `parseCanonicalState`
    (src/context-gateway/context-gateway-contract.ts, context-gateway-recorder.ts),
    with `JSON.parse` given by the grammar of RFC 8259, sections 2 to 7. */
module Json {
  import opened Texts

  // ---- values ----

  /** A JavaScript number. The two zeros are the only distinct numbers that print alike. */
  datatype Number = Finite(value: real) | NegativeZero | NonFinite

  datatype Field = Field(key: Text, value: Json)

  /** The values a caller can hand to `canonicalJson`; fields are in creation order. */
  datatype Json =
    | Undefined
    | Null
    | Bool(b: bool)
    | Num(n: Number)
    | Str(s: Text)
    | Arr(items: seq<Json>)
    | Obj(fields: seq<Field>)

  /** Printing and reading of number tokens, which JavaScript defines on doubles. */
  datatype NumberCodec = NumberCodec(isDouble: real -> bool, render: real -> Text, read: Text -> Number)

  const MAX_SAFE_INTEGER: int := 9007199254740991

  ghost predicate GoodCodec(c: NumberCodec) {
    && (forall x :: c.isDouble(x) ==> NumberToken(c.render(x)) && c.read(c.render(x)) == Finite(x))
    && (forall t :: NumberToken(t) && c.read(t).Finite? ==> c.isDouble(c.read(t).value))
    && (forall x :: SafeInteger(x) ==> c.isDouble(x))
  }

  /** `Number.isSafeInteger` */
  predicate SafeInteger(x: real) {
    x.Floor as real == x && -MAX_SAFE_INTEGER <= x.Floor <= MAX_SAFE_INTEGER
  }

  // ---- object fields ----

  function KeysOf(fields: seq<Field>): (ks: seq<Text>)
    ensures |ks| == |fields|
    ensures forall i :: 0 <= i < |ks| ==> ks[i] == fields[i].key
  {
    seq(|fields|, i requires 0 <= i < |fields| => fields[i].key)
  }

  ghost predicate DistinctKeys(fields: seq<Field>) {
    forall i, j :: 0 <= i < j < |fields| ==> fields[i].key != fields[j].key
  }

  predicate HasKey(fields: seq<Field>, k: Text) {
    exists i :: 0 <= i < |fields| && fields[i].key == k
  }

  function IndexOf(fields: seq<Field>, k: Text): (i: nat)
    requires HasKey(fields, k)
    ensures i < |fields| && fields[i].key == k
  {
    if fields[0].key == k then 0 else 1 + IndexOf(fields[1..], k)
  }

  /** `record[key]` */
  function Lookup(fields: seq<Field>, k: Text): Json {
    if HasKey(fields, k) then fields[IndexOf(fields, k)].value else Undefined
  }

  /** `value[key]` of any value: undefined unless the value is an object holding the key. */
  function Get(v: Json, k: Text): Json {
    if v.Obj? then Lookup(v.fields, k) else Undefined
  }

  /** `{...record, [key]: value}` */
  function SetField(fields: seq<Field>, k: Text, v: Json): seq<Field> {
    if HasKey(fields, k) then fields[IndexOf(fields, k) := Field(k, v)] else fields + [Field(k, v)]
  }

  // ---- which values are real, and which of them print ----

  /** What JavaScript guarantees of every value: keys are unique, finite numbers are doubles. */
  ghost predicate WellFormed(c: NumberCodec, v: Json) {
    match v
    case Num(Finite(x)) => c.isDouble(x)
    case Arr(items) => forall x | x in items :: WellFormed(c, x)
    case Obj(fields) => DistinctKeys(fields) && forall f | f in fields :: WellFormed(c, f.value)
    case _ => true
  }

  /** Printing throws exactly on a number that is not finite. */
  predicate Printable(v: Json) {
    match v
    case Num(n) => !n.NonFinite?
    case Arr(items) => forall x | x in items :: Printable(x)
    case Obj(fields) => forall f | f in fields :: Printable(f.value)
    case _ => true
  }

  /** No undefined anywhere inside. */
  predicate Defined(v: Json) {
    match v
    case Undefined => false
    case Arr(items) => forall x | x in items :: Defined(x)
    case Obj(fields) => forall f | f in fields :: Defined(f.value)
    case _ => true
  }

  // ---- printer ----

  const QUOTE: Unit := 0x22
  const BACKSLASH: Unit := 0x5C
  const COMMA: Unit := 0x2C
  const COLON: Unit := 0x3A
  const OPEN_BRACKET: Unit := 0x5B
  const CLOSE_BRACKET: Unit := 0x5D
  const OPEN_BRACE: Unit := 0x7B
  const CLOSE_BRACE: Unit := 0x7D

  predicate High(u: Unit) { 0xD800 <= u < 0xDC00 }
  predicate Low(u: Unit) { 0xDC00 <= u < 0xE000 }

  function HexDigit(n: nat): Unit
    requires n < 16
  {
    if n < 10 then 0x30 + n else 0x61 + (n - 10)
  }

  /** `\uXXXX` with lower-case digits. */
  function UnicodeEscape(u: Unit): Text {
    [BACKSLASH, 0x75, HexDigit(u / 4096), HexDigit(u / 256 % 16), HexDigit(u / 16 % 16), HexDigit(u % 16)]
  }

  function ShortEscape(u: Unit): (e: int)
    ensures e == -1 || 0 <= e < 0x80
  {
    match u
    case 0x22 => 0x22
    case 0x5C => 0x5C
    case 8 => 0x62
    case 9 => 0x74
    case 10 => 0x6E
    case 12 => 0x66
    case 13 => 0x72
    case _ => -1
  }

  function EscapeUnit(u: Unit): Text {
    if ShortEscape(u) >= 0 then [BACKSLASH, ShortEscape(u)]
    else if u < 0x20 || High(u) || Low(u) then UnicodeEscape(u)
    else [u]
  }

  /** The inside of a quoted string: surrogate pairs stay, lone surrogates are escaped. */
  function QuoteBody(s: Text): Text {
    if s == [] then []
    else if High(s[0]) && |s| > 1 && Low(s[1]) then [s[0], s[1]] + QuoteBody(s[2..])
    else EscapeUnit(s[0]) + QuoteBody(s[1..])
  }

  function Quote(s: Text): Text {
    [QUOTE] + QuoteBody(s) + [QUOTE]
  }

  function SortedKeys(fields: seq<Field>): seq<Text> {
    Sort(KeysOf(fields), Self)
  }

  function PrintNumber(c: NumberCodec, n: Number): Text
    requires !n.NonFinite?
  {
    c.render(if n.Finite? then n.value else 0.0)
  }

  const UNDEFINED_KEY: Text := U("$undefined")

  /** The text `canonicalJson` returns. */
  function Print(c: NumberCodec, v: Json): Text
    requires Printable(v)
    decreases v, 0
  {
    match v
    case Undefined => [OPEN_BRACE] + Quote(UNDEFINED_KEY) + [COLON] + U("true") + [CLOSE_BRACE]
    case Null => U("null")
    case Bool(b) => if b then U("true") else U("false")
    case Num(n) => PrintNumber(c, n)
    case Str(s) => Quote(s)
    case Arr(items) => [OPEN_BRACKET] + PrintItems(c, items) + [CLOSE_BRACKET]
    case Obj(fields) =>
      SortedKeysAreKeys(fields);
      [OPEN_BRACE] + PrintMembers(c, fields, SortedKeys(fields)) + [CLOSE_BRACE]
  }

  function PrintItems(c: NumberCodec, items: seq<Json>): Text
    requires forall x | x in items :: Printable(x)
    decreases items, 0
  {
    if items == [] then []
    else if |items| == 1 then Print(c, items[0])
    else Print(c, items[0]) + [COMMA] + PrintItems(c, items[1..])
  }

  function PrintMembers(c: NumberCodec, fields: seq<Field>, keys: seq<Text>): Text
    requires forall f | f in fields :: Printable(f.value)
    requires forall k | k in keys :: HasKey(fields, k)
    decreases fields, |keys|
  {
    if keys == [] then []
    else
      var member := Quote(keys[0]) + [COLON] + Print(c, fields[IndexOf(fields, keys[0])].value);
      if |keys| == 1 then member else member + [COMMA] + PrintMembers(c, fields, keys[1..])
  }

  lemma SortedKeysAreKeys(fields: seq<Field>)
    ensures forall k | k in SortedKeys(fields) :: HasKey(fields, k)
    ensures forall f | f in fields :: f.key in SortedKeys(fields)
    ensures |SortedKeys(fields)| == |fields|
  {
    SortSorts(KeysOf(fields), Self);
    forall k | k in SortedKeys(fields) ensures HasKey(fields, k) {
      SameMultisetSameMembers(SortedKeys(fields), KeysOf(fields), k);
      var i :| 0 <= i < |fields| && KeysOf(fields)[i] == k;
      assert fields[i].key == k;
    }
    forall f | f in fields ensures f.key in SortedKeys(fields) {
      var i :| 0 <= i < |fields| && fields[i] == f;
      assert KeysOf(fields)[i] == f.key;
      SameMultisetSameMembers(SortedKeys(fields), KeysOf(fields), f.key);
    }
  }

  datatype Outcome<T> = Success(value: T) | Throw(reason: string)

  /** `canonicalJson`: throws on a non-finite number. */
  function CanonicalJson(c: NumberCodec, v: Json): Outcome<Text> {
    if Printable(v) then Success(Print(c, v)) else Throw("context_gateway_non_finite_number")
  }

  // ---- RFC 8259 parser ----

  datatype Parsed<T> = NoParse | Parse(value: T, rest: Text)

  predicate Whitespace(u: Unit) { u == 0x20 || u == 0x09 || u == 0x0A || u == 0x0D }

  predicate Digit(u: Unit) { 0x30 <= u <= 0x39 }

  /** The units a number may hold: digits, sign, point, exponent mark. */
  predicate NumberUnit(u: Unit) {
    Digit(u) || u == 0x2B || u == 0x2D || u == 0x2E || u == 0x45 || u == 0x65
  }

  function SkipSpace(s: Text): (r: Text)
    ensures |r| <= |s|
  {
    if s != [] && Whitespace(s[0]) then SkipSpace(s[1..]) else s
  }

  function TakeDigits(s: Text): (n: nat)
    ensures n <= |s|
  {
    if s != [] && Digit(s[0]) then 1 + TakeDigits(s[1..]) else 0
  }

  /** Section 6: [ minus ] int [ frac ] [ exp ] */
  predicate NumberToken(t: Text) {
    var s := if t != [] && t[0] == 0x2D then t[1..] else t;
    && s != [] && Digit(s[0])
    && FractionPart(if s[0] == 0x30 then s[1..] else s[TakeDigits(s)..])
  }

  predicate FractionPart(s: Text) {
    if s != [] && s[0] == 0x2E then
      TakeDigits(s[1..]) > 0 && ExponentPart(s[1 + TakeDigits(s[1..])..])
    else ExponentPart(s)
  }

  predicate ExponentPart(s: Text) {
    || s == []
    || (&& (s[0] == 0x45 || s[0] == 0x65)
        && var d := if |s| > 1 && (s[1] == 0x2B || s[1] == 0x2D) then s[2..] else s[1..];
        d != [] && TakeDigits(d) == |d|)
  }

  function NumberRun(s: Text): (n: nat)
    ensures n <= |s|
  {
    if s != [] && NumberUnit(s[0]) then 1 + NumberRun(s[1..]) else 0
  }

  function HexValue(u: Unit): (v: int)
    ensures -1 <= v < 16
  {
    if Digit(u) then u - 0x30
    else if 0x61 <= u <= 0x66 then u - 0x61 + 10
    else if 0x41 <= u <= 0x46 then u - 0x41 + 10
    else -1
  }

  function ShortUnescape(u: Unit): (r: int)
    ensures -1 <= r < 0x80
  {
    match u
    case 0x22 => 0x22
    case 0x5C => 0x5C
    case 0x2F => 0x2F
    case 0x62 => 8
    case 0x74 => 9
    case 0x6E => 10
    case 0x66 => 12
    case 0x72 => 13
    case _ => -1
  }

  /** Section 7, after the opening quotation mark. */
  function ParseString(s: Text): (r: Parsed<Text>)
    ensures r.Parse? ==> |r.rest| < |s|
  {
    if s == [] || s[0] < 0x20 then NoParse
    else if s[0] == QUOTE then Parse([], s[1..])
    else if s[0] == BACKSLASH then
      if |s| >= 2 && ShortUnescape(s[1]) >= 0 then
        Prepend(ShortUnescape(s[1]), ParseString(s[2..]))
      else if |s| >= 6 && s[1] == 0x75 && HexValue(s[2]) >= 0 && HexValue(s[3]) >= 0
              && HexValue(s[4]) >= 0 && HexValue(s[5]) >= 0 then
        Prepend(4096 * HexValue(s[2]) + 256 * HexValue(s[3]) + 16 * HexValue(s[4]) + HexValue(s[5]),
                ParseString(s[6..]))
      else NoParse
    else Prepend(s[0], ParseString(s[1..]))
  }

  function Prepend(u: Unit, r: Parsed<Text>): Parsed<Text> {
    if r.Parse? then Parse([u] + r.value, r.rest) else NoParse
  }

  /** Section 3. */
  function ParseValue(c: NumberCodec, input: Text): (r: Parsed<Json>)
    ensures r.Parse? ==> |r.rest| < |input|
    decreases |input|, 1
  {
    var s := SkipSpace(input);
    if s == [] then NoParse
    else if s[0] == QUOTE then
      var r := ParseString(s[1..]);
      if r.Parse? then Parse(Str(r.value), r.rest) else NoParse
    else if s[0] == OPEN_BRACKET then
      var t := SkipSpace(s[1..]);
      if t != [] && t[0] == CLOSE_BRACKET then Parse(Arr([]), t[1..])
      else
        var r := ParseItems(c, t);
        if r.Parse? then Parse(Arr(r.value), r.rest) else NoParse
    else if s[0] == OPEN_BRACE then
      var t := SkipSpace(s[1..]);
      if t != [] && t[0] == CLOSE_BRACE then Parse(Obj([]), t[1..])
      else
        var r := ParseMembers(c, t);
        if r.Parse? then Parse(Obj(LastWins(r.value)), r.rest) else NoParse
    else if U("true") <= s then Parse(Bool(true), s[4..])
    else if U("false") <= s then Parse(Bool(false), s[5..])
    else if U("null") <= s then Parse(Null, s[4..])
    else
      var n := NumberRun(s);
      if NumberToken(s[..n]) then Parse(Num(c.read(s[..n])), s[n..]) else NoParse
  }

  /** Section 5, after the opening bracket. */
  function ParseItems(c: NumberCodec, s: Text): (r: Parsed<seq<Json>>)
    ensures r.Parse? ==> |r.rest| < |s|
    decreases |s|, 2
  {
    var head := ParseValue(c, s);
    if head.NoParse? then NoParse
    else
      var t := SkipSpace(head.rest);
      if t == [] then NoParse
      else if t[0] == CLOSE_BRACKET then Parse([head.value], t[1..])
      else if t[0] != COMMA then NoParse
      else
        var tail := ParseItems(c, t[1..]);
        if tail.Parse? then Parse([head.value] + tail.value, tail.rest) else NoParse
  }

  /** Section 4, after the opening brace. */
  function ParseMembers(c: NumberCodec, input: Text): (r: Parsed<seq<Field>>)
    ensures r.Parse? ==> |r.rest| < |input|
    decreases |input|, 2
  {
    var s := SkipSpace(input);
    if s == [] || s[0] != QUOTE then NoParse
    else
      var key := ParseString(s[1..]);
      if key.NoParse? then NoParse
      else
        var colon := SkipSpace(key.rest);
        if colon == [] || colon[0] != COLON then NoParse
        else
          var head := ParseValue(c, colon[1..]);
          if head.NoParse? then NoParse
          else
            var t := SkipSpace(head.rest);
            if t == [] then NoParse
            else if t[0] == CLOSE_BRACE then Parse([Field(key.value, head.value)], t[1..])
            else if t[0] != COMMA then NoParse
            else
              var tail := ParseMembers(c, t[1..]);
              if tail.Parse? then Parse([Field(key.value, head.value)] + tail.value, tail.rest) else NoParse
  }

  /** Of members with the same name the last one counts; it takes the first one's place. */
  function LastWins(members: seq<Field>): seq<Field> {
    if members == [] then []
    else
      var last := |members| - 1;
      SetField(LastWins(members[..last]), members[last].key, members[last].value)
  }

  function JsonParse(c: NumberCodec, raw: Text): Outcome<Json> {
    var r := ParseValue(c, raw);
    if r.Parse? && SkipSpace(r.rest) == [] then Success(r.value) else Throw("json_invalid")
  }

  /** `parseCanonicalState` */
  function ParseCanonicalState(c: NumberCodec, raw: Text): Outcome<Json> {
    var parsed := JsonParse(c, raw);
    if parsed.Throw? then Throw("json_invalid")
    else
      var printed := CanonicalJson(c, parsed.value);
      if printed.Throw? then Throw(printed.reason)
      else if printed.value != raw then Throw("canonical_invalid")
      else parsed
  }
}
