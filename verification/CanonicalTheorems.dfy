/** What `canonicalJson` identifies, and what `parseCanonicalState` accepts. */
module CanonicalTheorems {
  import opened Lists
  import opened Texts
  import opened Json
  import opened JsonLaws

  const STAND_IN: Json := Obj([Field(UNDEFINED_KEY, Bool(true))])

  predicate SameNumber(m: Number, n: Number) {
    m == n || (m in {NegativeZero, Finite(0.0)} && n in {NegativeZero, Finite(0.0)})
  }

  /** Equality of JavaScript values up to key order, the sign of zero, and undefined against its stand-in. */
  ghost predicate Same(v: Json, w: Json)
    decreases v
  {
    match v
    case Undefined => w.Undefined? || w == STAND_IN
    case Num(n) => w.Num? && SameNumber(n, w.n)
    case Arr(items) => w.Arr? && |items| == |w.items| && forall i | 0 <= i < |items| :: Same(items[i], w.items[i])
    case Obj(fields) =>
      if w.Undefined? then v == STAND_IN
      else
        && w.Obj?
        && (forall k :: HasKey(fields, k) <==> HasKey(w.fields, k))
        && forall i | 0 <= i < |fields| :: Same(fields[i].value, Lookup(w.fields, fields[i].key))
    case _ => v == w
  }

  // ---- fields of a normal form ----

  lemma IndexUnique(fields: seq<Field>, i: nat)
    requires DistinctKeys(fields) && i < |fields|
    ensures HasKey(fields, fields[i].key) && IndexOf(fields, fields[i].key) == i
    ensures Lookup(fields, fields[i].key) == fields[i].value
  {
    assert fields[IndexOf(fields, fields[i].key)].key == fields[i].key;
  }

  lemma NormalKeysDistinct(fields: seq<Field>)
    requires DistinctKeys(fields)
    ensures DistinctKeys(Normal(Obj(fields)).fields)
  {
    SortedKeysAreKeys(fields);
    SortedKeysDistinct(fields);
  }

  /** Reading a key commutes with taking the normal form. */
  lemma LookupNormal(fields: seq<Field>, k: Text)
    requires DistinctKeys(fields)
    ensures HasKey(fields, k) <==> HasKey(Normal(Obj(fields)).fields, k)
    ensures HasKey(fields, k) ==> Lookup(Normal(Obj(fields)).fields, k) == Normal(Lookup(fields, k))
  {
    SortedKeysAreKeys(fields);
    NormalKeysDistinct(fields);
    var keys, r := SortedKeys(fields), Normal(Obj(fields)).fields;
    assert r == NormalMembers(fields, keys);
    if HasKey(fields, k) {
      assert fields[IndexOf(fields, k)] in fields;
      var j :| 0 <= j < |keys| && keys[j] == k;
      IndexUnique(r, j);
    }
    if HasKey(r, k) {
      assert keys[IndexOf(r, k)] in keys;
    }
  }

  lemma {:induction false} SameAsNormal(v: Json)
    requires exists c :: WellFormed(c, v)
    ensures Same(v, Normal(v))
    decreases v
  {
    var c :| WellFormed(c, v);
    match v
    case Arr(items) =>
      forall i | 0 <= i < |items| ensures Same(items[i], NormalItems(items)[i]) {
        assert WellFormed(c, items[i]);
        SameAsNormal(items[i]);
      }
    case Obj(fields) =>
      forall k ensures HasKey(fields, k) <==> HasKey(Normal(v).fields, k) {
        LookupNormal(fields, k);
      }
      forall i | 0 <= i < |fields| ensures Same(fields[i].value, Lookup(Normal(v).fields, fields[i].key)) {
        LookupNormal(fields, fields[i].key);
        IndexUnique(fields, i);
        assert WellFormed(c, fields[i].value);
        SameAsNormal(fields[i].value);
      }
    case _ =>
  }

  lemma {:induction false} NormalIsPlain(c: NumberCodec, v: Json)
    requires GoodCodec(c) && WellFormed(c, v) && Printable(v)
    ensures WellFormed(c, Normal(v)) && Printable(Normal(v)) && Defined(Normal(v))
    decreases v
  {
    match v
    case Num(_) => ZeroIsDouble(c);
    case Arr(items) =>
      forall x | x in NormalItems(items) ensures WellFormed(c, x) && Printable(x) && Defined(x) {
        var i :| 0 <= i < |items| && NormalItems(items)[i] == x;
        NormalIsPlain(c, items[i]);
      }
    case Obj(fields) =>
      NormalKeysDistinct(fields);
      SortedKeysAreKeys(fields);
      var keys := SortedKeys(fields);
      forall f | f in NormalMembers(fields, keys)
        ensures WellFormed(c, f.value) && Printable(f.value) && Defined(f.value)
      {
        var i :| 0 <= i < |keys| && NormalMembers(fields, keys)[i] == f;
        NormalIsPlain(c, fields[IndexOf(fields, keys[i])].value);
      }
    case _ =>
  }

  // ---- equal normal forms are the same value ----

  lemma {:induction false} NormalSame(c: NumberCodec, v: Json, w: Json)
    requires WellFormed(c, v) && WellFormed(c, w)
    requires Normal(v) == Normal(w)
    ensures Same(v, w)
    decreases v
  {
    match v
    case Undefined =>
      if w.Obj? {
        NormalStandIn(w.fields);
      }
    case Arr(items) =>
      forall i | 0 <= i < |items| ensures Same(items[i], w.items[i]) {
        assert NormalItems(items)[i] == NormalItems(w.items)[i];
        NormalSame(c, items[i], w.items[i]);
      }
    case Obj(fields) =>
      if w.Undefined? {
        NormalStandIn(fields);
      } else {
        forall k ensures HasKey(fields, k) <==> HasKey(w.fields, k) {
          LookupNormal(fields, k);
          LookupNormal(w.fields, k);
        }
        forall i | 0 <= i < |fields| ensures Same(fields[i].value, Lookup(w.fields, fields[i].key)) {
          var k := fields[i].key;
          IndexUnique(fields, i);
          LookupNormal(fields, k);
          LookupNormal(w.fields, k);
          assert w.fields[IndexOf(w.fields, k)] in w.fields;
          NormalSame(c, fields[i].value, Lookup(w.fields, k));
        }
      }
    case _ =>
  }

  lemma NormalStandIn(fields: seq<Field>)
    requires DistinctKeys(fields) && Normal(Obj(fields)) == STAND_IN
    ensures Obj(fields) == STAND_IN
  {
    SortedKeysAreKeys(fields);
    assert |fields| == 1;
    LookupNormal(fields, fields[0].key);
    IndexUnique(fields, 0);
    IndexUnique(STAND_IN.fields, 0);
    assert Normal(fields[0].value) == Bool(true);
  }

  // ---- the same value prints the same ----

  lemma SameKeysSorted(f: seq<Field>, g: seq<Field>)
    requires DistinctKeys(f) && DistinctKeys(g)
    requires forall k :: HasKey(f, k) <==> HasKey(g, k)
    ensures SortedKeys(f) == SortedKeys(g)
  {
    var a, b := KeysOf(f), KeysOf(g);
    DistinctCounts(a);
    DistinctCounts(b);
    forall k ensures multiset(a)[k] == multiset(b)[k] {
      assert HasKey(f, k) <==> k in multiset(a) by {
        if HasKey(f, k) { assert a[IndexOf(f, k)] == k; }
      }
      assert HasKey(g, k) <==> k in multiset(b) by {
        if HasKey(g, k) { assert b[IndexOf(g, k)] == k; }
      }
    }
    SortIgnoresOrder(a, b, Self);
  }

  lemma StandInPrints(c: NumberCodec)
    ensures Printable(STAND_IN) && Print(c, STAND_IN) == Print(c, Undefined)
  {
    var fields, keys := STAND_IN.fields, SortedKeys(STAND_IN.fields);
    SortedKeysAreKeys(fields);
    assert fields[0] in fields;
    assert keys == [UNDEFINED_KEY];
    IndexUnique(fields, 0);
    assert PrintMembers(c, fields, keys) == Quote(UNDEFINED_KEY) + [COLON] + U("true");
  }

  lemma {:induction false} SamePrints(c: NumberCodec, v: Json, w: Json)
    requires WellFormed(c, v) && WellFormed(c, w) && Printable(v) && Printable(w)
    requires Same(v, w)
    ensures Print(c, v) == Print(c, w)
    decreases v, 0
  {
    match v
    case Undefined => StandInPrints(c);
    case Arr(items) => SameItemsPrint(c, items, w.items);
    case Obj(fields) =>
      if w.Undefined? {
        StandInPrints(c);
      } else {
        SortedKeysAreKeys(fields);
        SortedKeysAreKeys(w.fields);
        SameKeysSorted(fields, w.fields);
        SameMembersPrint(c, fields, w.fields, SortedKeys(fields));
      }
    case _ =>
  }

  lemma {:induction false} SameItemsPrint(c: NumberCodec, a: seq<Json>, b: seq<Json>)
    requires |a| == |b|
    requires forall i :: 0 <= i < |a| ==> WellFormed(c, a[i]) && WellFormed(c, b[i]) && Same(a[i], b[i])
    requires (forall x | x in a :: Printable(x)) && (forall x | x in b :: Printable(x))
    ensures PrintItems(c, a) == PrintItems(c, b)
    decreases a, 0
  {
    if a != [] {
      SamePrints(c, a[0], b[0]);
      SameItemsPrint(c, a[1..], b[1..]);
    }
  }

  lemma {:induction false} SameMembersPrint(c: NumberCodec, f: seq<Field>, g: seq<Field>, keys: seq<Text>)
    requires forall x | x in f :: WellFormed(c, x.value) && Printable(x.value)
    requires forall x | x in g :: WellFormed(c, x.value) && Printable(x.value)
    requires forall k | k in keys :: HasKey(f, k) && HasKey(g, k)
    requires forall i | 0 <= i < |f| :: Same(f[i].value, Lookup(g, f[i].key))
    ensures PrintMembers(c, f, keys) == PrintMembers(c, g, keys)
    decreases f, |keys|
  {
    if keys != [] {
      var i, j := IndexOf(f, keys[0]), IndexOf(g, keys[0]);
      assert f[i] in f && g[j] in g;
      SamePrints(c, f[i].value, g[j].value);
      SameMembersPrint(c, f, g, keys[1..]);
    }
  }

  // ---- main results ----

  /** Printing identifies exactly the values that are the same: key order is forgotten, nothing
      else is, and undefined collides with its stand-in only. */
  lemma CanonicalIffSame(c: NumberCodec, v: Json, w: Json)
    requires GoodCodec(c) && WellFormed(c, v) && WellFormed(c, w) && Printable(v) && Printable(w)
    ensures Print(c, v) == Print(c, w) <==> Same(v, w)
  {
    if Print(c, v) == Print(c, w) {
      ParsePrint(c, v, []);
      ParsePrint(c, w, []);
      NormalSame(c, v, w);
    }
    if Same(v, w) {
      SamePrints(c, v, w);
    }
  }

  lemma NormalPrints(c: NumberCodec, v: Json)
    requires GoodCodec(c) && WellFormed(c, v) && Printable(v)
    ensures Printable(Normal(v)) && Print(c, Normal(v)) == Print(c, v)
  {
    NormalIsPlain(c, v);
    SameAsNormal(v);
    SamePrints(c, v, Normal(v));
  }

  lemma NormalOnce(c: NumberCodec, v: Json)
    requires GoodCodec(c) && WellFormed(c, v) && Printable(v)
    ensures Normal(Normal(v)) == Normal(v)
  {
    NormalPrints(c, v);
    NormalIsPlain(c, v);
    ParsePrint(c, v, []);
    ParsePrint(c, Normal(v), []);
  }

  ghost predicate CanonicalText(c: NumberCodec, v: Json, raw: Text) {
    WellFormed(c, v) && Printable(v) && Print(c, v) == raw
  }

  /** Writing and reading back: the state file restores the normal form of what was written. */
  lemma ReadBack(c: NumberCodec, v: Json)
    requires GoodCodec(c) && WellFormed(c, v) && Printable(v)
    ensures ParseCanonicalState(c, Print(c, v)) == Success(Normal(v))
  {
    ParsePrint(c, v, []);
    assert Print(c, v) + [] == Print(c, v);
    NormalPrints(c, v);
  }

  /** A state file is accepted exactly when it is the canonical text of some value. */
  lemma AcceptsExactlyCanonical(c: NumberCodec, raw: Text)
    requires GoodCodec(c)
    ensures ParseCanonicalState(c, raw).Success? <==> exists v :: CanonicalText(c, v, raw)
    ensures ParseCanonicalState(c, raw).Success? ==>
      var v := ParseCanonicalState(c, raw).value;
      CanonicalText(c, v, raw) && Normal(v) == v && Defined(v)
  {
    if ParseCanonicalState(c, raw).Success? {
      ParsedIsWellFormed(c, raw);
      var v := ParseCanonicalState(c, raw).value;
      assert CanonicalText(c, v, raw);
    }
    if v :| CanonicalText(c, v, raw) {
      ReadBack(c, v);
      NormalOnce(c, v);
      NormalIsPlain(c, v);
    }
  }

  lemma SetFieldKeys(fields: seq<Field>, k: Text, v: Json)
    requires DistinctKeys(fields)
    ensures DistinctKeys(SetField(fields, k, v))
    ensures forall f | f in SetField(fields, k, v) :: f in fields || f == Field(k, v)
  {
    if HasKey(fields, k) {
      var i := IndexOf(fields, k);
      forall j | 0 <= j < |fields| && fields[j].key == k ensures j == i {
        IndexUnique(fields, j);
      }
    }
  }

  lemma LastWinsKeys(members: seq<Field>)
    ensures DistinctKeys(LastWins(members))
    ensures forall f | f in LastWins(members) :: f in members
  {
    if members != [] {
      var last := |members| - 1;
      LastWinsKeys(members[..last]);
      SetFieldKeys(LastWins(members[..last]), members[last].key, members[last].value);
      assert members[last] == Field(members[last].key, members[last].value);
    }
  }

  lemma {:induction false} ParsedIsWellFormed(c: NumberCodec, input: Text)
    requires GoodCodec(c)
    ensures ParseValue(c, input).Parse? ==> WellFormed(c, ParseValue(c, input).value)
    decreases |input|, 1
  {
    var s := SkipSpace(input);
    if s != [] && s[0] == OPEN_BRACKET {
      ItemsAreWellFormed(c, SkipSpace(s[1..]));
    } else if s != [] && s[0] == OPEN_BRACE {
      var t := SkipSpace(s[1..]);
      MembersAreWellFormed(c, t);
      if ParseMembers(c, t).Parse? {
        LastWinsKeys(ParseMembers(c, t).value);
      }
    }
  }

  lemma {:induction false} ItemsAreWellFormed(c: NumberCodec, s: Text)
    requires GoodCodec(c)
    ensures ParseItems(c, s).Parse? ==> forall x | x in ParseItems(c, s).value :: WellFormed(c, x)
    decreases |s|, 2
  {
    ParsedIsWellFormed(c, s);
    if ParseValue(c, s).Parse? {
      var t := SkipSpace(ParseValue(c, s).rest);
      if t != [] {
        ItemsAreWellFormed(c, t[1..]);
      }
    }
  }

  lemma {:induction false} MembersAreWellFormed(c: NumberCodec, input: Text)
    requires GoodCodec(c)
    ensures ParseMembers(c, input).Parse? ==>
      forall f | f in ParseMembers(c, input).value :: WellFormed(c, f.value)
    decreases |input|, 2
  {
    if ParseMembers(c, input).Parse? {
      var s := SkipSpace(input);
      var colon := SkipSpace(ParseString(s[1..]).rest);
      ParsedIsWellFormed(c, colon[1..]);
      var t := SkipSpace(ParseValue(c, colon[1..]).rest);
      MembersAreWellFormed(c, t[1..]);
    }
  }
}
