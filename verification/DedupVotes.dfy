/** Under which keys a finding votes. */
module DedupVotes {
  import opened Options
  import opened Lists
  import opened Texts
  import opened Dedup
  import opened DedupLaws

  // ---- trimming and the instance suffix ----

  /** The text stands between blanks and begins and ends with something else, or nothing is left of it. */
  ghost predicate Trimmed(t: Text, r: Text) {
    && (exists a, b :: Blank(a) && Blank(b) && t == a + r + b)
    && (r == [] || (!Space(r[0]) && !Space(r[|r| - 1])))
  }

  lemma {:induction false} StartTrimmed(t: Text) returns (a: Text)
    ensures Blank(a) && t == a + TrimStart(t) && (TrimStart(t) == [] || !Space(TrimStart(t)[0]))
  {
    if t != [] && Space(t[0]) {
      var rest := StartTrimmed(t[1..]);
      a := [t[0]] + rest;
      assert t == [t[0]] + t[1..];
    } else {
      a := [];
    }
  }

  lemma {:induction false} EndTrimmed(t: Text) returns (b: Text)
    ensures Blank(b) && t == TrimEnd(t) + b && (TrimEnd(t) == [] || !Space(TrimEnd(t)[|TrimEnd(t)| - 1]))
  {
    if t != [] && Space(t[|t| - 1]) {
      var rest := EndTrimmed(t[..|t| - 1]);
      b := rest + [t[|t| - 1]];
      assert t == t[..|t| - 1] + [t[|t| - 1]];
    } else {
      b := [];
    }
  }

  lemma TrimIs(t: Text)
    ensures Trimmed(t, TrimEnd(TrimStart(t)))
  {
    var s := TrimStart(t);
    var a := StartTrimmed(t);
    var b := EndTrimmed(s);
    var r := TrimEnd(s);
    assert t == a + r + b;
    assert r != [] ==> r[0] == s[0];
  }

  predicate AllDigits(t: Text) {
    forall i :: 0 <= i < |t| ==> 0x30 <= t[i] <= 0x39
  }

  /** The text ends in a hash and digits. */
  predicate Suffixed(t: Text, r: Text) {
    |r| + 1 < |t| && t[..|r|] == r && t[|r|] == HASH && AllDigits(t[|r| + 1..])
  }

  lemma {:induction false} TrailingAre(t: Text)
    ensures var n := TrailingDigits(t);
      AllDigits(t[|t| - n..]) && (n < |t| ==> !(0x30 <= t[|t| - n - 1] <= 0x39))
  {
    if t != [] && 0x30 <= t[|t| - 1] <= 0x39 {
      var front := t[..|t| - 1];
      TrailingAre(front);
      var n := TrailingDigits(front);
      assert t[|t| - n - 1..] == front[|front| - n..] + [t[|t| - 1]];
    }
  }

  /** A suffix of a hash and digits is taken off, if there is one; it is the only one. */
  lemma SuffixIs(t: Text)
    ensures StripSuffix(t) != t <==> exists r :: Suffixed(t, r)
    ensures forall r | Suffixed(t, r) :: StripSuffix(t) == r
  {
    TrailingAre(t);
    var n := TrailingDigits(t);
    if StripSuffix(t) != t {
      assert t[|t| - n - 1 + 1..] == t[|t| - n..];
      assert Suffixed(t, StripSuffix(t));
    }
    forall r | Suffixed(t, r) ensures StripSuffix(t) == r {
      assert forall i :: |r| < i < |t| ==> t[i] == t[|r| + 1..][i - |r| - 1];
      assert forall i :: |t| - n <= i < |t| ==> t[i] == t[|t| - n..][i - (|t| - n)];
    }
  }

  // ---- one key ----

  /** What a name says without blanks around it and without its instance suffix. */
  ghost predicate Plainly(name: Text, k: Text) {
    exists t :: Trimmed(name, t) && (if exists r :: Suffixed(t, r) then Suffixed(t, k) else k == t)
  }

  lemma StripIs(name: Text)
    ensures Plainly(name, Strip(name))
  {
    hide Trimmed, Suffixed, StripSuffix;
    TrimIs(name);
    SuffixIs(TrimEnd(TrimStart(name)));
    TrimLength(name);
    assert Strip(name) == StripSuffix(TrimEnd(TrimStart(name)));
  }

  /** A provider votes under its plain name, and not at all if nothing is left of that. One reached through OpenRouter
      votes under the plain name of the model that answered, if that is known, with the prefix once. */
  lemma VoteKeyIs(provider: Text, model: Option<Text>)
    ensures var p := Strip(provider); var key := VoteKey(Some(provider), model);
      && Plainly(provider, p)
      && (key.None? <==> p == [])
      && (key.Some? && !(OPENROUTER <= p) ==> key.value == p)
      && (key.Some? && (model.None? || Strip(model.value) == []) ==> key.value == p)
      && (key.Some? && OPENROUTER <= p && model.Some? && Strip(model.value) != [] ==>
            && Plainly(model.value, Strip(model.value)) && OPENROUTER <= key.value
            && key.value in {Strip(model.value), OPENROUTER + Strip(model.value)}
            && (key.value == Strip(model.value) <==> OPENROUTER <= Strip(model.value)))
  {
    hide Strip, Plainly, U;
    StripIs(provider);
    if model.Some? {
      StripIs(model.value);
      Longer(OPENROUTER, Strip(model.value));
    }
  }

  lemma Longer(a: Text, b: Text)
    ensures a <= a + b && (a != [] ==> a + b != b) && |a + b| == |a| + |b|
  {
  }

  // ---- the keys of a finding ----

  /** The key is one that a model, a provider without a model, or the primary provider gives. */
  ghost predicate GivesKey(f: Finding, x: Text) {
    || (exists i :: 0 <= i < |f.providerModels|
          && VoteKey(Some(f.providerModels[i].provider), f.providerModels[i].actualModel) == Some(x))
    || (exists p :: p in f.providers && !Attributed(f, p) && VoteKey(Some(p), None) == Some(x))
    || (!(f.provider.Some? && f.provider.value != [] && Attributed(f, f.provider.value))
        && VoteKey(f.provider, f.actualModel) == Some(x))
  }

  /** A finding votes under the stored keys that still read as keys; without any, under those that its models and
      providers give; and without any of these, under `static`. */
  lemma VoteKeysIff(f: Finding, x: Text)
    ensures x in GetProviderVoteKeys(f) <==>
      if exists k, y :: k in f.providerVoteKeys && VoteKey(Some(k), None) == Some(y) then
        exists k :: k in f.providerVoteKeys && VoteKey(Some(k), None) == Some(x)
      else if exists y :: GivesKey(f, y) then GivesKey(f, x)
      else x == U("static")
  {
    hide VoteKey, KeysOfKeys, KeysOfProviders, GivesKey;
    var own := KeysOfKeys(f.providerVoteKeys);
    ReadFrom(f.providerVoteKeys, x);
    if own != [] {
      ReadFrom(f.providerVoteKeys, own[0]);
      assert own[0] in Unique(own);
    } else {
      forall y ensures !(exists k :: k in f.providerVoteKeys && VoteKey(Some(k), None) == Some(y)) {
        ReadFrom(f.providerVoteKeys, y);
      }
      var named := KeysOfProviders(f);
      GivenKeys(f, x);
      if named != [] {
        GivenKeys(f, named[0]);
        assert named[0] in Unique(named);
      } else {
        forall y ensures !GivesKey(f, y) {
          GivenKeys(f, y);
        }
      }
    }
  }

  lemma GivenKeys(f: Finding, x: Text)
    ensures x in KeysOfProviders(f) <==> GivesKey(f, x)
  {
    hide VoteKey, Attributed;
    var models, names := ModelKeys(f.providerModels), NameKeys(f);
    var all := models + names + [PrimaryKey(f)];
    assert x in KeysOfProviders(f) <==> Some(x) in all;
    assert Some(x) in all <==> Some(x) in models || Some(x) in names || PrimaryKey(f) == Some(x);
    if Some(x) in models {
      var i :| 0 <= i < |models| && models[i] == Some(x);
    }
    forall i | 0 <= i < |f.providerModels|
      ensures VoteKey(Some(f.providerModels[i].provider), f.providerModels[i].actualModel) == Some(x) ==>
        Some(x) in models
    {
      assert models[i] in models;
    }
    if Some(x) in names {
      var i :| 0 <= i < |names| && names[i] == Some(x);
      assert f.providers[i] in f.providers;
    }
    if p :| p in f.providers && !Attributed(f, p) && VoteKey(Some(p), None) == Some(x) {
      var i :| 0 <= i < |f.providers| && f.providers[i] == p;
      assert names[i] == Some(x);
    }
  }
}
