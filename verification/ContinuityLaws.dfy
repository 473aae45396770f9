/** Continuity as a relation, and over a run of refreshes. */
module ContinuityLaws {
  import opened Options
  import opened Texts
  import opened Json
  import opened CanonicalTheorems
  import opened Continuity

  /** A configuration continues itself exactly when it has no plan or its plan parses. */
  lemma ReflexiveIff(m: Rules, a: RuntimeConfig)
    requires GoodRules(m)
    ensures Agree(m, a, a) <==> PLAN_KEY !in a.runtimeEnv || m.parsePlan(a.runtimeEnv[PLAN_KEY]).Some?
  {
    hide U, Print, Printable;
    if PLAN_KEY in a.runtimeEnv && m.parsePlan(a.runtimeEnv[PLAN_KEY]).Some? {
      var p := m.parsePlan(a.runtimeEnv[PLAN_KEY]).value;
      assert GoodPlan(p);
      forall i | 0 <= i < |p.reviewers| ensures ReviewersAgree(m, p.reviewers[i], p.reviewers[i]) {
        assert p.reviewers[i] in p.reviewers;
      }
    }
  }

  lemma Symmetric(m: Rules, a: RuntimeConfig, b: RuntimeConfig)
    ensures Agree(m, a, b) <==> Agree(m, b, a)
  {
    hide Agree;
    if Agree(m, a, b) {
      OneWay(m, a, b);
    } else if Agree(m, b, a) {
      OneWay(m, b, a);
    }
  }

  lemma OneWay(m: Rules, a: RuntimeConfig, b: RuntimeConfig)
    requires Agree(m, a, b)
    ensures Agree(m, b, a)
  {
    hide U, CanonicalJson, JsonParse;
  }

  // ---- continuity in terms of values ----

  /** The values are numbers, texts and so on as JavaScript has them, and print to one text: they are equal but for the
      order of keys. */
  lemma EqualJsonIff(m: Rules, v: Json, w: Json)
    requires GoodCodec(m.codec) && WellFormed(m.codec, v) && WellFormed(m.codec, w)
    ensures EqualJson(m, v, w) <==> Printable(v) && Printable(w) && Same(v, w)
  {
    hide Same, Print, WellFormed;
    if Printable(v) && Printable(w) {
      CanonicalIffSame(m.codec, v, w);
    }
  }

  ghost predicate RealPlan(m: Rules, p: Plan) {
    && GoodPlan(p) && WellFormed(m.codec, p.fixed)
    && forall r | r in p.reviewers ::
         WellFormed(m.codec, r.stable) && (r.modelSettings.Some? ==> WellFormed(m.codec, r.modelSettings.value))
  }

  /** The reviewers are the same but for their availability, and for settings that an unavailable one lacks. */
  ghost predicate SameReviewer(r: Reviewer, s: Reviewer) {
    && Same(r.stable, s.stable)
    && (r.modelSettings.Some? && s.modelSettings.Some? ==> Same(r.modelSettings.value, s.modelSettings.value))
    && (r.modelSettings.Some? && s.modelSettings.None? ==> s.unavailableReason.Some?)
    && (r.modelSettings.None? && s.modelSettings.Some? ==> r.unavailableReason.Some?)
  }

  ghost predicate SamePlan(p: Plan, q: Plan) {
    && Same(p.fixed, q.fixed) && |p.reviewers| == |q.reviewers|
    && forall i | 0 <= i < |p.reviewers| :: SameReviewer(p.reviewers[i], q.reviewers[i])
  }

  /** The settings of the whole run are one text, or one value, or missing where the primary reviewer is unavailable. */
  ghost predicate SameSettings(m: Rules, a: RuntimeConfig, b: RuntimeConfig, p: Plan, q: Plan)
    requires p.reviewers != [] && q.reviewers != []
  {
    var x, y := Entry(a.runtimeEnv, SETTINGS_KEY), Entry(b.runtimeEnv, SETTINGS_KEY);
    || x == y
    || (x.None? && p.reviewers[0].unavailableReason.Some?)
    || (y.None? && q.reviewers[0].unavailableReason.Some?)
    || (x.Some? && y.Some? && SettingsTextsAgree(m, x.value, y.value))
  }

  lemma PlansAgreeIff(m: Rules, p: Plan, q: Plan)
    requires GoodCodec(m.codec) && RealPlan(m, p) && RealPlan(m, q)
    ensures PlansAgree(m, p, q) <==> SamePlan(p, q)
  {
    hide EqualJson, Same, WellFormed, Printable;
    EqualJsonIff(m, p.fixed, q.fixed);
    if |p.reviewers| == |q.reviewers| {
      forall i | 0 <= i < |p.reviewers|
        ensures ReviewersAgree(m, p.reviewers[i], q.reviewers[i]) <==> SameReviewer(p.reviewers[i], q.reviewers[i])
      {
        ReviewersAgreeIff(m, p, q, i);
      }
    }
  }

  lemma ReviewersAgreeIff(m: Rules, p: Plan, q: Plan, i: nat)
    requires GoodCodec(m.codec) && RealPlan(m, p) && RealPlan(m, q) && i < |p.reviewers| == |q.reviewers|
    ensures ReviewersAgree(m, p.reviewers[i], q.reviewers[i]) <==> SameReviewer(p.reviewers[i], q.reviewers[i])
  {
    hide EqualJson, Same, WellFormed, Printable;
    var r, s := p.reviewers[i], q.reviewers[i];
    assert r in p.reviewers && s in q.reviewers;
    EqualJsonIff(m, r.stable, s.stable);
    if r.modelSettings.Some? && s.modelSettings.Some? {
      EqualJsonIff(m, r.modelSettings.value, s.modelSettings.value);
    }
  }

  /** A refresh is accepted if and only if it has the same version and, without a plan on one side, the same entries, or
      else plans that are the same but for availability and the settings an unavailable reviewer lacks, the same
      settings in that sense, and every other entry alike. */
  lemma AgreeIff(m: Rules, a: RuntimeConfig, b: RuntimeConfig)
    requires GoodCodec(m.codec) && forall t :: m.parsePlan(t).Some? ==> RealPlan(m, m.parsePlan(t).value)
    ensures Agree(m, a, b) <==>
      && a.configVersion == b.configVersion
      && if PLAN_KEY !in a.runtimeEnv || PLAN_KEY !in b.runtimeEnv then a.runtimeEnv == b.runtimeEnv
         else
           var p, q := m.parsePlan(a.runtimeEnv[PLAN_KEY]), m.parsePlan(b.runtimeEnv[PLAN_KEY]);
           && p.Some? && q.Some? && SamePlan(p.value, q.value)
           && p.value.reviewers != [] && q.value.reviewers != [] && SameSettings(m, a, b, p.value, q.value)
           && forall k | k != PLAN_KEY && k != SETTINGS_KEY :: Entry(a.runtimeEnv, k) == Entry(b.runtimeEnv, k)
  {
    hide U, PlansAgree, SamePlan, SettingsTextsAgree, WellFormed, Printable;
    RestIff(a.runtimeEnv, b.runtimeEnv);
    if PLAN_KEY in a.runtimeEnv && PLAN_KEY in b.runtimeEnv {
      var p, q := m.parsePlan(a.runtimeEnv[PLAN_KEY]), m.parsePlan(b.runtimeEnv[PLAN_KEY]);
      if p.Some? && q.Some? {
        assert RealPlan(m, p.value) && RealPlan(m, q.value);
        PlansAgreeIff(m, p.value, q.value);
      }
    }
  }

  lemma RestIff(a: map<Text, Text>, b: map<Text, Text>)
    ensures a - {PLAN_KEY, SETTINGS_KEY} == b - {PLAN_KEY, SETTINGS_KEY} <==>
      forall k | k != PLAN_KEY && k != SETTINGS_KEY :: Entry(a, k) == Entry(b, k)
  {
    hide U;
    var drop := {PLAN_KEY, SETTINGS_KEY};
    if forall k | k != PLAN_KEY && k != SETTINGS_KEY :: Entry(a, k) == Entry(b, k) {
      forall k ensures Entry(a - drop, k) == Entry(b - drop, k) {
        assert k !in drop ==> Entry(a, k) == Entry(b, k);
      }
      SameEntries(a - drop, b - drop);
    }
    if a - drop == b - drop {
      forall k | k != PLAN_KEY && k != SETTINGS_KEY ensures Entry(a, k) == Entry(b, k) {
        RestEntries(a, b, drop, k);
      }
    }
  }

  /** What an accepted pair shares, and where it may differ: in the plan's text, if the plans agree, and in the model
      settings, if they agree or a side without them has an unavailable primary reviewer. */
  lemma AgreedParts(m: Rules, a: RuntimeConfig, b: RuntimeConfig, key: Text)
    requires Agree(m, a, b) && Entry(a.runtimeEnv, key) != Entry(b.runtimeEnv, key)
    ensures PLAN_KEY in a.runtimeEnv && PLAN_KEY in b.runtimeEnv && key in {PLAN_KEY, SETTINGS_KEY}
    ensures var p, q := m.parsePlan(a.runtimeEnv[PLAN_KEY]), m.parsePlan(b.runtimeEnv[PLAN_KEY]);
      && p.Some? && q.Some? && PlansAgree(m, p.value, q.value)
      && (key == SETTINGS_KEY != PLAN_KEY ==>
            var x, y := Entry(a.runtimeEnv, key), Entry(b.runtimeEnv, key);
            if x.None? then p.value.reviewers[0].unavailableReason.Some?
            else if y.None? then q.value.reviewers[0].unavailableReason.Some?
            else SettingsTextsAgree(m, x.value, y.value))
  {
    hide U, EqualJson, JsonParse;
    if a.runtimeEnv != b.runtimeEnv {
      RestEntries(a.runtimeEnv, b.runtimeEnv, {PLAN_KEY, SETTINGS_KEY}, key);
    }
  }

  lemma RestEntries(a: map<Text, Text>, b: map<Text, Text>, drop: set<Text>, k: Text)
    requires a - drop == b - drop
    ensures k !in drop ==> Entry(a, k) == Entry(b, k)
  {
    if k !in drop {
      assert Entry(a - drop, k) == Entry(a, k) && Entry(b - drop, k) == Entry(b, k);
    }
  }

  // ---- no chain ----

  /** What two refreshes through the same third one still have to agree on: the settings of each reviewer that the
      third one lacks, and the gateway's model settings if it lacks those. */
  predicate AgreeWhereMissing(m: Rules, a: RuntimeConfig, b: RuntimeConfig, c: RuntimeConfig, p: Plan, q: Plan, r: Plan)
    requires |p.reviewers| == |q.reviewers| == |r.reviewers| > 0
  {
    && (forall i | 0 <= i < |q.reviewers| && q.reviewers[i].modelSettings.None? ::
          ModelSettingsAgree(m, p.reviewers[i], r.reviewers[i]))
    && (SETTINGS_KEY !in b.runtimeEnv ==>
          SettingsAgree(m, Entry(a.runtimeEnv, SETTINGS_KEY), p.reviewers[0].unavailableReason.Some?,
                        Entry(c.runtimeEnv, SETTINGS_KEY), r.reviewers[0].unavailableReason.Some?))
  }

  /** When continuity carries over: two configurations that each agree with a third one agree with each other exactly
      when they also do where the third one says nothing. Without plans it always carries over. */
  lemma TransitiveIff(m: Rules, a: RuntimeConfig, b: RuntimeConfig, c: RuntimeConfig)
    requires Agree(m, a, b) && Agree(m, b, c)
    ensures Agree(m, a, c) <==>
      (PLAN_KEY in a.runtimeEnv && PLAN_KEY in b.runtimeEnv && PLAN_KEY in c.runtimeEnv ==>
        AgreeWhereMissing(m, a, b, c, m.parsePlan(a.runtimeEnv[PLAN_KEY]).value,
                          m.parsePlan(b.runtimeEnv[PLAN_KEY]).value, m.parsePlan(c.runtimeEnv[PLAN_KEY]).value))
  {
    hide U, CanonicalJson, JsonParse;
  }

  /** Plans that are one but for the availability and the settings of one reviewer. */
  predicate Twins(p: Plan, q: Plan, i: nat) {
    && i < |p.reviewers| == |q.reviewers| && p.fixed == q.fixed
    && (forall j | 0 <= j < |p.reviewers| && j != i :: p.reviewers[j] == q.reviewers[j])
    && p.reviewers[i].stable == q.reviewers[i].stable
  }

  /** Continuity is not transitive: with any three plans that differ in one reviewer only, who has some settings in the
      first, is unavailable and has none in the second, and has other settings in the third, the first agrees with the
      second and the second with the third, but not the first with the third. */
  lemma NotTransitive(m: Rules, a: RuntimeConfig, b: RuntimeConfig, c: RuntimeConfig, p: Plan, q: Plan, r: Plan, i: nat)
    requires GoodRules(m) && a.configVersion == b.configVersion == c.configVersion
    requires PLAN_KEY in a.runtimeEnv && PLAN_KEY in b.runtimeEnv && PLAN_KEY in c.runtimeEnv
    requires a.runtimeEnv - {PLAN_KEY} == b.runtimeEnv - {PLAN_KEY} == c.runtimeEnv - {PLAN_KEY}
    requires m.parsePlan(a.runtimeEnv[PLAN_KEY]) == Some(p) && m.parsePlan(b.runtimeEnv[PLAN_KEY]) == Some(q)
    requires m.parsePlan(c.runtimeEnv[PLAN_KEY]) == Some(r) && Twins(p, q, i) && Twins(q, r, i)
    requires q.reviewers[i].modelSettings.None? && q.reviewers[i].unavailableReason.Some?
    requires p.reviewers[i].modelSettings.Some? && r.reviewers[i].modelSettings.Some?
    requires !EqualJson(m, p.reviewers[i].modelSettings.value, r.reviewers[i].modelSettings.value)
    ensures Agree(m, a, b) && Agree(m, b, c) && !Agree(m, a, c)
  {
    hide U, JsonParse, CanonicalJson;
    TwinsAgree(m, a, b, p, q, i);
    TwinsAgree(m, b, c, q, r, i);
    TransitiveIff(m, a, b, c);
  }

  lemma TwinsAgree(m: Rules, a: RuntimeConfig, b: RuntimeConfig, p: Plan, q: Plan, i: nat)
    requires GoodRules(m) && a.configVersion == b.configVersion
    requires PLAN_KEY in a.runtimeEnv && PLAN_KEY in b.runtimeEnv
    requires a.runtimeEnv - {PLAN_KEY} == b.runtimeEnv - {PLAN_KEY}
    requires m.parsePlan(a.runtimeEnv[PLAN_KEY]) == Some(p) && m.parsePlan(b.runtimeEnv[PLAN_KEY]) == Some(q)
    requires Twins(p, q, i) && ModelSettingsAgree(m, p.reviewers[i], q.reviewers[i])
    ensures Agree(m, a, b)
  {
    hide U, JsonParse, Print, Printable;
    KeysDiffer();
    assert GoodPlan(p) && GoodPlan(q);
    forall j | 0 <= j < |p.reviewers| ensures ReviewersAgree(m, p.reviewers[j], q.reviewers[j]) {
      assert p.reviewers[j] in p.reviewers && q.reviewers[j] in q.reviewers;
    }
    RestEntries(a.runtimeEnv, b.runtimeEnv, {PLAN_KEY}, SETTINGS_KEY);
    DropMore(a.runtimeEnv, b.runtimeEnv);
  }

  lemma DropMore(a: map<Text, Text>, b: map<Text, Text>)
    requires a - {PLAN_KEY} == b - {PLAN_KEY}
    ensures a - {PLAN_KEY, SETTINGS_KEY} == b - {PLAN_KEY, SETTINGS_KEY}
  {
    hide U;
    assert a - {PLAN_KEY, SETTINGS_KEY} == (a - {PLAN_KEY}) - {SETTINGS_KEY};
    assert b - {PLAN_KEY, SETTINGS_KEY} == (b - {PLAN_KEY}) - {SETTINGS_KEY};
  }

  // ---- a run of refreshes ----

  /** What each of the readings uses. */
  function Uses(m: Rules, admitted: Option<RuntimeConfig>, readings: seq<RuntimeConfig>)
      : (used: seq<Option<RuntimeConfig>>)
    ensures |used| == |readings|
    decreases |readings|
  {
    if readings == [] then []
    else
      var (first, next) := Admit(m, admitted, readings[0]);
      [first] + Uses(m, next, readings[1..])
  }

  /** In a run of any length, a read is accepted exactly when it agrees with the first one, and what it then
      uses is the first one: agreement is never chained from refresh to refresh. */
  lemma EveryUseIsFirst(m: Rules, readings: seq<RuntimeConfig>, i: nat)
    requires i < |readings|
    ensures Uses(m, None, readings)[i] ==
      if i == 0 || Agree(m, readings[0], readings[i]) then Some(readings[0]) else None
  {
    hide Agree;
    if i > 0 {
      LaterUse(m, readings[0], readings[1..], i - 1);
    }
  }

  lemma {:induction false} LaterUse(m: Rules, first: RuntimeConfig, readings: seq<RuntimeConfig>, i: nat)
    requires i < |readings|
    ensures Uses(m, Some(first), readings)[i] == if Agree(m, first, readings[i]) then Some(first) else None
    decreases |readings|
  {
    hide Agree;
    if i > 0 {
      LaterUse(m, first, readings[1..], i - 1);
    }
  }
}
