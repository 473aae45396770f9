/** `assertAccountGatewayRuntimeConfigContinuity` and `readCapability`
    (src/codex-oauth/account-gateway-runtime.ts): what a refreshed checkout may change. */
module Continuity {
  import opened Options
  import opened Texts
  import opened Json

  /** `canonicalJson` of a record of strings tells two records apart exactly when they differ as maps. */
  datatype RuntimeConfig = RuntimeConfig(configVersion: int, runtimeEnv: map<Text, Text>)

  /** A reviewer of a plan: `stable` is the row without its availability and model settings. */
  datatype Reviewer = Reviewer(
    reviewerId: Text,
    stable: Json,
    unavailableReason: Option<Text>,
    modelSettings: Option<Json>)

  /** A parsed plan: `fixed` is the plan without its reviewers. */
  datatype Plan = Plan(primaryReviewerId: Text, fixed: Json, reviewers: seq<Reviewer>)

  datatype Rules = Rules(codec: NumberCodec, parsePlan: Text -> Option<Plan>)

  /** A parsed plan starts with its primary reviewer and can be printed. */
  ghost predicate GoodPlan(p: Plan) {
    && p.reviewers != [] && p.reviewers[0].reviewerId == p.primaryReviewerId
    && Printable(p.fixed)
    && (forall r | r in p.reviewers ::
          Printable(r.stable) && (r.modelSettings.Some? ==> Printable(r.modelSettings.value)))
  }

  ghost predicate GoodRules(m: Rules) {
    forall t :: m.parsePlan(t).Some? ==> GoodPlan(m.parsePlan(t).value)
  }

  const PLAN_KEY: Text := U("REVIEW_ROUTER_REVIEWER_PLAN_JSON")
  const SETTINGS_KEY: Text := U("REVIEW_ROUTER_GATEWAY_MODEL_SETTINGS_JSON")

  /** Both values print, and to the same text. */
  predicate EqualJson(m: Rules, v: Json, w: Json) {
    CanonicalJson(m.codec, v).Success? && CanonicalJson(m.codec, v) == CanonicalJson(m.codec, w)
  }

  function Entry(env: map<Text, Text>, key: Text): Option<Text> {
    if key in env then Some(env[key]) else None
  }

  // ---- what continuity means ----

  /** Settings agree, or one side has none and is unavailable. */
  predicate Absent<T>(x: Option<T>, xUnavailable: bool, y: Option<T>, yUnavailable: bool) {
    (x.Some? && y.None? ==> yUnavailable) && (x.None? && y.Some? ==> xUnavailable)
  }

  predicate ModelSettingsAgree(m: Rules, r: Reviewer, s: Reviewer) {
    && (r.modelSettings.Some? && s.modelSettings.Some? ==> EqualJson(m, r.modelSettings.value, s.modelSettings.value))
    && Absent(r.modelSettings, r.unavailableReason.Some?, s.modelSettings, s.unavailableReason.Some?)
  }

  predicate ReviewersAgree(m: Rules, r: Reviewer, s: Reviewer) {
    EqualJson(m, r.stable, s.stable) && ModelSettingsAgree(m, r, s)
  }

  predicate SettingsTextsAgree(m: Rules, x: Text, y: Text) {
    var v, w := JsonParse(m.codec, x), JsonParse(m.codec, y);
    v.Success? && w.Success? && EqualJson(m, v.value, w.value)
  }

  predicate SettingsAgree(m: Rules, x: Option<Text>, xUnavailable: bool, y: Option<Text>, yUnavailable: bool) {
    || x == y
    || (&& Absent(x, xUnavailable, y, yUnavailable)
        && (x.Some? && y.Some? ==> SettingsTextsAgree(m, x.value, y.value)))
  }

  predicate PlansAgree(m: Rules, p: Plan, q: Plan) {
    && EqualJson(m, p.fixed, q.fixed) && |p.reviewers| == |q.reviewers|
    && forall i | 0 <= i < |p.reviewers| :: ReviewersAgree(m, p.reviewers[i], q.reviewers[i])
  }

  /** Two configurations agree on everything except reviewer availability and the settings that an
      unavailable side lacks. */
  predicate Agree(m: Rules, a: RuntimeConfig, b: RuntimeConfig) {
    && a.configVersion == b.configVersion
    && if PLAN_KEY !in a.runtimeEnv || PLAN_KEY !in b.runtimeEnv then a.runtimeEnv == b.runtimeEnv
       else
         var p, q := m.parsePlan(a.runtimeEnv[PLAN_KEY]), m.parsePlan(b.runtimeEnv[PLAN_KEY]);
         && p.Some? && q.Some? && PlansAgree(m, p.value, q.value)
         && p.value.reviewers != [] && q.value.reviewers != []
         && SettingsAgree(m, Entry(a.runtimeEnv, SETTINGS_KEY), p.value.reviewers[0].unavailableReason.Some?,
                          Entry(b.runtimeEnv, SETTINGS_KEY), q.value.reviewers[0].unavailableReason.Some?)
         && a.runtimeEnv - {PLAN_KEY, SETTINGS_KEY} == b.runtimeEnv - {PLAN_KEY, SETTINGS_KEY}
  }

  // ---- the check as the source writes it ----

  /** `reviewers.find(reviewer => reviewer.reviewerId === id)` */
  function Find(reviewers: seq<Reviewer>, id: Text): Option<Reviewer> {
    if reviewers == [] then None
    else if reviewers[0].reviewerId == id then Some(reviewers[0])
    else Find(reviewers[1..], id)
  }

  /** False where the source throws. */
  method AssertContinuity(m: Rules, initial: RuntimeConfig, current: RuntimeConfig) returns (ok: bool)
    requires GoodRules(m)
    ensures ok <==> Agree(m, initial, current)
  {
    hide CanonicalJson, JsonParse, U;
    KeysDiffer();
    if initial.configVersion != current.configVersion {
      return false;
    }
    if PLAN_KEY !in initial.runtimeEnv || PLAN_KEY !in current.runtimeEnv {
      return initial.runtimeEnv == current.runtimeEnv;
    }
    var firstJson, nextJson := initial.runtimeEnv[PLAN_KEY], current.runtimeEnv[PLAN_KEY];
    if m.parsePlan(firstJson).None? || m.parsePlan(nextJson).None? {
      return false;
    }
    var first, next := m.parsePlan(firstJson).value, m.parsePlan(nextJson).value;
    if !EqualJson(m, first.fixed, next.fixed) || |first.reviewers| != |next.reviewers| {
      return false;
    }
    for i := 0 to |first.reviewers|
      invariant forall j | 0 <= j < i :: ReviewersAgree(m, first.reviewers[j], next.reviewers[j])
    {
      var reviewer, currentReviewer := first.reviewers[i], next.reviewers[i];
      var firstSettings, nextSettings := reviewer.modelSettings, currentReviewer.modelSettings;
      if || !EqualJson(m, reviewer.stable, currentReviewer.stable)
         || (firstSettings.Some? && nextSettings.Some? && !EqualJson(m, firstSettings.value, nextSettings.value))
         || (firstSettings.Some? && nextSettings.None? && currentReviewer.unavailableReason.None?)
         || (firstSettings.None? && nextSettings.Some? && reviewer.unavailableReason.None?) {
        return false;
      }
    }
    var normalized := current.runtimeEnv[PLAN_KEY := firstJson];
    var firstSettings, nextSettings := Entry(initial.runtimeEnv, SETTINGS_KEY), Entry(current.runtimeEnv, SETTINGS_KEY);
    assert GoodPlan(first) && GoodPlan(next);
    var firstPrimary := Find(first.reviewers, first.primaryReviewerId).value;
    var nextPrimary := Find(next.reviewers, next.primaryReviewerId).value;
    if firstSettings != nextSettings {
      if || (firstSettings.Some? && nextSettings.None? && nextPrimary.unavailableReason.None?)
         || (firstSettings.None? && nextSettings.Some? && firstPrimary.unavailableReason.None?) {
        return false;
      }
      if firstSettings.Some? && nextSettings.Some? && !SettingsTextsAgree(m, firstSettings.value, nextSettings.value) {
        return false;
      }
      if firstSettings.None? {
        normalized := normalized - {SETTINGS_KEY};
      } else {
        normalized := normalized[SETTINGS_KEY := firstSettings.value];
      }
    }
    NormalizedIsRest(initial.runtimeEnv, current.runtimeEnv, normalized);
    return initial.runtimeEnv == normalized;
  }

  lemma KeysDiffer()
    ensures PLAN_KEY != SETTINGS_KEY
  {
    assert |PLAN_KEY| == 32 && |SETTINGS_KEY| == 41;
  }

  /** With plan and settings taken from the first side, equality is equality of the rest. */
  lemma NormalizedIsRest(initial: map<Text, Text>, current: map<Text, Text>, normalized: map<Text, Text>)
    requires PLAN_KEY in initial && PLAN_KEY in current && PLAN_KEY != SETTINGS_KEY
    requires Entry(normalized, PLAN_KEY) == Entry(initial, PLAN_KEY)
    requires Entry(normalized, SETTINGS_KEY) == Entry(initial, SETTINGS_KEY)
    requires forall k :: k != PLAN_KEY && k != SETTINGS_KEY ==> Entry(normalized, k) == Entry(current, k)
    ensures initial == normalized <==> initial - {PLAN_KEY, SETTINGS_KEY} == current - {PLAN_KEY, SETTINGS_KEY}
  {
    hide U;
    var drop := {PLAN_KEY, SETTINGS_KEY};
    if initial - drop == current - drop {
      forall k ensures Entry(initial, k) == Entry(normalized, k) {
        if k !in drop {
          assert Entry(initial - drop, k) == Entry(initial, k) && Entry(current - drop, k) == Entry(current, k);
        }
      }
      SameEntries(initial, normalized);
    }
    if initial == normalized {
      forall k ensures Entry(initial - drop, k) == Entry(current - drop, k) {
        assert k !in drop ==> Entry(initial, k) == Entry(current, k);
      }
      SameEntries(initial - drop, current - drop);
    }
  }

  lemma SameEntries(a: map<Text, Text>, b: map<Text, Text>)
    requires forall k :: Entry(a, k) == Entry(b, k)
    ensures a == b
  {
    forall k ensures k in a <==> k in b {
      assert Entry(a, k) == Entry(b, k);
    }
    forall k | k in a ensures a[k] == b[k] {
      assert Entry(a, k) == Entry(b, k);
    }
  }

  // ---- the capability reader ----

  /** The first configuration read is the one every capability carries. */
  class CapabilityReader {
    const m: Rules
    var admittedRuntimeConfig: Option<RuntimeConfig>

    constructor (m: Rules)
      ensures this.m == m && admittedRuntimeConfig == None
    {
      this.m := m;
      admittedRuntimeConfig := None;
    }

    /** None where the source throws. */
    method ReadCapability(runtimeConfig: RuntimeConfig) returns (used: Option<RuntimeConfig>)
      requires GoodRules(m)
      modifies this
      ensures (used, admittedRuntimeConfig) == Admit(m, old(admittedRuntimeConfig), runtimeConfig)
    {
      if admittedRuntimeConfig.Some? {
        var ok := AssertContinuity(m, admittedRuntimeConfig.value, runtimeConfig);
        if !ok {
          return None;
        }
      } else {
        admittedRuntimeConfig := Some(runtimeConfig);
      }
      return admittedRuntimeConfig;
    }
  }

  /** The configuration used and the one remembered. */
  function Admit(m: Rules, admitted: Option<RuntimeConfig>, read: RuntimeConfig)
      : (Option<RuntimeConfig>, Option<RuntimeConfig>)
  {
    if admitted.None? then (Some(read), Some(read))
    else if Agree(m, admitted.value, read) then (admitted, admitted)
    else (None, admitted)
  }
}
