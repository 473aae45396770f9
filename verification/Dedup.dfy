/** `Deduplicator.dedupe` (src/analysis/deduplicator.ts) and the vote keys it merges
    (src/utils/provider-votes.ts). */
module Dedup {
  import opened Options
  import opened Lists
  import opened Texts

  datatype Severity = Minor | Major | Critical

  function Rank(s: Severity): nat {
    match s
    case Critical => 3
    case Major => 2
    case Minor => 1
  }

  datatype ProviderModel = ProviderModel(provider: Text, actualModel: Option<Text>)

  datatype Finding = Finding(
    sourceFindingIds: Option<seq<Text>>,
    file: Text,
    startLine: Option<int>,
    line: int,
    endLine: Option<int>,
    severity: Severity,
    title: Text,
    message: Text,
    suggestion: Option<Text>,
    provider: Option<Text>,
    providers: seq<Text>,
    actualModel: Option<Text>,
    providerModels: seq<ProviderModel>,
    providerVoteKeys: seq<Text>,
    confidence: Option<real>)

  /** The text heuristics: which findings are duplicates, which text reads better, and the merge of model
      attributions. */
  datatype Rules = Rules(
    normalizeFile: Text -> Text,
    isDuplicate: (Finding, Finding) -> bool,
    betterTitle: (Text, Text) -> Text,
    betterText: (Text, Text) -> Text,
    mergeModels: (seq<ProviderModel>, seq<ProviderModel>) -> seq<ProviderModel>)

  /** Duplicates are findings of one file. */
  ghost predicate GoodRules(m: Rules) {
    forall a: Finding, b: Finding :: m.isDuplicate(a, b) ==> m.normalizeFile(a.file) == m.normalizeFile(b.file)
  }

  // ---- vote keys ----

  function TrimStart(t: Text): Text {
    if t != [] && Space(t[0]) then TrimStart(t[1..]) else t
  }

  function TrimEnd(t: Text): (r: Text)
    ensures |r| <= |t|
  {
    if t != [] && Space(t[|t| - 1]) then TrimEnd(t[..|t| - 1]) else t
  }

  const HASH: Unit := 0x23

  /** `/#\d+$/` removed: the digits a text ends with, and the hash before them. */
  function StripSuffix(t: Text): (r: Text)
    ensures |r| <= |t|
  {
    var n := TrailingDigits(t);
    if 0 < n < |t| && t[|t| - n - 1] == HASH then t[..|t| - n - 1] else t
  }

  function TrailingDigits(t: Text): (n: nat)
    ensures n <= |t|
  {
    if t != [] && 0x30 <= t[|t| - 1] <= 0x39 then 1 + TrailingDigits(t[..|t| - 1]) else 0
  }

  /** `stripProviderInstanceSuffix` */
  function Strip(t: Text): (r: Text)
    ensures |r| <= |t|
  {
    TrimLength(t);
    StripSuffix(TrimEnd(TrimStart(t)))
  }

  lemma TrimLength(t: Text)
    ensures |TrimStart(t)| <= |t|
  {
  }

  const OPENROUTER: Text := U("openrouter/")

  /** `normalizeProviderVoteKey` */
  function VoteKey(provider: Option<Text>, actualModel: Option<Text>): Option<Text> {
    var normalized := if provider.Some? then Strip(provider.value) else [];
    if normalized == [] then None
    else
      var actual := if actualModel.Some? then Strip(actualModel.value) else [];
      if OPENROUTER <= normalized && actual != [] then
        Some(if OPENROUTER <= actual then actual else OPENROUTER + actual)
      else Some(normalized)
  }

  function Present(keys: seq<Option<Text>>): (r: seq<Text>)
    ensures forall x :: x in r <==> Some(x) in keys
  {
    if keys == [] then []
    else (if keys[0].Some? then [keys[0].value] else []) + Present(keys[1..])
  }

  function Normalized(keys: seq<Text>): (r: seq<Option<Text>>)
    ensures |r| == |keys| && forall i :: 0 <= i < |r| ==> r[i] == VoteKey(Some(keys[i]), None)
  {
    seq(|keys|, i requires 0 <= i < |keys| => VoteKey(Some(keys[i]), None))
  }

  function KeysOfKeys(keys: seq<Text>): seq<Text> {
    Present(Normalized(keys))
  }

  predicate Attributed(f: Finding, provider: Text) {
    exists i :: 0 <= i < |f.providerModels| && f.providerModels[i].provider == provider
  }

  function ModelKeys(models: seq<ProviderModel>): (r: seq<Option<Text>>)
    ensures |r| == |models|
  {
    seq(|models|, i requires 0 <= i < |models| => VoteKey(Some(models[i].provider), models[i].actualModel))
  }

  function NameKeys(f: Finding): (r: seq<Option<Text>>)
    ensures |r| == |f.providers|
  {
    seq(|f.providers|, i requires 0 <= i < |f.providers| =>
      if Attributed(f, f.providers[i]) then None else VoteKey(Some(f.providers[i]), None))
  }

  function PrimaryKey(f: Finding): Option<Text> {
    if f.provider.Some? && f.provider.value != [] && Attributed(f, f.provider.value) then None
    else VoteKey(f.provider, f.actualModel)
  }

  /** The keys named by the models, the providers and the provider of a finding. */
  function KeysOfProviders(f: Finding): seq<Text> {
    Present(ModelKeys(f.providerModels) + NameKeys(f) + [PrimaryKey(f)])
  }

  /** `getProviderVoteKeys` */
  function GetProviderVoteKeys(f: Finding): (keys: seq<Text>)
    ensures keys != []
  {
    var own := Unique(KeysOfKeys(f.providerVoteKeys));
    if own != [] then own
    else
      var named := Unique(KeysOfProviders(f));
      if named != [] then named else [U("static")]
  }

  // ---- merging ----

  function Max(a: int, b: int): int { if a >= b then a else b }

  function MaxReal(a: real, b: real): real { if a >= b then a else b }

  function Anchor(f: Finding): int {
    if f.startLine.Some? then f.startLine.value else f.line
  }

  function EndOf(f: Finding): int {
    if f.endLine.Some? then f.endLine.value else f.line
  }

  function Ids(f: Finding): seq<Text> {
    if f.sourceFindingIds.Some? then f.sourceFindingIds.value else []
  }

  function Truthy(o: Option<Text>): seq<Text> {
    if o.Some? && o.value != [] then [o.value] else []
  }

  function Filled(s: seq<Text>): seq<Text> {
    if s == [] then [] else (if s[0] != [] then [s[0]] else []) + Filled(s[1..])
  }

  function Confidence(f: Finding): real {
    if f.confidence.Some? then f.confidence.value else 0.0
  }

  /** `mergeFindings` */
  function Merge(m: Rules, existing: Finding, incoming: Finding): Finding {
    existing.(
      sourceFindingIds :=
        if existing.sourceFindingIds.Some? || incoming.sourceFindingIds.Some?
        then Some(Sort(Unique(Ids(existing) + Ids(incoming)), Self))
        else None,
      startLine :=
        if existing.startLine.None? && incoming.startLine.None? then None
        else Some(Min(Anchor(existing), Anchor(incoming))),
      line := Max(existing.line, incoming.line),
      endLine :=
        if existing.endLine.None? && incoming.endLine.None? then None
        else Some(Max(EndOf(existing), EndOf(incoming))),
      severity := if Rank(incoming.severity) > Rank(existing.severity) then incoming.severity else existing.severity,
      title := m.betterTitle(existing.title, incoming.title),
      message := m.betterText(existing.message, incoming.message),
      suggestion := if Truthy(existing.suggestion) != [] then existing.suggestion else incoming.suggestion,
      confidence := Some(MaxReal(Confidence(existing), Confidence(incoming))),
      providers := Unique(Filled(existing.providers + incoming.providers)
                          + Truthy(existing.provider) + Truthy(incoming.provider)),
      providerModels := m.mergeModels(existing.providerModels, incoming.providerModels),
      providerVoteKeys := Unique(GetProviderVoteKeys(existing) + GetProviderVoteKeys(incoming)))
  }

  function WithProviderVoteKeys(f: Finding): Finding {
    f.(providerVoteKeys := GetProviderVoteKeys(f))
  }

  // ---- clusters ----

  /** An output and the inputs, by position, that went into it. */
  datatype Cluster = Cluster(out: Finding, members: seq<nat>)

  /** `findIndex`: the first output the finding duplicates, or the number of outputs. */
  function FirstDuplicate(m: Rules, cs: seq<Cluster>, f: Finding): (i: nat)
    ensures i <= |cs| && (i < |cs| ==> m.isDuplicate(cs[i].out, f))
  {
    if cs == [] then 0
    else if m.isDuplicate(cs[0].out, f) then 0
    else 1 + FirstDuplicate(m, cs[1..], f)
  }

  function Placed(m: Rules, cs: seq<Cluster>, f: Finding, k: nat): seq<Cluster> {
    var i := FirstDuplicate(m, cs, f);
    if i == |cs| then cs + [Cluster(WithProviderVoteKeys(f), [k])]
    else cs[i := Cluster(Merge(m, cs[i].out, f), cs[i].members + [k])]
  }

  function Clusters(m: Rules, findings: seq<Finding>): seq<Cluster> {
    if findings == [] then []
    else
      var n := |findings| - 1;
      Placed(m, Clusters(m, findings[..n]), findings[n], n)
  }

  function Outs(cs: seq<Cluster>): (outs: seq<Finding>)
    ensures |outs| == |cs| && forall i :: 0 <= i < |cs| ==> outs[i] == cs[i].out
  {
    seq(|cs|, i requires 0 <= i < |cs| => cs[i].out)
  }

  /** The loop over the findings, with the outputs replaced in place. */
  method Dedupe(m: Rules, findings: seq<Finding>) returns (deduped: seq<Finding>)
    ensures deduped == Outs(Clusters(m, findings))
  {
    hide Merge, WithProviderVoteKeys;
    deduped := [];
    ghost var cs: seq<Cluster> := [];
    for n := 0 to |findings|
      invariant cs == Clusters(m, findings[..n])
      invariant deduped == Outs(cs)
    {
      assert findings[..n + 1][..n] == findings[..n];
      var f := findings[n];
      var i := 0;
      while i < |deduped| && !m.isDuplicate(deduped[i], f)
        invariant i <= |deduped|
        invariant FirstDuplicate(m, cs, f) == i + FirstDuplicate(m, cs[i..], f)
      {
        assert cs[i..][1..] == cs[i + 1..];
        i := i + 1;
      }
      cs := Placed(m, cs, f, n);
      if i == |deduped| {
        deduped := deduped + [WithProviderVoteKeys(f)];
      } else {
        deduped := deduped[i := Merge(m, deduped[i], f)];
      }
    }
    assert findings[..|findings|] == findings;
  }
}
