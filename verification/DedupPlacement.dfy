/** Which output each finding goes to, and what an output holds of the parts that went into it. */
module DedupPlacement {
  import opened Options
  import opened Lists
  import opened Texts
  import opened Dedup
  import opened DedupLaws

  // ---- placement ----

  /** The outputs of the first k findings. */
  function OutputsOf(m: Rules, findings: seq<Finding>, k: nat): seq<Finding>
    requires k <= |findings|
  {
    Outs(Clusters(m, findings[..k]))
  }

  /** The finding duplicates the i-th output and no earlier one. */
  ghost predicate EarliestDuplicate(m: Rules, outs: seq<Finding>, f: Finding, i: nat) {
    && i < |outs| && m.isDuplicate(outs[i], f)
    && forall j :: 0 <= j < i ==> !m.isDuplicate(outs[j], f)
  }

  ghost predicate Duplicates(m: Rules, outs: seq<Finding>, f: Finding) {
    exists i :: 0 <= i < |outs| && m.isDuplicate(outs[i], f)
  }

  lemma {:induction false} FirstIsEarliest(m: Rules, cs: seq<Cluster>, f: Finding)
    ensures var i := FirstDuplicate(m, cs, f);
      && (i < |cs| ==> EarliestDuplicate(m, Outs(cs), f, i))
      && (i == |cs| <==> !Duplicates(m, Outs(cs), f))
  {
    if cs != [] && !m.isDuplicate(cs[0].out, f) {
      var rest := cs[1..];
      FirstIsEarliest(m, rest, f);
      assert forall j :: 0 <= j < |rest| ==> Outs(cs)[j + 1] == Outs(rest)[j];
      if Duplicates(m, Outs(cs), f) {
        var j :| 0 <= j < |cs| && m.isDuplicate(Outs(cs)[j], f);
        assert m.isDuplicate(Outs(rest)[j - 1], f);
      }
    } else if cs != [] {
      assert m.isDuplicate(Outs(cs)[0], f);
    }
  }

  /** Finding k opens an output if and only if it duplicates none of those before it; otherwise it joins the earliest
      one that it duplicates. Whatever it does, the other outputs stay, and in their places. */
  lemma PlacementIff(m: Rules, findings: seq<Finding>, k: nat)
    requires k < |findings|
    ensures var before, after := OutputsOf(m, findings, k), OutputsOf(m, findings, k + 1);
      && (Duplicates(m, before, findings[k]) <==> |after| == |before|)
      && (!Duplicates(m, before, findings[k]) ==> after == before + [WithProviderVoteKeys(findings[k])])
      && forall i: nat | EarliestDuplicate(m, before, findings[k], i) ::
           after == before[i := Merge(m, before[i], findings[k])]
  {
    hide Merge, WithProviderVoteKeys;
    var cs, f := Clusters(m, findings[..k]), findings[k];
    assert findings[..k + 1][..k] == findings[..k];
    assert Clusters(m, findings[..k + 1]) == Placed(m, cs, f, k);
    FirstIsEarliest(m, cs, f);
    var at := FirstDuplicate(m, cs, f);
    if at == |cs| {
      assert Outs(cs + [Cluster(WithProviderVoteKeys(f), [k])]) == Outs(cs) + [WithProviderVoteKeys(f)];
    } else {
      var merged := Merge(m, cs[at].out, f);
      assert Outs(cs[at := Cluster(merged, cs[at].members + [k])]) == Outs(cs)[at := merged];
      assert m.isDuplicate(Outs(cs)[at], f);
    }
  }

  /** And by position: the finding is a member of the cluster it opened or joined. */
  lemma JoinsIff(m: Rules, findings: seq<Finding>, k: nat)
    requires k < |findings|
    ensures var before, after := Clusters(m, findings[..k]), Clusters(m, findings[..k + 1]);
      && (!Duplicates(m, OutputsOf(m, findings, k), findings[k]) ==>
            |after| == |before| + 1 && after[..|before|] == before && after[|before|].members == [k])
      && forall i: nat | EarliestDuplicate(m, OutputsOf(m, findings, k), findings[k], i) ::
           && |after| == |before| && after[i].members == before[i].members + [k]
           && forall j | 0 <= j < |before| && j != i :: after[j] == before[j]
  {
    hide Merge, WithProviderVoteKeys;
    var cs, f := Clusters(m, findings[..k]), findings[k];
    assert findings[..k + 1][..k] == findings[..k];
    assert Clusters(m, findings[..k + 1]) == Placed(m, cs, f, k);
    FirstIsEarliest(m, cs, f);
    forall i: nat | EarliestDuplicate(m, Outs(cs), f, i) ensures i == FirstDuplicate(m, cs, f) {
    }
  }

  // ---- the other fields of an output ----

  /** The first suggestion that is not empty, or else the last one. */
  ghost predicate FirstFilled(parts: seq<Finding>, suggestion: Option<Text>) {
    && parts != []
    && (if Truthy(suggestion) != [] then
          exists i :: 0 <= i < |parts| && parts[i].suggestion == suggestion
            && forall j :: 0 <= j < i ==> Truthy(parts[j].suggestion) == []
        else
          && parts[|parts| - 1].suggestion == suggestion
          && forall j :: 0 <= j < |parts| ==> Truthy(parts[j].suggestion) == [])
  }

  /** The provider is named by a part. */
  ghost predicate Names(parts: seq<Finding>, x: Text) {
    x != [] && exists f :: f in parts && (x in f.providers || f.provider == Some(x))
  }

  /** What `better` chooses, text by text. */
  function Best(better: (Text, Text) -> Text, texts: seq<Text>): Text
    requires texts != []
  {
    var last := |texts| - 1;
    if last == 0 then texts[0] else better(Best(better, texts[..last]), texts[last])
  }

  function Titles(parts: seq<Finding>): seq<Text> {
    seq(|parts|, i requires 0 <= i < |parts| => parts[i].title)
  }

  function Messages(parts: seq<Finding>): seq<Text> {
    seq(|parts|, i requires 0 <= i < |parts| => parts[i].message)
  }

  /** The fields that no other law speaks of. */
  ghost predicate Gathers(m: Rules, parts: seq<Finding>, out: Finding) {
    && parts != []
    && out.file == parts[0].file && out.provider == parts[0].provider && out.actualModel == parts[0].actualModel
    && (forall f | f in parts :: f.line <= out.line) && (exists f :: f in parts && f.line == out.line)
    && (forall f | f in parts :: Confidence(f) <= Confidence(out))
    && (exists f :: f in parts && Confidence(f) == Confidence(out))
    && (out.startLine.Some? <==> exists f :: f in parts && f.startLine.Some?)
    && (out.endLine.Some? <==> exists f :: f in parts && f.endLine.Some?)
    && FirstFilled(parts, out.suggestion)
    && out.title == Best(m.betterTitle, Titles(parts)) && out.message == Best(m.betterText, Messages(parts))
  }

  ghost predicate NamesAll(parts: seq<Finding>, out: Finding) {
    if |parts| == 1 then out.providers == parts[0].providers
    else Distinct(out.providers) && forall x :: x in out.providers <==> Names(parts, x)
  }

  /** Every output has the file, provider and model of its first part, the largest line and confidence, a start line and
      an end line when a part has one, the first
      suggestion that is not empty, the title and message that are chosen part by part, and, when findings were merged,
      each provider that any of them names, once. */
  lemma {:induction false} FoldGathers(m: Rules, parts: seq<Finding>)
    requires parts != []
    ensures Gathers(m, parts, Fold(m, parts)) && NamesAll(parts, Fold(m, parts))
  {
    hide Merge, Gathers, NamesAll, WithProviderVoteKeys;
    var last := |parts| - 1;
    if last == 0 {
      OneGathers(m, parts[0]);
      assert parts == [parts[0]];
    } else {
      var front, f := parts[..last], parts[last];
      FoldGathers(m, front);
      FoldMore(m, front, f);
      assert parts == front + [f];
      MergeGathers(m, front, Fold(m, front), f);
      MergeNames(m, front, Fold(m, front), f);
    }
  }

  lemma OneGathers(m: Rules, f: Finding)
    ensures Gathers(m, [f], WithProviderVoteKeys(f)) && NamesAll([f], WithProviderVoteKeys(f))
  {
    hide GetProviderVoteKeys;
    assert f in [f] && [f][0] == f && Titles([f]) == [f.title] && Messages([f]) == [f.message];
  }

  lemma MergeGathers(m: Rules, parts: seq<Finding>, e: Finding, f: Finding)
    requires Gathers(m, parts, e)
    ensures Gathers(m, parts + [f], Merge(m, e, f))
  {
    hide FirstFilled, GetProviderVoteKeys, Unique, Sort, Filled, Best;
    var out, longer := Merge(m, e, f), parts + [f];
    Appended(parts, f);
    BestMore(m.betterTitle, Titles(parts), f.title);
    BestMore(m.betterText, Messages(parts), f.message);
    assert Titles(longer) == Titles(parts) + [f.title] && Messages(longer) == Messages(parts) + [f.message];
    FilledMore(parts, e.suggestion, f);
    KnownMore(parts, e, f);
    LargestMore(parts, e, f, out);
    assert longer[0] == parts[0];
  }

  /** The largest line and confidence of one part more. */
  lemma LargestMore(parts: seq<Finding>, e: Finding, f: Finding, out: Finding)
    requires forall g | g in parts :: g.line <= e.line && Confidence(g) <= Confidence(e)
    requires exists g :: g in parts && g.line == e.line
    requires exists g :: g in parts && Confidence(g) == Confidence(e)
    requires out.line == Max(e.line, f.line) && Confidence(out) == MaxReal(Confidence(e), Confidence(f))
    ensures forall g | g in parts + [f] :: g.line <= out.line && Confidence(g) <= Confidence(out)
    ensures exists g :: g in parts + [f] && g.line == out.line
    ensures exists g :: g in parts + [f] && Confidence(g) == Confidence(out)
  {
    hide Confidence;
    var l :| l in parts && l.line == e.line;
    var c :| c in parts && Confidence(c) == Confidence(e);
    assert l in parts + [f] && c in parts + [f] && f in parts + [f];
  }

  lemma KnownMore(parts: seq<Finding>, e: Finding, f: Finding)
    requires e.startLine.Some? <==> exists g :: g in parts && g.startLine.Some?
    requires e.endLine.Some? <==> exists g :: g in parts && g.endLine.Some?
    ensures e.startLine.Some? || f.startLine.Some? <==> exists g :: g in parts + [f] && g.startLine.Some?
    ensures e.endLine.Some? || f.endLine.Some? <==> exists g :: g in parts + [f] && g.endLine.Some?
  {
    Appended(parts, f);
    assert f in parts + [f];
    if g :| g in parts && g.startLine.Some? {
      assert g in parts + [f];
    }
    if g :| g in parts && g.endLine.Some? {
      assert g in parts + [f];
    }
  }

  lemma BestMore(better: (Text, Text) -> Text, texts: seq<Text>, t: Text)
    requires texts != []
    ensures Best(better, texts + [t]) == better(Best(better, texts), t)
  {
    assert (texts + [t])[..|texts|] == texts;
  }

  lemma FilledMore(parts: seq<Finding>, suggestion: Option<Text>, f: Finding)
    requires FirstFilled(parts, suggestion)
    ensures FirstFilled(parts + [f], if Truthy(suggestion) != [] then suggestion else f.suggestion)
  {
    var longer := parts + [f];
    if Truthy(suggestion) != [] {
      var i :| 0 <= i < |parts| && parts[i].suggestion == suggestion
        && forall j :: 0 <= j < i ==> Truthy(parts[j].suggestion) == [];
      assert longer[i].suggestion == suggestion;
    } else {
      assert longer[|parts|] == f;
    }
  }

  lemma FilledMembers(s: seq<Text>)
    ensures forall x :: x in Filled(s) <==> x != [] && x in s
  {
    if s != [] {
      FilledMembers(s[1..]);
      assert s == [s[0]] + s[1..];
    }
  }

  lemma MergeNames(m: Rules, parts: seq<Finding>, e: Finding, f: Finding)
    requires Gathers(m, parts, e) && NamesAll(parts, e)
    ensures NamesAll(parts + [f], Merge(m, e, f))
  {
    hide GetProviderVoteKeys, Filled, Sort;
    var longer := parts + [f];
    var listed := Filled(e.providers + f.providers) + Truthy(e.provider) + Truthy(f.provider);
    FilledMembers(e.providers + f.providers);
    UniqueDistinct(listed);
    MergedProviders(m, e, f);
    Appended(parts, f);
    assert parts[0] in parts;
    forall x ensures x in listed <==> Names(longer, x) {
      NamesMore(parts, e, f, x);
    }
  }

  lemma MergedProviders(m: Rules, e: Finding, f: Finding)
    ensures Merge(m, e, f).providers
         == Unique(Filled(e.providers + f.providers) + Truthy(e.provider) + Truthy(f.provider))
  {
    hide GetProviderVoteKeys, Filled, Sort, Unique;
  }

  lemma NamesMore(parts: seq<Finding>, e: Finding, f: Finding, x: Text)
    requires NamesAll(parts, e) && parts != [] && e.provider == parts[0].provider
    ensures Names(parts + [f], x) <==>
      x != [] && (x in e.providers || x in f.providers || e.provider == Some(x) || f.provider == Some(x))
  {
    var longer := parts + [f];
    Appended(parts, f);
    if Names(parts, x) {
      var g :| g in parts && (x in g.providers || g.provider == Some(x));
      assert g in longer;
    }
    assert f in longer && parts[0] in parts && parts[0] in longer;
    if |parts| == 1 {
      assert parts == [parts[0]];
    }
    if Names(longer, x) {
      var g :| g in longer && (x in g.providers || g.provider == Some(x));
      if g in parts && |parts| > 1 {
        assert Names(parts, x);
      }
    }
  }
}
