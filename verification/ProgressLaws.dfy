/** What every interleaving of reports, finishes and publisher completions keeps. */
module ProgressLaws {
  import opened Progress

  datatype Step =
    | Report(event: Event, now: int)
    | Finish(outcome: Outcome, publisher: nat, finishedAt: int)
    | Advance
    | Settle

  function Apply(r: Reporter, s: Step): Reporter {
    match s
    case Report(event, now) => Reported(r, event, now)
    case Finish(outcome, publisher, now) => if outcome == Nothing then r else Finished(r, outcome, publisher, now)
    case Advance => Advanced(r)
    case Settle => Settled(r)
  }

  /** What has happened so far: the links ever queued, and of those that reached the front of the chain,
      which were handed to the publisher. */
  datatype History = History(queued: seq<Task>, verdicts: seq<bool>)

  function Queues(r: Reporter, s: Step): seq<Task> {
    if (s.Report? || s.Finish?) && |Apply(r, s).chain| > |r.chain| then Apply(r, s).chain[|r.chain|..] else []
  }

  function Extended(h: History, r: Reporter, s: Step): History {
    History(h.queued + Queues(r, s),
            h.verdicts + (if s.Advance? && Skips(r) then [false] else if s.Advance? && Begins(r) then [true] else []))
  }

  datatype World = World(r: Reporter, h: History)

  /** The world after the steps. */
  function Run(w: World, steps: seq<Step>): World {
    if steps == [] then w
    else
      var before := Run(w, steps[..|steps| - 1]);
      var s := steps[|steps| - 1];
      World(Apply(before.r, s), Extended(before.h, before.r, s))
  }

  function Start(publisher: nat, interval: int): World {
    World(NewReporter(publisher, interval), History([], []))
  }

  /** The links handed to the publisher, in the order of the queue. */
  function Published(queued: seq<Task>, verdicts: seq<bool>): seq<Task>
    requires |verdicts| <= |queued|
  {
    if verdicts == [] then []
    else
      var n := |verdicts| - 1;
      Published(queued, verdicts[..n]) + (if verdicts[n] then [queued[n]] else [])
  }

  /** The chain is the unsettled end of the queue, one link is being published at most, only a run that was
      cancelled leaves links out and never a cancelled one, and the newest link carries the outcome. */
  ghost predicate Sound(w: World) {
    var r, h := w.r, w.h;
    && |h.verdicts| + |r.chain| == |h.queued| + (if r.publishing then 1 else 0)
    && (r.publishing ==> r.chain != [] && h.verdicts != [] && h.verdicts[|h.verdicts| - 1])
    && h.queued[|h.queued| - |r.chain|..] == r.chain
    && (forall i :: 0 <= i < |h.verdicts| && !h.verdicts[i] ==>
          r.terminal == Cancelled && h.queued[i].snapshot.terminal != Cancelled)
    && (r.terminal != Nothing ==> h.queued != [] && h.queued[|h.queued| - 1].snapshot.terminal == r.terminal)
  }

  // ---- single steps ----

  /** Queueing adds one link at most, and it carries the state it was taken from. */
  lemma QueuedLink(r: Reporter, s: Step)
    ensures Queues(r, s) == [] ||
      (|Queues(r, s)| == 1 && Queues(r, s)[0].snapshot.terminal == Apply(r, s).terminal
       && Queues(r, s)[0].snapshot.counts == CountsOf(Apply(r, s).slots))
    ensures s.Report? || s.Finish? ==>
      Apply(r, s).chain == r.chain + Queues(r, s) && Apply(r, s).publishing == r.publishing
    ensures Apply(r, s).terminal != r.terminal ==> |Queues(r, s)| == 1
  {
    hide CountsOf, InitialSlots;
    if s.Report? && !UnknownSlot(r, s.event) {
      EnqueuedLink(Noted(r, s.event), s.event.Initialized?, r.publisher, s.now);
    } else if s.Finish? && s.outcome != Nothing && Replaces(r, s.outcome, s.publisher) {
      EnqueuedLink(r.(phase := Terminal, terminal := s.outcome), true, s.publisher, s.finishedAt);
    }
  }

  lemma EnqueuedLink(r: Reporter, force: bool, publisher: nat, now: int)
    ensures var q := Enqueue(r, force, publisher, now);
      q == r || (q.chain[|r.chain|..] == [Task(publisher, SnapshotOf(r, now), force)])
  {
  }

  /** The outcome moves from none to any, from any to cancelled, or from complete to failed through another
      publisher, and in no other way. */
  lemma OutcomeMoves(r: Reporter, s: Step)
    ensures Apply(r, s).terminal != r.terminal <==>
      && s.Finish? && s.outcome != Nothing && s.outcome != r.terminal
      && (|| r.terminal == Nothing
          || s.outcome == Cancelled
          || (r.terminal in {Complete, CompleteWithGaps} && s.outcome == Failed && s.publisher != r.publisher))
    ensures Apply(r, s).terminal != r.terminal ==> Apply(r, s).terminal == s.outcome
  {
  }

  lemma StepIsSound(w: World, s: Step)
    requires Sound(w)
    ensures Sound(World(Apply(w.r, s), Extended(w.h, w.r, s)))
  {
    hide CountsOf, InitialSlots;
    var r, h := w.r, w.h;
    if s.Advance? {
      AdvanceIsSound(w);
    } else if s.Settle? {
      SettleIsSound(w);
    } else {
      QueuedLink(r, s);
      hide Apply, Queues, Sound;
      assert Extended(h, r, s) == History(h.queued + Queues(r, s), h.verdicts);
      OutcomeMoves(r, s);
      assert Apply(r, s).terminal != r.terminal ==> r.terminal != Cancelled by {
        CancelledStays(r, s);
      }
      QueueingIsSound(w, Apply(r, s), Queues(r, s));
    }
  }

  lemma CancelledStays(r: Reporter, s: Step)
    ensures r.terminal == Cancelled ==> Apply(r, s).terminal == Cancelled
  {
    hide CountsOf, InitialSlots;
  }

  lemma AdvanceIsSound(w: World)
    requires Sound(w)
    ensures Sound(World(Apply(w.r, Advance), Extended(w.h, w.r, Advance)))
  {
    var r, h := w.r, w.h;
    assert h.queued + [] == h.queued;
    if r.chain != [] && !r.publishing {
      assert r.chain[0] == h.queued[|h.verdicts|];
      assert h.queued[|h.queued| - |r.chain|..][1..] == r.chain[1..];
    } else {
      assert h.verdicts + [] == h.verdicts;
    }
  }

  lemma SettleIsSound(w: World)
    requires Sound(w)
    ensures Sound(World(Apply(w.r, Settle), Extended(w.h, w.r, Settle)))
  {
    var r, h := w.r, w.h;
    assert h.queued + [] == h.queued && h.verdicts + [] == h.verdicts;
    if r.publishing {
      assert h.queued[|h.queued| - |r.chain|..][1..] == r.chain[1..];
    }
  }

  lemma QueueingIsSound(w: World, r: Reporter, added: seq<Task>)
    requires Sound(w) && r.chain == w.r.chain + added && r.publishing == w.r.publishing
    requires added == [] || (|added| == 1 && added[0].snapshot.terminal == r.terminal)
    requires r.terminal != w.r.terminal ==> |added| == 1 && w.r.terminal != Cancelled
    ensures Sound(World(r, History(w.h.queued + added, w.h.verdicts)))
  {
    var queued := w.h.queued + added;
    assert queued[|queued| - |r.chain|..] == r.chain;
  }

  lemma {:induction false} RunIsSound(w: World, steps: seq<Step>)
    requires Sound(w)
    ensures Sound(Run(w, steps))
  {
    hide Sound, Apply, Extended;
    if steps != [] {
      RunIsSound(w, steps[..|steps| - 1]);
      StepIsSound(Run(w, steps[..|steps| - 1]), steps[|steps| - 1]);
    }
  }

  lemma StartIsSound(publisher: nat, interval: int)
    ensures Sound(Start(publisher, interval))
  {
    var queued: seq<Task> := [];
    assert queued[0..] == [];
  }

  // ---- whole runs ----

  /** Every run: the links published so far are the queue's front in its order, without a gap unless the run
      was cancelled; a cancelled link is never left out; one publication is under way at most. */
  lemma PublishedInOrder(publisher: nat, interval: int, steps: seq<Step>)
    ensures var w := Run(Start(publisher, interval), steps);
      && |w.h.verdicts| <= |w.h.queued|
      && (w.r.terminal != Cancelled ==> Published(w.h.queued, w.h.verdicts) == w.h.queued[..|w.h.verdicts|])
      && (forall i :: 0 <= i < |w.h.verdicts| && w.h.queued[i].snapshot.terminal == Cancelled ==> w.h.verdicts[i])
      && (w.r.publishing ==> w.r.chain != [] && w.h.verdicts != [] && w.r.chain[0] == w.h.queued[|w.h.verdicts| - 1])
  {
    hide Run;
    RunIsSound(Start(publisher, interval), steps);
    var w := Run(Start(publisher, interval), steps);
    if w.r.terminal != Cancelled {
      AllPublished(w.h.queued, w.h.verdicts);
    }
  }

  lemma {:induction false} AllPublished(queued: seq<Task>, verdicts: seq<bool>)
    requires |verdicts| <= |queued| && forall i :: 0 <= i < |verdicts| ==> verdicts[i]
    ensures Published(queued, verdicts) == queued[..|verdicts|]
    decreases |verdicts|
  {
    if verdicts != [] {
      AllPublished(queued, verdicts[..|verdicts| - 1]);
    }
  }

  /** Once the chain has drained, the last snapshot the publisher was given carries the final outcome. */
  lemma LastPublishedIsOutcome(publisher: nat, interval: int, steps: seq<Step>)
    ensures var w := Run(Start(publisher, interval), steps);
      |w.h.verdicts| <= |w.h.queued| &&
      (w.r.terminal != Nothing && w.r.chain == [] ==>
        var published := Published(w.h.queued, w.h.verdicts);
        published != [] && published[|published| - 1].snapshot.terminal == w.r.terminal)
  {
    hide Run;
    RunIsSound(Start(publisher, interval), steps);
  }

  /** After a cancellation the outcome stays cancelled, whatever happens, and no snapshot with another outcome
      is handed to the publisher any more. */
  lemma {:induction false} CancelledIsAbsorbing(publisher: nat, interval: int, before: seq<Step>, after: seq<Step>)
    requires Run(Start(publisher, interval), before).r.terminal == Cancelled
    ensures var w, v := Run(Start(publisher, interval), before), Run(Start(publisher, interval), before + after);
      && v.r.terminal == Cancelled && |v.h.verdicts| <= |v.h.queued| && |w.h.verdicts| <= |v.h.verdicts|
      && (forall i :: |w.h.verdicts| <= i < |v.h.verdicts| && v.h.verdicts[i] ==>
            v.h.queued[i].snapshot.terminal == Cancelled)
    decreases |after|
  {
    hide Queues, Apply, Sound, Skips, Begins;
    var start := Start(publisher, interval);
    StartIsSound(publisher, interval);
    if after == [] {
      assert before + after == before;
    } else {
      var rest, s := after[..|after| - 1], after[|after| - 1];
      CancelledIsAbsorbing(publisher, interval, before, rest);
      assert (before + after)[..|before + after| - 1] == before + rest;
      RunIsSound(start, before + rest);
      SoundVerdicts(Run(start, before + rest));
      CancelledStep(Run(start, before + rest), s);
    }
    RunIsSound(start, before + after);
    SoundVerdicts(Run(start, before + after));
  }

  lemma SoundVerdicts(w: World)
    requires Sound(w)
    ensures |w.h.verdicts| <= |w.h.queued|
  {
  }

  lemma CancelledStep(w: World, s: Step)
    requires Sound(w) && w.r.terminal == Cancelled
    ensures var v := World(Apply(w.r, s), Extended(w.h, w.r, s));
      && v.r.terminal == Cancelled
      && |w.h.verdicts| <= |v.h.verdicts| <= |w.h.verdicts| + 1
      && (|v.h.verdicts| > |w.h.verdicts| && v.h.verdicts[|w.h.verdicts|] ==>
            |w.h.verdicts| < |w.h.queued| && w.h.queued[|w.h.verdicts|].snapshot.terminal == Cancelled)
  {
    hide Queues, CountsOf, InitialSlots;
    OutcomeMoves(w.r, s);
    if s.Advance? && Begins(w.r) {
      assert w.r.chain[0] == w.h.queued[|w.h.verdicts|];
    }
  }

  /** The outcomes that can follow one another, however far apart. */
  predicate Follows(t: Outcome, u: Outcome) {
    u == t || t == Nothing || u == Cancelled || (t in {Complete, CompleteWithGaps} && u == Failed)
  }

  /** Over the rest of any run the outcome only moves forward: a failed, cancelled or superseded review never
      becomes complete, and a complete one never becomes superseded or complete in the other way. */
  lemma {:induction false} OutcomeMovesForward(w: World, steps: seq<Step>)
    ensures Follows(w.r.terminal, Run(w, steps).r.terminal)
    decreases |steps|
  {
    hide Apply, Extended;
    if steps != [] {
      var before := Run(w, steps[..|steps| - 1]);
      OutcomeMovesForward(w, steps[..|steps| - 1]);
      OutcomeMoves(before.r, steps[|steps| - 1]);
    }
  }

  /** When the link before the i-th was queued. */
  function Previous(queued: seq<Task>, i: nat): int
    requires i <= |queued|
  {
    if i == 0 then 0 else queued[i - 1].snapshot.updatedAt
  }

  /** Apart from an initialized plan and a finish, two snapshots are at least the interval apart. */
  ghost predicate Spaced(r: Reporter, queued: seq<Task>) {
    && (forall i :: 0 <= i < |queued| && !queued[i].forced ==>
          queued[i].snapshot.updatedAt - Previous(queued, i) >= r.interval)
    && r.lastPublishedAt == Previous(queued, |queued|)
  }

  lemma QueueingIsSpaced(r: Reporter, queued: seq<Task>, force: bool, publisher: nat, now: int)
    requires Spaced(r, queued)
    ensures var q := Enqueue(r, force, publisher, now);
      |q.chain| >= |r.chain| && q.interval == r.interval && Spaced(q, queued + q.chain[|r.chain|..])
  {
    hide CountsOf;
    if Throttled(r, force, now) {
      assert queued + r.chain[|r.chain|..] == queued;
    } else {
      var task := Task(publisher, SnapshotOf(r, now), force);
      var q := Enqueue(r, force, publisher, now);
      assert q.chain[|r.chain|..] == [task];
      var longer := queued + [task];
      assert longer[|longer| - 1] == task && task.snapshot.updatedAt == now == q.lastPublishedAt;
      forall i | 0 <= i < |longer| && !longer[i].forced
        ensures longer[i].snapshot.updatedAt - Previous(longer, i) >= q.interval
      {
        assert Previous(longer, i) == Previous(queued, i);
        assert i < |queued| ==> longer[i] == queued[i];
      }
      assert queued + q.chain[|r.chain|..] == longer;
    }
  }

  lemma StepIsSpaced(r: Reporter, queued: seq<Task>, s: Step)
    requires Spaced(r, queued)
    ensures Spaced(Apply(r, s), queued + Queues(r, s)) && Apply(r, s).interval == r.interval
  {
    hide Enqueue, InitialSlots;
    if s.Report? && !UnknownSlot(r, s.event) {
      QueueingIsSpaced(Noted(r, s.event), queued, s.event.Initialized?, r.publisher, s.now);
      assert queued + Apply(r, s).chain[|r.chain|..] == queued + Queues(r, s);
    } else if s.Finish? && s.outcome != Nothing && Replaces(r, s.outcome, s.publisher) {
      QueueingIsSpaced(r.(phase := Terminal, terminal := s.outcome), queued, true, s.publisher, s.finishedAt);
      assert queued + Apply(r, s).chain[|r.chain|..] == queued + Queues(r, s);
    } else {
      assert queued + [] == queued;
    }
  }

  lemma {:induction false} RunIsSpaced(publisher: nat, interval: int, steps: seq<Step>)
    ensures var w := Run(Start(publisher, interval), steps);
      Spaced(w.r, w.h.queued) && w.r.interval == interval
  {
    hide Spaced, Apply, Queues;
    var start := Start(publisher, interval);
    if steps == [] {
      FreshIsSpaced(start.r);
    } else {
      RunIsSpaced(publisher, interval, steps[..|steps| - 1]);
      var before := Run(start, steps[..|steps| - 1]);
      StepIsSpaced(before.r, before.h.queued, steps[|steps| - 1]);
    }
  }

  lemma FreshIsSpaced(r: Reporter)
    requires r.lastPublishedAt == 0
    ensures Spaced(r, [])
  {
  }

  // ---- counts ----

  /** Counted units are units of the plan, each counted under one state. */
  lemma CountsAddUp(slots: map<string, Slot>)
    ensures var c := CountsOf(slots);
      c.completed + c.exhausted + c.retrying <= c.total && c.recovered <= c.completed
  {
    var accepted, exhausted, retrying := InState(slots, Accepted), InState(slots, Exhausted), Retried(slots, Running);
    assert accepted !! exhausted && (accepted + exhausted) !! retrying;
    Smaller(accepted + exhausted + retrying, Required(slots));
    Smaller(Retried(slots, Accepted), accepted);
  }

  lemma Smaller<T>(a: set<T>, b: set<T>)
    requires a <= b
    ensures |a| <= |b|
  {
    assert b == a + (b - a);
  }

  /** Every snapshot a run queues has counts that add up. */
  lemma {:induction false} QueuedCountsAddUp(publisher: nat, interval: int, steps: seq<Step>, i: nat)
    requires i < |Run(Start(publisher, interval), steps).h.queued|
    ensures var c := Run(Start(publisher, interval), steps).h.queued[i].snapshot.counts;
      c.completed + c.exhausted + c.retrying <= c.total && c.recovered <= c.completed
  {
    hide CountsOf, Queues, Apply;
    var before := Run(Start(publisher, interval), steps[..|steps| - 1]);
    var s := steps[|steps| - 1];
    if i < |before.h.queued| {
      QueuedCountsAddUp(publisher, interval, steps[..|steps| - 1], i);
    } else {
      QueuedLink(before.r, s);
      CountsAddUp(Apply(before.r, s).slots);
    }
  }

  // ---- the phase that is shown ----

  /** The events that set the phase. */
  predicate SetsPhase(s: Step) {
    s.Report? && (s.event.Initialized? || s.event.AssemblingBegan? || s.event.PublishingBegan?)
  }

  function EventPhase(s: Step): Phase
    requires SetsPhase(s)
  {
    if s.event.Initialized? then Reviewing else if s.event.AssemblingBegan? then Assembling else Publishing
  }

  /** A step that reports no phase leaves a terminal phase, and queues no other. */
  lemma PhaseStep(w: World, s: Step)
    requires w.r.phase == Terminal && w.r.terminal != Nothing
    ensures !SetsPhase(s) ==> Apply(w.r, s).phase == Terminal && Apply(w.r, s).terminal != Nothing
    ensures !SetsPhase(s) ==> forall t | t in Queues(w.r, s) :: t.snapshot.phase == Terminal
    ensures SetsPhase(s) ==> Apply(w.r, s).phase != Terminal
  {
    hide CountsOf, InitialSlots;
  }

  /** What throttling does to a late event: the phase is taken back in any case; the snapshot that says so is queued at
      once if the event is a new plan or the interval has passed, and is otherwise left to the next one. */
  lemma LateEventIsQueuedIff(r: Reporter, s: Step)
    requires SetsPhase(s)
    ensures Apply(r, s).phase == EventPhase(s) && Apply(r, s).terminal == r.terminal
    ensures Queues(r, s) != [] <==> s.event.Initialized? || s.now - r.lastPublishedAt >= r.interval
    ensures forall t | t in Queues(r, s) :: t.snapshot.phase == EventPhase(s) && t.snapshot.terminal == r.terminal
  {
    hide CountsOf, InitialSlots;
    EnqueuedLink(Noted(r, s.event), s.event.Initialized?, r.publisher, s.now);
  }

  ghost predicate Quiet(steps: seq<Step>) { forall s | s in steps :: !SetsPhase(s) }

  lemma {:induction false} QuietStaysShown(w: World, steps: seq<Step>)
    requires w.r.phase == Terminal && w.r.terminal != Nothing && Quiet(steps)
    ensures Run(w, steps).r.phase == Terminal && Run(w, steps).r.terminal != Nothing
    ensures |w.h.queued| <= |Run(w, steps).h.queued|
    ensures forall i :: |w.h.queued| <= i < |Run(w, steps).h.queued| ==>
      Run(w, steps).h.queued[i].snapshot.phase == Terminal
    decreases |steps|
  {
    hide Apply, Queues, SetsPhase;
    if steps != [] {
      var last := |steps| - 1;
      QuietStaysShown(w, steps[..last]);
      PhaseStep(Run(w, steps[..last]), steps[last]);
    }
  }

  /** Once an outcome has taken effect, the phase stays terminal through the rest of the run if and only if no plan,
      assembling or publishing is reported any more; and then every snapshot queued after it shows the outcome. */
  lemma OutcomeStaysShownIff(w: World, steps: seq<Step>)
    requires w.r.phase == Terminal && w.r.terminal != Nothing
    ensures (forall n | 0 <= n <= |steps| :: Run(w, steps[..n]).r.phase == Terminal)
       <==> (forall s | s in steps :: !SetsPhase(s))
    ensures (forall s | s in steps :: !SetsPhase(s)) ==>
      && Run(w, steps).r.terminal != Nothing
      && |w.h.queued| <= |Run(w, steps).h.queued|
      && forall i :: |w.h.queued| <= i < |Run(w, steps).h.queued| ==>
           Run(w, steps).h.queued[i].snapshot.phase == Terminal
  {
    hide Run, SetsPhase;
    if Quiet(steps) {
      QuietStaysShown(w, steps);
      forall n | 0 <= n <= |steps| ensures Run(w, steps[..n]).r.phase == Terminal {
        QuietStaysShown(w, steps[..n]);
      }
    } else {
      var n := FirstLoud(w, steps);
      assert Run(w, steps[..n]).r.phase != Terminal;
    }
  }

  lemma {:induction false} FirstLoud(w: World, steps: seq<Step>) returns (n: nat)
    requires w.r.phase == Terminal && w.r.terminal != Nothing && !Quiet(steps)
    ensures n <= |steps| && Run(w, steps[..n]).r.phase != Terminal
    decreases |steps|
  {
    hide Run, SetsPhase;
    var last := |steps| - 1;
    var before := steps[..last];
    if Quiet(before) {
      n := |steps|;
      assert steps[..n] == steps == before + [steps[last]];
      QuietStaysShown(w, before);
      OneMoreStep(w, steps);
      PhaseStep(Run(w, before), steps[last]);
    } else {
      n := FirstLoud(w, before);
      assert before[..n] == steps[..n];
    }
  }

  lemma OneMoreStep(w: World, steps: seq<Step>)
    requires steps != []
    ensures Run(w, steps) == Stepped(Run(w, steps[..|steps| - 1]), steps[|steps| - 1])
  {
    hide Apply, Extended;
  }

  function Stepped(w: World, s: Step): World {
    World(Apply(w.r, s), Extended(w.h, w.r, s))
  }

  lemma TwoSteps(w: World, s: Step, next: Step)
    ensures Run(w, [s, next]) == Stepped(Stepped(w, s), next)
  {
    hide Apply, Extended;
    assert [s, next][..1] == [s] && [s][..0] == [];
    assert Run(w, [s]) == Stepped(w, s);
  }

  /** With the chain drained, the late event queues one snapshot. */
  lemma LateEventQueues(w: World, now: int)
    requires Sound(w) && w.r.chain == [] && now - w.r.lastPublishedAt >= w.r.interval
    ensures var u := Stepped(w, Report(AssemblingBegan, now));
      && !u.r.publishing && u.r.terminal == w.r.terminal && |u.r.chain| == 1
      && u.r.chain[0].snapshot.phase == Assembling && u.r.chain[0].snapshot.terminal == w.r.terminal
      && u.h == History(w.h.queued + u.r.chain, w.h.verdicts) && |w.h.verdicts| == |w.h.queued|
  {
    hide CountsOf;
  }

  /** A phase event reported after the outcome takes the phase back, and the snapshot shown last says so: a
      finished review is shown as assembling. */
  lemma LateEventHidesOutcome(publisher: nat, interval: int, steps: seq<Step>, now: int)
    requires var r := Run(Start(publisher, interval), steps).r;
      r.terminal != Nothing && r.chain == [] && now - r.lastPublishedAt >= r.interval
    ensures var w := Run(Start(publisher, interval), steps);
      var v := Run(w, [Report(AssemblingBegan, now), Advance]);
      && |v.h.verdicts| == |v.h.queued| > 0 && v.h.verdicts[|v.h.verdicts| - 1]
      && v.h.queued[|v.h.queued| - 1].snapshot.phase == Assembling
      && v.h.queued[|v.h.queued| - 1].snapshot.terminal == w.r.terminal
  {
    hide CountsOf, Run, Sound, Reported, Finished;
    StartIsSound(publisher, interval);
    RunIsSound(Start(publisher, interval), steps);
    var w := Run(Start(publisher, interval), steps);
    TwoSteps(w, Report(AssemblingBegan, now), Advance);
    LateEventQueues(w, now);
    var u := Stepped(w, Report(AssemblingBegan, now));
    assert Begins(u.r);
    assert Stepped(u, Advance).h == History(u.h.queued + [], u.h.verdicts + [true]);
  }
}
