/** What a snapshot shows, read off the events that were reported: the counts, the phase, and when it is queued. */
module ProgressCounts {
  import opened Progress
  import opened ProgressLaws

  // ---- the events alone ----

  /** The plan that was reported last. */
  function PlanOf(steps: seq<Step>): seq<WorkSlot> {
    if steps == [] then []
    else
      var s := steps[|steps| - 1];
      if s.Report? && s.event.Initialized? then s.event.workSlots else PlanOf(steps[..|steps| - 1])
  }

  predicate OfSlot(e: Event, id: string) {
    (e.SlotRunning? || e.SlotAccepted? || e.SlotExhausted?) && e.workSlotId == id
  }

  datatype Seen = NothingSeen | Last(event: Event)

  /** The last event of a slot since that plan. */
  function LastOf(steps: seq<Step>, id: string): Seen {
    if steps == [] then NothingSeen
    else
      var s := steps[|steps| - 1];
      if s.Report? && s.event.Initialized? then NothingSeen
      else if s.Report? && OfSlot(s.event, id) then Last(s.event)
      else LastOf(steps[..|steps| - 1], id)
  }

  function PlanIds(plan: seq<WorkSlot>): set<string> {
    set w | w in plan :: w.workSlotId
  }

  /** The last entry of the plan with this id is required. */
  predicate RequiredIn(plan: seq<WorkSlot>, id: string) {
    exists i :: 0 <= i < |plan| && plan[i].workSlotId == id && plan[i].required
      && forall j :: i < j < |plan| ==> plan[j].workSlotId != id
  }

  function RequiredIds(steps: seq<Step>): set<string> {
    set id | id in PlanIds(PlanOf(steps)) && RequiredIn(PlanOf(steps), id)
  }

  /** The counts of a snapshot: of the required slots of the last plan, how many had an acceptance as their last event,
      how many an exhaustion, and how many are running, or were accepted, in a later attempt than the first. */
  function CountsFrom(steps: seq<Step>): Counts {
    var ids := RequiredIds(steps);
    Counts(|ids|,
           |set id | id in ids && LastOf(steps, id).Last? && LastOf(steps, id).event.SlotAccepted?|,
           |set id | id in ids && LastOf(steps, id).Last? && LastOf(steps, id).event.SlotExhausted?|,
           |set id | id in ids && LastOf(steps, id).Last? && LastOf(steps, id).event.SlotRunning?
                     && LastOf(steps, id).event.attemptOrdinal > 1|,
           |set id | id in ids && LastOf(steps, id).Last? && LastOf(steps, id).event.SlotAccepted?
                     && LastOf(steps, id).event.attemptOrdinal > 1|)
  }

  // ---- the slots of a run ----

  /** The slot is in the state that its last event says. */
  predicate Reflects(slot: Slot, seen: Seen) {
    match seen
    case NothingSeen => slot.state == Pending
    case Last(e) =>
      && (e.SlotRunning? ==> slot.state == Running && slot.attemptOrdinal == e.attemptOrdinal)
      && (e.SlotAccepted? ==> slot.state == Accepted && slot.attemptOrdinal == e.attemptOrdinal)
      && (e.SlotExhausted? ==> slot.state == Exhausted)
      && (e.SlotRunning? || e.SlotAccepted? || e.SlotExhausted?)
  }

  ghost predicate SlotsFollow(slots: map<string, Slot>, steps: seq<Step>) {
    && slots.Keys == PlanIds(PlanOf(steps))
    && forall id | id in slots ::
         (slots[id].required <==> RequiredIn(PlanOf(steps), id)) && Reflects(slots[id], LastOf(steps, id))
  }

  lemma InitialSlotsFollow(plan: seq<WorkSlot>)
    ensures InitialSlots(plan).Keys == PlanIds(plan)
    ensures forall id | id in InitialSlots(plan) ::
      && (InitialSlots(plan)[id].required <==> RequiredIn(plan, id)) && InitialSlots(plan)[id].state == Pending
  {
    if plan != [] {
      var last := |plan| - 1;
      var front := plan[..last];
      InitialSlotsFollow(front);
      assert plan == front + [plan[last]];
      forall id | id in InitialSlots(plan)
        ensures InitialSlots(plan)[id].required <==> RequiredIn(plan, id)
      {
        RequiredMore(plan, last, id);
      }
    }
  }

  lemma RequiredMore(plan: seq<WorkSlot>, last: nat, id: string)
    requires |plan| == last + 1
    ensures RequiredIn(plan, id) <==>
      if plan[last].workSlotId == id then plan[last].required else RequiredIn(plan[..last], id)
  {
    if RequiredIn(plan[..last], id) && plan[last].workSlotId != id {
      var i :| 0 <= i < last && plan[..last][i].workSlotId == id && plan[..last][i].required
        && forall j :: i < j < last ==> plan[..last][j].workSlotId != id;
      assert plan[i] == plan[..last][i];
      forall j | i < j < |plan| ensures plan[j].workSlotId != id {
        assert j < last ==> plan[j] == plan[..last][j];
      }
    }
    if RequiredIn(plan, id) && plan[last].workSlotId != id {
      var i :| 0 <= i < |plan| && plan[i].workSlotId == id && plan[i].required
        && forall j :: i < j < |plan| ==> plan[j].workSlotId != id;
      assert plan[..last][i] == plan[i];
    }
  }

  lemma OneMoreStep(steps: seq<Step>, s: Step)
    ensures PlanOf(steps + [s]) == if s.Report? && s.event.Initialized? then s.event.workSlots else PlanOf(steps)
    ensures forall id ::
      var seen := LastOf(steps + [s], id);
      if s.Report? && s.event.Initialized? then seen == NothingSeen
      else if s.Report? && OfSlot(s.event, id) then seen == Last(s.event)
      else seen == LastOf(steps, id)
  {
    assert (steps + [s])[..|steps|] == steps;
  }

  lemma StepFollows(r: Reporter, steps: seq<Step>, s: Step)
    requires SlotsFollow(r.slots, steps)
    ensures SlotsFollow(Apply(r, s).slots, steps + [s])
  {
    hide RequiredIn, InitialSlots, PlanOf, LastOf, PlanIds, Apply;
    OneMoreStep(steps, s);
    SlotsAfter(r, s);
    if s.Report? && s.event.Initialized? {
      InitialSlotsFollow(s.event.workSlots);
    }
  }

  lemma SlotsAfter(r: Reporter, s: Step)
    ensures Apply(r, s).slots == if s.Report? && !UnknownSlot(r, s.event) then Noted(r, s.event).slots else r.slots
  {
    hide InitialSlots;
  }

  lemma {:induction false} RunFollows(publisher: nat, interval: int, steps: seq<Step>)
    ensures SlotsFollow(Run(Start(publisher, interval), steps).r.slots, steps)
  {
    hide SlotsFollow, Apply, Extended;
    if steps == [] {
      FreshFollows(publisher, interval);
    } else {
      var last := |steps| - 1;
      RunFollows(publisher, interval, steps[..last]);
      StepFollows(Run(Start(publisher, interval), steps[..last]).r, steps[..last], steps[last]);
      assert steps == steps[..last] + [steps[last]];
    }
  }

  lemma FreshFollows(publisher: nat, interval: int)
    ensures SlotsFollow(NewReporter(publisher, interval).slots, [])
  {
  }

  lemma FollowingCounts(slots: map<string, Slot>, steps: seq<Step>)
    requires SlotsFollow(slots, steps)
    ensures CountsOf(slots) == CountsFrom(steps)
  {
    hide RequiredIn, PlanOf, LastOf, PlanIds;
    var ids := RequiredIds(steps);
    assert Required(slots) == ids;
    assert InState(slots, Accepted)
      == set id | id in ids && LastOf(steps, id).Last? && LastOf(steps, id).event.SlotAccepted?;
    assert InState(slots, Exhausted)
      == set id | id in ids && LastOf(steps, id).Last? && LastOf(steps, id).event.SlotExhausted?;
    assert Retried(slots, Running)
      == set id | id in ids && LastOf(steps, id).Last? && LastOf(steps, id).event.SlotRunning?
                  && LastOf(steps, id).event.attemptOrdinal > 1;
    assert Retried(slots, Accepted)
      == set id | id in ids && LastOf(steps, id).Last? && LastOf(steps, id).event.SlotAccepted?
                  && LastOf(steps, id).event.attemptOrdinal > 1;
  }

  // ---- the snapshots of a run ----

  /** The i-th snapshot was queued by the k-th step. */
  ghost predicate QueuedBy(publisher: nat, interval: int, steps: seq<Step>, i: nat, k: nat) {
    && k < |steps|
    && |Run(Start(publisher, interval), steps[..k]).h.queued| == i
    && |Run(Start(publisher, interval), steps[..k + 1]).h.queued| == i + 1
  }

  /** Every queued snapshot counts what the steps up to the one that queued it say. */
  lemma {:induction false} SnapshotCounts(publisher: nat, interval: int, steps: seq<Step>, i: nat) returns (k: nat)
    requires i < |Run(Start(publisher, interval), steps).h.queued|
    ensures QueuedBy(publisher, interval, steps, i, k)
    ensures Run(Start(publisher, interval), steps).h.queued[i].snapshot.counts == CountsFrom(steps[..k + 1])
    decreases |steps|
  {
    hide CountsFrom, CountsOf, Apply, Queues;
    var start, last := Start(publisher, interval), |steps| - 1;
    var before := Run(start, steps[..last]);
    assert steps[..last + 1] == steps;
    if i < |before.h.queued| {
      k := SnapshotCounts(publisher, interval, steps[..last], i);
      assert steps[..last][..k] == steps[..k] && steps[..last][..k + 1] == steps[..k + 1];
    } else {
      k := last;
      QueuedLink(before.r, steps[last]);
      RunFollows(publisher, interval, steps);
      FollowingCounts(Run(start, steps).r.slots, steps);
    }
  }

  // ---- when a step is queued, and what it shows ----

  /** The outcome that a step offers takes effect. */
  predicate Ends(r: Reporter, s: Step) {
    s.Finish? && Apply(r, s).terminal != r.terminal
  }

  /** A step queues a snapshot if and only if it is an outcome that takes effect, or the event of a new plan, or the
      event of a known slot or a phase with the interval passed. The snapshot shows the state after the step, at its
      time, and goes to the reporter's own publisher unless it is an outcome, which brings its own. */
  lemma StepQueuesIff(r: Reporter, s: Step)
    ensures Queues(r, s) != [] <==>
      || Ends(r, s)
      || (s.Report? && (s.event.Initialized? ||
                        (!UnknownSlot(r, s.event) && s.now - r.lastPublishedAt >= r.interval)))
    ensures forall t | t in Queues(r, s) ::
      && t.snapshot.phase == Apply(r, s).phase && t.snapshot.terminal == Apply(r, s).terminal
      && t.snapshot.counts == CountsOf(Apply(r, s).slots)
      && t.snapshot.updatedAt == (if s.Report? then s.now else s.finishedAt) == Apply(r, s).lastPublishedAt
      && t.publisher == (if s.Finish? then s.publisher else r.publisher)
      && (t.forced <==> s.Finish? || s.event.Initialized?)
  {
    hide CountsOf, InitialSlots;
    if s.Report? && !UnknownSlot(r, s.event) {
      EnqueuedLink(Noted(r, s.event), s.event.Initialized?, r.publisher, s.now);
    } else if s.Finish? && s.outcome != Nothing && Replaces(r, s.outcome, s.publisher) {
      EnqueuedLink(r.(phase := Terminal, terminal := s.outcome), true, s.publisher, s.finishedAt);
    }
  }

  /** The phase after a step: that of a phase event, terminal after an outcome that takes effect, and else unchanged. */
  lemma StepPhase(r: Reporter, s: Step)
    ensures Apply(r, s).phase
         == if SetsPhase(s) then EventPhase(s) else if Ends(r, s) then Terminal else r.phase
    ensures !Ends(r, s) ==> Apply(r, s).terminal == r.terminal
  {
    hide CountsOf, InitialSlots;
  }
}
