/** `CiOrchestrationProgressReporter` (src/codex-oauth/ci-review-progress.ts): the state of one review run,
    its terminal outcome, and the chain of snapshots waiting to be published. */
module Progress {
  datatype Phase = Preparing | Reviewing | Assembling | Publishing | Terminal

  datatype Outcome = Nothing | Complete | CompleteWithGaps | Failed | Cancelled | Superseded

  datatype SlotState = Pending | Running | Accepted | Exhausted

  datatype Slot = Slot(required: bool, state: SlotState, attemptOrdinal: int)

  datatype WorkSlot = WorkSlot(workSlotId: string, required: bool)

  datatype Event =
    | Initialized(workSlots: seq<WorkSlot>)
    | SlotRunning(workSlotId: string, attemptOrdinal: int)
    | SlotAccepted(workSlotId: string, attemptOrdinal: int)
    | SlotExhausted(workSlotId: string)
    | AssemblingBegan
    | PublishingBegan

  datatype Counts = Counts(total: nat, completed: nat, exhausted: nat, retrying: nat, recovered: nat)

  datatype Snapshot = Snapshot(phase: Phase, terminal: Outcome, updatedAt: int, counts: Counts)

  /** One link of the publish chain; `forced` says that the interval was not looked at. */
  datatype Task = Task(publisher: nat, snapshot: Snapshot, forced: bool)

  /** `chain` holds the links that have not settled; `publishing` says that the first one was started. */
  datatype Reporter = Reporter(publisher: nat, interval: int, slots: map<string, Slot>, phase: Phase,
                               terminal: Outcome, lastPublishedAt: int, chain: seq<Task>, publishing: bool)

  function NewReporter(publisher: nat, interval: int): Reporter {
    Reporter(publisher, interval, map[], Preparing, Nothing, 0, [], false)
  }

  // ---- snapshots ----

  function Required(slots: map<string, Slot>): set<string> {
    set id | id in slots && slots[id].required
  }

  function InState(slots: map<string, Slot>, state: SlotState): set<string> {
    set id | id in slots && slots[id].required && slots[id].state == state
  }

  function Retried(slots: map<string, Slot>, state: SlotState): set<string> {
    set id | id in slots && slots[id].required && slots[id].state == state && slots[id].attemptOrdinal > 1
  }

  function CountsOf(slots: map<string, Slot>): Counts {
    Counts(|Required(slots)|, |InState(slots, Accepted)|, |InState(slots, Exhausted)|,
           |Retried(slots, Running)|, |Retried(slots, Accepted)|)
  }

  function SnapshotOf(r: Reporter, now: int): Snapshot {
    Snapshot(r.phase, r.terminal, now, CountsOf(r.slots))
  }

  // ---- queueing ----

  function Throttled(r: Reporter, force: bool, now: int): bool {
    !force && now - r.lastPublishedAt < r.interval
  }

  function Enqueue(r: Reporter, force: bool, publisher: nat, now: int): Reporter {
    if Throttled(r, force, now) then r
    else r.(lastPublishedAt := now, chain := r.chain + [Task(publisher, SnapshotOf(r, now), force)])
  }

  /** A later plan entry with the same id replaces an earlier one. */
  function InitialSlots(workSlots: seq<WorkSlot>): map<string, Slot> {
    if workSlots == [] then map[]
    else
      var last := workSlots[|workSlots| - 1];
      InitialSlots(workSlots[..|workSlots| - 1])[last.workSlotId := Slot(last.required, Pending, 1)]
  }

  /** The event names a slot that no plan entry has. */
  predicate UnknownSlot(r: Reporter, e: Event) {
    (e.SlotRunning? || e.SlotAccepted? || e.SlotExhausted?) && e.workSlotId !in r.slots
  }

  /** The fields after an event, before anything is queued. */
  function Noted(r: Reporter, e: Event): Reporter
    requires !UnknownSlot(r, e)
  {
    match e
    case Initialized(workSlots) => r.(slots := InitialSlots(workSlots), phase := Reviewing)
    case SlotRunning(id, n) => r.(slots := r.slots[id := r.slots[id].(state := Running, attemptOrdinal := n)])
    case SlotAccepted(id, n) => r.(slots := r.slots[id := r.slots[id].(state := Accepted, attemptOrdinal := n)])
    case SlotExhausted(id) => r.(slots := r.slots[id := r.slots[id].(state := Exhausted)])
    case AssemblingBegan => r.(phase := Assembling)
    case PublishingBegan => r.(phase := Publishing)
  }

  function Reported(r: Reporter, e: Event, now: int): Reporter {
    if UnknownSlot(r, e) then r else Enqueue(Noted(r, e), e.Initialized?, r.publisher, now)
  }

  /** The outcome takes effect. */
  predicate Replaces(r: Reporter, outcome: Outcome, publisher: nat) {
    || r.terminal == Nothing
    || (r.terminal != outcome
        && (outcome == Cancelled
            || (publisher != r.publisher && outcome == Failed && r.terminal in {Complete, CompleteWithGaps})))
  }

  function Finished(r: Reporter, outcome: Outcome, publisher: nat, now: int): Reporter {
    if Replaces(r, outcome, publisher)
    then Enqueue(r.(phase := Terminal, terminal := outcome), true, publisher, now)
    else r
  }

  // ---- the chain ----

  /** The first link is ready and its callback returns without publishing. */
  predicate Skips(r: Reporter) {
    r.chain != [] && !r.publishing && r.terminal == Cancelled && r.chain[0].snapshot.terminal != Cancelled
  }

  predicate Begins(r: Reporter) {
    r.chain != [] && !r.publishing && !Skips(r)
  }

  function Advanced(r: Reporter): Reporter {
    if Skips(r) then r.(chain := r.chain[1..])
    else if Begins(r) then r.(publishing := true)
    else r
  }

  /** The publisher's promise settled, either way. */
  function Settled(r: Reporter): Reporter {
    if r.publishing && r.chain != [] then r.(chain := r.chain[1..], publishing := false) else r
  }

  // ---- the object ----

  class CiOrchestrationProgressReporter {
    const publisher: nat
    const minimumIntervalMs: int
    var slots: map<string, Slot>
    var phase: Phase
    var terminal: Outcome
    var lastPublishedAt: int
    var publishChain: seq<Task>
    var publishing: bool

    function State(): Reporter
      reads this
    {
      Reporter(publisher, minimumIntervalMs, slots, phase, terminal, lastPublishedAt, publishChain, publishing)
    }

    constructor (publisher: nat, minimumIntervalMs: int)
      ensures State() == NewReporter(publisher, minimumIntervalMs)
    {
      this.publisher := publisher;
      this.minimumIntervalMs := minimumIntervalMs;
      slots := map[];
      phase := Preparing;
      terminal := Nothing;
      lastPublishedAt := 0;
      publishChain := [];
      publishing := false;
    }

    method QueuePublish(force: bool, publisher: nat, now: int)
      modifies this
      ensures State() == Enqueue(old(State()), force, publisher, now)
    {
      if !force && now - lastPublishedAt < minimumIntervalMs {
        return;
      }
      lastPublishedAt := now;
      publishChain := publishChain + [Task(publisher, Snapshot(phase, terminal, now, CountsOf(slots)), force)];
    }

    method Initialize(workSlots: seq<WorkSlot>)
      modifies this`slots
      ensures slots == InitialSlots(workSlots)
    {
      slots := map[];
      for i := 0 to |workSlots|
        invariant slots == InitialSlots(workSlots[..i])
      {
        assert workSlots[..i + 1][..i] == workSlots[..i];
        slots := slots[workSlots[i].workSlotId := Slot(workSlots[i].required, Pending, 1)];
      }
      assert workSlots[..|workSlots|] == workSlots;
    }

    /** False when the event names an unknown slot: the source throws. */
    method Report(event: Event, now: int) returns (ok: bool)
      modifies this
      ensures ok == !UnknownSlot(old(State()), event)
      ensures State() == Reported(old(State()), event, now)
    {
      var force := false;
      match event {
        case Initialized(workSlots) =>
          Initialize(workSlots);
          phase := Reviewing;
          force := true;
        case SlotRunning(id, n) =>
          if id !in slots {
            return false;
          }
          slots := slots[id := slots[id].(state := Running, attemptOrdinal := n)];
        case SlotAccepted(id, n) =>
          if id !in slots {
            return false;
          }
          slots := slots[id := slots[id].(state := Accepted, attemptOrdinal := n)];
        case SlotExhausted(id) =>
          if id !in slots {
            return false;
          }
          slots := slots[id := slots[id].(state := Exhausted)];
        case AssemblingBegan =>
          phase := Assembling;
        case PublishingBegan =>
          phase := Publishing;
      }
      QueuePublish(force, publisher, now);
      return true;
    }

    method Finish(outcome: Outcome, publisher: nat, now: int)
      modifies this
      ensures State() == Finished(old(State()), outcome, publisher, now)
    {
      var replacesCompletion := outcome == Cancelled
        || (publisher != this.publisher && outcome == Failed && terminal in {Complete, CompleteWithGaps});
      if terminal != Nothing && (!replacesCompletion || terminal == outcome) {
        return;
      }
      phase := Terminal;
      terminal := outcome;
      QueuePublish(true, publisher, now);
    }

    /** The callback of the first link: true when it hands its snapshot to the publisher. */
    method Advance() returns (begun: bool)
      modifies this
      ensures State() == Advanced(old(State()))
      ensures begun == Begins(old(State()))
    {
      if publishChain == [] || publishing {
        return false;
      }
      if terminal == Cancelled && publishChain[0].snapshot.terminal != Cancelled {
        publishChain := publishChain[1..];
        return false;
      }
      publishing := true;
      return true;
    }

    method Settle()
      modifies this
      ensures State() == Settled(old(State()))
    {
      if publishing && publishChain != [] {
        publishChain := publishChain[1..];
        publishing := false;
      }
    }
  }
}
