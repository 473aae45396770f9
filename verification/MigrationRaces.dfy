/** Any number of migration runs at the same time: exactly when they start one credential write at most. */
module MigrationRaces {
  import opened Options
  import opened Texts
  import opened Json
  import opened Migration
  import opened MigrationLaws

  /** The runs under way and the service they share. */
  datatype World = World(clients: seq<Client>, service: Service)

  /** What happens next: the request that one of the runs has out is delivered or lost. */
  datatype Event = Event(run: nat, delivery: Delivery)

  function Happens(rules: Rules, w: World, e: Event): World {
    if e.run >= |w.clients| || w.clients[e.run].Done? then w
    else
      var (after, reply) := Served(w.service, RouteOf(rules, w.clients[e.run]), e.delivery);
      World(w.clients[e.run := OnReply(rules, w.clients[e.run], reply)], after)
  }

  /** The state before the k-th event. */
  function At(rules: Rules, w: World, trace: seq<Event>, k: nat): World
    requires k <= |trace|
  {
    if k == 0 then w else Happens(rules, At(rules, w, trace, k - 1), trace[k - 1])
  }

  /** The run has read that it may dispatch, and has not dispatched yet. */
  predicate AboutToDispatch(w: World, run: nat) {
    run < |w.clients| && w.clients[run].Dispatching?
  }

  /** The k-th event is a dispatch that the service handles. */
  predicate PutAt(rules: Rules, w: World, trace: seq<Event>, k: nat)
    requires k < |trace|
  {
    AboutToDispatch(At(rules, w, trace, k), trace[k].run) && trace[k].delivery.Handled?
  }

  /** No handled dispatch falls between the status read of another run and that run's own handled dispatch. */
  ghost predicate Undisturbed(rules: Rules, w: World, trace: seq<Event>) {
    forall k, l | 0 <= k < l < |trace| && PutAt(rules, w, trace, k) && PutAt(rules, w, trace, l) ::
      trace[k].run != trace[l].run ==> !AboutToDispatch(At(rules, w, trace, k), trace[l].run)
  }

  /** The run was about to dispatch when another one's dispatch was handled. */
  ghost predicate Overtaken(rules: Rules, w: World, trace: seq<Event>, n: nat, run: nat)
    requires n <= |trace|
  {
    exists k :: 0 <= k < n && PutAt(rules, w, trace, k) && trace[k].run != run
      && AboutToDispatch(At(rules, w, trace, k), run)
  }

  /** A run about to dispatch is right that there is no attempt, or it was overtaken. */
  ghost predicate Informed(rules: Rules, w: World, trace: seq<Event>, n: nat)
    requires n <= |trace|
  {
    var s := At(rules, w, trace, n);
    && Fenced(s.service)
    && forall j | AboutToDispatch(s, j) :: s.service.attempt == Null || Overtaken(rules, w, trace, n, j)
  }

  lemma ServedAttempt(s: Service, route: Route, d: Delivery)
    ensures var after := Served(s, route, d).0;
      && (s.attempt != Null ==> after.attempt != Null)
      && (!route.DispatchRoute? ==> after.puts == s.puts && (s.attempt == Null ==> after.attempt == Null))
      && after.honoursKeys == s.honoursKeys && s.keys <= after.keys
      && (route.DispatchRoute? && d.Handled? ==>
            && after.puts == (if Replayed(s, route.idempotencyKey) then s.puts else s.puts + 1)
            && after.attempt != Null && after.keys == s.keys + {route.idempotencyKey})
      && (route.DispatchRoute? && d.Dropped? ==> after == s)
  {
  }

  lemma EventPuts(rules: Rules, w: World, trace: seq<Event>, k: nat)
    requires k < |trace|
    ensures var before, after := At(rules, w, trace, k).service, At(rules, w, trace, k + 1).service;
      && after.puts == before.puts
                       + (if PutAt(rules, w, trace, k) && !Replayed(before, IdempotencyKey(rules)) then 1 else 0)
      && (PutAt(rules, w, trace, k) ==> IdempotencyKey(rules) in after.keys)
      && before.keys <= after.keys && before.honoursKeys == after.honoursKeys
  {
    hide OnReply, Served, U;
    var s, e := At(rules, w, trace, k), trace[k];
    if e.run < |s.clients| && !s.clients[e.run].Done? {
      ServedAttempt(s.service, RouteOf(rules, s.clients[e.run]), e.delivery);
    }
  }

  lemma {:induction false} PutsGrow(rules: Rules, w: World, trace: seq<Event>, k: nat, n: nat)
    requires k <= n <= |trace|
    ensures At(rules, w, trace, k).service.puts <= At(rules, w, trace, n).service.puts
    ensures At(rules, w, trace, k).service.honoursKeys == At(rules, w, trace, n).service.honoursKeys
    decreases n - k
  {
    hide Happens, PutAt;
    if k < n {
      PutsGrow(rules, w, trace, k, n - 1);
      EventPuts(rules, w, trace, n - 1);
    }
  }

  /** A run newly about to dispatch has just been told the truth. */
  lemma NewlyInformed(rules: Rules, s: World, e: Event)
    requires e.run < |s.clients| && !s.clients[e.run].Done?
    requires Happens(rules, s, e).clients[e.run].Dispatching?
    ensures Happens(rules, s, e).service.attempt == Null
  {
    hide ReadStatusReply, ReadPrepared, DispatchedOk, StatusBody, Get, U;
    var c := s.clients[e.run];
    var (after, reply) := Served(s.service, RouteOf(rules, c), e.delivery);
    CheckedIsPrepared(rules, c, reply);
    StatusBodyAttempt(after);
  }

  lemma StepInformed(rules: Rules, w: World, trace: seq<Event>, n: nat)
    requires n < |trace| && Undisturbed(rules, w, trace) && Informed(rules, w, trace, n)
    ensures Informed(rules, w, trace, n + 1)
  {
    hide OnReply, Served, Overtaken;
    var s, e := At(rules, w, trace, n), trace[n];
    var after := At(rules, w, trace, n + 1);
    if e.run < |s.clients| && !s.clients[e.run].Done? {
      ServedAttempt(s.service, RouteOf(rules, s.clients[e.run]), e.delivery);
      if PutAt(rules, w, trace, n) {
        if Overtaken(rules, w, trace, n, e.run) {
          NotOvertaken(rules, w, trace, n);
        }
      }
      forall j | AboutToDispatch(after, j)
        ensures after.service.attempt == Null || Overtaken(rules, w, trace, n + 1, j)
      {
        if j == e.run {
          NewlyInformed(rules, s, e);
        } else {
          OvertakenStays(rules, w, trace, n, j);
        }
      }
    } else {
      forall j | AboutToDispatch(after, j)
        ensures after.service.attempt == Null || Overtaken(rules, w, trace, n + 1, j)
      {
        OvertakenStays(rules, w, trace, n, j);
      }
    }
  }

  lemma NotOvertaken(rules: Rules, w: World, trace: seq<Event>, n: nat)
    requires n < |trace| && Undisturbed(rules, w, trace) && PutAt(rules, w, trace, n)
    ensures !Overtaken(rules, w, trace, n, trace[n].run)
  {
    hide At;
  }

  lemma OvertakenStays(rules: Rules, w: World, trace: seq<Event>, n: nat, j: nat)
    requires n < |trace|
    ensures Overtaken(rules, w, trace, n, j) ==> Overtaken(rules, w, trace, n + 1, j)
    ensures PutAt(rules, w, trace, n) && trace[n].run != j && AboutToDispatch(At(rules, w, trace, n), j) ==>
      Overtaken(rules, w, trace, n + 1, j)
  {
    hide At, Happens;
  }

  lemma {:induction false} AllInformed(rules: Rules, w: World, trace: seq<Event>, n: nat)
    requires n <= |trace| && Undisturbed(rules, w, trace) && Informed(rules, w, trace, 0)
    ensures Informed(rules, w, trace, n)
  {
    hide Informed, Undisturbed;
    if n > 0 {
      AllInformed(rules, w, trace, n - 1);
      StepInformed(rules, w, trace, n - 1);
    }
  }

  /** A service that honours keys has seen the migration's key once a PUT was started. */
  ghost predicate KeyFence(rules: Rules, s: Service) {
    s.honoursKeys && s.puts <= 1 && (s.puts == 1 ==> IdempotencyKey(rules) in s.keys)
  }

  /** Over every interleaving of any number of runs of a migration, whatever they know when it begins, a service that
      honours the key of their dispatches starts at most one PUT. */
  lemma {:induction false} KeyMakesOnePut(rules: Rules, w: World, trace: seq<Event>, n: nat)
    requires n <= |trace| && KeyFence(rules, w.service)
    ensures At(rules, w, trace, n).service.puts <= 1 && KeyFence(rules, At(rules, w, trace, n).service)
  {
    hide Happens, PutAt, IdempotencyKey;
    if n > 0 {
      KeyMakesOnePut(rules, w, trace, n - 1);
      EventPuts(rules, w, trace, n - 1);
    }
  }

  /** Over every interleaving of any number of fresh runs of a migration, with requests and replies lost and runs killed
      anywhere: at most one PUT is started if and only if the service honours the key of their dispatches, or no
      dispatch is handled between another run's status read and that run's own dispatch. */
  lemma OnePutIff(rules: Rules, w: World, trace: seq<Event>)
    requires w.service.puts == 0 && forall c | c in w.clients :: c.Exchanging?
    ensures At(rules, w, trace, |trace|).service.puts <= 1
       <==> w.service.honoursKeys || Undisturbed(rules, w, trace)
  {
    hide At, PutAt, IdempotencyKey;
    if w.service.honoursKeys {
      KeyMakesOnePut(rules, w, trace, |trace|);
    } else if Undisturbed(rules, w, trace) {
      FreshIsInformed(rules, w, trace);
      AllInformed(rules, w, trace, |trace|);
    } else {
      var k, l :| 0 <= k < l < |trace| && PutAt(rules, w, trace, k) && PutAt(rules, w, trace, l);
      EventPuts(rules, w, trace, k);
      EventPuts(rules, w, trace, l);
      PutsGrow(rules, w, trace, k + 1, l);
      PutsGrow(rules, w, trace, l + 1, |trace|);
      PutsGrow(rules, w, trace, 0, k);
      NothingYet(rules, w, trace);
    }
  }

  lemma NothingYet(rules: Rules, w: World, trace: seq<Event>)
    ensures At(rules, w, trace, 0) == w
  {
  }

  lemma FreshIsInformed(rules: Rules, w: World, trace: seq<Event>)
    requires w.service.puts == 0 && forall c | c in w.clients :: c.Exchanging?
    ensures Informed(rules, w, trace, 0)
  {
    forall j | 0 <= j < |w.clients| ensures !w.clients[j].Dispatching? {
      assert w.clients[j] in w.clients;
    }
  }
}
