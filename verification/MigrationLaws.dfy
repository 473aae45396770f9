/** One credential write at most over any runs, and success only on a confirmed, newer target. */
module MigrationLaws {
  import opened Texts
  import opened Json
  import opened Migration

  // ---- one run, any replies ----

  /** The reply is a status whose attempt is confirmed and targets another namespace, a later epoch and
      another secret than the source. */
  ghost predicate Confirms(rules: Rules, reply: Reply, source: Source, claimId: Text, status: Json) {
    reply.Body? &&
    var attempt := Get(reply.value, U("attempt"));
    var epoch := Get(attempt, U("namespaceEpoch"));
    && Get(reply.value, U("claimId")) == Str(claimId)
    && Get(reply.value, U("status")) == status != Str(U("prepared"))
    && Get(attempt, U("claimId")) == Str(claimId)
    && rules.asString(Get(attempt, U("status"))) == U("confirmed")
    && Get(attempt, U("namespaceId")).Str? && Get(attempt, U("namespaceId")) != Str(source.namespaceId)
    && Get(attempt, U("secretName")).Str? && Get(attempt, U("secretName")) != Str(source.secretName)
    && epoch.Str? && EpochOk(epoch.s) && EpochOk(source.namespaceEpoch)
    && EpochValue(epoch.s) > EpochValue(source.namespaceEpoch)
  }

  lemma SettledConfirms(rules: Rules, reply: Reply, source: Source, claimId: Text)
    requires Settled(ReadStatusReply(rules, reply, source, claimId))
    ensures Confirms(rules, reply, source, claimId, ReadStatusReply(rules, reply, source, claimId).value.status)
  {
    hide Get, U, OneOf, EpochOk, EpochValue;
    EpochDigits();
  }

  lemma EpochDigits()
    ensures forall t :: EpochOk(t) ==> forall i :: 0 <= i < |t| ==> Digit(t[i])
  {
  }

  /** A run that succeeds made its last request for the status, and the answer confirmed the target of the
      source and claim that the first two answers named. */
  lemma SuccessIsConfirmed(rules: Rules, script: seq<Reply>)
    requires Conduct(rules, Exchanging, script).0.Success?
    ensures var (result, calls) := Conduct(rules, Exchanging, script);
      && 3 <= |calls| <= |script|
      && calls[|calls| - 1] == StatusRoute
      && script[0].Body? && rules.readExchange(script[0].value).Success?
      && script[1].Body? && ReadPrepared(rules, script[1].value).Success?
      && Confirms(rules, script[|calls| - 1], rules.readExchange(script[0].value).value,
                  ReadPrepared(rules, script[1].value).value, result.value)
  {
    hide ReadPrepared, Confirms, ReadStatusReply, DispatchedOk, U;
    var source := rules.readExchange(script[0].value).value;
    var claimId := ReadPrepared(rules, script[1].value).value;
    assert Conduct(rules, Preparing(source), script[1..]).0.Success?;
    assert script[1..][0] == script[1] && script[1..][1..] == script[2..];
    CheckingSucceeds(rules, source, claimId, script[2..]);
  }

  lemma CheckingSucceeds(rules: Rules, source: Source, claimId: Text, script: seq<Reply>)
    requires Conduct(rules, Checking(source, claimId), script).0.Success?
    ensures var (result, calls) := Conduct(rules, Checking(source, claimId), script);
      && 1 <= |calls| <= |script| && calls[|calls| - 1] == StatusRoute
      && Confirms(rules, script[|calls| - 1], source, claimId, result.value)
  {
    hide Confirms, ReadStatusReply, DispatchedOk, U;
    var status := ReadStatusReply(rules, First(script), source, claimId);
    if Settled(status) {
      SettledConfirms(rules, First(script), source, claimId);
      LostFails(rules, source, claimId);
    } else {
      DispatchingSucceeds(rules, source, claimId, Rest(script));
    }
  }

  lemma LostFails(rules: Rules, source: Source, claimId: Text)
    ensures ReadStatusReply(rules, Lost, source, claimId).Throw?
  {
  }

  lemma DispatchingSucceeds(rules: Rules, source: Source, claimId: Text, script: seq<Reply>)
    requires Conduct(rules, Dispatching(source, claimId), script).0.Success?
    ensures var (result, calls) := Conduct(rules, Dispatching(source, claimId), script);
      && 2 <= |calls| <= |script| && calls[|calls| - 1] == StatusRoute
      && Confirms(rules, script[|calls| - 1], source, claimId, result.value)
  {
    hide Confirms, ReadStatusReply, DispatchedOk, U;
    LostFails(rules, source, claimId);
    var next := OnReply(rules, Dispatching(source, claimId), First(script));
    if next.Restoring? {
      LastRead(rules, next, Rest(script));
    } else {
      assert OnReply(rules, next, First(Rest(script))) == Confirming(source, claimId);
      LastRead(rules, Confirming(source, claimId), Rest(Rest(script)));
    }
  }

  lemma LastRead(rules: Rules, c: Client, script: seq<Reply>)
    requires (c.Restoring? || c.Confirming?) && Conduct(rules, c, script).0.Success?
    ensures var (result, calls) := Conduct(rules, c, script);
      && calls == [StatusRoute] && script != []
      && Confirms(rules, script[0], c.source, c.claimId, result.value)
  {
    hide Confirms, ReadStatusReply, U;
    LostFails(rules, c.source, c.claimId);
    assert OnReply(rules, c, First(script)).Done?;
    assert Conduct(rules, c, script).0 == OnReply(rules, c, First(script)).result;
    SettledConfirms(rules, First(script), c.source, c.claimId);
  }

  /** Once the dispatch is on its way its reply and the acknowledgment decide nothing: the run succeeds exactly
      when the status it reads last is past the prepared state. */
  lemma LastStatusDecides(rules: Rules, source: Source, claimId: Text, dispatched: Reply, acknowledged: Reply,
                          status: Reply)
    ensures
      var script := if dispatched.Body? && DispatchedOk(rules, dispatched.value, claimId, source)
        then [dispatched, acknowledged, status] else [dispatched, status];
      Conduct(rules, Dispatching(source, claimId), script).0.Success? <==>
        Settled(ReadStatusReply(rules, status, source, claimId))
  {
    hide ReadStatusReply, DispatchedOk, U;
    assert [dispatched, status][1..] == [status];
    assert [dispatched, acknowledged, status][1..] == [acknowledged, status];
    assert [acknowledged, status][1..] == [status];
    var done := OnReply(rules, Restoring(source, claimId), status);
    var confirmed := OnReply(rules, Confirming(source, claimId), status);
    assert Conduct(rules, Restoring(source, claimId), [status]).0 == done.result;
    assert Conduct(rules, Confirming(source, claimId), [status]).0 == confirmed.result;
  }

  function Dispatches(calls: seq<Route>): nat {
    if calls == [] then 0 else (if calls[0].DispatchRoute? then 1 else 0) + Dispatches(calls[1..])
  }

  /** A run dispatches once at most, under the migration's key, and only right after it has read a prepared claim
      without an attempt. */
  lemma DispatchIsFenced(rules: Rules, script: seq<Reply>)
    ensures var calls := Conduct(rules, Exchanging, script).1;
      && Dispatches(calls) <= 1
      && (Dispatches(calls) == 1 ==>
            |calls| > 3
            && calls[..4] == [ExchangeRoute, PrepareRoute, StatusRoute, DispatchRoute(IdempotencyKey(rules))]
            && |script| > 2 && script[2].Body?
            && Get(script[2].value, U("status")) == Str(U("prepared")) && Get(script[2].value, U("attempt")) == Null)
  {
    hide ReadPrepared, ReadStatusReply, DispatchedOk, U, Get, Conduct;
    var c := OnReply(rules, Exchanging, First(script));
    var calls := Conduct(rules, Exchanging, script).1;
    StepCalls(rules, Exchanging, script);
    if c.Preparing? {
      var d := OnReply(rules, c, First(Rest(script)));
      StepCalls(rules, c, Rest(script));
      if d.Checking? {
        var e := OnReply(rules, d, First(Rest(Rest(script))));
        StepCalls(rules, d, Rest(Rest(script)));
        if e.Dispatching? {
          CheckedIsPrepared(rules, d, First(Rest(Rest(script))));
          StepCalls(rules, e, Rest(Rest(Rest(script))));
          AfterDispatch(rules, OnReply(rules, e, First(Rest(Rest(Rest(script))))), Rest(Rest(Rest(Rest(script)))));
        } else {
          StepCalls(rules, e, Rest(Rest(Rest(script))));
        }
      } else {
        StepCalls(rules, d, Rest(Rest(script)));
      }
    } else {
      StepCalls(rules, c, Rest(script));
    }
  }

  lemma StepCalls(rules: Rules, c: Client, script: seq<Reply>)
    ensures var calls := Conduct(rules, c, script).1;
      if c.Done? then calls == [] && Dispatches(calls) == 0
      else
        var after := Conduct(rules, OnReply(rules, c, First(script)), Rest(script)).1;
        && calls == [RouteOf(rules, c)] + after
        && Dispatches(calls) == (if c.Dispatching? then 1 else 0) + Dispatches(after)
  {
    hide OnReply;
    if !c.Done? {
      var after := Conduct(rules, OnReply(rules, c, First(script)), Rest(script)).1;
      assert ([RouteOf(rules, c)] + after)[1..] == after;
    }
  }

  lemma AfterDispatch(rules: Rules, c: Client, script: seq<Reply>)
    requires c.Done? || c.Restoring? || c.Acknowledging? || c.Confirming?
    ensures Dispatches(Conduct(rules, c, script).1) == 0
    decreases Left(c)
  {
    hide ReadStatusReply, Conduct;
    StepCalls(rules, c, script);
    if !c.Done? {
      AfterDispatch(rules, OnReply(rules, c, First(script)), Rest(script));
    }
  }

  /** A run goes on to dispatch only on a prepared claim that has no attempt. */
  lemma CheckedIsPrepared(rules: Rules, c: Client, reply: Reply)
    requires c.Checking? && OnReply(rules, c, reply).Dispatching?
    ensures reply.Body? && Get(reply.value, U("status")) == Str(U("prepared")) && Get(reply.value, U("attempt")) == Null
  {
    hide Get, U, OneOf, EpochOk, EpochValue, ReadTargetAttempt;
  }

  // ---- the service ----

  /** The claim's durable record, the keys of the dispatches that were handled, and the number of PUTs of the secret
      that were started. What a service does with a key it has seen is its own choice. */
  datatype Service = Service(
    claimId: Text,
    status: Json,
    attempt: Json,
    honoursKeys: bool,
    keys: set<Text>,
    puts: nat)

  /** What happens to one request: it never arrives, or it is handled after the record has moved on, with the
      attempt a dispatch would record, and its reply arrives or not. */
  datatype Delivery = Dropped | Handled(status: Json, attempt: Json, reply: Json, replyArrives: bool)

  /** The record moves on in the background; an attempt is changed and never forgotten. */
  function Moved(s: Service, status: Json, attempt: Json): Service {
    s.(status := status, attempt := if s.attempt == Null || attempt == Null then s.attempt else attempt)
  }

  /** The service honours idempotency keys and has seen this one. */
  predicate Replayed(s: Service, key: Text) {
    s.honoursKeys && key in s.keys
  }

  /** A handled dispatch records its attempt before it starts the PUT; a replayed one starts none. */
  function Dispatched(s: Service, key: Text, attempt: Json): Service {
    s.(attempt := if attempt == Null then Obj([]) else attempt,
       keys := s.keys + {key},
       puts := if Replayed(s, key) then s.puts else s.puts + 1)
  }

  function StatusBody(s: Service): Json {
    Obj([Field(U("claimId"), Str(s.claimId)), Field(U("status"), s.status), Field(U("attempt"), s.attempt)])
  }

  function Served(s: Service, route: Route, d: Delivery): (Service, Reply) {
    match d
    case Dropped => (s, Lost)
    case Handled(status, attempt, reply, replyArrives) =>
      var moved := Moved(s, status, attempt);
      var after := if route.DispatchRoute? then Dispatched(moved, route.idempotencyKey, attempt) else moved;
      (after, if !replyArrives then Lost else if route.StatusRoute? then Body(StatusBody(after)) else Body(reply))
  }

  /** One run against the service; a run whose deliveries end early was killed there. */
  function RunOnce(rules: Rules, c: Client, s: Service, deliveries: seq<Delivery>): Service
    decreases |deliveries|
  {
    if c.Done? || deliveries == [] then s
    else
      var (after, reply) := Served(s, RouteOf(rules, c), deliveries[0]);
      RunOnce(rules, OnReply(rules, c, reply), after, deliveries[1..])
  }

  /** One run after another. */
  function RunAll(rules: Rules, s: Service, runs: seq<seq<Delivery>>): Service
    decreases |runs|
  {
    if runs == [] then s else RunAll(rules, RunOnce(rules, Exchanging, s, runs[0]), runs[1..])
  }

  ghost predicate Fenced(s: Service) {
    s.puts <= 1 && (s.puts == 1 ==> s.attempt != Null)
  }

  lemma StatusBodyAttempt(s: Service)
    ensures Get(StatusBody(s), U("attempt")) == s.attempt
  {
    var fields := StatusBody(s).fields;
    assert |U("claimId")| == 7 && |U("status")| == 6 && |U("attempt")| == 7;
    assert U("claimId")[0] == 0x63 && U("attempt")[0] == 0x61;
    assert fields[2].key == U("attempt");
  }

  /** Requests of one run and their effects keep the fence; a run about to dispatch knows there is none. */
  lemma {:induction false} RunKeepsFence(rules: Rules, c: Client, s: Service, deliveries: seq<Delivery>)
    requires Fenced(s) && (c.Dispatching? ==> s.attempt == Null)
    ensures Fenced(RunOnce(rules, c, s, deliveries))
    decreases |deliveries|
  {
    hide ReadStatusReply, ReadPrepared, DispatchedOk, StatusBody, Get, U;
    if !c.Done? && deliveries != [] {
      var (after, reply) := Served(s, RouteOf(rules, c), deliveries[0]);
      var next := OnReply(rules, c, reply);
      if next.Dispatching? {
        CheckedIsPrepared(rules, c, reply);
        StatusBodyAttempt(after);
      }
      RunKeepsFence(rules, next, after, deliveries[1..]);
    }
  }

  /** Over any sequence of runs, with requests and replies lost and runs killed anywhere, at most one PUT of
      the secret is started. */
  lemma {:induction false} AtMostOnePut(rules: Rules, s: Service, runs: seq<seq<Delivery>>)
    requires Fenced(s)
    ensures RunAll(rules, s, runs).puts <= 1 && Fenced(RunAll(rules, s, runs))
    decreases |runs|
  {
    hide RunOnce;
    if runs != [] {
      RunKeepsFence(rules, Exchanging, s, runs[0]);
      AtMostOnePut(rules, RunOnce(rules, Exchanging, s, runs[0]), runs[1..]);
    }
  }

  /** Two runs at the same time are fenced by the service only: both can read the status before either dispatches.
      Their dispatches carry one key: a service that honours it starts one PUT, any other starts two. */
  lemma OverlapStartsTwo(rules: Rules, source: Source, s: Service)
    requires GoodRules(rules) && s.attempt == Null && s.status == Str(U("prepared")) && s.puts == 0 && s.keys == {}
    ensures var check := Handled(s.status, Null, Null, true);
      var (after, reply) := Served(s, StatusRoute, check);
      && OnReply(rules, Checking(source, s.claimId), reply).Dispatching?
      && after == s
      && (forall d: Delivery, e: Delivery :: d.Handled? && e.Handled? ==>
            var route := RouteOf(rules, Dispatching(source, s.claimId));
            Served(Served(s, route, d).0, route, e).0.puts == if s.honoursKeys then 1 else 2)
  {
    var v := StatusBody(s);
    StatusBodyAttempt(s);
    assert CLAIM_STATUSES[0] == "prepared";
    assert |U("claimId")| == 7 && |U("status")| == 6;
    assert Get(v, U("claimId")) == Str(s.claimId);
    assert v.fields[1].key == U("status");
    assert Get(v, U("status")) == s.status;
    assert OneOf(rules.asString(s.status), CLAIM_STATUSES);
  }
}
