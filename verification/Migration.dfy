/** `runCodexRuntimeMigration` (src/codex-oauth/runtime-migration.ts): the exchange, prepare, status,
    dispatch and outcome requests of one run, over any replies. */
module Migration {
  import opened Options
  import opened Texts
  import opened Json

  /** The namespace and secret the credential comes from. */
  datatype Source = Source(namespaceId: Text, namespaceEpoch: Text, secretName: Text)

  /** The migration a run belongs to, and what it asks of code outside the protocol: `String`, three identifier
      patterns, and the check of the exchange reply against the runner's context and credential. */
  datatype Rules = Rules(
    migrationId: Text,
    asString: Json -> Text,
    claimIdOk: Text -> bool,
    opaqueIdOk: Text -> bool,
    secretNameOk: Text -> bool,
    readExchange: Json -> Outcome<Source>)

  ghost predicate GoodRules(rules: Rules) {
    forall t: Text :: rules.asString(Str(t)) == t
  }

  // ---- readers of replies ----

  function ReadString(v: Json, ok: Text -> bool): Outcome<Text> {
    if v.Str? && ok(v.s) then Success(v.s) else Throw("response_invalid")
  }

  /** `/^[1-9][0-9]{0,19}$/` */
  predicate EpochOk(t: Text) {
    1 <= |t| <= 20 && t[0] != 0x30 && forall i :: 0 <= i < |t| ==> Digit(t[i])
  }

  /** `BigInt(text)` of a text of digits. */
  function EpochValue(t: Text): nat
    requires forall i :: 0 <= i < |t| ==> Digit(t[i])
  {
    if t == [] then 0
    else
      assert Digit(t[|t| - 1]);
      EpochValue(t[..|t| - 1]) * 10 + (t[|t| - 1] - 0x30)
  }

  datatype Attempt = Attempt(attemptId: Text, status: Text)

  datatype ClaimStatus = ClaimStatus(status: Json, attempt: Option<Attempt>)

  const ATTEMPT_STATUSES: seq<string> :=
    ["dispatch_authorized", "confirmed", "retired_ambiguous", "retired_confirmed"]

  const CLAIM_STATUSES: seq<string> := ["prepared", "confirmed_candidate", "active"]

  const PREPARE_STATUSES: seq<string> := ["prepared", "prepared_replay", "confirmed_candidate", "active"]

  predicate OneOf(t: Text, names: seq<string>) {
    exists i :: 0 <= i < |names| && t == U(names[i])
  }

  function ReadTargetAttempt(rules: Rules, v: Json, claimId: Text, source: Source): Outcome<Attempt> {
    if !v.Obj? then Throw("response_invalid")
    else
      var epoch := ReadString(Get(v, U("namespaceEpoch")), EpochOk);
      var namespaceId := ReadString(Get(v, U("namespaceId")), rules.opaqueIdOk);
      var secretName := ReadString(Get(v, U("secretName")), rules.secretNameOk);
      if epoch.Throw? || namespaceId.Throw? || secretName.Throw? then Throw("response_invalid")
      else if Get(v, U("claimId")) != Str(claimId) || namespaceId.value == source.namespaceId then
        Throw("target_attempt_invalid")
      else if !EpochOk(source.namespaceEpoch) then Throw("response_invalid")
      else if EpochValue(epoch.value) <= EpochValue(source.namespaceEpoch)
           || secretName.value == source.secretName
           || !OneOf(rules.asString(Get(v, U("status"))), ATTEMPT_STATUSES) then Throw("target_attempt_invalid")
      else
        var attemptId := ReadString(Get(v, U("attemptId")), rules.opaqueIdOk);
        if attemptId.Throw? then Throw("response_invalid")
        else Success(Attempt(attemptId.value, rules.asString(Get(v, U("status")))))
  }

  function ReadClaimStatus(rules: Rules, v: Json, claimId: Text, source: Source): Outcome<ClaimStatus> {
    if !v.Obj? then Throw("response_invalid")
    else
      var status := Get(v, U("status"));
      if Get(v, U("claimId")) != Str(claimId) || !OneOf(rules.asString(status), CLAIM_STATUSES) then
        Throw("claim_status_invalid")
      else if Get(v, U("attempt")) == Null then
        if status != Str(U("prepared")) then Throw("claim_status_invalid") else Success(ClaimStatus(status, None))
      else
        var attempt := ReadTargetAttempt(rules, Get(v, U("attempt")), claimId, source);
        if attempt.Throw? then Throw(attempt.reason)
        else if status != Str(U("prepared")) && attempt.value.status != U("confirmed") then
          Throw("claim_status_invalid")
        else Success(ClaimStatus(status, Some(attempt.value)))
  }

  function ReadPrepared(rules: Rules, v: Json): Outcome<Text> {
    if !v.Obj? then Throw("response_invalid")
    else
      var claimId := ReadString(Get(v, U("claimId")), rules.claimIdOk);
      if claimId.Throw? then claimId
      else if !OneOf(rules.asString(Get(v, U("status"))), PREPARE_STATUSES) then Throw("claim_invalid")
      else claimId
  }

  /** The dispatch reply the run goes on with. */
  predicate DispatchedOk(rules: Rules, v: Json, claimId: Text, source: Source) {
    && v.Obj?
    && Get(v, U("status")) == Str(U("confirmed"))
    && (Get(v, U("responseCode")) == Num(Finite(201.0)) || Get(v, U("responseCode")) == Num(Finite(204.0)))
    && ReadTargetAttempt(rules, v, claimId, source).Success?
  }

  // ---- the protocol ----

  /** The requests of a run. A dispatch carries a key by which the service can tell it from another one. */
  datatype Route =
    | ExchangeRoute
    | PrepareRoute
    | StatusRoute
    | DispatchRoute(idempotencyKey: Text)
    | OutcomeRoute

  /** One key for all runs of a migration. */
  function IdempotencyKey(rules: Rules): Text {
    U("runtime-migration:") + rules.migrationId
  }

  /** A reply body, or none: the request failed, was aborted, or was answered with an error code. */
  datatype Reply = Lost | Body(value: Json)

  /** What the run is waiting for. */
  datatype Client =
    | Exchanging
    | Preparing(source: Source)
    | Checking(source: Source, claimId: Text)
    | Dispatching(source: Source, claimId: Text)
    | Restoring(source: Source, claimId: Text)
    | Acknowledging(source: Source, claimId: Text)
    | Confirming(source: Source, claimId: Text)
    | Done(result: Outcome<Json>)

  function RouteOf(rules: Rules, c: Client): Route
    requires !c.Done?
  {
    match c
    case Exchanging => ExchangeRoute
    case Preparing(_) => PrepareRoute
    case Checking(_, _) | Restoring(_, _) | Confirming(_, _) => StatusRoute
    case Dispatching(_, _) => DispatchRoute(IdempotencyKey(rules))
    case Acknowledging(_, _) => OutcomeRoute
  }

  /** How many requests can still follow. */
  function Left(c: Client): nat {
    match c
    case Exchanging => 6
    case Preparing(_) => 5
    case Checking(_, _) => 4
    case Dispatching(_, _) => 3
    case Acknowledging(_, _) => 2
    case Restoring(_, _) | Confirming(_, _) => 1
    case Done(_) => 0
  }

  function ReadStatusReply(rules: Rules, reply: Reply, source: Source, claimId: Text): Outcome<ClaimStatus> {
    if reply.Lost? then Throw("control_request_failed") else ReadClaimStatus(rules, reply.value, claimId, source)
  }

  /** The status was read and the migration is past the prepared state. */
  predicate Settled(status: Outcome<ClaimStatus>) {
    status.Success? && status.value.status != Str(U("prepared"))
  }

  /** The three places that read the status. */
  function OnStatus(c: Client, status: Outcome<ClaimStatus>): (d: Client)
    requires c.Checking? || c.Restoring? || c.Confirming?
    ensures d.Done? || (c.Checking? && d.Dispatching?)
  {
    if Settled(status) then Done(Success(status.value.status))
    else if c.Restoring? then Done(Throw("dispatch_outcome_unknown"))
    else if status.Throw? then Done(Throw(status.reason))
    else if c.Confirming? then Done(Throw("confirmation_pending"))
    else if status.value.attempt.Some? then Done(Throw("dispatch_outcome_unknown"))
    else Dispatching(c.source, c.claimId)
  }

  function OnReply(rules: Rules, c: Client, reply: Reply): (d: Client)
    requires !c.Done?
    ensures Left(d) < Left(c)
  {
    match c
    case Exchanging =>
      var read := if reply.Lost? then Throw("control_request_failed") else rules.readExchange(reply.value);
      if read.Throw? then Done(Throw(read.reason)) else Preparing(read.value)
    case Preparing(source) =>
      var read := if reply.Lost? then Throw("control_request_failed") else ReadPrepared(rules, reply.value);
      if read.Throw? then Done(Throw(read.reason)) else Checking(source, read.value)
    case Dispatching(source, claimId) =>
      if reply.Body? && DispatchedOk(rules, reply.value, claimId, source) then Acknowledging(source, claimId)
      else Restoring(source, claimId)
    case Acknowledging(source, claimId) => Confirming(source, claimId)
    case Checking(_, _) | Restoring(_, _) | Confirming(_, _) =>
      OnStatus(c, ReadStatusReply(rules, reply, c.source, c.claimId))
  }

  function First(script: seq<Reply>): Reply {
    if script == [] then Lost else script[0]
  }

  function Rest(script: seq<Reply>): seq<Reply> {
    if script == [] then [] else script[1..]
  }

  /** The rest of a run over the replies to come: its result and its requests. */
  function Conduct(rules: Rules, c: Client, script: seq<Reply>): (Outcome<Json>, seq<Route>)
    decreases Left(c)
  {
    if c.Done? then (c.result, [])
    else
      var rest := Conduct(rules, OnReply(rules, c, First(script)), Rest(script));
      (rest.0, [RouteOf(rules, c)] + rest.1)
  }

  // ---- the run as the source writes it ----

  /** The service at the other end: it gives the scripted replies, whatever is asked. */
  class ControlPlane {
    var script: seq<Reply>
    var calls: seq<Route>

    constructor (script: seq<Reply>)
      ensures this.script == script && calls == []
    {
      this.script := script;
      calls := [];
    }

    method Post(route: Route) returns (reply: Reply)
      modifies this
      ensures reply == First(old(script)) && script == Rest(old(script)) && calls == old(calls) + [route]
    {
      calls := calls + [route];
      if script == [] {
        return Lost;
      }
      reply := script[0];
      script := script[1..];
    }
  }

  /** The run from `c` on is the end of the whole run. */
  ghost predicate Tail(rules: Rules, whole: (Outcome<Json>, seq<Route>), before: seq<Route>,
                       c: Client, script: seq<Reply>, calls: seq<Route>)
  {
    whole.0 == Conduct(rules, c, script).0 && before + whole.1 == calls + Conduct(rules, c, script).1
  }

  lemma NextTail(rules: Rules, whole: (Outcome<Json>, seq<Route>), before: seq<Route>,
                 c: Client, script: seq<Reply>, calls: seq<Route>)
    requires Tail(rules, whole, before, c, script, calls) && !c.Done?
    ensures Tail(rules, whole, before, OnReply(rules, c, First(script)), Rest(script), calls + [RouteOf(rules, c)])
  {
    hide OnReply;
    var rest := Conduct(rules, OnReply(rules, c, First(script)), Rest(script)).1;
    assert calls + ([RouteOf(rules, c)] + rest) == calls + [RouteOf(rules, c)] + rest;
  }

  lemma LastTail(rules: Rules, whole: (Outcome<Json>, seq<Route>), before: seq<Route>,
                 c: Client, script: seq<Reply>, calls: seq<Route>)
    requires Tail(rules, whole, before, c, script, calls) && c.Done?
    ensures whole.0 == c.result && calls == before + whole.1
  {
  }

  method RunCodexRuntimeMigration(rules: Rules, plane: ControlPlane) returns (r: Outcome<Json>)
    modifies plane
    ensures r == Conduct(rules, Exchanging, old(plane.script)).0
    ensures plane.calls == old(plane.calls) + Conduct(rules, Exchanging, old(plane.script)).1
  {
    hide ReadPrepared, ReadStatusReply, DispatchedOk, Conduct, Tail, U;
    ghost var whole, before := Conduct(rules, Exchanging, plane.script), plane.calls;
    ghost var c: Client := Exchanging;
    ExchangingTail(rules, plane.script, plane.calls);
    NextTail(rules, whole, before, c, plane.script, plane.calls);
    var reply := plane.Post(ExchangeRoute);
    c := OnReply(rules, c, reply);
    if reply.Lost? {
      LastTail(rules, whole, before, c, plane.script, plane.calls);
      return Throw("control_request_failed");
    }
    var exchange := rules.readExchange(reply.value);
    if exchange.Throw? {
      LastTail(rules, whole, before, c, plane.script, plane.calls);
      return Throw(exchange.reason);
    }
    var source := exchange.value;
    NextTail(rules, whole, before, c, plane.script, plane.calls);
    reply := plane.Post(PrepareRoute);
    c := OnReply(rules, c, reply);
    if reply.Lost? {
      LastTail(rules, whole, before, c, plane.script, plane.calls);
      return Throw("control_request_failed");
    }
    var prepared := ReadPrepared(rules, reply.value);
    if prepared.Throw? {
      LastTail(rules, whole, before, c, plane.script, plane.calls);
      return Throw(prepared.reason);
    }
    var claimId := prepared.value;
    NextTail(rules, whole, before, c, plane.script, plane.calls);
    reply := plane.Post(StatusRoute);
    c := OnReply(rules, c, reply);
    var status := ReadStatusReply(rules, reply, source, claimId);
    if status.Throw? {
      LastTail(rules, whole, before, c, plane.script, plane.calls);
      return Throw(status.reason);
    }
    if status.value.status != Str(U("prepared")) {
      LastTail(rules, whole, before, c, plane.script, plane.calls);
      return Success(status.value.status);
    }
    if status.value.attempt.Some? {
      LastTail(rules, whole, before, c, plane.script, plane.calls);
      return Throw("dispatch_outcome_unknown");
    }
    NextTail(rules, whole, before, c, plane.script, plane.calls);
    reply := plane.Post(DispatchRoute(IdempotencyKey(rules)));
    c := OnReply(rules, c, reply);
    NextTail(rules, whole, before, c, plane.script, plane.calls);
    if reply.Lost? || !DispatchedOk(rules, reply.value, claimId, source) {
      reply := plane.Post(StatusRoute);
      c := OnReply(rules, c, reply);
      LastTail(rules, whole, before, c, plane.script, plane.calls);
      var restored := ReadStatusReply(rules, reply, source, claimId);
      if restored.Success? && restored.value.status != Str(U("prepared")) {
        return Success(restored.value.status);
      }
      return Throw("dispatch_outcome_unknown");
    }
    // The acknowledgment may be lost: the status is read back, without another PUT.
    reply := plane.Post(OutcomeRoute);
    c := OnReply(rules, c, reply);
    NextTail(rules, whole, before, c, plane.script, plane.calls);
    reply := plane.Post(StatusRoute);
    c := OnReply(rules, c, reply);
    LastTail(rules, whole, before, c, plane.script, plane.calls);
    var confirmed := ReadStatusReply(rules, reply, source, claimId);
    if confirmed.Throw? {
      return Throw(confirmed.reason);
    }
    if confirmed.value.status == Str(U("prepared")) {
      return Throw("confirmation_pending");
    }
    return Success(confirmed.value.status);
  }

  lemma ExchangingTail(rules: Rules, script: seq<Reply>, calls: seq<Route>)
    ensures Tail(rules, Conduct(rules, Exchanging, script), calls, Exchanging, script, calls)
  {
    hide Conduct;
  }
}
