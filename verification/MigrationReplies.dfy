/** Which replies of the service settle a migration, and which requests a run makes. */
module MigrationReplies {
  import opened Options
  import opened Texts
  import opened Decimal
  import opened Json
  import opened Migration
  import opened MigrationLaws

  // ---- epochs ----

  lemma DigitText(n: nat)
    requires n < 10
    ensures U([DigitOf(n)]) == [0x30 + n]
  {
  }

  lemma UConcat(a: string, b: string)
    ensures U(a + b) == U(a) + U(b)
  {
  }

  /** An epoch is read as the number whose numeral it is. */
  lemma {:induction false} EpochReads(n: nat)
    ensures forall i :: 0 <= i < |U(Numeral(n))| ==> Digit(U(Numeral(n))[i])
    ensures EpochValue(U(Numeral(n))) == n
  {
    hide U;
    var t := U(Numeral(n));
    if n < 10 {
      DigitText(n);
      assert t[..0] == [] && EpochValue(t[..0]) == 0;
    } else {
      EpochReads(n / 10);
      DigitText(n % 10);
      UConcat(Numeral(n / 10), [DigitOf(n % 10)]);
      assert t[..|t| - 1] == U(Numeral(n / 10));
    }
  }

  // ---- what settles a migration ----

  predicate OneOfFour(t: Text) {
    || t == U("dispatch_authorized") || t == U("confirmed") || t == U("retired_ambiguous")
    || t == U("retired_confirmed")
  }

  /** The attempt is one of this claim for another namespace, a later epoch and another secret than the source, well
      formed and in a known state. */
  ghost predicate TargetsAnew(rules: Rules, v: Json, claimId: Text, source: Source) {
    var epoch, space, secret := Get(v, U("namespaceEpoch")), Get(v, U("namespaceId")), Get(v, U("secretName"));
    && v.Obj? && Get(v, U("claimId")) == Str(claimId)
    && epoch.Str? && EpochOk(epoch.s) && EpochOk(source.namespaceEpoch)
    && EpochValue(epoch.s) > EpochValue(source.namespaceEpoch)
    && space.Str? && rules.opaqueIdOk(space.s) && space.s != source.namespaceId
    && secret.Str? && rules.secretNameOk(secret.s) && secret.s != source.secretName
    && Get(v, U("attemptId")).Str? && rules.opaqueIdOk(Get(v, U("attemptId")).s)
    && OneOfFour(rules.asString(Get(v, U("status"))))
  }

  lemma NamesOfFour(t: Text)
    ensures OneOf(t, ATTEMPT_STATUSES) <==> OneOfFour(t)
  {
    hide U;
    assert ATTEMPT_STATUSES[0] == "dispatch_authorized" && ATTEMPT_STATUSES[1] == "confirmed";
    assert ATTEMPT_STATUSES[2] == "retired_ambiguous" && ATTEMPT_STATUSES[3] == "retired_confirmed";
  }

  lemma AttemptIff(rules: Rules, v: Json, claimId: Text, source: Source)
    ensures var r := ReadTargetAttempt(rules, v, claimId, source);
      && (r.Success? <==> TargetsAnew(rules, v, claimId, source))
      && (r.Success? ==> r.value.status == rules.asString(Get(v, U("status"))))
  {
    hide U, Get, OneOf, EpochOk, EpochValue, OneOfFour;
    EpochDigits();
    NamesOfFour(rules.asString(Get(v, U("status"))));
  }

  predicate ClaimState(t: Text) {
    t == U("prepared") || t == U("confirmed_candidate") || t == U("active")
  }

  lemma ClaimStates(t: Text)
    ensures OneOf(t, CLAIM_STATUSES) <==> ClaimState(t)
  {
    hide U;
    assert CLAIM_STATUSES[0] == "prepared" && CLAIM_STATUSES[1] == "confirmed_candidate";
    assert CLAIM_STATUSES[2] == "active";
  }

  /** A status settles the migration if and only if it is one of this claim, past the prepared state, with a confirmed
      attempt that targets something new. */
  lemma SettledIff(rules: Rules, reply: Reply, source: Source, claimId: Text)
    ensures Settled(ReadStatusReply(rules, reply, source, claimId)) <==>
      && reply.Body? && reply.value.Obj? && Get(reply.value, U("claimId")) == Str(claimId)
      && ClaimState(rules.asString(Get(reply.value, U("status"))))
      && Get(reply.value, U("status")) != Str(U("prepared"))
      && TargetsAnew(rules, Get(reply.value, U("attempt")), claimId, source)
      && rules.asString(Get(Get(reply.value, U("attempt")), U("status"))) == U("confirmed")
  {
    hide U, Get, OneOf, ReadTargetAttempt, TargetsAnew, ClaimState;
    if reply.Body? {
      AttemptIff(rules, Get(reply.value, U("attempt")), claimId, source);
      ClaimStates(rules.asString(Get(reply.value, U("status"))));
      NullTargetsNothing(rules, claimId, source);
    }
  }

  lemma NullTargetsNothing(rules: Rules, claimId: Text, source: Source)
    ensures !TargetsAnew(rules, Null, claimId, source)
  {
  }

  /** A run may dispatch if and only if the status is the prepared one of its claim, without an attempt. */
  lemma MayDispatchIff(rules: Rules, source: Source, claimId: Text, reply: Reply)
    requires GoodRules(rules)
    ensures OnReply(rules, Checking(source, claimId), reply).Dispatching? <==>
      && reply.Body? && reply.value.Obj? && Get(reply.value, U("claimId")) == Str(claimId)
      && Get(reply.value, U("status")) == Str(U("prepared")) && Get(reply.value, U("attempt")) == Null
  {
    hide U, Get, OneOf, ReadTargetAttempt, ClaimState;
    if reply.Body? {
      ClaimStates(rules.asString(Get(reply.value, U("status"))));
      PreparedIsState();
    }
  }

  lemma PreparedIsState()
    ensures ClaimState(U("prepared"))
  {
  }

  /** A claim is prepared if and only if the reply has a claim identifier and one of four states. */
  lemma PreparedIff(rules: Rules, v: Json)
    ensures var r := ReadPrepared(rules, v); var t := rules.asString(Get(v, U("status")));
      && (r.Success? <==>
            && v.Obj? && Get(v, U("claimId")).Str? && rules.claimIdOk(Get(v, U("claimId")).s)
            && (ClaimState(t) || t == U("prepared_replay")))
      && (r.Success? ==> Get(v, U("claimId")) == Str(r.value))
  {
    hide U, Get, OneOf;
    PrepareStates(rules.asString(Get(v, U("status"))));
  }

  lemma PrepareStates(t: Text)
    ensures OneOf(t, PREPARE_STATUSES) <==> ClaimState(t) || t == U("prepared_replay")
  {
    hide U;
    assert PREPARE_STATUSES[0] == "prepared" && PREPARE_STATUSES[1] == "prepared_replay";
    assert PREPARE_STATUSES[2] == "confirmed_candidate" && PREPARE_STATUSES[3] == "active";
  }

  /** A dispatch is confirmed if and only if its reply says so, with one of the two codes of a write and an attempt of
      this claim that targets something new. */
  lemma ConfirmedIff(rules: Rules, v: Json, claimId: Text, source: Source)
    requires GoodRules(rules)
    ensures DispatchedOk(rules, v, claimId, source) <==>
      && TargetsAnew(rules, v, claimId, source)
      && Get(v, U("status")) == Str(U("confirmed"))
      && (Get(v, U("responseCode")) == Num(Finite(201.0)) || Get(v, U("responseCode")) == Num(Finite(204.0)))
  {
    hide U, Get, ReadTargetAttempt;
    AttemptIff(rules, v, claimId, source);
  }

  /** A reply about an attempt is invalid as an attempt, rather than malformed, if and only if its own fields are well
      formed and it is of another claim, or does not target anything new, or is in no known state. */
  lemma AttemptFault(rules: Rules, v: Json, claimId: Text, source: Source)
    requires EpochOk(source.namespaceEpoch)
    ensures var r := ReadTargetAttempt(rules, v, claimId, source);
      var epoch, space, secret := Get(v, U("namespaceEpoch")), Get(v, U("namespaceId")), Get(v, U("secretName"));
      && (r.Throw? ==> r.reason in {"response_invalid", "target_attempt_invalid"})
      && (r == Throw("target_attempt_invalid") <==>
            && v.Obj? && epoch.Str? && EpochOk(epoch.s) && space.Str? && rules.opaqueIdOk(space.s)
            && secret.Str? && rules.secretNameOk(secret.s)
            && !(&& Get(v, U("claimId")) == Str(claimId) && OneOfFour(rules.asString(Get(v, U("status"))))
                 && space.s != source.namespaceId && secret.s != source.secretName
                 && EpochValue(epoch.s) > EpochValue(source.namespaceEpoch)))
  {
    hide U, Get, OneOf, EpochOk, EpochValue, OneOfFour;
    EpochDigits();
    NamesOfFour(rules.asString(Get(v, U("status"))));
  }

  // ---- why a run fails ----

  /** Why the status reply cannot be used, if it cannot. */
  function StatusFault(rules: Rules, reply: Reply, source: Source, claimId: Text): Option<string> {
    var status := ReadStatusReply(rules, reply, source, claimId);
    if status.Throw? then Some(status.reason) else None
  }

  /** A run that read a usable status fails as unknown when an attempt was made before it or its dispatch was not
      confirmed and the last status does not settle it; and as pending when its dispatch was confirmed and that status
      is still the prepared one. */
  lemma FailureReasons(rules: Rules, source: Source, claimId: Text, status: Reply)
    ensures var r := ReadStatusReply(rules, status, source, claimId);
      var fault := StatusFault(rules, status, source, claimId);
      && (OnReply(rules, Restoring(source, claimId), status)
          == Done(if Settled(r) then Success(r.value.status) else Throw("dispatch_outcome_unknown")))
      && (OnReply(rules, Confirming(source, claimId), status)
          == Done(if Settled(r) then Success(r.value.status)
                  else if fault.Some? then Throw(fault.value) else Throw("confirmation_pending")))
      && (OnReply(rules, Checking(source, claimId), status)
          == if Settled(r) then Done(Success(r.value.status))
             else if fault.Some? then Done(Throw(fault.value))
             else if r.value.attempt.Some? then Done(Throw("dispatch_outcome_unknown"))
             else Dispatching(source, claimId))
  {
    hide ReadStatusReply, U;
  }

  // ---- the requests of a run ----

  /** The requests of a run: it stops where a reply stops it, dispatches under the migration's key, acknowledges a
      dispatch that was confirmed, and reads the status last. */
  lemma RequestsOfRun(rules: Rules, script: seq<Reply>)
    ensures var calls := Conduct(rules, Exchanging, script).1;
      var read := [ExchangeRoute, PrepareRoute, StatusRoute];
      var dispatched := read + [DispatchRoute(IdempotencyKey(rules))];
      || calls == [ExchangeRoute] || calls == [ExchangeRoute, PrepareRoute] || calls == read
      || calls == dispatched + [StatusRoute] || calls == dispatched + [OutcomeRoute, StatusRoute]
  {
    hide ReadPrepared, ReadStatusReply, DispatchedOk, U, Conduct;
    var c := OnReply(rules, Exchanging, First(script));
    StepCalls(rules, Exchanging, script);
    StepCalls(rules, c, Rest(script));
    if c.Preparing? {
      var d := OnReply(rules, c, First(Rest(script)));
      if d.Checking? {
        RequestsFromStatus(rules, d, Rest(Rest(script)));
      } else {
        StepCalls(rules, d, Rest(Rest(script)));
      }
    }
  }

  lemma RequestsFromStatus(rules: Rules, c: Client, script: seq<Reply>)
    requires c.Checking?
    ensures var calls := Conduct(rules, c, script).1;
      var dispatch := DispatchRoute(IdempotencyKey(rules));
      || calls == [StatusRoute] || calls == [StatusRoute, dispatch, StatusRoute]
      || calls == [StatusRoute, dispatch, OutcomeRoute, StatusRoute]
  {
    hide ReadStatusReply, DispatchedOk, U, Conduct, IdempotencyKey;
    var d := OnReply(rules, c, First(script));
    StepCalls(rules, c, script);
    if d.Dispatching? {
      AfterDispatching(rules, d, Rest(script));
    } else {
      StepCalls(rules, d, Rest(script));
    }
  }

  /** After a dispatch: the acknowledgment is sent if and only if the reply is a confirmation. */
  lemma AfterDispatching(rules: Rules, c: Client, script: seq<Reply>)
    requires c.Dispatching?
    ensures var calls := Conduct(rules, c, script).1;
      calls == [DispatchRoute(IdempotencyKey(rules))]
               + if First(script).Body? && DispatchedOk(rules, First(script).value, c.claimId, c.source)
                 then [OutcomeRoute, StatusRoute] else [StatusRoute]
  {
    hide ReadStatusReply, DispatchedOk, U, Conduct;
    var d := OnReply(rules, c, First(script));
    StepCalls(rules, c, script);
    StepCalls(rules, d, Rest(script));
    var e := OnReply(rules, d, First(Rest(script)));
    StepCalls(rules, e, Rest(Rest(script)));
    if d.Acknowledging? {
      StepCalls(rules, OnReply(rules, e, First(Rest(Rest(script)))), Rest(Rest(Rest(script))));
    }
  }
}
