/** Which messages of the server the protocol takes for what. */
module AuthRefreshLines {
  import opened Options
  import opened Texts
  import opened Json
  import opened JsonLaws
  import opened CanonicalTheorems
  import opened AuthRefresh

  /** A response with a result and no error. */
  predicate IsResponse(v: Json) {
    Has(v, "id") && !Has(v, "method") && !Has(v, "error") && Get(v, U("result")).Obj?
  }

  predicate IsNotification(v: Json) {
    !Has(v, "id") && Get(v, U("method")).Str?
  }

  /** The account that a response names is a ChatGPT account. */
  predicate NamesAccount(v: Json) {
    var account := Get(Get(v, U("result")), U("account"));
    account.Obj? && Get(account, U("type")) == Str(U("chatgpt"))
  }

  lemma FieldOfNormal(c: NumberCodec, v: Json, k: Text)
    requires WellFormed(c, v) && Defined(v)
    ensures Get(Normal(v), k) == if Get(v, k).Undefined? then Undefined else Normal(Get(v, k))
    ensures v.Obj? ==> (HasKey(Normal(v).fields, k) <==> HasKey(v.fields, k))
    ensures Get(v, k).Undefined? || (WellFormed(c, Get(v, k)) && Defined(Get(v, k)))
  {
    if v.Obj? {
      LookupNormal(v.fields, k);
      if HasKey(v.fields, k) {
        var f := v.fields[IndexOf(v.fields, k)];
        assert f in v.fields && Defined(f.value) && !f.value.Undefined?;
      }
    }
  }

  lemma NormalKinds(v: Json, t: Text)
    requires !v.Undefined?
    ensures Normal(v).Str? <==> v.Str?
    ensures Normal(v).Obj? <==> v.Obj?
    ensures Normal(v) == Str(t) <==> v == Str(t)
    ensures Normal(v) == Num(Finite(1.0)) <==> v == Num(Finite(1.0))
    ensures Normal(v) == Num(Finite(2.0)) <==> v == Num(Finite(2.0))
    ensures !Normal(v).Undefined?
  {
  }

  /** The canonical text of an object on a line is a notification if it has a method and no id; the initialize reply if
      it is a response to request 1; the account reply if it is a response to request 2 that names a ChatGPT account;
      and anything else is invalid. */
  lemma PrintedLine(c: NumberCodec, v: Json)
    requires GoodCodec(c) && WellFormed(c, v) && Printable(v) && Defined(v) && v.Obj?
    ensures var line := Classify(c, Print(c, v));
      && (line == Skip <==> IsNotification(v))
      && (line == InitializeReply <==> IsResponse(v) && Get(v, U("id")) == Num(Finite(1.0)))
      && (line == AccountReply <==> IsResponse(v) && Get(v, U("id")) == Num(Finite(2.0)) && NamesAccount(v))
  {
    hide Normal, WellFormed, Defined, Get, U, ParseValue, Print;
    ParsePrint(c, v, []);
    assert Print(c, v) + [] == Print(c, v);
    PrintStart(c, v);
    StartsWithBrace(c, v);
    FieldOfNormal(c, v, U("id"));
    FieldOfNormal(c, v, U("method"));
    FieldOfNormal(c, v, U("error"));
    FieldOfNormal(c, v, U("result"));
    var id, method_, result := Get(v, U("id")), Get(v, U("method")), Get(v, U("result"));
    Kinds(id);
    Kinds(method_);
    Kinds(result);
    if !result.Undefined? {
      FieldOfNormal(c, result, U("account"));
      var account := Get(result, U("account"));
      Kinds(account);
      if !account.Undefined? {
        FieldOfNormal(c, account, U("type"));
        Kinds(Get(account, U("type")));
      }
      NoFields(account);
    }
    NoFields(result);
    NormalIsObject(v);
  }

  lemma Kinds(v: Json)
    ensures !v.Undefined? ==>
      && (Normal(v).Str? <==> v.Str?) && (Normal(v).Obj? <==> v.Obj?) && !Normal(v).Undefined?
      && (forall t :: Normal(v) == Str(t) <==> v == Str(t))
      && (Normal(v) == Num(Finite(1.0)) <==> v == Num(Finite(1.0)))
      && (Normal(v) == Num(Finite(2.0)) <==> v == Num(Finite(2.0)))
  {
    if !v.Undefined? {
      NormalKinds(v, []);
      forall t ensures Normal(v) == Str(t) <==> v == Str(t) {
        NormalKinds(v, t);
      }
    }
  }

  lemma NoFields(v: Json)
    ensures v.Undefined? ==> forall k :: Get(v, k).Undefined?
  {
  }

  lemma NormalIsObject(v: Json)
    ensures v.Obj? ==> Normal(v).Obj?
  {
  }

  lemma StartsWithBrace(c: NumberCodec, v: Json)
    requires Printable(v) && v.Obj?
    ensures Print(c, v) != [] && Print(c, v)[0] == OPEN_BRACE && !Blank(Print(c, v))
  {
    assert !Space(OPEN_BRACE);
    assert !Space(Print(c, v)[0]);
  }
}
