/** `UpdateAccountDetailsOnPersonTenure`: fetch the account, then the tenure it names,
    then load every household member's person record and set the payment reference of
    its summary of that tenure; save the records only when every member succeeded. The
    fan-out of tasks and `Task.WaitAll` become loops that issue every call and collect
    every failure. */
module UpdateAccountDetails {
  import opened Wrappers
  import opened Guids
  import opened Domain
  import opened Gateways
  import opened PersonMutation

  /** What `UpdatePersonRecord` yields for one member, against the store `persons`. */
  function PaymentUpdated(persons: map<Guid, Person>, t: Tenure, paymentReference: string, hm: HouseholdMembers): Result<Person, Error>
  {
    match PersonById(persons, hm.id)
    case None => Failure(EntityNotFound(PersonEntity, hm.id))
    case Some(p) => UpdatePaymentReference(p, t.id, paymentReference)
  }

  /** The records updated so far and the failures collected so far, both in member order. */
  datatype Collected = Collected(updated: seq<Person>, errors: seq<Error>)

  /** The first wait: every member's task runs; the ones that fail contribute their
      error, the others their record. */
  function CollectUpdates(persons: map<Guid, Person>, t: Tenure, paymentReference: string, hms: seq<HouseholdMembers>): Collected
    decreases |hms|
  {
    if hms == [] then Collected([], [])
    else
      var c := CollectUpdates(persons, t, paymentReference, hms[..|hms| - 1]);
      match PaymentUpdated(persons, t, paymentReference, hms[|hms| - 1])
      case Success(p) => Collected(c.updated + [p], c.errors)
      case Failure(e) => Collected(c.updated, c.errors + [e])
  }

  /** The failures of the second wait: one per record whose save raises, in order. */
  function SaveFailures(saveFaults: set<Guid>, ps: seq<Person>): (r: seq<Error>)
    ensures r == [] <==> forall i :: 0 <= i < |ps| ==> ps[i].id !in saveFaults
    ensures forall k :: 0 <= k < |r| ==> r[k].SaveFailed? && r[k].personId in saveFaults
    decreases |ps|
  {
    if ps == [] then []
    else
      var r := SaveFailures(saveFaults, ps[..|ps| - 1]);
      var p := ps[|ps| - 1];
      if p.id in saveFaults then r + [SaveFailed(p.id)] else r
  }

  /** How `Task.WaitAll` reports a list of failures. */
  function WaitAllResult(errors: seq<Error>): Result<(), Error>
  {
    if errors == [] then Success(()) else Failure(Aggregate(errors))
  }

  /** Step #4 for the members of tenure `t`. */
  function MembersOutcome(env: Env, t: Tenure, a: Account, hms: seq<HouseholdMembers>): Outcome
  {
    var c := CollectUpdates(env.persons, t, a.paymentReference, hms);
    if c.errors != [] then Outcome(Failure(Aggregate(c.errors)), env.persons, LoadCalls(hms))
    else
      Outcome(WaitAllResult(SaveFailures(env.saveFaults, c.updated)),
              StoreAll(env.persons, env.saveFaults, c.updated),
              LoadCalls(hms) + SaveCalls(c.updated))
  }

  function AccountUpdateOutcome(env: Env, message: Option<EntityEventSns>): Outcome
  {
    match message
    case None => Outcome(Failure(ArgumentNull("message")), env.persons, [])
    case Some(m) =>
      var c0 := [GetAccount(m.entityId, m.correlationId)];
      match AccountAnswer(env, m.entityId)
      case Faulted => Outcome(Failure(LookupFailed(m.entityId)), env.persons, c0)
      case Absent => Outcome(Failure(EntityNotFound(AccountEntity, m.entityId)), env.persons, c0)
      case Found(a) =>
        var tenancyId := a.tenure.tenancyId;
        var c1 := c0 + [GetTenureInfo(tenancyId, Some(m.correlationId))];
        match TenureAnswer(env, tenancyId)
        case Faulted => Outcome(Failure(LookupFailed(tenancyId)), env.persons, c1)
        case Absent => Outcome(Failure(EntityNotFound(TenureEntity, tenancyId)), env.persons, c1)
        case Found(t) =>
          match t.householdMembers
          case None => Outcome(Success(()), env.persons, c1)
          case Some(hms) =>
            var o := MembersOutcome(env, t, a, hms);
            o.(calls := c1 + o.calls)
  }

  method ProcessMessage(w: World, message: Option<EntityEventSns>) returns (r: Result<(), Error>)
    modifies w`persons, w`log
    ensures var o := AccountUpdateOutcome(old(w.State()), message);
      r == o.result && w.persons == o.persons && w.log == old(w.log) + o.calls
  {
    if message.None? {
      return Failure(ArgumentNull("message"));
    }
    var m := message.value;
    var account := w.GetAccountById(m.entityId, m.correlationId);
    if account.Faulted? {
      return Failure(LookupFailed(m.entityId));
    }
    if account.Absent? {
      return Failure(EntityNotFound(AccountEntity, m.entityId));
    }
    var a := account.value;
    var tenure := w.GetTenureInfoById(a.tenure.tenancyId, Some(m.correlationId));
    if tenure.Faulted? {
      return Failure(LookupFailed(a.tenure.tenancyId));
    }
    if tenure.Absent? {
      return Failure(EntityNotFound(TenureEntity, a.tenure.tenancyId));
    }
    var t := tenure.value;
    if t.householdMembers.None? {
      return Success(());
    }
    ghost var c1 := [GetAccount(m.entityId, m.correlationId), GetTenureInfo(a.tenure.tenancyId, Some(m.correlationId))];
    assert w.log == old(w.log) + c1;
    r := UpdateMembers(w, t, a, t.householdMembers.value);
    AppendAssociative(old(w.log), c1, MembersOutcome(old(w.State()), t, a, t.householdMembers.value).calls);
  }

  method UpdateMembers(w: World, t: Tenure, a: Account, hms: seq<HouseholdMembers>) returns (r: Result<(), Error>)
    modifies w`persons, w`log
    ensures var o := MembersOutcome(old(w.State()), t, a, hms);
      r == o.result && w.persons == o.persons && w.log == old(w.log) + o.calls
  {
    ghost var log0 := w.log;
    var updated, errors := UpdateAllRecords(w, t, a.paymentReference, hms);
    if errors != [] {
      return Failure(Aggregate(errors));
    }
    r := SaveEveryRecord(w, updated);
    AppendAssociative(log0, LoadCalls(hms), SaveCalls(updated));
  }

  method UpdatePersonRecord(w: World, t: Tenure, paymentReference: string, hm: HouseholdMembers) returns (r: Result<Person, Error>)
    modifies w`log
    ensures r == PaymentUpdated(w.persons, t, paymentReference, hm) && w.log == old(w.log) + [GetPerson(hm.id)]
  {
    var person := w.GetPersonById(hm.id);
    if person.None? {
      return Failure(EntityNotFound(PersonEntity, hm.id));
    }
    r := UpdatePaymentReference(person.value, t.id, paymentReference);
  }

  /** The first fan-out: one task per member, then a wait for all of them. */
  method UpdateAllRecords(w: World, t: Tenure, paymentReference: string, hms: seq<HouseholdMembers>)
    returns (updated: seq<Person>, errors: seq<Error>)
    modifies w`log
    ensures Collected(updated, errors) == CollectUpdates(w.persons, t, paymentReference, hms)
    ensures w.log == old(w.log) + LoadCalls(hms)
  {
    updated, errors := [], [];
    var i := 0;
    while i < |hms|
      invariant 0 <= i <= |hms|
      invariant Collected(updated, errors) == CollectUpdates(w.persons, t, paymentReference, hms[..i])
      invariant w.log == old(w.log) + LoadCalls(hms[..i])
    {
      var p := UpdatePersonRecord(w, t, paymentReference, hms[i]);
      assert hms[..i + 1][..i] == hms[..i];
      if p.Success? {
        updated := updated + [p.value];
      } else {
        errors := errors + [p.error];
      }
      i := i + 1;
    }
    assert hms[..|hms|] == hms;
  }

  /** The second fan-out: one save per record, then a wait for all of them. */
  method SaveEveryRecord(w: World, ps: seq<Person>) returns (r: Result<(), Error>)
    modifies w`persons, w`log
    ensures r == WaitAllResult(SaveFailures(w.saveFaults, ps))
    ensures w.persons == StoreAll(old(w.persons), w.saveFaults, ps)
    ensures w.log == old(w.log) + SaveCalls(ps)
  {
    var failures: seq<Error> := [];
    var j := 0;
    while j < |ps|
      invariant 0 <= j <= |ps|
      invariant failures == SaveFailures(w.saveFaults, ps[..j])
      invariant w.persons == StoreAll(old(w.persons), w.saveFaults, ps[..j])
      invariant w.log == old(w.log) + SaveCalls(ps[..j])
    {
      var s := w.SavePersonAsync(ps[j]);
      assert ps[..j + 1][..j] == ps[..j];
      if s.Failure? {
        failures := failures + [s.error];
      }
      j := j + 1;
    }
    assert ps[..|ps|] == ps;
    r := WaitAllResult(failures);
  }

  /** A member fails when its person is missing (NotFound) or holds no summary of the
      tenure (PersonMissingTenure); otherwise only that summary's payment reference
      changes, to the account's. */
  lemma PaymentUpdatedCases(persons: map<Guid, Person>, t: Tenure, paymentReference: string, hm: HouseholdMembers)
    ensures hm.id !in persons ==>
      PaymentUpdated(persons, t, paymentReference, hm) == Failure(EntityNotFound(PersonEntity, hm.id))
    ensures hm.id in persons && (forall j :: 0 <= j < |persons[hm.id].tenures| ==> persons[hm.id].tenures[j].id != t.id) ==>
      PaymentUpdated(persons, t, paymentReference, hm) == Failure(PersonMissingTenure(persons[hm.id].id, t.id))
    ensures PaymentUpdated(persons, t, paymentReference, hm).Success? ==>
      && hm.id in persons
      && exists i: nat :: FirstWithId(persons[hm.id].tenures, t.id, i)
           && OnlySummaryChanged(persons[hm.id], PaymentUpdated(persons, t, paymentReference, hm).value, i,
                                 persons[hm.id].tenures[i].(paymentReference := paymentReference))
  {
  }

  /** The first wait reports no failure exactly when every member succeeds. */
  lemma {:induction false} CollectNoErrors(persons: map<Guid, Person>, t: Tenure, paymentReference: string, hms: seq<HouseholdMembers>)
    ensures CollectUpdates(persons, t, paymentReference, hms).errors == [] <==>
      forall i :: 0 <= i < |hms| ==> PaymentUpdated(persons, t, paymentReference, hms[i]).Success?
    decreases |hms|
  {
    if hms != [] {
      var init := hms[..|hms| - 1];
      assert forall i :: 0 <= i < |init| ==> init[i] == hms[i];
      CollectNoErrors(persons, t, paymentReference, init);
      var c := CollectUpdates(persons, t, paymentReference, init);
      if PaymentUpdated(persons, t, paymentReference, hms[|hms| - 1]).Failure? {
        assert |CollectUpdates(persons, t, paymentReference, hms).errors| == |c.errors| + 1;
      }
    }
  }

  /** When every member succeeds, the records are every member's updated record, in
      member order. */
  lemma {:induction false} CollectAllSucceed(persons: map<Guid, Person>, t: Tenure, paymentReference: string, hms: seq<HouseholdMembers>)
    requires forall i :: 0 <= i < |hms| ==> PaymentUpdated(persons, t, paymentReference, hms[i]).Success?
    ensures var c := CollectUpdates(persons, t, paymentReference, hms);
      && c.errors == [] && |c.updated| == |hms|
      && forall i :: 0 <= i < |hms| ==> c.updated[i] == PaymentUpdated(persons, t, paymentReference, hms[i]).value
    decreases |hms|
  {
    if hms != [] {
      var init := hms[..|hms| - 1];
      assert forall i :: 0 <= i < |init| ==> init[i] == hms[i];
      CollectAllSucceed(persons, t, paymentReference, init);
      var c := CollectUpdates(persons, t, paymentReference, init);
      var p := PaymentUpdated(persons, t, paymentReference, hms[|hms| - 1]).value;
      CollectStep(persons, t, paymentReference, hms);
      assert forall i :: 0 <= i < |init| ==> (c.updated + [p])[i] == c.updated[i];
    }
  }

  /** One more successful member appends its record and no error. */
  lemma CollectStep(persons: map<Guid, Person>, t: Tenure, paymentReference: string, hms: seq<HouseholdMembers>)
    requires hms != [] && PaymentUpdated(persons, t, paymentReference, hms[|hms| - 1]).Success?
    ensures var c := CollectUpdates(persons, t, paymentReference, hms[..|hms| - 1]);
      CollectUpdates(persons, t, paymentReference, hms)
        == Collected(c.updated + [PaymentUpdated(persons, t, paymentReference, hms[|hms| - 1]).value], c.errors)
  {
  }

  /** Every member's failure is among the failures the first wait reports. */
  lemma {:induction false} CollectKeepsEveryError(persons: map<Guid, Person>, t: Tenure, paymentReference: string, hms: seq<HouseholdMembers>, k: nat)
    requires k < |hms| && PaymentUpdated(persons, t, paymentReference, hms[k]).Failure?
    ensures PaymentUpdated(persons, t, paymentReference, hms[k]).error in CollectUpdates(persons, t, paymentReference, hms).errors
    decreases |hms|
  {
    if k < |hms| - 1 {
      var init := hms[..|hms| - 1];
      assert init[k] == hms[k];
      CollectKeepsEveryError(persons, t, paymentReference, init, k);
    }
  }

  /** When every member fails, the first wait reports each member's failure, in order. */
  lemma {:induction false} CollectAllFail(persons: map<Guid, Person>, t: Tenure, paymentReference: string, hms: seq<HouseholdMembers>)
    requires forall i :: 0 <= i < |hms| ==> PaymentUpdated(persons, t, paymentReference, hms[i]).Failure?
    ensures var c := CollectUpdates(persons, t, paymentReference, hms);
      && c.updated == [] && |c.errors| == |hms|
      && forall i :: 0 <= i < |hms| ==> c.errors[i] == PaymentUpdated(persons, t, paymentReference, hms[i]).error
    decreases |hms|
  {
    if hms != [] {
      var init := hms[..|hms| - 1];
      assert forall i :: 0 <= i < |init| ==> init[i] == hms[i];
      CollectAllFail(persons, t, paymentReference, init);
    }
  }

  /** Once both lookups answer and the tenure lists its members, the outcome is the
      members' outcome after the two lookups. */
  lemma ListedShape(env: Env, m: EntityEventSns)
    requires AccountAnswer(env, m.entityId).Found?
    requires TenureAnswer(env, AccountAnswer(env, m.entityId).value.tenure.tenancyId).Found?
    requires TenureAnswer(env, AccountAnswer(env, m.entityId).value.tenure.tenancyId).value.householdMembers.Some?
    ensures var a := AccountAnswer(env, m.entityId).value;
      var t := TenureAnswer(env, a.tenure.tenancyId).value;
      var o := MembersOutcome(env, t, a, t.householdMembers.value);
      AccountUpdateOutcome(env, Some(m)) ==
        o.(calls := [GetAccount(m.entityId, m.correlationId), GetTenureInfo(a.tenure.tenancyId, Some(m.correlationId))] + o.calls)
  {
  }

  /** The calls and results once the account and its tenure are found and the tenure
      lists its members. */
  lemma MembersListedOutcome(env: Env, m: EntityEventSns)
    requires AccountAnswer(env, m.entityId).Found?
    requires TenureAnswer(env, AccountAnswer(env, m.entityId).value.tenure.tenancyId).Found?
    requires TenureAnswer(env, AccountAnswer(env, m.entityId).value.tenure.tenancyId).value.householdMembers.Some?
    ensures var a := AccountAnswer(env, m.entityId).value;
      var t := TenureAnswer(env, a.tenure.tenancyId).value;
      var hms := t.householdMembers.value;
      var c := CollectUpdates(env.persons, t, a.paymentReference, hms);
      var lookups := [GetAccount(m.entityId, m.correlationId), GetTenureInfo(a.tenure.tenancyId, Some(m.correlationId))];
      var o := AccountUpdateOutcome(env, Some(m));
      && (c.errors != [] ==>
            o == Outcome(Failure(Aggregate(c.errors)), env.persons, lookups + LoadCalls(hms) + SaveCalls([])))
      && (c.errors == [] ==>
            o == Outcome(WaitAllResult(SaveFailures(env.saveFaults, c.updated)),
                         StoreAll(env.persons, env.saveFaults, c.updated),
                         lookups + LoadCalls(hms) + SaveCalls(c.updated)))
  {
    var a := AccountAnswer(env, m.entityId).value;
    var t := TenureAnswer(env, a.tenure.tenancyId).value;
    var hms := t.householdMembers.value;
    var c := CollectUpdates(env.persons, t, a.paymentReference, hms);
    var c0 := [GetAccount(m.entityId, m.correlationId)];
    var lookups := c0 + [GetTenureInfo(a.tenure.tenancyId, Some(m.correlationId))];
    ListedShape(env, m);
    if c.errors == [] {
      AppendAssociative(lookups, LoadCalls(hms), SaveCalls(c.updated));
    } else {
      assert LoadCalls(hms) + SaveCalls([]) == LoadCalls(hms);
    }
  }

  /** A missing account fails with NotFound(Account, entityId) before any tenure lookup. */
  lemma MissingAccountFails(env: Env, m: EntityEventSns)
    requires AccountAnswer(env, m.entityId).Absent?
    ensures var o := AccountUpdateOutcome(env, Some(m));
      && o.result == Failure(EntityNotFound(AccountEntity, m.entityId))
      && o.calls == [GetAccount(m.entityId, m.correlationId)]
      && o.persons == env.persons
  {
  }

  /** The tenure is looked up by the account's tenancy id, with the message's correlation
      id; a missing tenure fails with NotFound(Tenure, tenancyId) and nothing is loaded
      or saved. */
  lemma TenureFetchedByTenancyId(env: Env, m: EntityEventSns)
    requires AccountAnswer(env, m.entityId).Found?
    ensures var tenancyId := AccountAnswer(env, m.entityId).value.tenure.tenancyId;
      var o := AccountUpdateOutcome(env, Some(m));
      && |o.calls| >= 2
      && o.calls[1] == GetTenureInfo(tenancyId, Some(m.correlationId))
      && (TenureAnswer(env, tenancyId).Absent? ==>
            && o.result == Failure(EntityNotFound(TenureEntity, tenancyId))
            && Loads(o.calls) == [] && Saves(o.calls) == [] && o.persons == env.persons)
  {
    var a := AccountAnswer(env, m.entityId).value;
    var t := TenureAnswer(env, a.tenure.tenancyId);
    if t.Found? && t.value.householdMembers.Some? {
      MembersListedOutcome(env, m);
    } else {
      LookupsOnly(AccountUpdateOutcome(env, Some(m)).calls);
    }
  }

  /** A null or empty member list succeeds with no load and no save. */
  lemma NoMembersNothingToDo(env: Env, m: EntityEventSns)
    requires AccountAnswer(env, m.entityId).Found?
    requires var tenancyId := AccountAnswer(env, m.entityId).value.tenure.tenancyId;
      && TenureAnswer(env, tenancyId).Found?
      && (TenureAnswer(env, tenancyId).value.householdMembers.None? || TenureAnswer(env, tenancyId).value.householdMembers == Some([]))
    ensures var o := AccountUpdateOutcome(env, Some(m));
      o.result == Success(()) && Loads(o.calls) == [] && Saves(o.calls) == [] && o.persons == env.persons
  {
    var a := AccountAnswer(env, m.entityId).value;
    var t := TenureAnswer(env, a.tenure.tenancyId).value;
    if t.householdMembers.Some? {
      MembersListedOutcome(env, m);
      assert CollectUpdates(env.persons, t, a.paymentReference, []) == Collected([], []);
      assert LoadCalls([]) == [] && SaveCalls([]) == [];
    }
    LookupsOnly(AccountUpdateOutcome(env, Some(m)).calls);
  }

  /** Every member's person is looked up, in member order, whatever fails; loads come
      before saves. */
  lemma EveryMemberLoaded(env: Env, m: EntityEventSns)
    requires AccountAnswer(env, m.entityId).Found?
    requires TenureAnswer(env, AccountAnswer(env, m.entityId).value.tenure.tenancyId).Found?
    requires TenureAnswer(env, AccountAnswer(env, m.entityId).value.tenure.tenancyId).value.householdMembers.Some?
    ensures var hms := TenureAnswer(env, AccountAnswer(env, m.entityId).value.tenure.tenancyId).value.householdMembers.value;
      var o := AccountUpdateOutcome(env, Some(m));
      && LoadsBeforeSaves(o.calls)
      && |Loads(o.calls)| == |hms|
      && forall i :: 0 <= i < |hms| ==> Loads(o.calls)[i] == hms[i].id
  {
    var a := AccountUpdateOutcome(env, Some(m));
    var acc := AccountAnswer(env, m.entityId).value;
    var t := TenureAnswer(env, acc.tenure.tenancyId).value;
    var c := CollectUpdates(env.persons, t, acc.paymentReference, t.householdMembers.value);
    var lookups := [GetAccount(m.entityId, m.correlationId), GetTenureInfo(acc.tenure.tenancyId, Some(m.correlationId))];
    MembersListedOutcome(env, m);
    LookupsLoadsThenSaves(lookups, t.householdMembers.value, if c.errors == [] then c.updated else []);
  }

  /** If any member fails (missing person or missing summary), nothing is saved and the
      call fails with the collected failures, that member's among them. */
  lemma AnyFailureSavesNothing(env: Env, m: EntityEventSns, k: nat)
    requires AccountAnswer(env, m.entityId).Found?
    requires var a := AccountAnswer(env, m.entityId).value;
      && TenureAnswer(env, a.tenure.tenancyId).Found?
      && var t := TenureAnswer(env, a.tenure.tenancyId).value;
      && t.householdMembers.Some? && k < |t.householdMembers.value|
      && PaymentUpdated(env.persons, t, a.paymentReference, t.householdMembers.value[k]).Failure?
    ensures var a := AccountAnswer(env, m.entityId).value;
      var t := TenureAnswer(env, a.tenure.tenancyId).value;
      var o := AccountUpdateOutcome(env, Some(m));
      && o.result.Failure? && o.result.error.Aggregate?
      && PaymentUpdated(env.persons, t, a.paymentReference, t.householdMembers.value[k]).error in o.result.error.inner
      && Saves(o.calls) == [] && o.persons == env.persons
  {
    var a := AccountAnswer(env, m.entityId).value;
    var t := TenureAnswer(env, a.tenure.tenancyId).value;
    var lookups := [GetAccount(m.entityId, m.correlationId), GetTenureInfo(a.tenure.tenancyId, Some(m.correlationId))];
    CollectKeepsEveryError(env.persons, t, a.paymentReference, t.householdMembers.value, k);
    MembersListedOutcome(env, m);
    LookupsLoadsThenSaves(lookups, t.householdMembers.value, []);
  }

  /** When every member's person is missing, the failure lists NotFound for each of
      their ids, in member order. */
  lemma AllMissingListsTheirIds(env: Env, m: EntityEventSns)
    requires AccountAnswer(env, m.entityId).Found?
    requires var a := AccountAnswer(env, m.entityId).value;
      && TenureAnswer(env, a.tenure.tenancyId).Found?
      && var hms := TenureAnswer(env, a.tenure.tenancyId).value.householdMembers;
      && hms.Some? && hms.value != []
      && forall i :: 0 <= i < |hms.value| ==> hms.value[i].id !in env.persons
    ensures var hms := TenureAnswer(env, AccountAnswer(env, m.entityId).value.tenure.tenancyId).value.householdMembers.value;
      var o := AccountUpdateOutcome(env, Some(m));
      && o.result.Failure? && o.result.error.Aggregate?
      && |o.result.error.inner| == |hms|
      && (forall i :: 0 <= i < |hms| ==> o.result.error.inner[i] == EntityNotFound(PersonEntity, hms[i].id))
      && Saves(o.calls) == [] && o.persons == env.persons
  {
    var a := AccountAnswer(env, m.entityId).value;
    var t := TenureAnswer(env, a.tenure.tenancyId).value;
    var hms := t.householdMembers.value;
    var lookups := [GetAccount(m.entityId, m.correlationId), GetTenureInfo(a.tenure.tenancyId, Some(m.correlationId))];
    CollectAllFail(env.persons, t, a.paymentReference, hms);
    MembersListedOutcome(env, m);
    LookupsLoadsThenSaves(lookups, hms, []);
  }

  /** When every member succeeds, a save is issued for every updated record, in member
      order, even when some of them raise; the call fails exactly when one raises, with
      the save failures collected, and every record whose save does not raise is
      stored. */
  lemma EverySaveIssued(env: Env, m: EntityEventSns)
    requires AccountAnswer(env, m.entityId).Found?
    requires var a := AccountAnswer(env, m.entityId).value;
      && TenureAnswer(env, a.tenure.tenancyId).Found?
      && var t := TenureAnswer(env, a.tenure.tenancyId).value;
      && t.householdMembers.Some?
      && forall i :: 0 <= i < |t.householdMembers.value| ==>
           PaymentUpdated(env.persons, t, a.paymentReference, t.householdMembers.value[i]).Success?
    ensures var a := AccountAnswer(env, m.entityId).value;
      var t := TenureAnswer(env, a.tenure.tenancyId).value;
      var hms := t.householdMembers.value;
      var o := AccountUpdateOutcome(env, Some(m));
      && |Saves(o.calls)| == |hms|
      && (forall i :: 0 <= i < |hms| ==> Saves(o.calls)[i] == PaymentUpdated(env.persons, t, a.paymentReference, hms[i]).value)
      && (o.result.Success? <==> forall i :: 0 <= i < |hms| ==> Saves(o.calls)[i].id !in env.saveFaults)
      && (o.result.Failure? ==> o.result == Failure(Aggregate(SaveFailures(env.saveFaults, Saves(o.calls)))))
      && (forall i :: 0 <= i < |hms| && Saves(o.calls)[i].id !in env.saveFaults ==> Saves(o.calls)[i].id in o.persons)
    ensures var a := AccountAnswer(env, m.entityId).value;
      var t := TenureAnswer(env, a.tenure.tenancyId).value;
      var hms := t.householdMembers.value;
      var o := AccountUpdateOutcome(env, Some(m));
      WellKeyed(env.persons) ==>
        forall i :: 0 <= i < |hms| && hms[i].id !in env.saveFaults ==>
          hms[i].id in o.persons && o.persons[hms[i].id] == PaymentUpdated(env.persons, t, a.paymentReference, hms[i]).value
  {
    var a := AccountAnswer(env, m.entityId).value;
    var t := TenureAnswer(env, a.tenure.tenancyId).value;
    var hms := t.householdMembers.value;
    var lookups := [GetAccount(m.entityId, m.correlationId), GetTenureInfo(a.tenure.tenancyId, Some(m.correlationId))];
    CollectAllSucceed(env.persons, t, a.paymentReference, hms);
    var ps := CollectUpdates(env.persons, t, a.paymentReference, hms).updated;
    MembersListedOutcome(env, m);
    LookupsLoadsThenSaves(lookups, hms, ps);
    StoreAllHasEvery(env.persons, env.saveFaults, ps);
    if WellKeyed(env.persons) {
      UpdatedRecordsStored(env.persons, env.saveFaults, t, a.paymentReference, hms, ps);
    }
  }

  /** In a consistently keyed store the updated record keeps the member's id. */
  lemma PaymentUpdatedKeepsId(persons: map<Guid, Person>, t: Tenure, paymentReference: string, hm: HouseholdMembers)
    requires WellKeyed(persons) && PaymentUpdated(persons, t, paymentReference, hm).Success?
    ensures PaymentUpdated(persons, t, paymentReference, hm).value.id == hm.id
  {
  }

  /** A member is handled by its id alone. */
  lemma PaymentUpdatedById(persons: map<Guid, Person>, t: Tenure, paymentReference: string, a: HouseholdMembers, b: HouseholdMembers)
    requires a.id == b.id
    ensures PaymentUpdated(persons, t, paymentReference, a) == PaymentUpdated(persons, t, paymentReference, b)
  {
  }

  /** In a consistently keyed store, every updated record whose save does not raise is
      what the store holds under its member's id. */
  lemma UpdatedRecordsStored(persons: map<Guid, Person>, saveFaults: set<Guid>, t: Tenure, paymentReference: string,
                             hms: seq<HouseholdMembers>, ps: seq<Person>)
    requires WellKeyed(persons)
    requires |ps| == |hms|
    requires forall i :: 0 <= i < |hms| ==>
      PaymentUpdated(persons, t, paymentReference, hms[i]).Success? && ps[i] == PaymentUpdated(persons, t, paymentReference, hms[i]).value
    ensures forall i :: 0 <= i < |hms| && hms[i].id !in saveFaults ==>
      hms[i].id in StoreAll(persons, saveFaults, ps) && StoreAll(persons, saveFaults, ps)[hms[i].id] == ps[i]
  {
    forall i | 0 <= i < |hms|
      ensures ps[i].id == hms[i].id
    {
      PaymentUpdatedKeepsId(persons, t, paymentReference, hms[i]);
    }
    forall i, j | 0 <= i < |ps| && 0 <= j < |ps| && ps[i].id == ps[j].id
      ensures ps[i] == ps[j]
    {
      PaymentUpdatedById(persons, t, paymentReference, hms[i], hms[j]);
    }
    StoreAllKeyed(persons, saveFaults, ps);
  }
}
