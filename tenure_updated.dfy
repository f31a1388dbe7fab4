/** `TenureUpdatedUseCase`: fetch the tenure, load and edit every household member's
    person record in turn, then save the edited records in the same order. */
module TenureUpdated {
  import opened Wrappers
  import opened Guids
  import opened Domain
  import opened Gateways
  import opened PersonMutation

  /** What `GetAndUpdatePersonRecord` yields for one member, against the store `persons`. */
  function UpdatedPerson(persons: map<Guid, Person>, t: Tenure, hm: HouseholdMembers): Result<Person, Error>
  {
    match PersonById(persons, hm.id)
    case None => Failure(EntityNotFound(PersonEntity, hm.id))
    case Some(p) => UpdateTenureOnPerson(p, t)
  }

  /** The edited records gathered so far, or the first failure, and the loads issued. */
  datatype Gathered = Gathered(result: Result<seq<Person>, Error>, calls: seq<Call>)

  /** The first loop: members are handled one after another and the loop ends at the
      first failure. */
  function Gather(persons: map<Guid, Person>, t: Tenure, hms: seq<HouseholdMembers>): Gathered
    decreases |hms|
  {
    if hms == [] then Gathered(Success([]), [])
    else
      var g := Gather(persons, t, hms[..|hms| - 1]);
      var hm := hms[|hms| - 1];
      if g.result.Failure? then g
      else match UpdatedPerson(persons, t, hm)
        case Failure(e) => Gathered(Failure(e), g.calls + [GetPerson(hm.id)])
        case Success(p) => Gathered(Success(g.result.value + [p]), g.calls + [GetPerson(hm.id)])
  }

  /** The second loop: records are saved one after another and the loop ends at the
      first save that raises. */
  function SaveInOrder(persons: map<Guid, Person>, saveFaults: set<Guid>, ps: seq<Person>): Outcome
    decreases |ps|
  {
    if ps == [] then Outcome(Success(()), persons, [])
    else
      var o := SaveInOrder(persons, saveFaults, ps[..|ps| - 1]);
      var p := ps[|ps| - 1];
      if o.result.Failure? then o
      else Outcome(SaveResult(saveFaults, p), AfterSave(o.persons, saveFaults, p), o.calls + [SavePerson(p)])
  }

  function TenureUpdatedOutcome(env: Env, message: Option<EntityEventSns>): Outcome
  {
    match message
    case None => Outcome(Failure(ArgumentNull("message")), env.persons, [])
    case Some(m) =>
      var lookup := [GetTenureInfo(m.entityId, Some(m.correlationId))];
      match TenureAnswer(env, m.entityId)
      case Faulted => Outcome(Failure(LookupFailed(m.entityId)), env.persons, lookup)
      case Absent => Outcome(Failure(EntityNotFound(TenureEntity, m.entityId)), env.persons, lookup)
      case Found(t) =>
        match t.householdMembers
        case None => Outcome(Success(()), env.persons, lookup)
        case Some(hms) =>
          var o := MembersOutcome(env, t, hms);
          o.(calls := lookup + o.calls)
  }

  /** Steps #3 and #4: the two loops over the members of tenure `t`. */
  function MembersOutcome(env: Env, t: Tenure, hms: seq<HouseholdMembers>): Outcome
  {
    var g := Gather(env.persons, t, hms);
    match g.result
    case Failure(e) => Outcome(Failure(e), env.persons, g.calls)
    case Success(ps) =>
      var s := SaveInOrder(env.persons, env.saveFaults, ps);
      Outcome(s.result, s.persons, g.calls + s.calls)
  }

  method GetAndUpdatePersonRecord(w: World, t: Tenure, hm: HouseholdMembers) returns (r: Result<Person, Error>)
    modifies w`log
    ensures r == UpdatedPerson(w.persons, t, hm) && w.log == old(w.log) + [GetPerson(hm.id)]
  {
    var person := w.GetPersonById(hm.id);
    if person.None? {
      return Failure(EntityNotFound(PersonEntity, hm.id));
    }
    r := UpdateTenureOnPerson(person.value, t);
  }

  method ProcessMessage(w: World, message: Option<EntityEventSns>) returns (r: Result<(), Error>)
    modifies w`persons, w`log
    ensures var o := TenureUpdatedOutcome(old(w.State()), message);
      r == o.result && w.persons == o.persons && w.log == old(w.log) + o.calls
  {
    if message.None? {
      return Failure(ArgumentNull("message"));
    }
    var m := message.value;
    var tenure := w.GetTenureInfoById(m.entityId, Some(m.correlationId));
    if tenure.Faulted? {
      return Failure(LookupFailed(m.entityId));
    }
    if tenure.Absent? {
      return Failure(EntityNotFound(TenureEntity, m.entityId));
    }
    var t := tenure.value;
    if t.householdMembers.None? {
      return Success(());
    }
    r := UpdateMembers(w, t, t.householdMembers.value);
  }

  method UpdateMembers(w: World, t: Tenure, hms: seq<HouseholdMembers>) returns (r: Result<(), Error>)
    modifies w`persons, w`log
    ensures var o := MembersOutcome(old(w.State()), t, hms);
      r == o.result && w.persons == o.persons && w.log == old(w.log) + o.calls
  {
    ghost var env := w.State();
    ghost var log0 := w.log;
    var updatedPersons := GetAndUpdateAll(w, t, hms);
    if updatedPersons.Failure? {
      return Failure(updatedPersons.error);
    }
    ghost var log1 := w.log;
    r := SaveAll(w, updatedPersons.value);
    ghost var g := Gather(env.persons, t, hms);
    ghost var o := SaveInOrder(env.persons, env.saveFaults, g.result.value);
    assert w.log == (log0 + g.calls) + o.calls;
    AppendAssociative(log0, g.calls, o.calls);
  }

  /** The first `foreach`: every member's record is loaded and edited, in member order. */
  method GetAndUpdateAll(w: World, t: Tenure, hms: seq<HouseholdMembers>) returns (r: Result<seq<Person>, Error>)
    modifies w`log
    ensures var g := Gather(w.persons, t, hms); r == g.result && w.log == old(w.log) + g.calls
  {
    var updatedPersons: seq<Person> := [];
    var i := 0;
    while i < |hms|
      invariant 0 <= i <= |hms|
      invariant var g := Gather(w.persons, t, hms[..i]);
        g.result == Success(updatedPersons) && w.log == old(w.log) + g.calls
    {
      ghost var g := Gather(w.persons, t, hms[..i]);
      var p := GetAndUpdatePersonRecord(w, t, hms[i]);
      assert hms[..i + 1][..i] == hms[..i];
      AppendAssociative(old(w.log), g.calls, [GetPerson(hms[i].id)]);
      if p.Failure? {
        GatherStopsAtFailure(w.persons, t, hms, i + 1);
        return Failure(p.error);
      }
      updatedPersons := updatedPersons + [p.value];
      i := i + 1;
    }
    assert hms[..|hms|] == hms;
    return Success(updatedPersons);
  }

  /** The second `foreach`: the edited records are saved in order. */
  method SaveAll(w: World, ps: seq<Person>) returns (r: Result<(), Error>)
    modifies w`persons, w`log
    ensures var o := SaveInOrder(old(w.persons), w.saveFaults, ps);
      r == o.result && w.persons == o.persons && w.log == old(w.log) + o.calls
  {
    var j := 0;
    while j < |ps|
      invariant 0 <= j <= |ps|
      invariant var o := SaveInOrder(old(w.persons), w.saveFaults, ps[..j]);
        o.result == Success(()) && w.persons == o.persons && w.log == old(w.log) + o.calls
    {
      var s := w.SavePersonAsync(ps[j]);
      assert ps[..j + 1][..j] == ps[..j];
      if s.Failure? {
        SaveInOrderStopsAtFailure(old(w.persons), w.saveFaults, ps, j + 1);
        return s;
      }
      j := j + 1;
    }
    assert ps[..|ps|] == ps;
    return Success(());
  }

  /** Once a member fails, the members after it are not loaded. */
  lemma {:induction false} GatherStopsAtFailure(persons: map<Guid, Person>, t: Tenure, hms: seq<HouseholdMembers>, k: nat)
    requires k <= |hms| && Gather(persons, t, hms[..k]).result.Failure?
    ensures Gather(persons, t, hms) == Gather(persons, t, hms[..k])
    decreases |hms|
  {
    if k < |hms| {
      var init := hms[..|hms| - 1];
      assert init[..k] == hms[..k];
      GatherStopsAtFailure(persons, t, init, k);
    } else {
      assert hms[..k] == hms;
    }
  }

  /** Once a save raises, the records after it are not saved. */
  lemma {:induction false} SaveInOrderStopsAtFailure(persons: map<Guid, Person>, saveFaults: set<Guid>, ps: seq<Person>, k: nat)
    requires k <= |ps| && SaveInOrder(persons, saveFaults, ps[..k]).result.Failure?
    ensures SaveInOrder(persons, saveFaults, ps) == SaveInOrder(persons, saveFaults, ps[..k])
    decreases |ps|
  {
    if k < |ps| {
      var init := ps[..|ps| - 1];
      assert init[..k] == ps[..k];
      SaveInOrderStopsAtFailure(persons, saveFaults, init, k);
    } else {
      assert ps[..k] == ps;
    }
  }

  /** k is the first member whose record cannot be loaded and edited. */
  predicate FirstFailingMember(persons: map<Guid, Person>, t: Tenure, hms: seq<HouseholdMembers>, k: nat)
  {
    && k < |hms| && UpdatedPerson(persons, t, hms[k]).Failure?
    && forall i :: 0 <= i < k ==> UpdatedPerson(persons, t, hms[i]).Success?
  }

  /** A member fails when its person is missing (NotFound) or holds no summary of the
      tenure (PersonMissingTenure); otherwise it yields the edited record. */
  lemma UpdatedPersonCases(persons: map<Guid, Person>, t: Tenure, hm: HouseholdMembers)
    ensures hm.id !in persons ==> UpdatedPerson(persons, t, hm) == Failure(EntityNotFound(PersonEntity, hm.id))
    ensures hm.id in persons && (forall j :: 0 <= j < |persons[hm.id].tenures| ==> persons[hm.id].tenures[j].id != t.id) ==>
      UpdatedPerson(persons, t, hm) == Failure(PersonMissingTenure(persons[hm.id].id, t.id))
    ensures UpdatedPerson(persons, t, hm).Success? ==>
      && hm.id in persons
      && exists i: nat :: FirstWithId(persons[hm.id].tenures, t.id, i)
           && OnlySummaryChanged(persons[hm.id], UpdatedPerson(persons, t, hm).value, i,
                                 ApplyTenure(persons[hm.id].tenures[i], t))
  {
  }

  /** When every member succeeds, the loop loads each member once, in order, and
      gathers their edited records in the same order. */
  lemma {:induction false} GatherSuccess(persons: map<Guid, Person>, t: Tenure, hms: seq<HouseholdMembers>)
    requires forall i :: 0 <= i < |hms| ==> UpdatedPerson(persons, t, hms[i]).Success?
    ensures var g := Gather(persons, t, hms);
      && g.result.Success? && |g.result.value| == |hms| && g.calls == LoadCalls(hms)
      && forall i :: 0 <= i < |hms| ==> g.result.value[i] == UpdatedPerson(persons, t, hms[i]).value
    decreases |hms|
  {
    if hms != [] {
      var init := hms[..|hms| - 1];
      assert forall i :: 0 <= i < |init| ==> init[i] == hms[i];
      GatherSuccess(persons, t, init);
    }
  }

  /** The first failing member ends the loop with its error, after loading exactly the
      members up to and including it. */
  lemma {:induction false} GatherFailure(persons: map<Guid, Person>, t: Tenure, hms: seq<HouseholdMembers>, k: nat)
    requires FirstFailingMember(persons, t, hms, k)
    ensures var g := Gather(persons, t, hms);
      g.result == Failure(UpdatedPerson(persons, t, hms[k]).error) && g.calls == LoadCalls(hms[..k + 1])
  {
    var prefix := hms[..k + 1];
    assert prefix[..k] == hms[..k];
    assert forall i :: 0 <= i < k ==> hms[..k][i] == hms[i];
    GatherSuccess(persons, t, hms[..k]);
    GatherStopsAtFailure(persons, t, hms, k + 1);
  }

  /** The save loop succeeds exactly when no save raises, and then saves every record in
      order. */
  lemma {:induction false} SaveInOrderSuccess(persons: map<Guid, Person>, saveFaults: set<Guid>, ps: seq<Person>)
    ensures var o := SaveInOrder(persons, saveFaults, ps);
      o.result.Success? <==> forall i :: 0 <= i < |ps| ==> ps[i].id !in saveFaults
    ensures var o := SaveInOrder(persons, saveFaults, ps);
      o.result.Success? ==> o.calls == SaveCalls(ps) && o.persons == StoreAll(persons, saveFaults, ps)
    decreases |ps|
  {
    if ps != [] {
      var init := ps[..|ps| - 1];
      assert forall i :: 0 <= i < |init| ==> init[i] == ps[i];
      SaveInOrderSuccess(persons, saveFaults, init);
    }
  }

  /** A raising save ends the loop: the records before it are saved and kept, it is
      attempted, and none after it is. */
  lemma {:induction false} SaveInOrderFirstFault(persons: map<Guid, Person>, saveFaults: set<Guid>, ps: seq<Person>, k: nat)
    requires k < |ps| && ps[k].id in saveFaults
    requires forall i :: 0 <= i < k ==> ps[i].id !in saveFaults
    ensures var o := SaveInOrder(persons, saveFaults, ps);
      && o.result == Failure(SaveFailed(ps[k].id))
      && o.calls == SaveCalls(ps[..k + 1])
      && o.persons == StoreAll(persons, saveFaults, ps[..k])
  {
    var prefix := ps[..k + 1];
    assert prefix[..k] == ps[..k];
    assert forall i :: 0 <= i < k ==> ps[..k][i] == ps[i];
    SaveInOrderSuccess(persons, saveFaults, ps[..k]);
    assert StoreAll(persons, saveFaults, ps[..k + 1]) == StoreAll(persons, saveFaults, ps[..k]);
    SaveInOrderStopsAtFailure(persons, saveFaults, ps, k + 1);
  }

  /** The save loop issues one save per record, in order, up to the first that raises:
      all of them when it succeeds. */
  lemma {:induction false} SaveInOrderCalls(persons: map<Guid, Person>, saveFaults: set<Guid>, ps: seq<Person>)
    ensures var o := SaveInOrder(persons, saveFaults, ps);
      && |o.calls| <= |ps| && o.calls == SaveCalls(ps[..|o.calls|])
      && (o.result.Success? ==> |o.calls| == |ps|)
    decreases |ps|
  {
    if ps != [] {
      var init := ps[..|ps| - 1];
      SaveInOrderCalls(persons, saveFaults, init);
      var n := |SaveInOrder(persons, saveFaults, init).calls|;
      assert init[..n] == ps[..n];
      if SaveInOrder(persons, saveFaults, init).result.Success? {
        assert ps[..n + 1][..n] == ps[..n];
      }
    }
  }

  /** A null message or a missing tenure fails before any person is loaded or saved. */
  lemma MissingTenureFails(env: Env, message: Option<EntityEventSns>)
    requires message.None? || TenureAnswer(env, message.value.entityId).Absent?
    ensures var o := TenureUpdatedOutcome(env, message);
      && (message.None? ==> o.result == Failure(ArgumentNull("message")) && o.calls == [])
      && (message.Some? ==> o.result == Failure(EntityNotFound(TenureEntity, message.value.entityId)))
      && Loads(o.calls) == [] && Saves(o.calls) == [] && o.persons == env.persons
  {
    if message.Some? {
      LoadsSingle(GetTenureInfo(message.value.entityId, Some(message.value.correlationId)));
      SavesSingle(GetTenureInfo(message.value.entityId, Some(message.value.correlationId)));
    }
  }

  /** A null or empty member list succeeds with no load and no save. */
  lemma NoMembersNothingToDo(env: Env, m: EntityEventSns)
    requires TenureAnswer(env, m.entityId).Found?
    requires var hms := TenureAnswer(env, m.entityId).value.householdMembers; hms.None? || hms == Some([])
    ensures var o := TenureUpdatedOutcome(env, Some(m));
      o.result == Success(()) && Loads(o.calls) == [] && Saves(o.calls) == [] && o.persons == env.persons
  {
    var lookup := GetTenureInfo(m.entityId, Some(m.correlationId));
    LoadsSingle(lookup);
    SavesSingle(lookup);
    assert [lookup] + [] + [] == [lookup];
  }

  /** A member that cannot be loaded or edited fails the call with its error; the
      members after it are not loaded and nothing is saved. */
  lemma LoadFailureSavesNothing(env: Env, m: EntityEventSns, k: nat)
    requires TenureAnswer(env, m.entityId).Found?
    requires var t := TenureAnswer(env, m.entityId).value;
      t.householdMembers.Some? && FirstFailingMember(env.persons, t, t.householdMembers.value, k)
    ensures var t := TenureAnswer(env, m.entityId).value;
      var hms := t.householdMembers.value;
      var o := TenureUpdatedOutcome(env, Some(m));
      && o.result == Failure(UpdatedPerson(env.persons, t, hms[k]).error)
      && |Loads(o.calls)| == k + 1
      && (forall i :: 0 <= i <= k ==> Loads(o.calls)[i] == hms[i].id)
      && Saves(o.calls) == []
      && o.persons == env.persons
  {
    var t := TenureAnswer(env, m.entityId).value;
    var hms := t.householdMembers.value;
    var lookup := GetTenureInfo(m.entityId, Some(m.correlationId));
    GatherFailure(env.persons, t, hms, k);
    LoadCallsLoads(hms[..k + 1]);
    LoadsConcat([lookup], LoadCalls(hms[..k + 1]));
    SavesConcat([lookup], LoadCalls(hms[..k + 1]));
    LoadsSingle(lookup);
    SavesSingle(lookup);
  }

  /** When every member succeeds the calls are the tenure lookup, one load per member
      and then the saves of a prefix of the edited records (all of them on success). */
  lemma CallsWhenAllMembersSucceed(env: Env, m: EntityEventSns)
    requires TenureAnswer(env, m.entityId).Found?
    requires var t := TenureAnswer(env, m.entityId).value;
      && t.householdMembers.Some?
      && forall i :: 0 <= i < |t.householdMembers.value| ==> UpdatedPerson(env.persons, t, t.householdMembers.value[i]).Success?
    ensures var t := TenureAnswer(env, m.entityId).value;
      Gather(env.persons, t, t.householdMembers.value).result.Success?
    ensures var t := TenureAnswer(env, m.entityId).value;
      var hms := t.householdMembers.value;
      var ps := Gather(env.persons, t, hms).result.value;
      var o := TenureUpdatedOutcome(env, Some(m));
      var n := |o.calls| - 1 - |hms|;
      && 0 <= n <= |hms| && |ps| == |hms|
      && (forall i :: 0 <= i < |hms| ==> ps[i] == UpdatedPerson(env.persons, t, hms[i]).value)
      && o.calls == [GetTenureInfo(m.entityId, Some(m.correlationId))] + LoadCalls(hms) + SaveCalls(ps[..n])
      && (o.result.Success? ==> n == |hms|)
  {
    var t := TenureAnswer(env, m.entityId).value;
    var hms := t.householdMembers.value;
    var lookup := [GetTenureInfo(m.entityId, Some(m.correlationId))];
    GatherSuccess(env.persons, t, hms);
    var ps := Gather(env.persons, t, hms).result.value;
    var o := SaveInOrder(env.persons, env.saveFaults, ps);
    SaveInOrderCalls(env.persons, env.saveFaults, ps);
    assert TenureUpdatedOutcome(env, Some(m)).calls == lookup + (LoadCalls(hms) + o.calls);
    AppendAssociative(lookup, LoadCalls(hms), o.calls);
  }

  /** When every member succeeds, all loads come before the first save, every member is
      loaded once in member order, and the saves are the edited records in member order:
      all of them on success, or up to and including the first save that raises. */
  lemma SavesInMemberOrder(env: Env, m: EntityEventSns)
    requires TenureAnswer(env, m.entityId).Found?
    requires var t := TenureAnswer(env, m.entityId).value;
      && t.householdMembers.Some?
      && forall i :: 0 <= i < |t.householdMembers.value| ==> UpdatedPerson(env.persons, t, t.householdMembers.value[i]).Success?
    ensures var t := TenureAnswer(env, m.entityId).value;
      var hms := t.householdMembers.value;
      var o := TenureUpdatedOutcome(env, Some(m));
      && LoadsBeforeSaves(o.calls)
      && |Loads(o.calls)| == |hms|
      && (forall i :: 0 <= i < |hms| ==> Loads(o.calls)[i] == hms[i].id)
      && |Saves(o.calls)| <= |hms|
      && (forall i :: 0 <= i < |Saves(o.calls)| ==> Saves(o.calls)[i] == UpdatedPerson(env.persons, t, hms[i]).value)
      && (o.result.Success? ==> |Saves(o.calls)| == |hms|)
  {
    var t := TenureAnswer(env, m.entityId).value;
    var hms := t.householdMembers.value;
    CallsWhenAllMembersSucceed(env, m);
    var ps := Gather(env.persons, t, hms).result.value;
    var n := |TenureUpdatedOutcome(env, Some(m)).calls| - 1 - |hms|;
    var calls := TenureUpdatedOutcome(env, Some(m)).calls;
    LookupsLoadsThenSaves([GetTenureInfo(m.entityId, Some(m.correlationId))], hms, ps[..n]);
    assert Saves(calls) == ps[..n];
  }

  /** The edit loop succeeds only when every member succeeds. */
  lemma {:induction false} GatherSuccessMeansAllMembers(persons: map<Guid, Person>, t: Tenure, hms: seq<HouseholdMembers>)
    requires Gather(persons, t, hms).result.Success?
    ensures forall i :: 0 <= i < |hms| ==> UpdatedPerson(persons, t, hms[i]).Success?
    decreases |hms|
  {
    if hms != [] {
      var init := hms[..|hms| - 1];
      GatherSuccessMeansAllMembers(persons, t, init);
      assert forall i :: 0 <= i < |init| ==> init[i] == hms[i];
    }
  }

  /** When every member succeeds and the save of record k is the first to raise, the
      calls are the lookup, every load, and the saves of records 0..k; the store holds
      the saves of records 0..k-1. */
  lemma CallsWhenSaveFails(env: Env, m: EntityEventSns, k: nat)
    requires TenureAnswer(env, m.entityId).Found?
    requires var t := TenureAnswer(env, m.entityId).value;
      && t.householdMembers.Some?
      && (forall i :: 0 <= i < |t.householdMembers.value| ==> UpdatedPerson(env.persons, t, t.householdMembers.value[i]).Success?)
      && k < |t.householdMembers.value|
      && UpdatedPerson(env.persons, t, t.householdMembers.value[k]).value.id in env.saveFaults
      && forall i :: 0 <= i < k ==> UpdatedPerson(env.persons, t, t.householdMembers.value[i]).value.id !in env.saveFaults
    ensures var t := TenureAnswer(env, m.entityId).value;
      Gather(env.persons, t, t.householdMembers.value).result.Success?
    ensures var t := TenureAnswer(env, m.entityId).value;
      var hms := t.householdMembers.value;
      var ps := Gather(env.persons, t, hms).result.value;
      var o := TenureUpdatedOutcome(env, Some(m));
      && |ps| == |hms|
      && (forall i :: 0 <= i < |hms| ==> ps[i] == UpdatedPerson(env.persons, t, hms[i]).value)
      && o.result == Failure(SaveFailed(ps[k].id))
      && o.calls == [GetTenureInfo(m.entityId, Some(m.correlationId))] + LoadCalls(hms) + SaveCalls(ps[..k + 1])
      && o.persons == StoreAll(env.persons, env.saveFaults, ps[..k])
  {
    var t := TenureAnswer(env, m.entityId).value;
    var hms := t.householdMembers.value;
    var lookup := [GetTenureInfo(m.entityId, Some(m.correlationId))];
    GatherSuccess(env.persons, t, hms);
    var ps := Gather(env.persons, t, hms).result.value;
    SaveInOrderFirstFault(env.persons, env.saveFaults, ps, k);
    var o := SaveInOrder(env.persons, env.saveFaults, ps);
    assert TenureUpdatedOutcome(env, Some(m)).calls == lookup + (LoadCalls(hms) + o.calls);
    AppendAssociative(lookup, LoadCalls(hms), o.calls);
  }

  /** A save that raises fails the call with SaveFailed for that record: the records
      before it were saved and stay in the store, and no later record is saved. */
  lemma SaveFailureKeepsEarlierSaves(env: Env, m: EntityEventSns, k: nat)
    requires TenureAnswer(env, m.entityId).Found?
    requires var t := TenureAnswer(env, m.entityId).value;
      && t.householdMembers.Some?
      && (forall i :: 0 <= i < |t.householdMembers.value| ==> UpdatedPerson(env.persons, t, t.householdMembers.value[i]).Success?)
      && k < |t.householdMembers.value|
      && UpdatedPerson(env.persons, t, t.householdMembers.value[k]).value.id in env.saveFaults
      && forall i :: 0 <= i < k ==> UpdatedPerson(env.persons, t, t.householdMembers.value[i]).value.id !in env.saveFaults
    ensures var t := TenureAnswer(env, m.entityId).value;
      var hms := t.householdMembers.value;
      var o := TenureUpdatedOutcome(env, Some(m));
      && o.result == Failure(SaveFailed(UpdatedPerson(env.persons, t, hms[k]).value.id))
      && |Saves(o.calls)| == k + 1
      && (forall i :: 0 <= i <= k ==> Saves(o.calls)[i] == UpdatedPerson(env.persons, t, hms[i]).value)
      && (forall i :: 0 <= i < k ==> UpdatedPerson(env.persons, t, hms[i]).value.id in o.persons)
    ensures var t := TenureAnswer(env, m.entityId).value;
      var hms := t.householdMembers.value;
      var o := TenureUpdatedOutcome(env, Some(m));
      WellKeyed(env.persons) ==>
        forall i :: 0 <= i < k ==> hms[i].id in o.persons && o.persons[hms[i].id] == UpdatedPerson(env.persons, t, hms[i]).value
  {
    var t := TenureAnswer(env, m.entityId).value;
    var hms := t.householdMembers.value;
    CallsWhenSaveFails(env, m, k);
    var ps := Gather(env.persons, t, hms).result.value;
    SavedPrefix([GetTenureInfo(m.entityId, Some(m.correlationId))], hms, ps, k, env.persons, env.saveFaults);
    if WellKeyed(env.persons) {
      EditedPrefixStored(env.persons, env.saveFaults, t, hms, ps, k);
    }
  }

  /** In a consistently keyed store, the first `k` edited records, none of whose saves
      raised, are what the store holds under the members' ids. */
  lemma EditedPrefixStored(persons: map<Guid, Person>, saveFaults: set<Guid>, t: Tenure,
                           hms: seq<HouseholdMembers>, ps: seq<Person>, k: nat)
    requires WellKeyed(persons)
    requires |ps| == |hms| && k <= |ps|
    requires forall i :: 0 <= i < |hms| ==>
      UpdatedPerson(persons, t, hms[i]).Success? && ps[i] == UpdatedPerson(persons, t, hms[i]).value
    requires forall i :: 0 <= i < k ==> ps[i].id !in saveFaults
    ensures forall i :: 0 <= i < k ==>
      hms[i].id in StoreAll(persons, saveFaults, ps[..k]) && StoreAll(persons, saveFaults, ps[..k])[hms[i].id] == ps[i]
  {
    var qs := ps[..k];
    forall i | 0 <= i < k
      ensures qs[i].id == hms[i].id
    {
      UpdatedPersonKeepsId(persons, t, hms[i]);
    }
    forall i, j | 0 <= i < |qs| && 0 <= j < |qs| && qs[i].id == qs[j].id
      ensures qs[i] == qs[j]
    {
      UpdatedPersonById(persons, t, hms[i], hms[j]);
    }
    StoreAllKeyed(persons, saveFaults, qs);
  }

  /** With a consistently keyed store, every member's edited record is what the store
      holds after a successful save loop. */
  lemma EditedRecordsStored(env: Env, t: Tenure, hms: seq<HouseholdMembers>, ps: seq<Person>)
    requires WellKeyed(env.persons)
    requires forall i :: 0 <= i < |hms| ==> UpdatedPerson(env.persons, t, hms[i]).Success?
    requires Gather(env.persons, t, hms).result == Success(ps)
    requires SaveInOrder(env.persons, env.saveFaults, ps).result.Success?
    ensures |ps| == |hms|
    ensures var stored := SaveInOrder(env.persons, env.saveFaults, ps).persons;
      forall i :: 0 <= i < |hms| ==> hms[i].id in stored && stored[hms[i].id] == ps[i]
  {
    GatherSuccess(env.persons, t, hms);
    SaveInOrderSuccess(env.persons, env.saveFaults, ps);
    forall i | 0 <= i < |hms|
      ensures ps[i].id == hms[i].id
    {
      UpdatedPersonKeepsId(env.persons, t, hms[i]);
    }
    forall i | 0 <= i < |hms|
      ensures hms[i].id in StoreAll(env.persons, env.saveFaults, ps)
      ensures StoreAll(env.persons, env.saveFaults, ps)[hms[i].id] == ps[i]
    {
      forall j | 0 <= j < |ps| && ps[j].id == ps[i].id
        ensures ps[j] == ps[i]
      {
        UpdatedPersonById(env.persons, t, hms[i], hms[j]);
      }
      StoreAllConsistent(env.persons, env.saveFaults, ps, i);
    }
  }

  /** In a consistently keyed store the edited record keeps the member's id. */
  lemma UpdatedPersonKeepsId(persons: map<Guid, Person>, t: Tenure, hm: HouseholdMembers)
    requires WellKeyed(persons) && UpdatedPerson(persons, t, hm).Success?
    ensures UpdatedPerson(persons, t, hm).value.id == hm.id
  {
  }

  /** A member is handled by its id alone. */
  lemma UpdatedPersonById(persons: map<Guid, Person>, t: Tenure, a: HouseholdMembers, b: HouseholdMembers)
    requires a.id == b.id
    ensures UpdatedPerson(persons, t, a) == UpdatedPerson(persons, t, b)
  {
  }

  /** Processing the same event again, against the store the first run left, succeeds,
      issues the same calls and leaves the store as it was: every field is a plain
      assignment from the tenure. */
  lemma TenureUpdatedIdempotent(env: Env, m: EntityEventSns)
    requires WellKeyed(env.persons)
    requires TenureUpdatedOutcome(env, Some(m)).result.Success?
    ensures var o1 := TenureUpdatedOutcome(env, Some(m));
      var o2 := TenureUpdatedOutcome(env.(persons := o1.persons), Some(m));
      o2.result == Success(()) && o2.persons == o1.persons && o2.calls == o1.calls
  {
    var t := TenureAnswer(env, m.entityId).value;
    if t.householdMembers.Some? {
      var hms := t.householdMembers.value;
      var o1 := TenureUpdatedOutcome(env, Some(m));
      var env2 := env.(persons := o1.persons);
      GatherSuccessMeansAllMembers(env.persons, t, hms);
      GatherSuccess(env.persons, t, hms);
      var ps := Gather(env.persons, t, hms).result.value;
      EditedRecordsStored(env, t, hms, ps);
      forall i | 0 <= i < |hms|
        ensures UpdatedPerson(o1.persons, t, hms[i]) == Success(ps[i])
      {
        UpdateTenureOnPersonIdempotent(env.persons[hms[i].id], t);
      }
      GatherSuccess(o1.persons, t, hms);
      assert Gather(o1.persons, t, hms).result.value == ps;
      SaveInOrderSuccess(env.persons, env.saveFaults, ps);
      SaveInOrderSuccess(o1.persons, env.saveFaults, ps);
      forall i | 0 <= i < |ps|
        ensures ps[i].id in o1.persons && o1.persons[ps[i].id] == ps[i]
      {
        UpdatedPersonCases(env.persons, t, hms[i]);
      }
      StoreAllNoop(o1.persons, env.saveFaults, ps);
    }
  }
}
