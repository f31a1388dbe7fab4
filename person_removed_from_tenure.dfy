/** The routine run for a "PersonRemovedFromTenureEvent": it finds the household
    member that the event's before and after images no longer share, drops that
    tenure from the member's person record, recomputes the person's role types from
    the tenures that remain, and saves the record once. */
module PersonRemovedFromTenure {
  import opened Wrappers
  import opened Guids
  import opened Domain
  import opened Linq
  import opened Gateways
  import opened PersonMutation

  /** The key under which both images carry the household-member list. */
  const HouseholdMembersKey := "householdMembers"

  /** `GetHouseholdMembersFromEventData`: the list stored under the key; a missing key
      raises, as a dictionary indexer does. */
  function HouseholdMembersOf(data: map<string, seq<HouseholdMembers>>): (r: Result<seq<HouseholdMembers>, Error>)
    ensures r.Success? <==> HouseholdMembersKey in data
    ensures r.Success? ==> r.value == data[HouseholdMembersKey]
    ensures r.Failure? ==> r.error == KeyNotFound(HouseholdMembersKey)
  {
    if HouseholdMembersKey in data then Success(data[HouseholdMembersKey])
    else Failure(KeyNotFound(HouseholdMembersKey))
  }

  /** `GetDeletedHouseholdMember`: the old list is read first, then the new one; the
      result is the first old snapshot that has no equal in the new list, or null. */
  function DeletedHouseholdMember(eventData: EventData): Result<Option<HouseholdMembers>, Error>
  {
    var oldHms :- HouseholdMembersOf(eventData.oldData);
    var newHms :- HouseholdMembersOf(eventData.newData);
    Success(FirstOrDefault(Except(oldHms, newHms)))
  }

  /** The position of the first member with id `id`: the element that
      `First(x => x.Id == personId)` returns. */
  function IndexOfMember(hms: seq<HouseholdMembers>, id: Guid): (r: Option<nat>)
    ensures r.Some? ==> r.value < |hms| && hms[r.value].id == id
    ensures r.Some? ==> forall j :: 0 <= j < r.value ==> hms[j].id != id
    ensures r.None? <==> forall j :: 0 <= j < |hms| ==> hms[j].id != id
  {
    if hms == [] then None
    else if hms[0].id == id then Some(0)
    else match IndexOfMember(hms[1..], id)
      case None => None
      case Some(i) => Some(i + 1)
  }

  /** `GetPersonTypeForTenure`: a null tenure raises on its first dereference, a null
      member list makes `First` raise ArgumentNull("source"), and a list without the
      person makes it raise "no matching element". Otherwise the role is what the
      shared library's `derive` gives for the tenure type and the member's
      responsibility flag. */
  function PersonTypeForTenure(derive: (TenureType, bool) -> PersonType, tenure: Option<Tenure>, personId: Guid): Result<PersonType, Error>
  {
    match tenure
    case None => Failure(NullReference)
    case Some(t) =>
      match t.householdMembers
      case None => Failure(ArgumentNull("source"))
      case Some(hms) =>
        match IndexOfMember(hms, personId)
        case None => Failure(SequenceContainsNoMatchingElement)
        case Some(i) => Success(derive(TenureType(t.tenureType.code, t.tenureType.description), hms[i].isResponsible))
  }

  /** The record a completed lookup task holds: null when the tenure is absent. */
  function Held(a: Answer<Tenure>): Option<Tenure>
  {
    match a
    case Found(t) => Some(t)
    case _ => None
  }

  /** The lookups the routine issues: one per summary, in order, each carrying the
      message's correlation id. */
  function LookupCalls(ts: seq<TenureSummary>, correlationId: Guid): (r: seq<Call>)
    ensures |r| == |ts|
    ensures forall i :: 0 <= i < |ts| ==> r[i] == GetTenureInfo(ts[i].id, Some(correlationId))
    decreases |ts|
  {
    if ts == [] then []
    else LookupCalls(ts[..|ts| - 1], correlationId) + [GetTenureInfo(ts[|ts| - 1].id, Some(correlationId))]
  }

  /** The failures `Task.WaitAll` collects: one per lookup that raises, in order. */
  function LookupFaults(env: Env, ts: seq<TenureSummary>): (r: seq<Error>)
    ensures r == [] <==> forall i :: 0 <= i < |ts| ==> !TenureAnswer(env, ts[i].id).Faulted?
    ensures forall k :: 0 <= k < |r| ==> r[k].LookupFailed? && r[k].id in env.tenureFaults
    decreases |ts|
  {
    if ts == [] then []
    else
      var r := LookupFaults(env, ts[..|ts| - 1]);
      var id := ts[|ts| - 1].id;
      if TenureAnswer(env, id).Faulted? then r + [LookupFailed(id)] else r
  }

  /** The role list built by `Select(...).ToList()`: one role per summary, in order;
      the first summary whose role cannot be derived ends it. */
  function Roles(env: Env, derive: (TenureType, bool) -> PersonType, ts: seq<TenureSummary>, personId: Guid): Result<seq<PersonType>, Error>
    decreases |ts|
  {
    if ts == [] then Success([])
    else
      var rs :- Roles(env, derive, ts[..|ts| - 1], personId);
      var role :- PersonTypeForTenure(derive, Held(TenureAnswer(env, ts[|ts| - 1].id)), personId);
      Success(rs + [role])
  }

  /** `UpdatePersonType`: the person with its role types recomputed, or the failure
      that ends it. */
  function PersonTypesUpdated(env: Env, derive: (TenureType, bool) -> PersonType, p: Person): Result<Person, Error>
  {
    var faults := LookupFaults(env, p.tenures);
    if faults != [] then Failure(Aggregate(faults))
    else
      var rs :- Roles(env, derive, p.tenures, p.id);
      Success(p.(personTypes := rs))
  }

  /** The whole routine on a given state. */
  function RemovedOutcome(env: Env, derive: (TenureType, bool) -> PersonType, message: Option<EntityEventSns>): Outcome
  {
    match message
    case None => Outcome(Failure(ArgumentNull("message")), env.persons, [])
    case Some(m) =>
      match DeletedHouseholdMember(m.eventData)
      case Failure(e) => Outcome(Failure(e), env.persons, [])
      case Success(None) => Outcome(Failure(HouseholdMembersNotChanged(m.entityId, m.correlationId)), env.persons, [])
      case Success(Some(hm)) =>
        var c0 := [GetPerson(hm.id)];
        match PersonById(env.persons, hm.id)
        case None => Outcome(Failure(EntityNotFound(PersonEntity, hm.id)), env.persons, c0)
        case Some(p) =>
          var q := p.(tenures := WithoutTenure(p.tenures, m.entityId));
          var c1 := c0 + LookupCalls(q.tenures, m.correlationId);
          match PersonTypesUpdated(env, derive, q)
          case Failure(e) => Outcome(Failure(e), env.persons, c1)
          case Success(saved) =>
            Outcome(SaveResult(env.saveFaults, saved), AfterSave(env.persons, env.saveFaults, saved), c1 + [SavePerson(saved)])
  }

  method ProcessMessage(w: World, derive: (TenureType, bool) -> PersonType, message: Option<EntityEventSns>) returns (r: Result<(), Error>)
    modifies w`persons, w`log
    ensures var o := RemovedOutcome(old(w.State()), derive, message);
      r == o.result && w.persons == o.persons && w.log == old(w.log) + o.calls
  {
    if message.None? {
      return Failure(ArgumentNull("message"));
    }
    var m := message.value;
    var householdMember := DeletedHouseholdMember(m.eventData);
    if householdMember.Failure? {
      return Failure(householdMember.error);
    }
    if householdMember.value.None? {
      return Failure(HouseholdMembersNotChanged(m.entityId, m.correlationId));
    }
    var personId := householdMember.value.value.id;
    var person := w.GetPersonById(personId);
    if person.None? {
      return Failure(EntityNotFound(PersonEntity, personId));
    }
    var p := person.value;
    var listPersonTenures := p.tenures;
    var index := IndexOfTenure(p.tenures, m.entityId);
    if index.Some? {
      listPersonTenures := listPersonTenures[..index.value] + listPersonTenures[index.value + 1..];
    }
    p := p.(tenures := listPersonTenures);
    assert p.tenures == WithoutTenure(person.value.tenures, m.entityId);
    var updated := UpdatePersonType(w, derive, p, m.correlationId);
    ghost var lookups := LookupCalls(p.tenures, m.correlationId);
    AppendAssociative(old(w.log), [GetPerson(personId)], lookups);
    if updated.Failure? {
      return Failure(updated.error);
    }
    r := w.SavePersonAsync(updated.value);
    AppendAssociative(old(w.log), [GetPerson(personId)] + lookups, [SavePerson(updated.value)]);
  }

  /** `UpdatePersonType`: one lookup per summary, then the faults, then the roles. */
  method UpdatePersonType(w: World, derive: (TenureType, bool) -> PersonType, person: Person, correlationId: Guid) returns (r: Result<Person, Error>)
    modifies w`log
    ensures r == PersonTypesUpdated(old(w.State()), derive, person)
    ensures w.log == old(w.log) + LookupCalls(person.tenures, correlationId)
  {
    var answers := LookupAll(w, person.tenures, correlationId);
    var faults := CollectFaults(w, person.tenures, answers);
    if faults != [] {
      return Failure(Aggregate(faults));
    }
    var personTypes := RolesOf(w, derive, person.tenures, answers, person.id);
    if personTypes.Failure? {
      return Failure(personTypes.error);
    }
    return Success(person.(personTypes := personTypes.value));
  }

  /** The lookup tasks, started in summary order; `answers[i]` is what task i holds. */
  method LookupAll(w: World, ts: seq<TenureSummary>, correlationId: Guid) returns (answers: seq<Answer<Tenure>>)
    modifies w`log
    ensures |answers| == |ts|
    ensures forall i :: 0 <= i < |ts| ==> answers[i] == TenureAnswer(w.State(), ts[i].id)
    ensures w.log == old(w.log) + LookupCalls(ts, correlationId)
  {
    answers := [];
    var i := 0;
    while i < |ts|
      invariant 0 <= i <= |ts|
      invariant |answers| == i
      invariant forall k :: 0 <= k < i ==> answers[k] == TenureAnswer(w.State(), ts[k].id)
      invariant w.log == old(w.log) + LookupCalls(ts[..i], correlationId)
    {
      var a := w.GetTenureInfoById(ts[i].id, Some(correlationId));
      answers := answers + [a];
      assert ts[..i + 1][..i] == ts[..i];
      AppendAssociative(old(w.log), LookupCalls(ts[..i], correlationId), [GetTenureInfo(ts[i].id, Some(correlationId))]);
      i := i + 1;
    }
    assert ts[..i] == ts;
  }

  /** `Task.WaitAll`: the failure of every lookup task that raised, in order. */
  method CollectFaults(w: World, ts: seq<TenureSummary>, answers: seq<Answer<Tenure>>) returns (faults: seq<Error>)
    requires |answers| == |ts|
    requires forall i :: 0 <= i < |ts| ==> answers[i] == TenureAnswer(w.State(), ts[i].id)
    ensures faults == LookupFaults(w.State(), ts)
  {
    faults := [];
    var i := 0;
    while i < |ts|
      invariant 0 <= i <= |ts|
      invariant faults == LookupFaults(w.State(), ts[..i])
    {
      assert ts[..i + 1][..i] == ts[..i];
      if answers[i].Faulted? {
        faults := faults + [LookupFailed(ts[i].id)];
      }
      i := i + 1;
    }
    assert ts[..i] == ts;
  }

  /** The role list, built from the completed tasks in order. */
  method RolesOf(w: World, derive: (TenureType, bool) -> PersonType, ts: seq<TenureSummary>, answers: seq<Answer<Tenure>>, personId: Guid)
    returns (r: Result<seq<PersonType>, Error>)
    requires |answers| == |ts|
    requires forall i :: 0 <= i < |ts| ==> answers[i] == TenureAnswer(w.State(), ts[i].id)
    ensures r == Roles(w.State(), derive, ts, personId)
  {
    var personTypes := [];
    var i := 0;
    while i < |ts|
      invariant 0 <= i <= |ts|
      invariant Roles(w.State(), derive, ts[..i], personId) == Success(personTypes)
    {
      assert ts[..i + 1][..i] == ts[..i];
      var role := PersonTypeForTenure(derive, Held(answers[i]), personId);
      if role.Failure? {
        RolesStopAtFailure(w.State(), derive, ts, personId, i + 1);
        return Failure(role.error);
      }
      personTypes := personTypes + [role.value];
      i := i + 1;
    }
    assert ts[..i] == ts;
    return Success(personTypes);
  }

  /** Once a prefix of the summaries fails, the whole role list fails the same way. */
  lemma {:induction false} RolesStopAtFailure(env: Env, derive: (TenureType, bool) -> PersonType, ts: seq<TenureSummary>, personId: Guid, n: nat)
    requires n <= |ts| && Roles(env, derive, ts[..n], personId).Failure?
    ensures Roles(env, derive, ts, personId) == Roles(env, derive, ts[..n], personId)
    decreases |ts| - n
  {
    if n < |ts| {
      assert ts[..n + 1][..n] == ts[..n];
      RolesStopAtFailure(env, derive, ts, personId, n + 1);
    } else {
      assert ts[..n] == ts;
    }
  }

  /** The removed member is the first old snapshot, in order, that has no equal in the
      new list; there is none exactly when every old snapshot has an equal. */
  lemma DeletedMemberIsFirstMissing(eventData: EventData)
    requires HouseholdMembersKey in eventData.oldData && HouseholdMembersKey in eventData.newData
    ensures var oldHms := eventData.oldData[HouseholdMembersKey];
      var newHms := eventData.newData[HouseholdMembersKey];
      var d := DeletedHouseholdMember(eventData);
      && d.Success?
      && (d.value.None? <==> forall j :: 0 <= j < |oldHms| ==> oldHms[j] in newHms)
      && (d.value.Some? ==> exists i: nat :: IsFirstMissing(oldHms, newHms, i) && oldHms[i] == d.value.value)
  {
    FirstOfExcept(eventData.oldData[HouseholdMembersKey], eventData.newData[HouseholdMembersKey]);
  }

  /** Both images must carry the household-member key; otherwise the routine fails
      before any call. */
  lemma MissingKeyFails(env: Env, derive: (TenureType, bool) -> PersonType, m: EntityEventSns)
    requires HouseholdMembersKey !in m.eventData.oldData || HouseholdMembersKey !in m.eventData.newData
    ensures RemovedOutcome(env, derive, Some(m)) == Outcome(Failure(KeyNotFound(HouseholdMembersKey)), env.persons, [])
  {
  }

  /** When every old snapshot has an equal in the new list, the routine fails with
      HouseholdMembersNotChanged(entityId, correlationId) before any person load. */
  lemma UnchangedMembersFail(env: Env, derive: (TenureType, bool) -> PersonType, m: EntityEventSns)
    requires HouseholdMembersKey in m.eventData.oldData && HouseholdMembersKey in m.eventData.newData
    requires forall j :: 0 <= j < |m.eventData.oldData[HouseholdMembersKey]| ==>
      m.eventData.oldData[HouseholdMembersKey][j] in m.eventData.newData[HouseholdMembersKey]
    ensures RemovedOutcome(env, derive, Some(m)) ==
      Outcome(Failure(HouseholdMembersNotChanged(m.entityId, m.correlationId)), env.persons, [])
  {
    DeletedMemberIsFirstMissing(m.eventData);
  }

  /** When some old snapshot has no equal in the new list, a removed member is found:
      an old snapshot without an equal in the new list. */
  lemma DroppedMemberIsFound(eventData: EventData, k: nat)
    requires HouseholdMembersKey in eventData.oldData && HouseholdMembersKey in eventData.newData
    requires k < |eventData.oldData[HouseholdMembersKey]|
    requires eventData.oldData[HouseholdMembersKey][k] !in eventData.newData[HouseholdMembersKey]
    ensures var d := DeletedHouseholdMember(eventData);
      && d.Success? && d.value.Some?
      && d.value.value in eventData.oldData[HouseholdMembersKey]
      && d.value.value !in eventData.newData[HouseholdMembersKey]
  {
    DeletedMemberIsFirstMissing(eventData);
    var oldHms := eventData.oldData[HouseholdMembersKey];
    var newHms := eventData.newData[HouseholdMembersKey];
    var d := DeletedHouseholdMember(eventData);
    if d.value.Some? {
      var i: nat :| IsFirstMissing(oldHms, newHms, i) && oldHms[i] == d.value.value;
    }
  }

  /** A removed member whose person record is missing fails with NotFound(Person, id)
      after the one load, and nothing is saved. */
  lemma MissingPersonSavesNothing(env: Env, derive: (TenureType, bool) -> PersonType, m: EntityEventSns, hm: HouseholdMembers)
    requires DeletedHouseholdMember(m.eventData) == Success(Some(hm))
    requires hm.id !in env.persons
    ensures var o := RemovedOutcome(env, derive, Some(m));
      && o.result == Failure(EntityNotFound(PersonEntity, hm.id))
      && o.calls == [GetPerson(hm.id)]
      && o.persons == env.persons
  {
  }

  /** Once the person is found: one load, then one lookup per remaining summary, then
      a save when the roles can be recomputed. */
  lemma FoundPersonCalls(env: Env, derive: (TenureType, bool) -> PersonType, m: EntityEventSns, hm: HouseholdMembers)
    requires DeletedHouseholdMember(m.eventData) == Success(Some(hm))
    requires hm.id in env.persons
    ensures var p := env.persons[hm.id];
      var q := p.(tenures := WithoutTenure(p.tenures, m.entityId));
      var lookups := LookupCalls(q.tenures, m.correlationId);
      var u := PersonTypesUpdated(env, derive, q);
      var o := RemovedOutcome(env, derive, Some(m));
      && (u.Failure? ==> o == Outcome(Failure(u.error), env.persons, [GetPerson(hm.id)] + lookups))
      && (u.Success? ==> o == Outcome(SaveResult(env.saveFaults, u.value), AfterSave(env.persons, env.saveFaults, u.value),
                                       [GetPerson(hm.id)] + lookups + [SavePerson(u.value)]))
  {
  }

  /** Once the person is found, it is loaded exactly once, it is the first call, and
      then exactly one tenure lookup follows per remaining summary, each with the
      message's correlation id. */
  lemma OneLookupPerRemainingSummary(env: Env, derive: (TenureType, bool) -> PersonType, m: EntityEventSns, hm: HouseholdMembers)
    requires DeletedHouseholdMember(m.eventData) == Success(Some(hm))
    requires hm.id in env.persons
    ensures var remaining := WithoutTenure(env.persons[hm.id].tenures, m.entityId);
      var o := RemovedOutcome(env, derive, Some(m));
      && Loads(o.calls) == [hm.id]
      && |o.calls| >= 1 + |remaining|
      && o.calls[0] == GetPerson(hm.id)
      && (forall i :: 0 <= i < |remaining| ==> o.calls[1 + i] == GetTenureInfo(remaining[i].id, Some(m.correlationId)))
      && |Saves(o.calls)| <= 1
  {
    var p := env.persons[hm.id];
    var q := p.(tenures := WithoutTenure(p.tenures, m.entityId));
    var lookups := LookupCalls(q.tenures, m.correlationId);
    var c1 := [GetPerson(hm.id)] + lookups;
    FoundPersonCalls(env, derive, m, hm);
    LookupsOnly(lookups);
    LoadsSingle(GetPerson(hm.id));
    SavesSingle(GetPerson(hm.id));
    LoadsConcat([GetPerson(hm.id)], lookups);
    SavesConcat([GetPerson(hm.id)], lookups);
    var u := PersonTypesUpdated(env, derive, q);
    if u.Success? {
      LoadsSingle(SavePerson(u.value));
      SavesSingle(SavePerson(u.value));
      LoadsConcat(c1, [SavePerson(u.value)]);
      SavesConcat(c1, [SavePerson(u.value)]);
    }
  }

  /** The recomputed record is the given one with its role list replaced by one role
      per summary. */
  lemma RolesReplaced(env: Env, derive: (TenureType, bool) -> PersonType, q: Person)
    requires PersonTypesUpdated(env, derive, q).Success?
    ensures var rs := Roles(env, derive, q.tenures, q.id);
      && rs.Success?
      && |rs.value| == |q.tenures|
      && PersonTypesUpdated(env, derive, q).value == q.(personTypes := rs.value)
  {
    RolesFollowTenures(env, derive, q.tenures, q.id);
  }

  /** A load, lookups, then one save: the save is the only one and the last call. */
  lemma LoadLookupsSave(id: Guid, lookups: seq<Call>, saved: Person)
    requires forall i :: 0 <= i < |lookups| ==> !lookups[i].GetPerson? && !lookups[i].SavePerson?
    ensures var calls := [GetPerson(id)] + lookups + [SavePerson(saved)];
      Saves(calls) == [saved] && calls[|calls| - 1] == SavePerson(saved)
  {
    LookupsOnly(lookups);
    SavesSingle(GetPerson(id));
    SavesConcat([GetPerson(id)], lookups);
    SavesSingle(SavePerson(saved));
    SavesConcat([GetPerson(id)] + lookups, [SavePerson(saved)]);
  }

  /** On success there is exactly one save, the last call, and it writes the loaded
      record with the tenure removed and the roles recomputed from the remaining
      tenures, one role per remaining summary. */
  lemma SavedOnceAfterRemovalAndRoles(env: Env, derive: (TenureType, bool) -> PersonType, m: EntityEventSns, hm: HouseholdMembers)
    requires DeletedHouseholdMember(m.eventData) == Success(Some(hm))
    requires hm.id in env.persons
    requires RemovedOutcome(env, derive, Some(m)).result.Success?
    ensures var p := env.persons[hm.id];
      var remaining := WithoutTenure(p.tenures, m.entityId);
      var o := RemovedOutcome(env, derive, Some(m));
      var rs := Roles(env, derive, remaining, p.id);
      && rs.Success?
      && |rs.value| == |remaining|
      && |Saves(o.calls)| == 1
      && Saves(o.calls)[0] == p.(tenures := remaining, personTypes := rs.value)
      && o.calls[|o.calls| - 1] == SavePerson(Saves(o.calls)[0])
      && o.persons == env.persons[p.id := Saves(o.calls)[0]]
  {
    var p := env.persons[hm.id];
    var q := p.(tenures := WithoutTenure(p.tenures, m.entityId));
    FoundPersonCalls(env, derive, m, hm);
    var u := PersonTypesUpdated(env, derive, q);
    assert u.Success?;
    RolesReplaced(env, derive, q);
    LoadLookupsSave(hm.id, LookupCalls(q.tenures, m.correlationId), u.value);
  }

  /** The role list fails exactly when some remaining tenure's role cannot be derived,
      and otherwise holds, at position i, the role derived from tenure i. */
  lemma {:induction false} RolesFollowTenures(env: Env, derive: (TenureType, bool) -> PersonType, ts: seq<TenureSummary>, personId: Guid)
    ensures Roles(env, derive, ts, personId).Success? <==>
      forall i :: 0 <= i < |ts| ==> PersonTypeForTenure(derive, Held(TenureAnswer(env, ts[i].id)), personId).Success?
    ensures Roles(env, derive, ts, personId).Success? ==>
      && |Roles(env, derive, ts, personId).value| == |ts|
      && forall i :: 0 <= i < |ts| ==>
           Roles(env, derive, ts, personId).value[i] == PersonTypeForTenure(derive, Held(TenureAnswer(env, ts[i].id)), personId).value
    decreases |ts|
  {
    if ts != [] {
      var init := ts[..|ts| - 1];
      assert forall i :: 0 <= i < |init| ==> init[i] == ts[i];
      RolesFollowTenures(env, derive, init, personId);
    }
  }

  /** The role list ends with the failure of the first tenure, in order, whose role
      cannot be derived. */
  lemma {:induction false} RolesFirstFailure(env: Env, derive: (TenureType, bool) -> PersonType, ts: seq<TenureSummary>, personId: Guid, k: nat)
    requires k < |ts|
    requires forall j :: 0 <= j < k ==> PersonTypeForTenure(derive, Held(TenureAnswer(env, ts[j].id)), personId).Success?
    requires PersonTypeForTenure(derive, Held(TenureAnswer(env, ts[k].id)), personId).Failure?
    ensures Roles(env, derive, ts, personId) == Failure(PersonTypeForTenure(derive, Held(TenureAnswer(env, ts[k].id)), personId).error)
  {
    var pre := ts[..k];
    assert forall j :: 0 <= j < |pre| ==> pre[j] == ts[j];
    RolesFollowTenures(env, derive, pre, personId);
    assert ts[..k + 1][..k] == pre;
    RolesStopAtFailure(env, derive, ts, personId, k + 1);
  }

  /** A tenure's role: a found tenure that lists the person yields the role derived from
      its tenure type and the first matching member's responsibility flag; an absent
      tenure, a null member list, or a list without the person fails. */
  lemma PersonTypeForTenureCases(derive: (TenureType, bool) -> PersonType, tenure: Option<Tenure>, personId: Guid)
    ensures tenure.None? ==> PersonTypeForTenure(derive, tenure, personId) == Failure(NullReference)
    ensures tenure.Some? && tenure.value.householdMembers.None? ==>
      PersonTypeForTenure(derive, tenure, personId) == Failure(ArgumentNull("source"))
    ensures tenure.Some? && tenure.value.householdMembers.Some? &&
      (forall j :: 0 <= j < |tenure.value.householdMembers.value| ==> tenure.value.householdMembers.value[j].id != personId)
      ==> PersonTypeForTenure(derive, tenure, personId) == Failure(SequenceContainsNoMatchingElement)
    ensures PersonTypeForTenure(derive, tenure, personId).Success? ==>
      && tenure.Some? && tenure.value.householdMembers.Some?
      && exists i :: 0 <= i < |tenure.value.householdMembers.value|
           && tenure.value.householdMembers.value[i].id == personId
           && (forall j :: 0 <= j < i ==> tenure.value.householdMembers.value[j].id != personId)
           && PersonTypeForTenure(derive, tenure, personId).value
                == derive(tenure.value.tenureType, tenure.value.householdMembers.value[i].isResponsible)
  {
    if PersonTypeForTenure(derive, tenure, personId).Success? {
      var hms := tenure.value.householdMembers.value;
      var i := IndexOfMember(hms, personId).value;
      assert hms[i].id == personId;
    }
  }

  /** A remaining tenure that does not list the person makes the routine fail, and
      nothing is saved. */
  lemma TenureWithoutPersonFails(env: Env, derive: (TenureType, bool) -> PersonType, m: EntityEventSns, hm: HouseholdMembers, k: nat)
    requires DeletedHouseholdMember(m.eventData) == Success(Some(hm))
    requires hm.id in env.persons
    requires var remaining := WithoutTenure(env.persons[hm.id].tenures, m.entityId);
      && k < |remaining|
      && TenureAnswer(env, remaining[k].id).Found?
      && var hms := TenureAnswer(env, remaining[k].id).value.householdMembers;
      && hms.Some? && forall j :: 0 <= j < |hms.value| ==> hms.value[j].id != env.persons[hm.id].id
    ensures var o := RemovedOutcome(env, derive, Some(m));
      o.result.Failure? && Saves(o.calls) == [] && o.persons == env.persons
  {
    var p := env.persons[hm.id];
    var remaining := WithoutTenure(p.tenures, m.entityId);
    var q := p.(tenures := remaining);
    PersonTypeForTenureCases(derive, Held(TenureAnswer(env, remaining[k].id)), p.id);
    RolesFollowTenures(env, derive, remaining, p.id);
    NoSaveOnFailedRoles(env, derive, m, hm);
  }

  /** A lookup that raises makes the routine fail with the collected lookup failures,
      and nothing is saved. */
  lemma LookupFaultSavesNothing(env: Env, derive: (TenureType, bool) -> PersonType, m: EntityEventSns, hm: HouseholdMembers, k: nat)
    requires DeletedHouseholdMember(m.eventData) == Success(Some(hm))
    requires hm.id in env.persons
    requires var remaining := WithoutTenure(env.persons[hm.id].tenures, m.entityId);
      k < |remaining| && remaining[k].id in env.tenureFaults
    ensures var remaining := WithoutTenure(env.persons[hm.id].tenures, m.entityId);
      var o := RemovedOutcome(env, derive, Some(m));
      && o.result == Failure(Aggregate(LookupFaults(env, remaining)))
      && LookupFailed(remaining[k].id) in LookupFaults(env, remaining)
      && Saves(o.calls) == [] && o.persons == env.persons
  {
    var remaining := WithoutTenure(env.persons[hm.id].tenures, m.entityId);
    assert TenureAnswer(env, remaining[k].id).Faulted?;
    LookupFaultsKeepEvery(env, remaining, k);
    NoSaveOnFailedRoles(env, derive, m, hm);
  }

  /** Every lookup that raises is among the collected failures. */
  lemma {:induction false} LookupFaultsKeepEvery(env: Env, ts: seq<TenureSummary>, k: nat)
    requires k < |ts| && TenureAnswer(env, ts[k].id).Faulted?
    ensures LookupFailed(ts[k].id) in LookupFaults(env, ts)
    decreases |ts|
  {
    if k < |ts| - 1 {
      var init := ts[..|ts| - 1];
      assert init[k] == ts[k];
      LookupFaultsKeepEvery(env, init, k);
    }
  }

  /** When the roles cannot be recomputed, the routine ends with that failure and
      saves nothing. */
  lemma NoSaveOnFailedRoles(env: Env, derive: (TenureType, bool) -> PersonType, m: EntityEventSns, hm: HouseholdMembers)
    requires DeletedHouseholdMember(m.eventData) == Success(Some(hm))
    requires hm.id in env.persons
    requires var p := env.persons[hm.id];
      PersonTypesUpdated(env, derive, p.(tenures := WithoutTenure(p.tenures, m.entityId))).Failure?
    ensures var p := env.persons[hm.id];
      var o := RemovedOutcome(env, derive, Some(m));
      && o.result == Failure(PersonTypesUpdated(env, derive, p.(tenures := WithoutTenure(p.tenures, m.entityId))).error)
      && Saves(o.calls) == [] && o.persons == env.persons
  {
    var p := env.persons[hm.id];
    var lookups := LookupCalls(WithoutTenure(p.tenures, m.entityId), m.correlationId);
    FoundPersonCalls(env, derive, m, hm);
    LookupsOnly(lookups);
    SavesSingle(GetPerson(hm.id));
    SavesConcat([GetPerson(hm.id)], lookups);
  }
}
