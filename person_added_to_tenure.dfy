/** `PersonAddedToTenureUseCase.ProcessMessageAsync`. As written, the routine fetches
    the tenure, takes its first household member, loads that person and saves the
    record unchanged: the update step is not implemented. */
module PersonAddedToTenure {
  import opened Wrappers
  import opened Domain
  import opened Gateways
  import opened Linq

  /** What the routine does, as a function of the collaborators' state. The tenure
      lookup is issued without a correlation id. */
  function PersonAddedOutcome(env: Env, message: Option<EntityEventSns>): Outcome
  {
    match message
    case None => Outcome(Failure(ArgumentNull("message")), env.persons, [])
    case Some(m) =>
      var lookup := [GetTenureInfo(m.entityId, None)];
      match TenureAnswer(env, m.entityId)
      case Faulted => Outcome(Failure(LookupFailed(m.entityId)), env.persons, lookup)
      case Absent => Outcome(Failure(EntityNotFound(TenureEntity, m.entityId)), env.persons, lookup)
      case Found(t) =>
        match First(t.householdMembers)
        case Failure(e) => Outcome(Failure(e), env.persons, lookup)
        case Success(hm) =>
          var load := lookup + [GetPerson(hm.id)];
          match PersonById(env.persons, hm.id)
          case None => Outcome(Failure(EntityNotFound(PersonEntity, hm.id)), env.persons, load)
          case Some(p) =>
            Outcome(SaveResult(env.saveFaults, p), AfterSave(env.persons, env.saveFaults, p), load + [SavePerson(p)])
  }

  method ProcessMessage(w: World, message: Option<EntityEventSns>) returns (r: Result<(), Error>)
    modifies w`persons, w`log
    ensures var o := PersonAddedOutcome(old(w.State()), message);
      r == o.result && w.persons == o.persons && w.log == old(w.log) + o.calls
  {
    if message.None? {
      return Failure(ArgumentNull("message"));
    }
    var m := message.value;
    var tenure := w.GetTenureInfoById(m.entityId, None);
    if tenure.Faulted? {
      return Failure(LookupFailed(m.entityId));
    }
    if tenure.Absent? {
      return Failure(EntityNotFound(TenureEntity, m.entityId));
    }
    var first := First(tenure.value.householdMembers);
    if first.Failure? {
      return Failure(first.error);
    }
    var personId := first.value.id;
    var person := w.GetPersonById(personId);
    if person.None? {
      return Failure(EntityNotFound(PersonEntity, personId));
    }
    r := w.SavePersonAsync(person.value);
  }

  /** A missing tenure fails with NotFound(Tenure, entityId) after the one lookup:
      no person is loaded or saved. */
  lemma MissingTenureLoadsNoPerson(env: Env, m: EntityEventSns)
    requires TenureAnswer(env, m.entityId).Absent?
    ensures var o := PersonAddedOutcome(env, Some(m));
      && o.result == Failure(EntityNotFound(TenureEntity, m.entityId))
      && o.calls == [GetTenureInfo(m.entityId, None)]
      && Loads(o.calls) == [] && Saves(o.calls) == [] && o.persons == env.persons
  {
  }

  /** The person loaded is the first household member of the fetched tenure, and a
      null or empty member list fails without any load. */
  lemma LoadsFirstHouseholdMember(env: Env, m: EntityEventSns)
    requires TenureAnswer(env, m.entityId).Found?
    ensures var t := TenureAnswer(env, m.entityId).value;
      var o := PersonAddedOutcome(env, Some(m));
      && (t.householdMembers.None? ==> o.result == Failure(ArgumentNull("source")) && Loads(o.calls) == [])
      && (t.householdMembers == Some([]) ==> o.result == Failure(SequenceContainsNoElements) && Loads(o.calls) == [])
      && (t.householdMembers.Some? && t.householdMembers.value != [] ==>
            Loads(o.calls) == [t.householdMembers.value[0].id])
  {
    var o := PersonAddedOutcome(env, Some(m));
    var t := TenureAnswer(env, m.entityId).value;
    LoadsSingle(GetTenureInfo(m.entityId, None));
    if t.householdMembers.Some? && t.householdMembers.value != [] {
      var id := t.householdMembers.value[0].id;
      LoadsConcat([GetTenureInfo(m.entityId, None)], [GetPerson(id)]);
      LoadsSingle(GetPerson(id));
      if id in env.persons {
        var load := [GetTenureInfo(m.entityId, None)] + [GetPerson(id)];
        LoadsConcat(load, [SavePerson(env.persons[id])]);
        LoadsSingle(SavePerson(env.persons[id]));
      }
    }
  }

  /** A missing person fails with NotFound(Person, id) and nothing is saved. */
  lemma MissingPersonSavesNothing(env: Env, m: EntityEventSns)
    requires TenureAnswer(env, m.entityId).Found?
    requires var t := TenureAnswer(env, m.entityId).value;
      t.householdMembers.Some? && t.householdMembers.value != [] && t.householdMembers.value[0].id !in env.persons
    ensures var id := TenureAnswer(env, m.entityId).value.householdMembers.value[0].id;
      var o := PersonAddedOutcome(env, Some(m));
      o.result == Failure(EntityNotFound(PersonEntity, id)) && Saves(o.calls) == [] && o.persons == env.persons
  {
    var id := TenureAnswer(env, m.entityId).value.householdMembers.value[0].id;
    assert PersonAddedOutcome(env, Some(m)).calls == [GetTenureInfo(m.entityId, None)] + [GetPerson(id)];
    SavesConcat([GetTenureInfo(m.entityId, None)], [GetPerson(id)]);
    SavesSingle(GetTenureInfo(m.entityId, None));
    SavesSingle(GetPerson(id));
  }

  /** On success exactly one save happens, of the record exactly as loaded, so a
      consistently keyed store is left as it was. */
  lemma SuccessSavesLoadedRecordUnchanged(env: Env, m: EntityEventSns)
    requires PersonAddedOutcome(env, Some(m)).result.Success?
    ensures var t := TenureAnswer(env, m.entityId).value;
      var id := t.householdMembers.value[0].id;
      var o := PersonAddedOutcome(env, Some(m));
      && id in env.persons
      && Saves(o.calls) == [env.persons[id]]
      && (WellKeyed(env.persons) ==> o.persons == env.persons)
  {
    var t := TenureAnswer(env, m.entityId).value;
    var id := t.householdMembers.value[0].id;
    var p := env.persons[id];
    var calls := [GetTenureInfo(m.entityId, None)] + [GetPerson(id)] + [SavePerson(p)];
    assert PersonAddedOutcome(env, Some(m)).calls == calls;
    SavesConcat([GetTenureInfo(m.entityId, None)] + [GetPerson(id)], [SavePerson(p)]);
    SavesConcat([GetTenureInfo(m.entityId, None)], [GetPerson(id)]);
    SavesSingle(GetTenureInfo(m.entityId, None));
    SavesSingle(GetPerson(id));
    SavesSingle(SavePerson(p));
    if WellKeyed(env.persons) {
      assert env.persons[p.id := p] == env.persons;
    }
  }
}
