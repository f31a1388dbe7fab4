/** The collaborators every routine talks to: the person store (load and save), the
    tenure lookup and the account lookup. One `World` object holds them, together with
    a ghost record of every call made, in order, so that contracts can count loads,
    saves and lookups. */
module Gateways {
  import opened Wrappers
  import opened Guids
  import opened Domain

  /** What a remote lookup gives back: the record, null (not found), or an exception
      raised inside the gateway (an error status from the remote API). */
  datatype Answer<T> = Found(value: T) | Absent | Faulted

  /** One call into a collaborator. */
  datatype Call =
    | GetTenureInfo(id: Guid, correlationId: Option<Guid>)
    | GetAccount(id: Guid, accountCorrelationId: Guid)
    | GetPerson(id: Guid)
    | SavePerson(person: Person)

  /** The collaborators' state as a value: the stored persons, the records the lookups
      serve, the ids on which a lookup raises, and the person ids whose save raises
      (a storage fault or a version conflict). */
  datatype Env = Env(
    persons: map<Guid, Person>,
    tenures: map<Guid, Tenure>,
    tenureFaults: set<Guid>,
    accounts: map<Guid, Account>,
    accountFaults: set<Guid>,
    saveFaults: set<Guid>)

  function TenureAnswer(env: Env, id: Guid): Answer<Tenure>
  {
    if id in env.tenureFaults then Faulted
    else if id in env.tenures then Found(env.tenures[id])
    else Absent
  }

  function AccountAnswer(env: Env, id: Guid): Answer<Account>
  {
    if id in env.accountFaults then Faulted
    else if id in env.accounts then Found(env.accounts[id])
    else Absent
  }

  function PersonById(persons: map<Guid, Person>, id: Guid): Option<Person>
  {
    if id in persons then Some(persons[id]) else None
  }

  /** What `SavePersonAsync(p)` returns. */
  function SaveResult(saveFaults: set<Guid>, p: Person): Result<(), Error>
  {
    if p.id in saveFaults then Failure(SaveFailed(p.id)) else Success(())
  }

  /** The store after `SavePersonAsync(p)`: the record is written under its id, unless
      the save raises. */
  function AfterSave(persons: map<Guid, Person>, saveFaults: set<Guid>, p: Person): map<Guid, Person>
  {
    if p.id in saveFaults then persons else persons[p.id := p]
  }

  /** How a routine ends: its result, the person store afterwards, and the calls it
      made, in order. */
  datatype Outcome = Outcome(result: Result<(), Error>, persons: map<Guid, Person>, calls: seq<Call>)

  /** A store in which every record sits under its own id. */
  predicate WellKeyed(persons: map<Guid, Person>)
  {
    forall id :: id in persons ==> persons[id].id == id
  }

  /** The persons saved by a sequence of calls, in order. */
  function Saves(calls: seq<Call>): seq<Person>
  {
    if calls == [] then []
    else (if calls[0].SavePerson? then [calls[0].person] else []) + Saves(calls[1..])
  }

  /** The person ids loaded by a sequence of calls, in order. */
  function Loads(calls: seq<Call>): seq<Guid>
  {
    if calls == [] then []
    else (if calls[0].GetPerson? then [calls[0].id] else []) + Loads(calls[1..])
  }

  lemma AppendAssociative(a: seq<Call>, b: seq<Call>, c: seq<Call>)
    ensures a + (b + c) == (a + b) + c
  {
    assert forall i :: 0 <= i < |a + (b + c)| ==> (a + (b + c))[i] == ((a + b) + c)[i];
  }

  lemma SavesSingle(c: Call)
    ensures Saves([c]) == if c.SavePerson? then [c.person] else []
  {
    assert [c][1..] == [];
  }

  lemma LoadsSingle(c: Call)
    ensures Loads([c]) == if c.GetPerson? then [c.id] else []
  {
    assert [c][1..] == [];
  }

  lemma {:induction false} SavesConcat(a: seq<Call>, b: seq<Call>)
    ensures Saves(a + b) == Saves(a) + Saves(b)
  {
    if a != [] {
      assert (a + b)[1..] == a[1..] + b;
      assert (a + b)[0] == a[0];
      SavesConcat(a[1..], b);
    } else {
      assert a + b == b;
    }
  }

  lemma {:induction false} LoadsConcat(a: seq<Call>, b: seq<Call>)
    ensures Loads(a + b) == Loads(a) + Loads(b)
  {
    if a != [] {
      assert (a + b)[1..] == a[1..] + b;
      assert (a + b)[0] == a[0];
      LoadsConcat(a[1..], b);
    } else {
      assert a + b == b;
    }
  }

  /** One person load per household member, in member order. */
  function LoadCalls(hms: seq<HouseholdMembers>): (r: seq<Call>)
    ensures |r| == |hms|
    ensures forall i :: 0 <= i < |hms| ==> r[i] == GetPerson(hms[i].id)
    decreases |hms|
  {
    if hms == [] then [] else LoadCalls(hms[..|hms| - 1]) + [GetPerson(hms[|hms| - 1].id)]
  }

  /** Loading every member saves nothing and loads exactly the members' ids. */
  lemma LoadCallsLoads(hms: seq<HouseholdMembers>)
    ensures Saves(LoadCalls(hms)) == []
    ensures |Loads(LoadCalls(hms))| == |hms|
    ensures forall i :: 0 <= i < |hms| ==> Loads(LoadCalls(hms))[i] == hms[i].id
  {
    LoadCallsSaveNothing(hms);
    LoadCallsLoadEach(hms);
  }

  lemma {:induction false} LoadCallsSaveNothing(hms: seq<HouseholdMembers>)
    ensures Saves(LoadCalls(hms)) == []
    decreases |hms|
  {
    if hms != [] {
      var init := hms[..|hms| - 1];
      var last := GetPerson(hms[|hms| - 1].id);
      LoadCallsSaveNothing(init);
      assert LoadCalls(hms) == LoadCalls(init) + [last];
      SavesConcat(LoadCalls(init), [last]);
      SavesSingle(last);
    }
  }

  lemma {:induction false} LoadCallsLoadEach(hms: seq<HouseholdMembers>)
    ensures |Loads(LoadCalls(hms))| == |hms|
    ensures forall i :: 0 <= i < |hms| ==> Loads(LoadCalls(hms))[i] == hms[i].id
    decreases |hms|
  {
    if hms != [] {
      var init := hms[..|hms| - 1];
      var last := GetPerson(hms[|hms| - 1].id);
      LoadCallsLoadEach(init);
      assert LoadCalls(hms) == LoadCalls(init) + [last];
      LoadsConcat(LoadCalls(init), [last]);
      LoadsSingle(last);
      var loads := Loads(LoadCalls(init));
      assert Loads(LoadCalls(hms)) == loads + [hms[|hms| - 1].id];
      forall i | 0 <= i < |hms|
        ensures Loads(LoadCalls(hms))[i] == hms[i].id
      {
        if i < |init| {
          assert init[i] == hms[i];
        }
      }
    }
  }


  /** One save per record, in order. */
  function SaveCalls(ps: seq<Person>): (r: seq<Call>)
    ensures |r| == |ps|
    ensures forall i :: 0 <= i < |ps| ==> r[i] == SavePerson(ps[i])
    decreases |ps|
  {
    if ps == [] then [] else SaveCalls(ps[..|ps| - 1]) + [SavePerson(ps[|ps| - 1])]
  }

  /** Saving each record loads nothing and saves exactly those records. */
  lemma {:induction false} SaveCallsSaves(ps: seq<Person>)
    ensures Saves(SaveCalls(ps)) == ps
    ensures Loads(SaveCalls(ps)) == []
    decreases |ps|
  {
    if ps != [] {
      var init := ps[..|ps| - 1];
      var last := SavePerson(ps[|ps| - 1]);
      SaveCallsSaves(init);
      SavesConcat(SaveCalls(init), [last]);
      LoadsConcat(SaveCalls(init), [last]);
      SavesSingle(last);
      LoadsSingle(last);
      assert init + [ps[|ps| - 1]] == ps;
    }
  }

  /** The store after saving each of `ps` in turn. */
  function StoreAll(persons: map<Guid, Person>, saveFaults: set<Guid>, ps: seq<Person>): map<Guid, Person>
    decreases |ps|
  {
    if ps == [] then persons
    else AfterSave(StoreAll(persons, saveFaults, ps[..|ps| - 1]), saveFaults, ps[|ps| - 1])
  }

  /** A record that no successful save touches keeps its old value. */
  lemma {:induction false} StoreAllUntouched(persons: map<Guid, Person>, saveFaults: set<Guid>, ps: seq<Person>, id: Guid)
    requires id in saveFaults || forall i :: 0 <= i < |ps| ==> ps[i].id != id
    ensures id in StoreAll(persons, saveFaults, ps) <==> id in persons
    ensures id in persons ==> StoreAll(persons, saveFaults, ps)[id] == persons[id]
    decreases |ps|
  {
    if ps != [] {
      StoreAllUntouched(persons, saveFaults, ps[..|ps| - 1], id);
    }
  }

  /** Every record whose save does not raise ends up in the store. */
  lemma {:induction false} StoreAllHas(persons: map<Guid, Person>, saveFaults: set<Guid>, ps: seq<Person>, i: nat)
    requires i < |ps| && ps[i].id !in saveFaults
    ensures ps[i].id in StoreAll(persons, saveFaults, ps)
    decreases |ps|
  {
    if i < |ps| - 1 {
      StoreAllHas(persons, saveFaults, ps[..|ps| - 1], i);
    }
  }

  /** Every record of a run of saves none of which raises ends up in the store. */
  lemma StoreAllHasEvery(persons: map<Guid, Person>, saveFaults: set<Guid>, ps: seq<Person>)
    ensures forall i :: 0 <= i < |ps| && ps[i].id !in saveFaults ==> ps[i].id in StoreAll(persons, saveFaults, ps)
  {
    forall i | 0 <= i < |ps| && ps[i].id !in saveFaults
      ensures ps[i].id in StoreAll(persons, saveFaults, ps)
    {
      StoreAllHas(persons, saveFaults, ps, i);
    }
  }

  /** The last successful save of an id decides its record. */
  lemma {:induction false} StoreAllLast(persons: map<Guid, Person>, saveFaults: set<Guid>, ps: seq<Person>, i: nat)
    requires i < |ps| && ps[i].id !in saveFaults
    requires forall j :: i < j < |ps| ==> ps[j].id != ps[i].id
    ensures ps[i].id in StoreAll(persons, saveFaults, ps)
    ensures StoreAll(persons, saveFaults, ps)[ps[i].id] == ps[i]
    decreases |ps|
  {
    if i < |ps| - 1 {
      StoreAllLast(persons, saveFaults, ps[..|ps| - 1], i);
    }
  }

  /** When every save of an id writes the same record, that record is what the store holds. */
  lemma {:induction false} StoreAllConsistent(persons: map<Guid, Person>, saveFaults: set<Guid>, ps: seq<Person>, i: nat)
    requires i < |ps| && ps[i].id !in saveFaults
    requires forall j :: 0 <= j < |ps| && ps[j].id == ps[i].id ==> ps[j] == ps[i]
    ensures ps[i].id in StoreAll(persons, saveFaults, ps)
    ensures StoreAll(persons, saveFaults, ps)[ps[i].id] == ps[i]
    decreases |ps|
  {
    if i < |ps| - 1 && ps[|ps| - 1].id != ps[i].id {
      StoreAllConsistent(persons, saveFaults, ps[..|ps| - 1], i);
    }
  }

  /** When records sharing an id are equal, every record whose save does not raise is
      what the store holds under its id. */
  lemma StoreAllKeyed(persons: map<Guid, Person>, saveFaults: set<Guid>, ps: seq<Person>)
    requires forall i, j :: 0 <= i < |ps| && 0 <= j < |ps| && ps[i].id == ps[j].id ==> ps[i] == ps[j]
    ensures forall i :: 0 <= i < |ps| && ps[i].id !in saveFaults ==>
      ps[i].id in StoreAll(persons, saveFaults, ps) && StoreAll(persons, saveFaults, ps)[ps[i].id] == ps[i]
  {
    forall i | 0 <= i < |ps| && ps[i].id !in saveFaults
      ensures ps[i].id in StoreAll(persons, saveFaults, ps) && StoreAll(persons, saveFaults, ps)[ps[i].id] == ps[i]
    {
      StoreAllConsistent(persons, saveFaults, ps, i);
    }
  }

  /** Saving records the store already holds leaves it as it was. */
  lemma {:induction false} StoreAllNoop(persons: map<Guid, Person>, saveFaults: set<Guid>, ps: seq<Person>)
    requires forall i :: 0 <= i < |ps| ==> ps[i].id in persons && persons[ps[i].id] == ps[i]
    ensures StoreAll(persons, saveFaults, ps) == persons
    decreases |ps|
  {
    if ps != [] {
      StoreAllNoop(persons, saveFaults, ps[..|ps| - 1]);
      var p := ps[|ps| - 1];
      assert persons[p.id := p] == persons;
    }
  }

  /** No person is loaded after the first save. */
  predicate LoadsBeforeSaves(calls: seq<Call>)
  {
    forall i, j :: 0 <= i < j < |calls| && calls[i].SavePerson? ==> !calls[j].GetPerson?
  }

  /** Calls that save nothing followed by calls that load nothing keep loads before saves. */
  lemma LoadsBeforeSavesConcat(a: seq<Call>, b: seq<Call>)
    requires forall i :: 0 <= i < |a| ==> !a[i].SavePerson?
    requires forall j :: 0 <= j < |b| ==> !b[j].GetPerson?
    ensures LoadsBeforeSaves(a + b)
  {
    forall i, j | 0 <= i < j < |a + b| && (a + b)[i].SavePerson?
      ensures !(a + b)[j].GetPerson?
    {
      assert i >= |a|;
      assert (a + b)[j] == b[j - |a|];
    }
  }

  /** Calls to the lookup services neither load nor save a person. */
  lemma {:induction false} LookupsOnly(calls: seq<Call>)
    requires forall i :: 0 <= i < |calls| ==> !calls[i].GetPerson? && !calls[i].SavePerson?
    ensures Loads(calls) == [] && Saves(calls) == []
  {
    if calls != [] {
      LookupsOnly(calls[1..]);
    }
  }

  /** Lookups, then one load per member, then saves: loads come before saves, and the
      loads and saves are exactly the members' ids and the saved records. */
  lemma LookupsLoadsThenSaves(lookups: seq<Call>, hms: seq<HouseholdMembers>, saved: seq<Person>)
    requires forall i :: 0 <= i < |lookups| ==> !lookups[i].GetPerson? && !lookups[i].SavePerson?
    ensures var calls := lookups + LoadCalls(hms) + SaveCalls(saved);
      && LoadsBeforeSaves(calls)
      && |Loads(calls)| == |hms| && (forall i :: 0 <= i < |hms| ==> Loads(calls)[i] == hms[i].id)
      && Saves(calls) == saved
  {
    var pre := lookups + LoadCalls(hms);
    SaveCallsSaves(saved);
    LoadCallsLoads(hms);
    LookupsOnly(lookups);
    LoadsConcat(pre, SaveCalls(saved));
    LoadsConcat(lookups, LoadCalls(hms));
    SavesConcat(pre, SaveCalls(saved));
    SavesConcat(lookups, LoadCalls(hms));
    LoadsBeforeSavesConcat(pre, SaveCalls(saved));
  }

  /** Lookups, loads, then the saves of records 0..k of which only the last raises:
      those k + 1 records are the saves, and the first k are in the store. */
  lemma SavedPrefix(lookups: seq<Call>, hms: seq<HouseholdMembers>, ps: seq<Person>, k: nat,
                    persons: map<Guid, Person>, saveFaults: set<Guid>)
    requires forall i :: 0 <= i < |lookups| ==> !lookups[i].GetPerson? && !lookups[i].SavePerson?
    requires k < |ps|
    requires forall i :: 0 <= i < k ==> ps[i].id !in saveFaults
    ensures var saves := Saves(lookups + LoadCalls(hms) + SaveCalls(ps[..k + 1]));
      && |saves| == k + 1
      && (forall i :: 0 <= i <= k ==> saves[i] == ps[i])
    ensures forall i :: 0 <= i < k ==> ps[i].id in StoreAll(persons, saveFaults, ps[..k])
  {
    LookupsLoadsThenSaves(lookups, hms, ps[..k + 1]);
    var pre := ps[..k];
    assert forall i :: 0 <= i < k ==> pre[i] == ps[i];
    StoreAllHasEvery(persons, saveFaults, pre);
  }

  class World {
    var persons: map<Guid, Person>
    const tenures: map<Guid, Tenure>
    const tenureFaults: set<Guid>
    const accounts: map<Guid, Account>
    const accountFaults: set<Guid>
    const saveFaults: set<Guid>
    ghost var log: seq<Call>

    constructor (env: Env)
      ensures State() == env && log == []
    {
      persons := env.persons;
      tenures := env.tenures;
      tenureFaults := env.tenureFaults;
      accounts := env.accounts;
      accountFaults := env.accountFaults;
      saveFaults := env.saveFaults;
      log := [];
    }

    ghost function State(): Env
      reads this
    {
      Env(persons, tenures, tenureFaults, accounts, accountFaults, saveFaults)
    }

    /** `ITenureInfoApiGateway.GetTenureInfoByIdAsync`. */
    method GetTenureInfoById(id: Guid, correlationId: Option<Guid>) returns (a: Answer<Tenure>)
      modifies this`log
      ensures a == TenureAnswer(State(), id)
      ensures log == old(log) + [GetTenureInfo(id, correlationId)]
    {
      if id in tenureFaults {
        a := Faulted;
      } else if id in tenures {
        a := Found(tenures[id]);
      } else {
        a := Absent;
      }
      log := log + [GetTenureInfo(id, correlationId)];
    }

    /** `IAccountApi.GetAccountByIdAsync`. */
    method GetAccountById(id: Guid, correlationId: Guid) returns (a: Answer<Account>)
      modifies this`log
      ensures a == AccountAnswer(State(), id)
      ensures log == old(log) + [GetAccount(id, correlationId)]
    {
      if id in accountFaults {
        a := Faulted;
      } else if id in accounts {
        a := Found(accounts[id]);
      } else {
        a := Absent;
      }
      log := log + [GetAccount(id, correlationId)];
    }

    /** `IDbPersonGateway.GetPersonByIdAsync`: a copy of the stored record, or null. */
    method GetPersonById(id: Guid) returns (p: Option<Person>)
      modifies this`log
      ensures p == PersonById(persons, id)
      ensures log == old(log) + [GetPerson(id)]
    {
      p := if id in persons then Some(persons[id]) else None;
      log := log + [GetPerson(id)];
    }

    /** `IDbPersonGateway.SavePersonAsync`. */
    method SavePersonAsync(p: Person) returns (r: Result<(), Error>)
      modifies this`persons, this`log
      ensures r == SaveResult(saveFaults, p)
      ensures persons == AfterSave(old(persons), saveFaults, p)
      ensures log == old(log) + [SavePerson(p)]
    {
      if p.id in saveFaults {
        r := Failure(SaveFailed(p.id));
      } else {
        persons := persons[p.id := p];
        r := Success(());
      }
      log := log + [SavePerson(p)];
    }
  }
}
