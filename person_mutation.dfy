/** The edits the routines make to a loaded person record: finding the summary of a
    tenure, overwriting its fields from the tenure or the account, and removing it. */
module PersonMutation {
  import opened Wrappers
  import opened Guids
  import opened DateTimeExtensions
  import opened Domain

  /** The index of the first summary with the given tenure id, as `FirstOrDefault(x => x.Id == id)` finds it. */
  function IndexOfTenure(ts: seq<TenureSummary>, id: Guid): (r: Option<nat>)
    ensures r.Some? ==> r.value < |ts| && ts[r.value].id == id
    ensures r.Some? ==> forall j :: 0 <= j < r.value ==> ts[j].id != id
    ensures r.None? <==> forall j :: 0 <= j < |ts| ==> ts[j].id != id
  {
    if ts == [] then None
    else if ts[0].id == id then Some(0)
    else match IndexOfTenure(ts[1..], id)
      case None => None
      case Some(i) => Some(i + 1)
  }

  /** `date?.ToFormattedDateTime()`. */
  function FormatOptional(d: Option<DateTime>): Option<string>
  {
    match d
    case None => None
    case Some(dt) => Some(ToFormattedDateTime(dt))
  }

  /** The eight assignments of `GetAndUpdatePersonRecord` onto one summary. */
  function ApplyTenure(s: TenureSummary, t: Tenure): TenureSummary
  {
    s.(assetFullAddress := t.tenuredAsset.fullAddress,
       assetId := GuidToString(t.tenuredAsset.id),
       endDate := FormatOptional(t.endOfTenureDate),
       paymentReference := t.paymentReference,
       propertyReference := t.tenuredAsset.propertyReference,
       startDate := FormatOptional(t.startOfTenureDate),
       tenureType := t.tenureType.description,
       uprn := t.tenuredAsset.uprn)
  }

  /** Index i holds the first summary with the given tenure id. */
  predicate FirstWithId(ts: seq<TenureSummary>, id: Guid, i: nat)
  {
    i < |ts| && ts[i].id == id && forall j :: 0 <= j < i ==> ts[j].id != id
  }

  /** `q` is `p` with only the summary at index i replaced by `s`. */
  predicate OnlySummaryChanged(p: Person, q: Person, i: nat, s: TenureSummary)
  {
    && q.id == p.id && q.firstName == p.firstName && q.surname == p.surname
    && q.personTypes == p.personTypes
    && i < |p.tenures| && |q.tenures| == |p.tenures| && q.tenures[i] == s
    && forall j :: 0 <= j < |p.tenures| && j != i ==> q.tenures[j] == p.tenures[j]
  }

  /** Locates the person's first summary of tenure `t` (see `IndexOfTenure`) and
      overwrites its eight fields; fails with PersonMissingTenure when the person has
      none. */
  function UpdateTenureOnPerson(p: Person, t: Tenure): (r: Result<Person, Error>)
    ensures r.Failure? <==> IndexOfTenure(p.tenures, t.id).None?
    ensures r.Failure? ==> r.error == PersonMissingTenure(p.id, t.id)
    ensures r.Success? ==> var i := IndexOfTenure(p.tenures, t.id).value;
      OnlySummaryChanged(p, r.value, i, ApplyTenure(p.tenures[i], t))
  {
    match IndexOfTenure(p.tenures, t.id)
    case None => Failure(PersonMissingTenure(p.id, t.id))
    case Some(i) => Success(p.(tenures := p.tenures[i := ApplyTenure(p.tenures[i], t)]))
  }

  /** Locates the person's first summary of tenure `tenureId` and sets its payment
      reference; fails with PersonMissingTenure when the person has none. */
  function UpdatePaymentReference(p: Person, tenureId: Guid, paymentReference: string): (r: Result<Person, Error>)
    ensures r.Failure? <==> IndexOfTenure(p.tenures, tenureId).None?
    ensures r.Failure? ==> r.error == PersonMissingTenure(p.id, tenureId)
    ensures r.Success? ==> var i := IndexOfTenure(p.tenures, tenureId).value;
      OnlySummaryChanged(p, r.value, i, p.tenures[i].(paymentReference := paymentReference))
  {
    match IndexOfTenure(p.tenures, tenureId)
    case None => Failure(PersonMissingTenure(p.id, tenureId))
    case Some(i) => Success(p.(tenures := p.tenures[i := p.tenures[i].(paymentReference := paymentReference)]))
  }

  /** `list.Remove(list.First(x => x.Id == id))` guarded by `Any`: the first summary with
      that id is dropped, the others keep their order; no match leaves the list alone. */
  function WithoutTenure(ts: seq<TenureSummary>, id: Guid): (r: seq<TenureSummary>)
    ensures IndexOfTenure(ts, id).None? ==> r == ts
    ensures IndexOfTenure(ts, id).Some? ==> var i := IndexOfTenure(ts, id).value;
      && |r| == |ts| - 1
      && (forall j :: 0 <= j < i ==> r[j] == ts[j])
      && (forall j :: i <= j < |r| ==> r[j] == ts[j + 1])
  {
    match IndexOfTenure(ts, id)
    case None => ts
    case Some(i) => ts[..i] + ts[i + 1..]
  }

  /** The invariant that a person carries at most one summary per tenure. */
  predicate UniqueTenureIds(ts: seq<TenureSummary>)
  {
    forall i, j :: 0 <= i < j < |ts| ==> ts[i].id != ts[j].id
  }

  /** Under that invariant, removing a tenure leaves exactly the other summaries, and
      keeps the invariant. */
  lemma WithoutTenureKeepsOthers(ts: seq<TenureSummary>, id: Guid)
    requires UniqueTenureIds(ts)
    ensures forall x :: x in WithoutTenure(ts, id) <==> x in ts && x.id != id
    ensures UniqueTenureIds(WithoutTenure(ts, id))
  {
    var r := WithoutTenure(ts, id);
    match IndexOfTenure(ts, id)
    case None =>
    case Some(i) =>
      assert r == ts[..i] + ts[i + 1..];
      forall x ensures x in r <==> x in ts && x.id != id {
        if x in ts && x.id != id {
          var k :| 0 <= k < |ts| && ts[k] == x;
          assert k != i;
          if k < i { assert r[k] == x; } else { assert r[k - 1] == x; }
        }
        if x in r {
          var k :| 0 <= k < |r| && r[k] == x;
          if k < i { assert x == ts[k] && k != i; } else { assert x == ts[k + 1] && k + 1 != i; }
        }
      }
      forall a, b | 0 <= a < b < |r| ensures r[a].id != r[b].id {
        var a' := if a < i then a else a + 1;
        var b' := if b < i then b else b + 1;
        assert r[a] == ts[a'] && r[b] == ts[b'] && a' < b';
      }
  }

  /** Overwriting is by plain assignment: applying the same tenure twice gives the
      same summary as applying it once. */
  lemma ApplyTenureIdempotent(s: TenureSummary, t: Tenure)
    ensures ApplyTenure(ApplyTenure(s, t), t) == ApplyTenure(s, t)
  {
  }

  /** Nothing of the old summary but its id survives: the result is a function of the
      id and the tenure. */
  lemma ApplyTenureForgetsOldValues(s1: TenureSummary, s2: TenureSummary, t: Tenure)
    requires s1.id == s2.id
    ensures ApplyTenure(s1, t) == ApplyTenure(s2, t)
  {
  }

  /** The end date is null exactly when the tenure has none; otherwise it is the
      formatted date, which reads back to the tenure's end date. Likewise the start date. */
  lemma ApplyTenureDates(s: TenureSummary, t: Tenure)
    ensures ApplyTenure(s, t).endDate.None? <==> t.endOfTenureDate.None?
    ensures ApplyTenure(s, t).startDate.None? <==> t.startOfTenureDate.None?
    ensures t.endOfTenureDate.Some? ==>
      ParseFormattedDateTime(ApplyTenure(s, t).endDate.value) == Some(t.endOfTenureDate.value.(kind := Utc))
    ensures t.startOfTenureDate.Some? ==>
      ParseFormattedDateTime(ApplyTenure(s, t).startDate.value) == Some(t.startOfTenureDate.value.(kind := Utc))
  {
    if t.endOfTenureDate.Some? {
      ParseFormatRoundTrip(t.endOfTenureDate.value);
    }
    if t.startOfTenureDate.Some? {
      ParseFormatRoundTrip(t.startOfTenureDate.value);
    }
  }

  /** Updating a person twice from the same tenure leaves the same record as once. */
  lemma UpdateTenureOnPersonIdempotent(p: Person, t: Tenure)
    requires UpdateTenureOnPerson(p, t).Success?
    ensures UpdateTenureOnPerson(UpdateTenureOnPerson(p, t).value, t) == UpdateTenureOnPerson(p, t)
  {
    var i := IndexOfTenure(p.tenures, t.id).value;
    var q := UpdateTenureOnPerson(p, t).value;
    assert q.tenures[i].id == t.id;
    assert forall j :: 0 <= j < i ==> q.tenures[j] == p.tenures[j];
    assert IndexOfTenure(q.tenures, t.id) == Some(i);
    ApplyTenureIdempotent(p.tenures[i], t);
    assert q.tenures[i := ApplyTenure(q.tenures[i], t)] == q.tenures;
  }
}
