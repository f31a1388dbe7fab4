/** The entities the routines read and write. Snapshots, tenures, accounts and
    persons are values: a load returns a copy, and a routine edits its copy before
    saving it. */
module Domain {
  import opened Wrappers
  import opened Guids
  import opened DateTimeExtensions

  /** A household-member snapshot as carried by a tenure and by event data. Equality
      is structural over every field. */
  datatype HouseholdMembers = HouseholdMembers(
    id: Guid,
    memberType: string,
    fullName: string,
    isResponsible: bool,
    dateOfBirth: DateTime,
    personTenureType: string)

  datatype TenuredAsset = TenuredAsset(id: Guid, fullAddress: string, uprn: string, propertyReference: string)

  datatype TenureType = TenureType(code: string, description: string)

  /** The tenure record returned by the tenure lookup; `householdMembers` may be null. */
  datatype Tenure = Tenure(
    id: Guid,
    paymentReference: string,
    tenuredAsset: TenuredAsset,
    startOfTenureDate: Option<DateTime>,
    endOfTenureDate: Option<DateTime>,
    tenureType: TenureType,
    householdMembers: Option<seq<HouseholdMembers>>)

  datatype AccountTenure = AccountTenure(tenancyId: Guid)

  /** The account record returned by the account lookup. */
  datatype Account = Account(id: Guid, paymentReference: string, tenure: AccountTenure)

  /** The person's denormalised copy of one tenure: its id and the eight fields the
      tenure-updated routine overwrites. */
  datatype TenureSummary = TenureSummary(
    id: Guid,
    assetFullAddress: string,
    assetId: string,
    endDate: Option<string>,
    paymentReference: string,
    propertyReference: string,
    startDate: Option<string>,
    tenureType: string,
    uprn: string)

  /** The person types of the shared person library. */
  datatype PersonType = Tenant | HouseholdMember | Leaseholder | Freeholder | Occupant

  /** The person record; `firstName` and `surname` stand for the fields no routine touches. */
  datatype Person = Person(
    id: Guid,
    firstName: string,
    surname: string,
    tenures: seq<TenureSummary>,
    personTypes: seq<PersonType>)

  /** The before and after images of the changed aggregate, already decoded: each key
      maps to the household-member list stored under it. */
  datatype EventData = EventData(
    oldData: map<string, seq<HouseholdMembers>>,
    newData: map<string, seq<HouseholdMembers>>)

  /** The inbound event envelope. */
  datatype EntityEventSns = EntityEventSns(
    entityId: Guid,
    eventType: string,
    correlationId: Guid,
    eventData: EventData)

  datatype EntityKind = PersonEntity | TenureEntity | AccountEntity

  /** The exceptions a routine can end with. */
  datatype Error =
    | ArgumentNull(paramName: string)
    | EntityNotFound(kind: EntityKind, id: Guid)
    | HouseholdMembersNotChanged(tenureId: Guid, correlationId: Guid)
    | PersonMissingTenure(personId: Guid, tenureId: Guid)
    | UnknownEventType(eventType: string)
    | SequenceContainsNoElements
    | SequenceContainsNoMatchingElement
    | KeyNotFound(key: string)
    | NullReference
    | LookupFailed(id: Guid)
    | SaveFailed(personId: Guid)
    | Aggregate(inner: seq<Error>)
}
