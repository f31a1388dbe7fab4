/** `UseCaseFactory.CreateUseCaseForMessage`: picks the routine for an event by its
    event type, through a service-provider lookup. */
module UseCaseFactory {
  import opened Wrappers
  import opened Domain

  /** The event types of `EventTypes`. There is no constant for account events. */
  const TenureCreatedEvent := "TenureCreatedEvent"
  const TenureUpdatedEvent := "TenureUpdatedEvent"
  const PersonAddedToTenureEvent := "PersonAddedToTenureEvent"
  const PersonRemovedFromTenureEvent := "PersonRemovedFromTenureEvent"

  /** The routine interfaces a service provider can be asked for. */
  datatype UseCase =
    | PersonAddedToTenureUseCase
    | TenureUpdatedUseCase
    | PersonRemovedFromTenureUseCase
    | UpdateAccountDetailsOnPersonTenure

  /** A dependency-injection container: `GetService` gives the registered instance of
      an interface, or null when none is registered. */
  datatype ServiceProvider = ServiceProvider(registered: set<UseCase>)

  function GetService(sp: ServiceProvider, u: UseCase): Option<UseCase>
  {
    if u in sp.registered then Some(u) else None
  }

  /** The processor returned (null for an ignored event) and the interfaces the
      factory asked the provider for, in order. */
  datatype Selection = Selection(processor: Option<UseCase>, lookups: seq<UseCase>)

  /** The routine an event type is routed to, if any. */
  function RoutedUseCase(eventType: string): Option<UseCase>
  {
    if eventType == PersonAddedToTenureEvent then Some(PersonAddedToTenureUseCase)
    else if eventType == TenureUpdatedEvent then Some(TenureUpdatedUseCase)
    else if eventType == PersonRemovedFromTenureEvent then Some(PersonRemovedFromTenureUseCase)
    else None
  }

  function CreateUseCaseForMessage(entityEvent: Option<EntityEventSns>, serviceProvider: Option<ServiceProvider>)
    : (r: Result<Selection, Error>)
    ensures entityEvent.None? ==> r == Failure(ArgumentNull("entityEvent"))
    ensures entityEvent.Some? && serviceProvider.None? ==> r == Failure(ArgumentNull("serviceProvider"))
    ensures r.Success? ==> |r.value.lookups| <= 1
    ensures r.Success? && r.value.processor.Some? ==> r.value.lookups == [r.value.processor.value]
    ensures entityEvent.Some? && serviceProvider.Some? ==>
      (r.Failure? <==> RoutedUseCase(entityEvent.value.eventType).None? && entityEvent.value.eventType != TenureCreatedEvent)
  {
    if entityEvent.None? then Failure(ArgumentNull("entityEvent"))
    else if serviceProvider.None? then Failure(ArgumentNull("serviceProvider"))
    else
      var eventType := entityEvent.value.eventType;
      var sp := serviceProvider.value;
      if eventType == PersonAddedToTenureEvent then
        Success(Selection(GetService(sp, PersonAddedToTenureUseCase), [PersonAddedToTenureUseCase]))
      else if eventType == TenureUpdatedEvent then
        Success(Selection(GetService(sp, TenureUpdatedUseCase), [TenureUpdatedUseCase]))
      else if eventType == PersonRemovedFromTenureEvent then
        Success(Selection(GetService(sp, PersonRemovedFromTenureUseCase), [PersonRemovedFromTenureUseCase]))
      else if eventType == TenureCreatedEvent then
        Success(Selection(None, []))
      else
        Failure(UnknownEventType(eventType))
  }

  /** Each routed event type asks the provider for exactly its own interface, once,
      and returns what the provider holds for it. */
  lemma RoutedEventResolvesItsHandler(e: EntityEventSns, sp: ServiceProvider)
    requires RoutedUseCase(e.eventType).Some?
    ensures var u := RoutedUseCase(e.eventType).value;
      CreateUseCaseForMessage(Some(e), Some(sp)) == Success(Selection(GetService(sp, u), [u]))
  {
  }

  /** With the interface registered, the handler returned is exactly the one routed to. */
  lemma RegisteredHandlerIsReturned(e: EntityEventSns, sp: ServiceProvider)
    requires RoutedUseCase(e.eventType).Some? && RoutedUseCase(e.eventType).value in sp.registered
    ensures CreateUseCaseForMessage(Some(e), Some(sp)).Success?
    ensures CreateUseCaseForMessage(Some(e), Some(sp)).value.processor == RoutedUseCase(e.eventType)
  {
  }

  /** A tenure-created event is ignored: no processor and no lookup. */
  lemma TenureCreatedIsIgnored(e: EntityEventSns, sp: ServiceProvider)
    requires e.eventType == TenureCreatedEvent
    ensures CreateUseCaseForMessage(Some(e), Some(sp)) == Success(Selection(None, []))
  {
  }

  /** Any other event type fails with UnknownEventType carrying the type, before any lookup. */
  lemma UnknownEventTypeFails(e: EntityEventSns, sp: ServiceProvider)
    requires RoutedUseCase(e.eventType).None? && e.eventType != TenureCreatedEvent
    ensures CreateUseCaseForMessage(Some(e), Some(sp)) == Failure(UnknownEventType(e.eventType))
  {
  }

  /** The account-created event has no case, so it is rejected as unknown and the
      account routine is never selected. */
  lemma AccountCreatedEventIsUnknown(e: EntityEventSns, sp: ServiceProvider)
    requires e.eventType == "AccountCreatedEvent"
    ensures CreateUseCaseForMessage(Some(e), Some(sp)) == Failure(UnknownEventType("AccountCreatedEvent"))
  {
  }

  /** No event selects the account routine, whatever the provider holds. */
  lemma AccountRoutineNeverSelected(e: Option<EntityEventSns>, sp: Option<ServiceProvider>)
    ensures var r := CreateUseCaseForMessage(e, sp);
      r.Success? ==> r.value.processor != Some(UpdateAccountDetailsOnPersonTenure)
  {
  }

  /** The selection depends on the event type alone. */
  lemma SelectionDependsOnlyOnEventType(e1: EntityEventSns, e2: EntityEventSns, sp: ServiceProvider)
    requires e1.eventType == e2.eventType
    ensures CreateUseCaseForMessage(Some(e1), Some(sp)) == CreateUseCaseForMessage(Some(e2), Some(sp))
  {
  }
}
