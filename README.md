# person-listener, modelled in Dafny

person-listener is a message listener for Hackney's housing platform. It receives
`EntityEventSns` messages about tenures and accounts. For each message it picks a use case
by event type. The use case reads the tenure (and, for account changes, the account)
from the platform's HTTP APIs, then loads the affected person records from DynamoDB,
edits their tenure summaries and saves them back.

This project models that core in Dafny and proves properties of the model:

* `UseCaseFactory.CreateUseCaseForMessage` picks the routine for an event type.
* Four routines handle the events:
  * `PersonAddedToTenure` stores the first household member's record back unchanged.
  * `TenureUpdated` copies eight tenure fields onto every member's summary and saves each record in turn.
  * `UpdateAccountDetails` copies the account's payment reference to every member, fanned out with `Task.WaitAll`.
  * `PersonRemovedFromTenure` finds the member dropped from the event data, removes the tenure from their record and derives their roles again from the tenures that remain.
* `DateTimeExtensions.ToFormattedDateTime` renders a date in the fixed layout `yyyy-MM-ddTHH:mm:ss.fffffffZ`.

How the model is laid out:

* The collaborators become one `Gateways.World` class:
  * a mutable person store (`persons`),
  * read-only tenure and account lookups,
  * sets of ids whose lookups or saves raise,
  * a ghost log of every gateway call made, in order.
* Each routine is a `method` over a `World`. Its `ensures` ties the result, the new store and the calls it issued to a pure `Outcome` function of the old state.
* The properties are lemmas about those functions.
* Value records (`Person`, `TenureSummary`, `HouseholdMembers`, the tenure and account responses) are datatypes. Loading a person therefore yields a copy, and saving writes that copy back.
* Equality of household members is structural. The dropped member is found with `Except`, which depends on that.

| file | module | models |
|---|---|---|
| wrappers.dfy | `Wrappers` | `Option`, `Result` (an exception becomes a `Failure`) |
| number_text.dfy | `NumberText` | zero-padded digit strings and their values |
| guids.dfy | `Guids` | `Guid` as a 128-bit number and its 8-4-4-4-12 hex text |
| date_time_extensions.dfy | `DateTimeExtensions` | the date formatter, its parser and both round trips |
| domain.dfy | `Domain` | the records, the event and the exceptions |
| linq.dfy | `Linq` | `First`, `Except`, `FirstOrDefault` |
| gateways.dfy | `Gateways` | the `World`, its call log and the store after a series of saves |
| person_mutation.dfy | `PersonMutation` | edits of a person's tenure summaries |
| use_case_factory.dfy | `UseCaseFactory` | dispatch by event type |
| person_added_to_tenure.dfy | `PersonAddedToTenure` | the person-added routine |
| tenure_updated.dfy | `TenureUpdated` | the tenure-updated routine |
| update_account_details.dfy | `UpdateAccountDetails` | the account routine |
| person_removed_from_tenure.dfy | `PersonRemovedFromTenure` | the person-removed routine |

## Model

| member | source | states |
|---|---|---|
| UseCaseFactory.CreateUseCaseForMessage | PersonListener/Factories/UseCaseFactory.cs:10-42 | A null event or a null service provider fails with ArgumentNull for that argument. The call fails exactly when the event type is neither routed nor TenureCreatedEvent. At most one service lookup is made, and it is for the selected routine. |
| UseCaseFactory.RoutedEventResolvesItsHandler | PersonListener/Factories/UseCaseFactory.cs:18-32 | Each of the three routed event types asks the provider for its own routine, and only for that one. The processor returned is whatever the provider gives back. |
| UseCaseFactory.RegisteredHandlerIsReturned | PersonListener.Tests/Factories/UseCaseFactoryTests.cs:46-55 | When the routed routine is registered, the factory returns that routine. |
| UseCaseFactory.TenureCreatedIsIgnored | PersonListener/Factories/UseCaseFactory.cs:34-35 | TenureCreatedEvent yields no processor and makes no service lookup. |
| UseCaseFactory.UnknownEventTypeFails | PersonListener/Factories/UseCaseFactory.cs:37-38 | Any other event type fails with UnknownEventType carrying that type. |
| UseCaseFactory.AccountCreatedEventIsUnknown | PersonListener/EventTypes.cs:6-9 | "AccountCreatedEvent" is not among the routed types, so it fails as unknown. |
| UseCaseFactory.AccountRoutineNeverSelected | PersonListener/Factories/UseCaseFactory.cs:16-41 | No input makes the factory return the account routine. |
| UseCaseFactory.SelectionDependsOnlyOnEventType | PersonListener/Factories/UseCaseFactory.cs:16 | Two events with the same type get the same selection. |
| Gateways.World.GetTenureInfoById | PersonListener/Gateway/TenureInfoApiGateway.cs:31-35 | Returns the stored tenure, null when there is none, or a fault. Logs one tenure lookup with its correlation id. |
| Gateways.World.GetAccountById | PersonListener/Gateway/AccountApi.cs:25-29 | Returns the stored account, null, or a fault. Logs one account lookup. |
| Gateways.World.GetPersonById | PersonListener/Gateway/DynamoDbPersonGateway.cs:25-30 | Returns a copy of the stored record or null. Logs one load. The store is unchanged. |
| Gateways.World.SavePersonAsync | PersonListener/Gateway/DynamoDbPersonGateway.cs:33-38 | Writes the record under its id unless the save raises. Logs one save. |
| DateTimeExtensions.ToFormattedDateTime | PersonListener/Infrastructure/DateTimeExtensions.cs:9-14 | The text is 28 characters: `-` `-` `T` `:` `:` `.` `Z` at fixed offsets and decimal digits everywhere else. |
| DateTimeExtensions.FormattedFields | PersonListener/Infrastructure/DateTimeExtensions.cs:9 | Year, month, day, hour, minute, second and the seven-digit fraction sit at their fixed offsets, each zero-padded to its width. |
| DateTimeExtensions.FieldsAtFixedOffsets | PersonListener/Infrastructure/DateTimeExtensions.cs:9 | Reading each fixed-offset field as a decimal number gives back that component of the date. |
| DateTimeExtensions.ParseFormatRoundTrip | PersonListener/Infrastructure/DateTimeExtensions.cs:9-14 | Parsing the formatted text gives back the same date. The kind becomes UTC, because `Z` is a literal. |
| DateTimeExtensions.FormatParseRoundTrip | PersonListener/Infrastructure/DateTimeExtensions.cs:9-14 | Every text the parser accepts is exactly the formatting of the date it parses to. |
| DateTimeExtensions.FormatInjective | PersonListener/Infrastructure/DateTimeExtensions.cs:9-14 | Two dates with the same text agree on every component except their kind. |
| DateTimeExtensions.FormatIgnoresKind | PersonListener/Infrastructure/DateTimeExtensions.cs:9 | The kind (UTC, local, unspecified) does not change the text. The trailing `Z` is a literal, not a conversion. |
| DateTimeExtensions.FormatExampleDate | PersonListener.Tests/Infrastructure/DateTimeExtensionsTests.cs:13 | 6 June 2021 formats as `2021-06-06T00:00:00.0000000Z`. |
| DateTimeExtensions.FormatExampleMinValue | PersonListener.Tests/Infrastructure/DateTimeExtensionsTests.cs:14 | DateTime.MinValue formats as `0001-01-01T00:00:00.0000000Z`. |
| DateTimeExtensions.FormatExampleMaxValue | PersonListener.Tests/Infrastructure/DateTimeExtensionsTests.cs:15 | DateTime.MaxValue formats as `9999-12-31T23:59:59.9999999Z`. |
| NumberText.ValueOfPad | PersonListener/Infrastructure/DateTimeExtensions.cs:9 | A number that fits the width reads back from its zero-padded digits. |
| NumberText.PadValueOf | PersonListener/Infrastructure/DateTimeExtensions.cs:9 | A digit string is the zero-padding of its own value. |
| Guids.GuidToString | PersonListener/UseCase/TenureUpdatedUseCase.cs:62 | The asset id text has 36 characters, with hyphens at offsets 8, 13, 18 and 23. |
| Guids.StripGuidText | PersonListener/UseCase/TenureUpdatedUseCase.cs:62 | Without its hyphens the text is the 32 hex digits of the id. |
| Guids.GuidToStringInjective | PersonListener/UseCase/TenureUpdatedUseCase.cs:62 | Distinct asset ids give distinct texts. |
| Linq.First | PersonListener/UseCase/PersonAddedToTenureUseCase.cs:37 | A null list fails with ArgumentNull("source"). An empty list fails with SequenceContainsNoElements. Otherwise the result is the first element. |
| Linq.ExceptFrom | PersonListener/UseCase/PersonRemovedFromTenureUseCase.cs:84 | An element is in the result exactly when it is in the list and not in the excluded set. |
| Linq.FirstOfExcept | PersonListener/UseCase/PersonRemovedFromTenureUseCase.cs:84 | `first.Except(second).FirstOrDefault()` is null exactly when every element of `first` occurs in `second`. Otherwise it is the first element of `first` missing from `second`. |
| Linq.ExceptSelf | PersonListener/UseCase/PersonRemovedFromTenureUseCase.cs:84 | A list minus itself is empty. |
| Linq.ExceptFromDistinct | PersonListener/UseCase/PersonRemovedFromTenureUseCase.cs:84 | No element occurs twice in the result of `Except`. |
| PersonMutation.IndexOfTenure | PersonListener/UseCase/TenureUpdatedUseCase.cs:58 | The index of the first summary with that tenure id. None exactly when no summary has it. |
| PersonMutation.UpdateTenureOnPerson | PersonListener/UseCase/TenureUpdatedUseCase.cs:58-70 | Fails with PersonMissingTenure(person, tenure) exactly when the person holds no summary of the tenure. Otherwise only the first matching summary changes, to the tenure's eight fields, and the rest of the record is kept. |
| PersonMutation.UpdatePaymentReference | PersonListener/UseCase/UpdateAccountDetailsOnPersonTenure.cs:77-80 | Fails with PersonMissingTenure exactly when no summary matches. Otherwise only the first matching summary's payment reference changes. |
| PersonMutation.WithoutTenure | PersonListener/UseCase/PersonRemovedFromTenureUseCase.cs:46-49 | If no summary has the id, the list is unchanged. Otherwise only the first summary with that id is removed, and the order of the others is kept. |
| PersonMutation.WithoutTenureKeepsOthers | PersonListener/UseCase/PersonRemovedFromTenureUseCase.cs:46-49 | With unique ids, the remaining summaries are exactly those with another id, still unique. |
| PersonMutation.ApplyTenureIdempotent | PersonListener/UseCase/TenureUpdatedUseCase.cs:61-68 | Copying the tenure's fields twice is the same as copying them once. |
| PersonMutation.ApplyTenureForgetsOldValues | PersonListener/UseCase/TenureUpdatedUseCase.cs:61-68 | After the copy, a summary depends only on its id and the tenure. |
| PersonMutation.ApplyTenureDates | PersonListener/UseCase/TenureUpdatedUseCase.cs:63-66 | Start and end dates are null exactly when the tenure's are. Otherwise they parse back to the tenure's dates. |
| PersonMutation.UpdateTenureOnPersonIdempotent | PersonListener/UseCase/TenureUpdatedUseCase.cs:58-70 | Applying the same tenure to an updated record changes nothing more. |
| PersonAddedToTenure.ProcessMessage | PersonListener/UseCase/PersonAddedToTenureUseCase.cs:26-47 | Result, new store and issued calls are those of `PersonAddedOutcome` on the old state. |
| PersonAddedToTenure.MissingTenureLoadsNoPerson | PersonListener/UseCase/PersonAddedToTenureUseCase.cs:31-33 | An unknown tenure fails with EntityNotFound(tenure) after the single lookup. Nothing is loaded or saved. |
| PersonAddedToTenure.LoadsFirstHouseholdMember | PersonListener/UseCase/PersonAddedToTenureUseCase.cs:37-39 | A null member list fails with ArgumentNull and an empty one with SequenceContainsNoElements, with no load in either case. Otherwise only the first member is loaded. |
| PersonAddedToTenure.MissingPersonSavesNothing | PersonListener/UseCase/PersonAddedToTenureUseCase.cs:39-40 | A missing person fails with EntityNotFound(person). Nothing is saved and the store is unchanged. |
| PersonAddedToTenure.SuccessSavesLoadedRecordUnchanged | PersonListener/UseCase/PersonAddedToTenureUseCase.cs:42-46 | On success, the one save writes the loaded record as it was, so a well-keyed store is unchanged. |
| TenureUpdated.ProcessMessage | PersonListener/UseCase/TenureUpdatedUseCase.cs:30-51 | Result, new store and calls are those of `TenureUpdatedOutcome` on the old state. |
| TenureUpdated.UpdateMembers | PersonListener/UseCase/TenureUpdatedUseCase.cs:43-50 | Loading then saving the members matches `MembersOutcome`. |
| TenureUpdated.GetAndUpdateAll | PersonListener/UseCase/TenureUpdatedUseCase.cs:44-46 | The loading loop matches `Gather`: one load per member, in order, stopping at the first failure. |
| TenureUpdated.SaveAll | PersonListener/UseCase/TenureUpdatedUseCase.cs:49-50 | The saving loop matches `SaveInOrder`: one save per record, in order, stopping at the first failure. |
| TenureUpdated.GetAndUpdatePersonRecord | PersonListener/UseCase/TenureUpdatedUseCase.cs:53-71 | Result is `UpdatedPerson` for the member, after exactly one load. |
| TenureUpdated.UpdatedPersonCases | PersonListener/UseCase/TenureUpdatedUseCase.cs:55-68 | Missing person: EntityNotFound. No summary of the tenure: PersonMissingTenure. Success: only the first matching summary changes, to the tenure's fields. |
| TenureUpdated.GatherStopsAtFailure | PersonListener/UseCase/TenureUpdatedUseCase.cs:45-46 | Once some member fails, the members after it are never loaded. |
| TenureUpdated.SaveInOrderStopsAtFailure | PersonListener/UseCase/TenureUpdatedUseCase.cs:49-50 | Once a save fails, no later save is issued. |
| TenureUpdated.GatherSuccess | PersonListener/UseCase/TenureUpdatedUseCase.cs:44-46 | If every member updates, the list holds every member's updated record in member order, after one load each. |
| TenureUpdated.GatherFailure | PersonListener/UseCase/TenureUpdatedUseCase.cs:45-46 | The first failing member's error is the result, after loads of that member and those before it only. |
| TenureUpdated.GatherSuccessMeansAllMembers | PersonListener/UseCase/TenureUpdatedUseCase.cs:44-46 | A successful gather means every member updated. |
| TenureUpdated.SaveInOrderSuccess | PersonListener/UseCase/TenureUpdatedUseCase.cs:49-50 | The saves succeed exactly when no record's save raises. On success every record is saved, in order. |
| TenureUpdated.SaveInOrderFirstFault | PersonListener/UseCase/TenureUpdatedUseCase.cs:49-50 | If save k is the first to raise, the result is its SaveFailed. Saves 0..k are issued, and only 0..k-1 are stored. |
| TenureUpdated.SaveInOrderCalls | PersonListener/UseCase/TenureUpdatedUseCase.cs:49-50 | The saves issued are a prefix of the records, and the whole list on success. |
| TenureUpdated.MissingTenureFails | PersonListener/UseCase/TenureUpdatedUseCase.cs:32-37 | A null message fails with ArgumentNull before any call. An unknown tenure fails with EntityNotFound. In both cases no person is loaded or saved. |
| TenureUpdated.NoMembersNothingToDo | PersonListener/UseCase/TenureUpdatedUseCase.cs:40-46 | A null or empty member list succeeds with no load, no save and an unchanged store. |
| TenureUpdated.LoadFailureSavesNothing | PersonListener/UseCase/TenureUpdatedUseCase.cs:44-59 | If member k is the first to fail, its error is the result. Members 0..k are loaded, nothing is saved, and the store is unchanged. |
| TenureUpdated.CallsWhenAllMembersSucceed | PersonListener/UseCase/TenureUpdatedUseCase.cs:35-50 | With every member updated, the calls are the tenure lookup, every member's load in order, then a prefix of the saves of the updated records. The prefix is all of them on success. |
| TenureUpdated.SavesInMemberOrder | PersonListener/UseCase/TenureUpdatedUseCase.cs:44-50 | Every load comes before every save. Member i's updated record is save i. On success every member's record is saved. |
| TenureUpdated.CallsWhenSaveFails | PersonListener/UseCase/TenureUpdatedUseCase.cs:49-50 | If save k is the first to raise, the result, the calls up to save k and the store are fixed exactly. |
| TenureUpdated.SaveFailureKeepsEarlierSaves | PersonListener/UseCase/TenureUpdatedUseCase.cs:49-50 | If save k is the first to raise, saves 0..k are issued, and the ids of records 0..k-1 are keys of the new store. In a consistently keyed store, each of those members' ids holds that member's edited record. |
| TenureUpdated.EditedRecordsStored | PersonListener/UseCase/TenureUpdatedUseCase.cs:49-50 | After successful saves, each member's id holds that member's updated record. |
| TenureUpdated.UpdatedPersonKeepsId | PersonListener/UseCase/TenureUpdatedUseCase.cs:55-70 | The updated record keeps the member's id. |
| TenureUpdated.UpdatedPersonById | PersonListener/UseCase/TenureUpdatedUseCase.cs:55 | The update depends only on the member's id. |
| TenureUpdated.EditedPrefixStored | PersonListener/UseCase/TenureUpdatedUseCase.cs:49-50 | In a consistently keyed store, after the first k saves succeed, each of those members' ids holds that member's edited record. |
| TenureUpdated.TenureUpdatedIdempotent | PersonListener/UseCase/TenureUpdatedUseCase.cs:30-71 | Processing the same message again on the resulting store succeeds, issues the same calls and leaves the store unchanged. |
| UpdateAccountDetails.ProcessMessage | PersonListener/UseCase/UpdateAccountDetailsOnPersonTenure.cs:32-69 | Result, new store and calls are those of `AccountUpdateOutcome` on the old state. |
| UpdateAccountDetails.UpdateMembers | PersonListener/UseCase/UpdateAccountDetailsOnPersonTenure.cs:52-68 | The fan-out of updates and then saves matches `MembersOutcome`. |
| UpdateAccountDetails.UpdatePersonRecord | PersonListener/UseCase/UpdateAccountDetailsOnPersonTenure.cs:71-82 | Result is `PaymentUpdated` for the member, after exactly one load. |
| UpdateAccountDetails.UpdateAllRecords | PersonListener/UseCase/UpdateAccountDetailsOnPersonTenure.cs:54-59 | Every member is loaded. The updated records and the errors are those of `CollectUpdates`. |
| UpdateAccountDetails.SaveEveryRecord | PersonListener/UseCase/UpdateAccountDetailsOnPersonTenure.cs:62-67 | Every record's save is issued. Each one that does not raise is stored. The result aggregates the save failures. |
| UpdateAccountDetails.SaveFailures | PersonListener/UseCase/UpdateAccountDetailsOnPersonTenure.cs:63-67 | No failures exactly when no save raises. Each failure names a record whose save raised. |
| UpdateAccountDetails.PaymentUpdatedCases | PersonListener/UseCase/UpdateAccountDetailsOnPersonTenure.cs:74-80 | Missing person: EntityNotFound. No summary of the tenure: PersonMissingTenure. Success: only the first matching summary's payment reference changes. |
| UpdateAccountDetails.CollectNoErrors | PersonListener/UseCase/UpdateAccountDetailsOnPersonTenure.cs:54-59 | No errors are collected exactly when every member updates. |
| UpdateAccountDetails.CollectAllSucceed | PersonListener/UseCase/UpdateAccountDetailsOnPersonTenure.cs:54-59 | If every member updates, the updated list holds each member's record in member order. |
| UpdateAccountDetails.CollectKeepsEveryError | PersonListener/UseCase/UpdateAccountDetailsOnPersonTenure.cs:54-59 | Every failing member's error is among those collected, not only the first. |
| UpdateAccountDetails.CollectAllFail | PersonListener/UseCase/UpdateAccountDetailsOnPersonTenure.cs:54-59 | If every member fails, the errors are all of theirs in order, and nothing is updated. |
| UpdateAccountDetails.MembersListedOutcome | PersonListener/UseCase/UpdateAccountDetailsOnPersonTenure.cs:52-68 | With a member list, any update error means an AggregateException with no save. Otherwise every updated record is saved, and the result aggregates the save failures. |
| UpdateAccountDetails.MissingAccountFails | PersonListener/UseCase/UpdateAccountDetailsOnPersonTenure.cs:37-39 | An unknown account fails with EntityNotFound(account) after the one lookup. The store is unchanged. |
| UpdateAccountDetails.TenureFetchedByTenancyId | PersonListener/UseCase/UpdateAccountDetailsOnPersonTenure.cs:42-44 | The second call looks up the account's tenancy id. An unknown tenure fails with EntityNotFound(tenure), with no load and no save. |
| UpdateAccountDetails.NoMembersNothingToDo | PersonListener/UseCase/UpdateAccountDetailsOnPersonTenure.cs:47-57 | A null or empty member list succeeds with no load and no save. |
| UpdateAccountDetails.EveryMemberLoaded | PersonListener/UseCase/UpdateAccountDetailsOnPersonTenure.cs:54-74 | Every member is loaded, in member order, before any save. |
| UpdateAccountDetails.AnyFailureSavesNothing | PersonListener/UseCase/UpdateAccountDetailsOnPersonTenure.cs:57-59 | One failing member is enough for an AggregateException containing its error, with no record saved. |
| UpdateAccountDetails.AllMissingListsTheirIds | PersonListener/UseCase/UpdateAccountDetailsOnPersonTenure.cs:54-75 | If no member's record exists, the aggregate lists EntityNotFound for each of them, in order. Nothing is saved. |
| UpdateAccountDetails.EverySaveIssued | PersonListener/UseCase/UpdateAccountDetailsOnPersonTenure.cs:61-67 | With every member updated, every updated record is saved. The result is success exactly when no save raises, and otherwise aggregates the failures. In a consistently keyed store, each member whose save does not raise has its updated record, with the new payment reference, under its id. |
| UpdateAccountDetails.PaymentUpdatedKeepsId | PersonListener/UseCase/UpdateAccountDetailsOnPersonTenure.cs:74-81 | In a consistently keyed store, the updated record keeps the member's id. |
| UpdateAccountDetails.PaymentUpdatedById | PersonListener/UseCase/UpdateAccountDetailsOnPersonTenure.cs:74 | The update depends only on the member's id. |
| UpdateAccountDetails.UpdatedRecordsStored | PersonListener/UseCase/UpdateAccountDetailsOnPersonTenure.cs:62-67 | In a consistently keyed store, each member whose save does not raise has its updated record under its id. |
| PersonRemovedFromTenure.HouseholdMembersOf | PersonListener/UseCase/PersonRemovedFromTenureUseCase.cs:87-92 | The `householdMembers` entry of the data. Fails with KeyNotFound exactly when it is absent. |
| PersonRemovedFromTenure.DeletedMemberIsFirstMissing | PersonListener/UseCase/PersonRemovedFromTenureUseCase.cs:79-85 | The deleted member is null exactly when every old member is still present. Otherwise it is the first old member missing from the new list. |
| PersonRemovedFromTenure.DroppedMemberIsFound | PersonListener/UseCase/PersonRemovedFromTenureUseCase.cs:79-85 | If any old member is missing from the new list, a deleted member is found: old but not new. |
| PersonRemovedFromTenure.MissingKeyFails | PersonListener/UseCase/PersonRemovedFromTenureUseCase.cs:87-90 | Event data without `householdMembers` fails with KeyNotFound before any call. |
| PersonRemovedFromTenure.UnchangedMembersFail | PersonListener/UseCase/PersonRemovedFromTenureUseCase.cs:37-38 | If no member was dropped, it fails with HouseholdMembersNotChanged(entity, correlation) before any call. |
| PersonRemovedFromTenure.MissingPersonSavesNothing | PersonListener/UseCase/PersonRemovedFromTenureUseCase.cs:40-43 | A missing person fails with EntityNotFound after the one load. The store is unchanged. |
| PersonRemovedFromTenure.FoundPersonCalls | PersonListener/UseCase/PersonRemovedFromTenureUseCase.cs:42-55 | After the load, one lookup is made per remaining tenure. The edited record is saved only if role derivation succeeds. |
| PersonRemovedFromTenure.OneLookupPerRemainingSummary | PersonListener/UseCase/PersonRemovedFromTenureUseCase.cs:58-61 | Only the removed person is loaded. Each remaining tenure is looked up in order with the message's correlation id. At most one save follows. |
| PersonRemovedFromTenure.SavedOnceAfterRemovalAndRoles | PersonListener/UseCase/PersonRemovedFromTenureUseCase.cs:46-55 | On success there is exactly one save, as the last call. It writes the loaded record minus the tenure, with one derived role per remaining tenure. |
| PersonRemovedFromTenure.RolesReplaced | PersonListener/UseCase/PersonRemovedFromTenureUseCase.cs:63-64 | When the roles are derived, the person's types are replaced by one role per tenure and nothing else changes. |
| PersonRemovedFromTenure.RolesFollowTenures | PersonListener/UseCase/PersonRemovedFromTenureUseCase.cs:63-64 | Derivation succeeds exactly when it succeeds for every tenure. Role i is then the one derived from tenure i. |
| PersonRemovedFromTenure.RolesFirstFailure | PersonListener/UseCase/PersonRemovedFromTenureUseCase.cs:63 | The first tenure whose role cannot be derived decides the error. |
| PersonRemovedFromTenure.RolesStopAtFailure | PersonListener/UseCase/PersonRemovedFromTenureUseCase.cs:63 | After a failure, later tenures do not change the result. |
| PersonRemovedFromTenure.PersonTypeForTenureCases | PersonListener/UseCase/PersonRemovedFromTenureUseCase.cs:67-77 | A null tenure raises NullReference. A null member list raises ArgumentNull. A tenure without the person raises SequenceContainsNoMatchingElement. Otherwise the role is derived from the tenure type and the first matching member's responsibility flag. |
| PersonRemovedFromTenure.TenureWithoutPersonFails | PersonListener/UseCase/PersonRemovedFromTenureUseCase.cs:69 | A remaining tenure that does not list the person makes the routine fail without saving. |
| PersonRemovedFromTenure.LookupFaultSavesNothing | PersonListener/UseCase/PersonRemovedFromTenureUseCase.cs:60-61 | A faulting tenure lookup makes `Task.WaitAll` raise an aggregate holding that fault. Nothing is saved. |
| PersonRemovedFromTenure.LookupFaultsKeepEvery | PersonListener/UseCase/PersonRemovedFromTenureUseCase.cs:61 | Every faulting lookup is in the aggregate. |
| PersonRemovedFromTenure.NoSaveOnFailedRoles | PersonListener/UseCase/PersonRemovedFromTenureUseCase.cs:52-55 | If the role update fails, its error is the result and nothing is saved. |
| PersonRemovedFromTenure.IndexOfMember | PersonListener/UseCase/PersonRemovedFromTenureUseCase.cs:69 | The first member with the id. None exactly when there is none. |
| PersonRemovedFromTenure.LookupCalls | PersonListener/UseCase/PersonRemovedFromTenureUseCase.cs:60 | One tenure lookup per summary, in order, each with the correlation id. |
| PersonRemovedFromTenure.LookupFaults | PersonListener/UseCase/PersonRemovedFromTenureUseCase.cs:60-61 | No faults exactly when no lookup faulted. Each fault names a tenure whose lookup faulted. |
| PersonRemovedFromTenure.ProcessMessage | PersonListener/UseCase/PersonRemovedFromTenureUseCase.cs:31-56 | Result, new store and calls are those of `RemovedOutcome` on the old state. |
| PersonRemovedFromTenure.UpdatePersonType | PersonListener/UseCase/PersonRemovedFromTenureUseCase.cs:58-65 | Result is `PersonTypesUpdated`. The calls are one lookup per tenure. |
| PersonRemovedFromTenure.LookupAll | PersonListener/UseCase/PersonRemovedFromTenureUseCase.cs:60 | Answer i is the lookup of tenure i. One call is logged per tenure. |
| PersonRemovedFromTenure.CollectFaults | PersonListener/UseCase/PersonRemovedFromTenureUseCase.cs:61 | The loop collects `LookupFaults`. |
| PersonRemovedFromTenure.RolesOf | PersonListener/UseCase/PersonRemovedFromTenureUseCase.cs:63 | The loop computes `Roles`, stopping at the first failure. |

## Left out

- JSON conversion of event data (`ConvertFromObject`, PersonRemovedFromTenureUseCase.cs:94-97). Event data is already a map from key to member list.
- The asynchronous interleaving of tasks. Each `Task.WaitAll` fan-out is modelled as issuing every call in member order, then aggregating every failure.
- The completion order of the records the account routine collects. The order is unspecified in the code, and the model uses member order.
- The role table in the shared package, `TenureTypes.GetPersonTenureType`. It is a function parameter `derive`.
- The `Enum.Parse` failure at PersonRemovedFromTenureUseCase.cs:76. The model assumes every derived tenure type has a `PersonType` of the same name.
- HTTP routes, authentication tokens, DynamoDB mapping (`ToDomain`, `ToDatabase`) and logging.
- The `LastModified` stamp written by `SavePersonAsync` (DynamoDbPersonGateway.cs:35). It reads the clock, so a saved record is the record as passed.
- Optimistic locking through the record's version number.
- The text of exception messages. Errors are datatype values carrying the same ids.
- A fault when loading a person. Loads return the record or null. Tenure and account lookups and saves can fault.
- Nulls nested inside responses and events, all assumed present: `TenuredAsset`, `TenureType`, `account.Tenure` and `person.Tenures`. Member lists and the top-level responses may be null, and that is modelled.
- Nulls in the event data of the person-removed routine. A null `EventData`, `OldData` or `NewData` raises NullReference at PersonRemovedFromTenureUseCase.cs:81-90. A null `householdMembers` entry value (:90-91) makes `Except` raise ArgumentNull at :84. The event data is a map from key to member list, so none of these can occur.
- ToFormattedDateTime: the current culture is assumed to use the Gregorian calendar. `ToString` is called without a format provider (DateTimeExtensions.cs:13), so under a culture with another calendar, th-TH for instance, the year field differs (2021 prints as 2564).
- Object identity. Records are values, so editing a loaded record never aliases the store, and `Except` compares members structurally.
- Nothing is modelled of the hosting Lambda function that deserialises SNS messages and calls the factory.

Where the code and its tests or surrounding files differ, the model follows the code:

- `PersonAddedToTenure` saves the loaded record unchanged: step 3 of the routine is empty.
- The factory has no case for an account event. The factory test at UseCaseFactoryTests.cs:99-104 expects `AccountCreatedEvent` to select the account routine, but `EventTypes` does not define that constant. In the model that type fails as unknown (`AccountCreatedEventIsUnknown`), and no event selects the account routine (`AccountRoutineNeverSelected`).
- `TenureUpdated` loads members one after another and stops at the first failure. It saves afterwards, also in order and stopping at the first failure.
- `StartOfTenureDate` is optional in the model. The local `TenureResponseObject` declares it as non-nullable, but the routine uses `?.` on it, so the type it compiles against is nullable.
- `PersonAddedToTenure` looks the tenure up without a correlation id (PersonAddedToTenureUseCase.cs:31). It is logged with `None`.
