# Local record-list and form state of the Student / Account Lightning components

This project models, in Dafny, the state each Lightning Web Component of the
repository keeps for itself, and proves how that state changes in response to
bus messages, row actions, form input and the success or failure of a platform
call.

- **Record tables.** `studentDataTable`, `inlineStudentDisplay`,
  `rowtestStudentDataTable` and `accountDataTable` each hold a list of records
  keyed by `Id`. A message puts a new record in front. A delete removes every
  record with the row's Id. An edit merges fields into, or replaces, the
  records with the edited Id. `studentDataTable` also merges a batch of saved
  drafts, one `findIndex` at a time. `studentRecordDisplay` appends renamed
  rows that carry a timestamp id.
- **Forms.** `studentRecordCreation`, `rowtestStudentForm` and
  `createAccountForm` keep one string per input. Each builds the fields it
  sends and the payload it publishes. Each clears itself after success and
  keeps its values after failure. `studentRecordCreation` publishes only
  when all six values are filled in.

A record is a `map<string, Value>`, as a JavaScript object is. Reading a
missing field gives `Undefined`, and `{ ...a, ...b }` is the map union
`a + b`. The list operations are defined once, in `RecordLists`, as functions
over `seq<Record>`. Each component is a `class` whose fields are the
component's own fields. Its methods change them under `modifies this` and say
in `ensures` what the new state is. Where the platform answers, the answer is
a parameter: `Outcome` (Success / Failure) for an update or delete, and
`CreateOutcome` (`Created(id)` / `CreateFailed`) for a create. This makes "on
failure nothing changes" a postcondition. A publish is an out-parameter
`published: Option<Record>`. Delivery on the bus is a direct call of the
subscriber's `HandleMessage` (module `Messaging`). Its methods, together with
the round-trip lemmas of the form modules, show that a table displays exactly
what a form published.

In the source, `rowtestStudentDataTable`'s own `deleteRecord` method only
filters the list; its body never calls the imported `deleteRecord`. The row is
removed from the list, with a success toast, and no platform request is made.
The model follows the code, so that delete takes no `Outcome`.

## Model

| member | source | states |
|---|---|---|
| `Records.Get` | force-app/main/default/lwc/studentDataTable/studentDataTable.js:52 | `message.X`: a field that is present is read as stored, and a missing one reads as `Undefined` |
| `Records.IdOf` | force-app/main/default/lwc/studentDataTable/studentDataTable.js:91 | `record.Id`: the stored `Id` when the record has one, otherwise `Undefined` |
| `Records.Overlay` | force-app/main/default/lwc/inlineStudentDisplay/inlineStudentDisplay.js:140 | `{ ...base, ...top }` has the keys of both; `top`'s fields win and `base` keeps the fields `top` lacks |
| `Records.StudentRecord` | force-app/main/default/lwc/studentDataTable/studentDataTable.js:51-59 | the record built from a message has exactly the seven fields `Id`, `Name__c`, `DOB__c`, `Sex__c`, `Languages__c`, `Country__c`, `Hobbies__c`, each copied from the message (`undefined` when missing) |
| `Records.AccountRecord` | force-app/main/default/lwc/accountDataTable/accountDataTable.js:45-50 | the record built from an account message has exactly `Id`, `Name`, `Industry`, `Phone`, each copied from the message |
| `Records.StudentRecordOfRow` | force-app/main/default/lwc/inlineStudentDisplay/inlineStudentDisplay.js:124-132 | copying the seven Student fields out of a record that has exactly those fields gives the record back |
| `Records.AccountRecordOfRow` | force-app/main/default/lwc/accountDataTable/accountDataTable.js:45-50 | copying the four Account fields out of a record that has exactly those fields gives the record back |
| `Subscriptions.Subscribed` | force-app/main/default/lwc/studentDataTable/studentDataTable.js:40-48 | after the subscribe guard a handle is always held; an existing handle is kept, and a new one is taken only when none was held |
| `Subscriptions.SubscribeOnce` | force-app/main/default/lwc/studentRecordDisplay/studentRecordDisplay.js:16-24 | a second subscribe attempt leaves the first handle in place |
| `RecordLists.RemoveId` | force-app/main/default/lwc/studentDataTable/studentDataTable.js:91 | `filter(record => record.Id !== id)`: no record with the Id remains, every remaining record was in the list, and every record with another Id is kept |
| `RecordLists.RemoveIdAppend` | force-app/main/default/lwc/inlineStudentDisplay/inlineStudentDisplay.js:156 | removal distributes over concatenation, so survivors keep their relative order |
| `RecordLists.RemoveIdCount` | force-app/main/default/lwc/accountDataTable/accountDataTable.js:99 | each record with another Id survives as many times as it occurred; records with the Id occur zero times |
| `RecordLists.RemoveIdAbsent` | force-app/main/default/lwc/rowtestStudentDataTable/rowtestStudentDataTable.js:154 | removing an Id that no record carries leaves the list unchanged |
| `RecordLists.RemoveIdIdempotent` | force-app/main/default/lwc/studentDataTable/studentDataTable.js:91 | deleting the same Id twice leaves what deleting it once leaves |
| `RecordLists.RemoveIdAfterPrepend` | force-app/main/default/lwc/studentDataTable/studentDataTable.js:60 | a record put in front by a message is removed again by a delete of its Id |
| `RecordLists.MergeWhereId` | force-app/main/default/lwc/inlineStudentDisplay/inlineStudentDisplay.js:139-141 | the length is unchanged; each record with the Id becomes itself overlaid with the fields; every other record is untouched |
| `RecordLists.ReplaceWhereId` | force-app/main/default/lwc/rowtestStudentDataTable/rowtestStudentDataTable.js:137-139 | the length is unchanged; each record with the Id becomes the replacement, not a merge; every other record is untouched |
| `RecordLists.OverlayKeepsId` | force-app/main/default/lwc/accountDataTable/accountDataTable.js:75 | overlaying fields whose `Id` is the record's own leaves the record's Id unchanged |
| `RecordLists.MergeKeepsIds` | force-app/main/default/lwc/inlineStudentDisplay/inlineStudentDisplay.js:123-141 | merging fields that carry the matched Id leaves the sequence of Ids unchanged |
| `RecordLists.MergeKeepsKeys` | force-app/main/default/lwc/accountDataTable/accountDataTable.js:86-88 | when every row has the same key set and the fields use only those keys, every row keeps that key set |
| `RecordLists.MergeAbsent` | force-app/main/default/lwc/accountDataTable/accountDataTable.js:86-88 | merging onto an Id no record carries changes nothing |
| `RecordLists.MergeIdempotent` | force-app/main/default/lwc/inlineStudentDisplay/inlineStudentDisplay.js:139-141 | saving the same fields twice gives the list that saving them once gives |
| `RecordLists.ReplaceKeepsIds` | force-app/main/default/lwc/rowtestStudentDataTable/rowtestStudentDataTable.js:137-139 | replacing with a record that carries the matched Id leaves the sequence of Ids unchanged |
| `RecordLists.FindIndex` | force-app/main/default/lwc/studentDataTable/studentDataTable.js:115 | `findIndex` gives -1 exactly when no record has the Id; otherwise it gives the first index whose record has the Id |
| `RecordLists.FindIndexByIds` | force-app/main/default/lwc/studentDataTable/studentDataTable.js:115 | two lists with the same Ids give the same `findIndex` |
| `RecordLists.ApplyDraft` | force-app/main/default/lwc/studentDataTable/studentDataTable.js:115-118 | the length and the Ids are unchanged; an unmatched draft changes nothing; otherwise only the first record with the draft's Id is changed, to itself overlaid with the draft |
| `RecordLists.ApplyDrafts` | force-app/main/default/lwc/studentDataTable/studentDataTable.js:113-121 | applying the drafts in order never changes the length or the Ids |
| `RecordLists.ApplyDraftsSnoc` | force-app/main/default/lwc/studentDataTable/studentDataTable.js:114-119 | one more draft at the end is one more single-draft step after the others |
| `RecordLists.ApplyDraftsUnmatched` | force-app/main/default/lwc/studentDataTable/studentDataTable.js:116 | drafts whose Ids match no record leave the list unchanged |
| `RecordLists.LastDraftWins` | force-app/main/default/lwc/studentDataTable/studentDataTable.js:114-119 | a field of the last draft is what the first record with that draft's Id holds afterwards, whatever earlier drafts wrote |
| `RecordLists.ApplyDraftFirstOnly` | force-app/main/default/lwc/studentDataTable/studentDataTable.js:115-117 | a later record that repeats the draft's Id keeps its values |
| `StudentDataTable.StudentDatatable.constructor` | force-app/main/default/lwc/studentDataTable/studentDataTable.js:29-32 | starts with no records, no drafts and no subscription |
| `StudentDataTable.StudentDatatable.SubscribeToMessageChannel` | force-app/main/default/lwc/studentDataTable/studentDataTable.js:40-48 | subscribes only when no subscription is held, so a held subscription is unchanged; records and drafts are untouched |
| `StudentDataTable.StudentDatatable.HandleMessage` | force-app/main/default/lwc/studentDataTable/studentDataTable.js:50-61 | the message's seven-field record is at index 0, the previous records follow in order, and the length grows by one |
| `StudentDataTable.StudentDatatable.HandleSave` | force-app/main/default/lwc/studentDataTable/studentDataTable.js:63-78 | every draft is sent as an update; on success the drafts are cleared and merged into the records; on failure neither records nor drafts change |
| `StudentDataTable.StudentDatatable.HandleRowAction` | force-app/main/default/lwc/studentDataTable/studentDataTable.js:80-86 | only `delete` acts, and it sends the row's Id; any other action name sends nothing and leaves the records unchanged |
| `StudentDataTable.StudentDatatable.DeleteRow` | force-app/main/default/lwc/studentDataTable/studentDataTable.js:88-98 | sends the row's `Id` to the platform delete; on success every record with the row's Id is removed and the rest keep their order; on failure the records are unchanged |
| `StudentDataTable.StudentDatatable.FetchRecords` | force-app/main/default/lwc/studentDataTable/studentDataTable.js:109-111 | the list becomes empty |
| `StudentDataTable.StudentDatatable.UpdateRecordsAfterSave` | force-app/main/default/lwc/studentDataTable/studentDataTable.js:113-121 | the in-place `findIndex` loop leaves the records equal to the drafts applied in order, with the same length and Ids |
| `InlineStudentDisplay.InlineStudentDisplay.constructor` | force-app/main/default/lwc/inlineStudentDisplay/inlineStudentDisplay.js:26-48 | starts with no records, not editing, an empty edit buffer and no subscription; every row has the seven Student fields |
| `InlineStudentDisplay.InlineStudentDisplay.SubscribeToMessageChannel` | force-app/main/default/lwc/inlineStudentDisplay/inlineStudentDisplay.js:57-65 | subscribes only when no subscription is held; nothing else changes |
| `InlineStudentDisplay.InlineStudentDisplay.HandleMessage` | force-app/main/default/lwc/inlineStudentDisplay/inlineStudentDisplay.js:67-78 | the seven-field record is put in front of the earlier records, which keep their order |
| `InlineStudentDisplay.InlineStudentDisplay.HandleRowAction` | force-app/main/default/lwc/inlineStudentDisplay/inlineStudentDisplay.js:80-92 | `edit` opens the buffer on the row, `delete` sends the row's Id and deletes by the platform outcome, and any other name sends nothing and changes nothing |
| `InlineStudentDisplay.InlineStudentDisplay.StartEditRecord` | force-app/main/default/lwc/inlineStudentDisplay/inlineStudentDisplay.js:94-97 | the edit buffer is a copy of the row and editing is on; the records are unchanged |
| `InlineStudentDisplay.InlineStudentDisplay.SetEditField` | force-app/main/default/lwc/inlineStudentDisplay/inlineStudentDisplay.js:99-121 | writes exactly one field of the edit buffer; the other fields and the records are unchanged |
| `InlineStudentDisplay.InlineStudentDisplay.HandleEditNameChange` | force-app/main/default/lwc/inlineStudentDisplay/inlineStudentDisplay.js:99-101 | only `Name__c` of the edit buffer changes |
| `InlineStudentDisplay.InlineStudentDisplay.HandleEditDOBChange` | force-app/main/default/lwc/inlineStudentDisplay/inlineStudentDisplay.js:103-105 | only `DOB__c` of the edit buffer changes |
| `InlineStudentDisplay.InlineStudentDisplay.HandleEditSexChange` | force-app/main/default/lwc/inlineStudentDisplay/inlineStudentDisplay.js:107-109 | only `Sex__c` of the edit buffer changes |
| `InlineStudentDisplay.InlineStudentDisplay.HandleEditLanguagesChange` | force-app/main/default/lwc/inlineStudentDisplay/inlineStudentDisplay.js:111-113 | only `Languages__c` of the edit buffer changes |
| `InlineStudentDisplay.InlineStudentDisplay.HandleEditCountryChange` | force-app/main/default/lwc/inlineStudentDisplay/inlineStudentDisplay.js:115-117 | only `Country__c` of the edit buffer changes |
| `InlineStudentDisplay.InlineStudentDisplay.HandleEditHobbiesChange` | force-app/main/default/lwc/inlineStudentDisplay/inlineStudentDisplay.js:119-121 | only `Hobbies__c` of the edit buffer changes |
| `InlineStudentDisplay.InlineStudentDisplay.SaveChanges` | force-app/main/default/lwc/inlineStudentDisplay/inlineStudentDisplay.js:123-147 | sends the buffer's seven fields; on success every record with the buffer's Id gets them merged in and editing ends, with the length and Ids kept; on failure the records and the editing flag are unchanged |
| `InlineStudentDisplay.InlineStudentDisplay.CancelEdit` | force-app/main/default/lwc/inlineStudentDisplay/inlineStudentDisplay.js:149-151 | editing ends; the records and the buffer are unchanged |
| `InlineStudentDisplay.InlineStudentDisplay.DeleteRecord` | force-app/main/default/lwc/inlineStudentDisplay/inlineStudentDisplay.js:153-162 | sends the row's `Id` to the platform delete; on success every record with the row's Id is removed and the others keep their order; on failure the records are unchanged |
| `RowtestStudentDataTable.RowtestStudentDatatable.constructor` | force-app/main/default/lwc/rowtestStudentDataTable/rowtestStudentDataTable.js:27-30 | starts with no records, the modal closed and an empty edit buffer |
| `RowtestStudentDataTable.RowtestStudentDatatable.SubscribeToMessageChannel` | force-app/main/default/lwc/rowtestStudentDataTable/rowtestStudentDataTable.js:74-82 | subscribes only when no subscription is held; nothing else changes |
| `RowtestStudentDataTable.RowtestStudentDatatable.HandleMessage` | force-app/main/default/lwc/rowtestStudentDataTable/rowtestStudentDataTable.js:84-95 | the seven-field record is put in front and the length grows by one |
| `RowtestStudentDataTable.RowtestStudentDatatable.HandleRowAction` | force-app/main/default/lwc/rowtestStudentDataTable/rowtestStudentDataTable.js:97-111 | `edit` opens the modal on the row, `delete` removes the row's Id, and any other name changes nothing |
| `RowtestStudentDataTable.RowtestStudentDatatable.OpenEditModal` | force-app/main/default/lwc/rowtestStudentDataTable/rowtestStudentDataTable.js:113-116 | the edit buffer is a copy of the row and the modal is open; the records are unchanged |
| `RowtestStudentDataTable.RowtestStudentDatatable.HandleInputChange` | force-app/main/default/lwc/rowtestStudentDataTable/rowtestStudentDataTable.js:118-121 | only the buffer field named by the input changes; every other field reads as before |
| `RowtestStudentDataTable.RowtestStudentDatatable.SaveChanges` | force-app/main/default/lwc/rowtestStudentDataTable/rowtestStudentDataTable.js:123-147 | sends the buffer's seven fields; on success the records with the buffer's Id are replaced by the whole buffer and the modal closes, with the Ids kept; on failure the records and the modal are unchanged |
| `RowtestStudentDataTable.RowtestStudentDatatable.CloseModal` | force-app/main/default/lwc/rowtestStudentDataTable/rowtestStudentDataTable.js:149-151 | only the modal flag changes, to closed |
| `RowtestStudentDataTable.RowtestStudentDatatable.DeleteRecord` | force-app/main/default/lwc/rowtestStudentDataTable/rowtestStudentDataTable.js:153-156 | with no platform call, every record with the row's Id is always removed and the others keep their order |
| `AccountDataTable.Truthy` | force-app/main/default/lwc/accountDataTable/accountDataTable.js:73-78 | a `prompt` answer is truthy exactly when it was not cancelled and is not the empty string |
| `AccountDataTable.Fallback` | force-app/main/default/lwc/accountDataTable/accountDataTable.js:76-78 | a truthy prompt answer is sent; an empty or cancelled answer falls back to the row's current value |
| `AccountDataTable.EditFields` | force-app/main/default/lwc/accountDataTable/accountDataTable.js:73-79 | nothing is sent exactly when all three answers are falsy; otherwise the four sent fields are `Id` = the row's Id and, for each answer, the answer when truthy else the row's value |
| `AccountDataTable.EditWithDefaultsResendsRow` | force-app/main/default/lwc/accountDataTable/accountDataTable.js:69-79 | accepting every prompt's default, the row's own values, sends a copy of the row's four fields |
| `AccountDataTable.AccountDataTable.constructor` | force-app/main/default/lwc/accountDataTable/accountDataTable.js:23-25 | starts with no records and no subscription; every row has the four Account fields |
| `AccountDataTable.AccountDataTable.SubscribeToMessageChannel` | force-app/main/default/lwc/accountDataTable/accountDataTable.js:34-42 | subscribes only when no subscription is held; the records are unchanged |
| `AccountDataTable.AccountDataTable.HandleMessage` | force-app/main/default/lwc/accountDataTable/accountDataTable.js:44-52 | the four-field record from the message is put in front of the earlier records |
| `AccountDataTable.AccountDataTable.HandleRowAction` | force-app/main/default/lwc/accountDataTable/accountDataTable.js:54-66 | `edit` sends the prompted fields and `delete` sends the row's Id; any other action name sends nothing and changes nothing |
| `AccountDataTable.AccountDataTable.EditRecord` | force-app/main/default/lwc/accountDataTable/accountDataTable.js:68-94 | nothing is sent or changed when all answers are falsy; on success the sent fields are merged into every record with the row's Id, keeping the length and Ids; on failure the records are unchanged |
| `AccountDataTable.AccountDataTable.DeleteRecord` | force-app/main/default/lwc/accountDataTable/accountDataTable.js:96-105 | sends the row's `Id` to the platform delete; on success every record with the row's Id is removed in order; on failure the records are unchanged |
| `StudentRecordDisplay.SourceField` | force-app/main/default/lwc/studentRecordDisplay/studentRecordDisplay.js:29-34 | each display field is fed by one of the six Student fields |
| `StudentRecordDisplay.SourceFieldInjective` | force-app/main/default/lwc/studentRecordDisplay/studentRecordDisplay.js:29-34 | no two display fields come from the same Student field |
| `StudentRecordDisplay.DisplayRecord` | force-app/main/default/lwc/studentRecordDisplay/studentRecordDisplay.js:27-35 | the appended row has exactly `id` plus the six renamed fields; `id` is the supplied timestamp; `name` = `Name__c`, `dob` = `DOB__c`, `sex` = `Sex__c`, `languages` = `Languages__c`, `country` = `Country__c`, `hobbies` = `Hobbies__c` |
| `StudentRecordDisplay.Columns` | force-app/main/default/lwc/studentRecordDisplay/studentRecordDisplay.js:39-48 | six columns with distinct field names |
| `StudentRecordDisplay.ColumnsMatchRows` | force-app/main/default/lwc/studentRecordDisplay/studentRecordDisplay.js:27-48 | the columns' field names are exactly the keys of a built row other than `id` |
| `StudentRecordDisplay.StudentRecordDisplay.constructor` | force-app/main/default/lwc/studentRecordDisplay/studentRecordDisplay.js:6-7 | starts with no rows and no subscription |
| `StudentRecordDisplay.StudentRecordDisplay.SubscribeToMessageChannel` | force-app/main/default/lwc/studentRecordDisplay/studentRecordDisplay.js:16-24 | subscribes only when no subscription is held; the rows are unchanged |
| `StudentRecordDisplay.StudentRecordDisplay.HandleMessage` | force-app/main/default/lwc/studentRecordDisplay/studentRecordDisplay.js:26-37 | the renamed row is appended at the end; earlier rows keep their indices and the length grows by one |
| `StudentRecordCreation.AllFilled` | force-app/main/default/lwc/studentRecordCreation/studentRecordCreation.js:22 | the add guard holds exactly when none of the six values is the empty string |
| `StudentRecordCreation.CreatedMessage` | force-app/main/default/lwc/studentRecordCreation/studentRecordCreation.js:23-30 | the published fields are exactly the six values under `Name__c` … `Hobbies__c`, with no Id |
| `StudentRecordCreation.StudentRecordCreation.constructor` | force-app/main/default/lwc/studentRecordCreation/studentRecordCreation.js:7-12 | all six values start empty |
| `StudentRecordCreation.StudentRecordCreation.HandleChange` | force-app/main/default/lwc/studentRecordCreation/studentRecordCreation.js:17-19 | only the value named by the input changes |
| `StudentRecordCreation.StudentRecordCreation.HandleAddStudent` | force-app/main/default/lwc/studentRecordCreation/studentRecordCreation.js:21-51 | publishes if and only if all six values are non-empty, exactly those values, and then clears all six; otherwise publishes nothing and changes nothing |
| `StudentRecordCreation.AddStudentTwice` | force-app/main/default/lwc/studentRecordCreation/studentRecordCreation.js:21-40 | of two calls in a row the second never publishes |
| `RowtestStudentForm.CreateFields` | force-app/main/default/lwc/rowtestStudentForm/rowtestStudentForm.js:49-56 | the fields sent to create are the six values under the Test_Student__c field names |
| `RowtestStudentForm.StudentPayload` | force-app/main/default/lwc/rowtestStudentForm/rowtestStudentForm.js:63-71 | the payload has the seven Student fields and its `Id` is the id returned by create |
| `RowtestStudentForm.PayloadIsCreatedRecord` | force-app/main/default/lwc/rowtestStudentForm/rowtestStudentForm.js:49-71 | the payload is the created fields plus the returned `Id`, so its six other entries equal the form values |
| `RowtestStudentForm.TableRecordOfPayload` | force-app/main/default/lwc/rowtestStudentForm/rowtestStudentForm.js:63-71 | a Student table's `handleMessage` builds from the payload a record equal to it |
| `RowtestStudentForm.RowtestStudentForm.constructor` | force-app/main/default/lwc/rowtestStudentForm/rowtestStudentForm.js:17-22 | all six values start empty |
| `RowtestStudentForm.RowtestStudentForm.HandleNameChange` | force-app/main/default/lwc/rowtestStudentForm/rowtestStudentForm.js:24-26 | sets only the name |
| `RowtestStudentForm.RowtestStudentForm.HandleDOBChange` | force-app/main/default/lwc/rowtestStudentForm/rowtestStudentForm.js:28-30 | sets only the date of birth |
| `RowtestStudentForm.RowtestStudentForm.HandleSexChange` | force-app/main/default/lwc/rowtestStudentForm/rowtestStudentForm.js:32-34 | sets only the sex |
| `RowtestStudentForm.RowtestStudentForm.HandleLanguagesChange` | force-app/main/default/lwc/rowtestStudentForm/rowtestStudentForm.js:36-38 | sets only the languages |
| `RowtestStudentForm.RowtestStudentForm.HandleCountryChange` | force-app/main/default/lwc/rowtestStudentForm/rowtestStudentForm.js:40-42 | sets only the country |
| `RowtestStudentForm.RowtestStudentForm.HandleHobbiesChange` | force-app/main/default/lwc/rowtestStudentForm/rowtestStudentForm.js:44-46 | sets only the hobbies |
| `RowtestStudentForm.RowtestStudentForm.HandleCreateStudent` | force-app/main/default/lwc/rowtestStudentForm/rowtestStudentForm.js:48-87 | sends the six values; on success publishes the payload with the new id and clears the form; on failure publishes nothing and keeps the values |
| `CreateAccountForm.CreateFields` | force-app/main/default/lwc/createAccountForm/createAccountForm.js:31-35 | the fields sent to create are the three values under `Name`, `Industry`, `Phone` |
| `CreateAccountForm.AccountPayload` | force-app/main/default/lwc/createAccountForm/createAccountForm.js:42-47 | the payload has the four Account fields and its `Id` is the id returned by create |
| `CreateAccountForm.PayloadIsCreatedRecord` | force-app/main/default/lwc/createAccountForm/createAccountForm.js:31-47 | the payload is the created fields plus the returned `Id`, so `Name`, `Industry`, `Phone` equal the form values |
| `CreateAccountForm.TableRecordOfPayload` | force-app/main/default/lwc/createAccountForm/createAccountForm.js:42-47 | `accountDataTable`'s `handleMessage` builds from the payload a record equal to it |
| `CreateAccountForm.CreateAccountForm.constructor` | force-app/main/default/lwc/createAccountForm/createAccountForm.js:12-14 | all three values start empty |
| `CreateAccountForm.CreateAccountForm.HandleNameChange` | force-app/main/default/lwc/createAccountForm/createAccountForm.js:18-20 | sets only the name |
| `CreateAccountForm.CreateAccountForm.HandleIndustryChange` | force-app/main/default/lwc/createAccountForm/createAccountForm.js:22-24 | sets only the industry |
| `CreateAccountForm.CreateAccountForm.HandlePhoneChange` | force-app/main/default/lwc/createAccountForm/createAccountForm.js:26-28 | sets only the phone |
| `CreateAccountForm.CreateAccountForm.HandleCreateAccount` | force-app/main/default/lwc/createAccountForm/createAccountForm.js:30-59 | sends the three values; on success publishes the payload with the new id and clears the form; on failure publishes nothing and keeps the values |
| `Messaging.DisplayShowsCreatedValues` | force-app/main/default/lwc/studentRecordCreation/studentRecordCreation.js:23-32 | each value entered in `studentRecordCreation` reaches the matching renamed field of the row `studentRecordDisplay` appends |
| `Messaging.CreateStudentIntoRowtestTable` | force-app/main/default/lwc/rowtestStudentForm/rowtestStudentForm.js:63-73 | after a successful create, `rowtestStudentDataTable` shows the published payload at the top; after a failure its list is unchanged |
| `Messaging.CreateStudentIntoDataTable` | force-app/main/default/lwc/rowtestStudentForm/rowtestStudentForm.js:63-73 | after a successful create, `studentDataTable` shows the published payload at the top; after a failure its list is unchanged |
| `Messaging.CreateStudentIntoInlineDisplay` | force-app/main/default/lwc/rowtestStudentForm/rowtestStudentForm.js:63-73 | after a successful create, `inlineStudentDisplay` shows the published payload at the top; after a failure its list is unchanged |
| `Messaging.CreateAccountIntoTable` | force-app/main/default/lwc/createAccountForm/createAccountForm.js:42-46 | after a successful create, `accountDataTable` shows the published payload at the top; after a failure its list is unchanged |
| `Messaging.AddStudentIntoDisplay` | force-app/main/default/lwc/studentRecordCreation/studentRecordCreation.js:21-51 | a fully filled form is appended, renamed, as the last row of `studentRecordDisplay`; otherwise the display is unchanged |

## Left out

- Platform record calls (`createRecord`, `updateRecord`, `deleteRecord`). They are foreign code, so each enters as an `Outcome` or `CreateOutcome` parameter. The fields sent to create and update, and the Id sent to delete, are out-parameters.
- The message bus (`subscribe`, `publish`, `MessageContext`, the channel names). Subscribing keeps only the subscribe-once guard, with the handle as an opaque value. Publishing is an out-parameter, and delivery is a direct call (module `Messaging`).
- `connectedCallback`. It only calls `subscribeToMessageChannel`, which is modelled.
- Toasts (`showToast`, `ShowToastEvent`), `console.log` / `console.error`, and the error messages built from `error.body.message`. These are user-interface side effects.
- `querySelectorAll('lightning-input-field').forEach(field => field.reset())` in both create forms. This is DOM plumbing.
- Asynchrony. Each platform call is taken to settle before the next user action. The model does not cover interleavings, or the user editing a buffer or a form while a call is pending. `studentDataTable.handleSave` uses `Promise.all`, which is one batch outcome here: all updates succeed or the batch fails. Which updates the platform applied before a failure is not modelled.
- `Date.now()` in `studentRecordDisplay`. It is the parameter `now`, and the ids it gives are not claimed to be unique.
- `prompt()` in `accountDataTable`. Its answers are `Option<string>` parameters (None for a cancelled prompt).
- JavaScript values other than `undefined`, strings and integers (objects, booleans, `null` fields, floating point) in message or record fields.
- Static presentation data: the `COLUMNS` constants, the `sexOptions` / `languagesOptions` / `countryOptions` / `hobbiesOptions` lists, and the `@track` / `@wire` decorators.
- `a/a.js` (hard-coded demo data and `alert` calls), `messagePublisher/messagePublisher.js` (publishes a constant) and `messageSubscriber/messageSubscriber.js` (formats the last message as text). None of them keeps state that a table or form uses.
- StudentDataTable.StudentDatatable.HandleSave: the model admits `Failure` for an empty batch of drafts, an outcome the platform never gives, because `Promise.all([])` always resolves. The contract then says nothing changes.
- StudentRecordCreation.StudentRecordCreation.HandleChange: the source writes `this[name]` for any input name. The model covers only the six form properties and leaves them unchanged for any other name, so a write to another property of the component is not modelled.
