# Appointments service and automation dispatcher, modelled in Dafny

This project models the appointment service of a CRM backend. The service is
three HTTP handlers over a MongoDB collection of appointments:

- **create** (`handlerCreate`) validates a request's date and times, refuses
  it when an active appointment of the same contact on the same date string
  overlaps it, inserts the record and notifies the automation dispatcher;
- **list** (`handlerList`) returns one page of a contact's appointments:
  creator names and tags are joined in, history is regrouped, and items are
  sorted by creation time, newest first;
- **delete** (`handlerDelete`) copies an appointment to the tombstone
  collection `appointment_deleted` and removes it. It then calls
  `callAutomation` with the removed id, which looks the appointment up again,
  finds nothing and throws: every delete of an existing appointment answers
  with a failure, and the dispatcher is never reached.

It also models the helper `callAutomation`, which builds the `appointment_*`
payload. Finally it models the dispatcher `triggerContactAutomation`: it
selects the organisation's automations whose blueprint reacts to the event
and walks them, starting one AWS Step Functions execution for each that has
a usable ARN. The first exception from `createUniqueName` or
`startExecution` ends the walk, so the automations after it are not
started; the dispatcher answers true either way.

## Modelling choices

- MongoDB collections are values:
  - the appointments and the tombstones are fields of the class
    `Store.AppointmentStore`;
  - users, tags, organisations, contacts and automations are parameters.
- Each aggregation pipeline is a composition of functions, one per stage.
  `$unwind` drops a document that has nothing to unwind unless the stage
  preserves it. `$group` keeps the first document of each key and, in the
  listing, pushes the history rows.
- moment is an oracle, `Creation.Formats`:
  - a date parses to a day number;
  - a time parses to a minute of the day;
  - "now" is an input in milliseconds.

  The fixed-width `YYYY-MM-DD HH:mm:ss` strings compare chronologically, so
  they become integers.
- AWS is an oracle, `Automation.Aws`. It gives the n-th name
  `createUniqueName` returns (or its exception), and whether
  `startExecution` returns or throws.
- The dispatch loop is imperative. It walks the matched automations in an
  unspecified order, because `$group` fixes none.
- The delete handler follows the code. Its intent shows in abc.js:254-255:
  it dispatches "appointmentDeleted" for the removed record and then
  answers "Appointment deleted successfully.". The code instead looks the
  removed id up again, so `Store.AppointmentStore.Delete` states the failure
  the code produces. `Store.AppointmentStore.DeleteWithSnapshot` states the
  intended behaviour (see Findings).

## Model

| member | source | states |
|---|---|---|
| Common.FindBy | abc.js:247 | the lookup by `_id` shared by the appointment and contact collections: it finds nothing exactly when no document has the id; otherwise it returns a stored document with that id |
| Text.JoinComma | abc.js:276 | `Array.prototype.toString` of the tag ids, the comma-joined string; its partner `Text.SplitJoin` proves that splitting it at the commas gives the ids back |
| Text.SplitJoin | abc.js:270-276 | a non-empty list of comma-free ids survives `toString`: splitting the joined string at commas gives the same ids in the same order |
| Text.IndexOf | fdgsdfasdfd.js:56 | the result is the first position where the pattern occurs, or none when it occurs nowhere |
| Text.ReplaceFirst | fdgsdfasdfd.js:56 | `replace` with a string pattern and a replacement without `$` patterns, as "execution" is: the first occurrence is replaced and the rest is kept; a string without the pattern is unchanged |
| Text.Lower | abc.js:267 | `toLowerCase` keeps the length and lowers each character |
| Appointments.Find | abc.js:247 | `findById` finds nothing exactly when no document has the id; otherwise it returns a stored document with that id |
| Appointments.Remove | abc.js:253 | `deleteForce` by id keeps exactly the documents with another id |
| Appointments.RemoveEffect | abc.js:253 | with unique ids: after removal the id is not found, every other id finds what it found before, ids stay unique, and the collection shrinks by one exactly when the id was present |
| Appointments.FindAfterAppend | abc.js:233 | inserting a record with a fresh id makes it findable, leaves every other lookup unchanged and keeps ids unique |
| Conflict.RangeClauses | abc.js:170-185 | on well-ordered ranges, the four-way `$or` of inclusive comparisons holds exactly when the closed intervals intersect |
| Conflict.Blocks | abc.js:187-201 | one document passes the contact, status, raw-date and range `$match` stages; `Conflict.Blocking` and `Conflict.ConflictIsClosedOverlap` state what it decides |
| Conflict.Blocking | abc.js:187-202 | the overlap aggregate returns exactly the stored appointments of the same contact that are active, have the identical date string and pass the range clauses |
| Conflict.ConflictIsClosedOverlap | abc.js:170-205 | create is refused as overlapping exactly when some active appointment of the contact on the same date string meets the candidate's closed interval |
| Conflict.TouchingRangesConflict | abc.js:170-185 | an existing 09:00-10:00 blocks a new 10:00-11:00 on the same date |
| Conflict.InsertKeepsNoDoubleBooking | abc.js:187-235 | inserting the new active record keeps the store free of double bookings exactly when the overlap aggregate found nothing |
| Conflict.BlockingAt | abc.js:170-201 | the corrected overlap aggregate without the raw-date stage: exactly the stored appointments of the contact that are active and meet the candidate on the time line |
| Conflict.NoOverlapHasNoDoubleBooking | abc.js:187-201 | a store with no two overlapping active appointments of one contact on the time line has no double booking per date string either |
| Conflict.InsertKeepsNoOverlap | abc.js:187-235 | with the corrected aggregate, inserting the new active record keeps the store free of overlaps on the time line exactly when the aggregate found nothing |
| Creation.Parses | abc.js:154 | the three `isValid` tests on date, to-time and from-time; `Creation.Validate` proves it fails with 'Please provide a valid date and time.' exactly when one of them fails |
| Creation.Validate | abc.js:154-165 | the four checks fail fast in source order. An invalid date or time comes first. Next, a date whose midnight has already passed is refused, so today counts as past. Then a to-time before the from-time. Last, equal raw time strings. Success carries the parsed slot with from <= to |
| Creation.CandidateOf | abc.js:168-169 | the overlap query's range has the request's contact and date, and is well ordered whenever the parsed times are |
| Creation.ZeroLengthPassesWithTwoSpellings | abc.js:160-165 | "09:00 AM" against "9:00 AM" passes all four checks with a zero-length range; the parsed-time check refuses it |
| Creation.RespelledDateDoubleBooks | abc.js:187-201 | with "01/10/2030" stored and "1/10/2030" requested, the same day and the same hours, the request is valid and the raw-date aggregate finds nothing, so two overlapping active appointments of one contact are stored; the corrected aggregate finds the stored one |
| Creation.ValidateParsed | abc.js:154-165 | the chain with the zero-length check on parsed times: every accepted request has a strictly positive length |
| Creation.ParsedAgreesUnlessRespelled | abc.js:163-165 | the two chains agree whenever equal strings are exactly equal parsed times |
| Creation.CopyTagIds | abc.js:208-214 | the stored tag ids have the request's length and order |
| Creation.NewRecord | abc.js:206-231 | the inserted record: status scheduled, empty history, createdBy == updatedBy == the actor, createdAt == updatedAt == now in whole seconds, from/to date-times from the parsed slot, request fields copied |
| Listing.CreatorName | abc.js:40 | the creator's `$concat` without `$ifNull`: null as soon as a name part is missing; `Listing.JoinStage` proves every joined item carries it |
| Listing.HistoryName | abc.js:62-80 | `rescheduledByName`: first name, " ", last name with missing parts as "", and " " for an unresolved user; `Listing.ExpectedHistory` proves every history entry carries it |
| Listing.OwnedBy | abc.js:18-19 | the two `$match` stages keep exactly the documents of the contact and the organisation |
| Listing.TagsOf | abc.js:43-50 | the tag lookup returns exactly the tag documents whose id is among the appointment's tags |
| Listing.JoinStage | abc.js:20-50 | after the creator lookup and its `$unwind`, exactly the appointments whose creator resolves remain; each carries the creator's `$concat` name (null when a part is missing) and its tags |
| Listing.Flatten | abc.js:51-86 | the rows after the history `$unwind` (preserving empty arrays), the user lookup and the name stage; `Listing.RegroupRecovers` proves that regrouping them gives back one bucket per appointment with its history rows |
| Listing.AddRow | abc.js:87-105 | one row into the `$group` accumulator: a new bucket for an unseen `_id`, else its item pushed onto the bucket of that `_id`; `Listing.RegroupRecovers` states the result |
| Listing.Regroup | abc.js:87-105 | `$group` by `_id` over the rows, buckets in order of first appearance; its partner `Listing.RegroupRecovers` proves it inverts `Listing.Flatten` |
| Listing.Project | abc.js:87-117 | the group's output document, with `history` removed when rescheduleCount is 0; `Listing.EnrichedIsExpected` and `Listing.ExpectedHistory` state what it yields |
| Listing.RegroupRecovers | abc.js:56-105 | `$unwind` of history (preserving empty arrays) followed by `$group` yields one bucket per appointment, in order, holding exactly its history rows |
| Listing.EnrichedIsExpected | abc.js:18-117 | up to the sort, the pipeline yields one item per appointment that passes the join, each the expected item |
| Listing.ExpectedHistory | abc.js:51-117 | `history` is absent exactly when rescheduleCount is 0; otherwise it has rescheduleCount entries, each with its rescheduledByName (first + " " + last, missing parts as "") |
| Listing.SortDesc | abc.js:118 | the result is sorted by createdAt descending and is a permutation of its input |
| Listing.PageOf | abc.js:121 | `$skip`/`$limit`: at most limit items, the slice starting at skip |
| Listing.CeilDiv | abc.js:137 | `Math.ceil(count / limit)`: the least page count covering count items, 0 exactly when count is 0 |
| Listing.Paging | abc.js:15-17 | page defaults to 1 and skip == (page - 1) * limit; a negative skip, then a non-positive limit, makes the aggregate fail |
| Listing.Paginate | abc.js:119-139 | the `$facet` stage and the response over the sorted result; `Listing.PageIsSlice` proves the page is the slice at (currentPage - 1) * limit, with count and totalPages over the whole result |
| Listing.List | abc.js:7-146 | `handlerList`: the whole pipeline, then the page. `Listing.ListingPage`, `Listing.ListedItemsBelong`, `Listing.ListingComplete` and `Listing.EmptyListing` prove its page bound, count and totalPages, that every item belongs to the contact and organisation, that every owned appointment with a resolving creator is in the full result, and the empty case |
| Listing.RankedItemsExpected | abc.js:18-118 | the sorted full result has one item per joined appointment, each of the contact and organisation |
| Listing.ListingPage | abc.js:118-139 | a successful listing holds at most limit items; count is the size of the full sorted result whatever the page, and totalPages is its ceiling over limit |
| Listing.PageIsSlice | abc.js:119-133 | the page is the slice of the sorted result starting at (currentPage - 1) * limit |
| Listing.ListedItemsBelong | abc.js:18-32 | every listed item matches the contact and the organisation and comes from an appointment whose creator resolves |
| Listing.ListingComplete | abc.js:18-118 | every appointment of the contact and organisation whose creator resolves is in the full result with its createdAt and rescheduleCount |
| Listing.EmptyListing | abc.js:129-137 | with no appointment to list, the page is empty, count is 0 and totalPages is 0 |
| Payloads.ContactTagIds | abc.js:270-275 | the contact's tag ids, in order; none when the contact has no tags |
| Payloads.FieldsOf | abc.js:278-294 | every `appointment_*` field equals the stored field; `appointment_tags` is the stored ids joined with commas |
| Payloads.PayloadOf | abc.js:276-295 | the payload carries the appointment fields, the contact and its comma-joined tag ids, and no dispatcher stamp yet |
| Payloads.TagStringsKeepIds | abc.js:270-294 | both flattened tag strings give back exactly the ids in order, and are "" for no ids |
| Notify.ContactsCollection | abc.js:267 | the contact collection name is "contacts_" followed by the lowered organisation code |
| Notify.FindContact | abc.js:268-269 | `findById` on the contact collection, through `Common.FindBy`: nothing exactly when no contact has the id, otherwise a contact of the collection with it |
| Notify.Resolve | abc.js:263-269 | the three lookups in order; each failure names the first lookup that found nothing; success gives the stored appointment and a contact of its organisation's collection with its contactId |
| Notify.CollectTagIds | abc.js:270-275 | the `tagsArr` loop collects exactly the contact's tag ids |
| Notify.CallAutomation | abc.js:262-299 | a failed lookup throws before any execution is started; otherwise the dispatcher runs on the payload of the stored appointment and its contact, and the call reports true |
| Automation.ScopeStage | fdgsdfasdfd.js:11-16 | the first `$match` keeps exactly the organisation's automations whose arn is not "" (a missing arn passes) |
| Automation.UnwindOne | fdgsdfasdfd.js:17-20 | `$unwind` of blueprint yields one row per step, in order |
| Automation.UnwindBlueprint | fdgsdfasdfd.js:17-20 | `$unwind` of blueprint over the documents; `Automation.UnwindConcat` proves it distributes over concatenation, which `Automation.MatchesAreReacting` builds on |
| Automation.EventStage | fdgsdfasdfd.js:21-24 | the second `$match` keeps exactly the rows whose step flags the event true |
| Automation.GroupConcat | fdgsdfasdfd.js:25-39 | `$group` with `$first` over concatenated rows: the rows that come first win |
| Automation.GroupById | fdgsdfasdfd.js:25-39 | `$group` by `_id` with `$first`; `Automation.GroupConcat` proves the earlier rows win over concatenated rows |
| Automation.Matches | fdgsdfasdfd.js:10-44 | the aggregate's result; `Automation.MatchesAreReacting` and `Automation.MatchRule` prove which ids it holds and with which fields |
| Automation.MatchesAreReacting | fdgsdfasdfd.js:10-44 | the aggregate equals a fold over the automation documents in which the earliest qualifying document of an id wins |
| Automation.MatchRule | fdgsdfasdfd.js:10-44 | an id is matched exactly when some document with it belongs to the organisation, has an arn other than "" and a step flagged for the event; each id appears once, with the name, arn and deletedAt of the first such document; deletedAt plays no part |
| Automation.MatchedArnNotEmpty | fdgsdfasdfd.js:14-50 | no match carries the empty arn; a missing arn gets through and is skipped by the loop |
| Automation.Usable | fdgsdfasdfd.js:50 | the truthiness test on the match's arn: present and not ""; `Automation.TriggerContactAutomation` proves calls go only to usable matches and, without an exception, to every one of them |
| Automation.ExecArn | fdgsdfasdfd.js:56 | the first "stateMachine" of the arn becomes "execution", followed by ":" and the execution name |
| Automation.Stamp | fdgsdfasdfd.js:53-56 | the payload gets orgId, automationId and execArn, and every other field is unchanged |
| Automation.CallStep | fdgsdfasdfd.js:49-63 | one started execution extends the loop state: no automation twice, every earlier call returned, covered matches stay covered |
| Automation.AtMostOneCallPerMatch | fdgsdfasdfd.js:48-66 | the loop starts at most one execution per matched automation; zero matches means zero calls |
| Automation.TriggerContactAutomation | fdgsdfasdfd.js:5-71 | returns true whatever happens. A failing aggregate starts nothing. Each call goes to a match with a truthy arn, passing that arn, the fresh name and the payload stamped for that automation. No automation is started twice. Either every usable match got exactly one call and all returned, or the loop stopped at the first exception |
| Store.AppointmentStore.Create | abc.js:148-242 | a validation failure or an overlap refuses the request with its message and the store unchanged; otherwise the record is appended; a failed lookup in `callAutomation` then gives a failure response with the record stored; else the response is the record and the create event is dispatched on its payload; the store stays free of double bookings |
| Store.AppointmentStore.Delete | abc.js:243-261 | an unknown id answers 'Appointment not found.' and changes nothing; a known id puts a copy in the tombstones, removes exactly that id, then fails because `callAutomation` cannot find the removed id, and nothing is dispatched |
| Store.AppointmentStore.DeleteWithSnapshot | abc.js:243-261 | the same effects on store and tombstones, with the delete event dispatched for the pre-delete record and a success answer unless the organisation or contact lookup fails |
| Store.DeleteTwice | abc.js:247-250 | a second delete of the same id answers 'Appointment not found.' and changes nothing more |
| Store.DeletedNotListed | abc.js:253 | no later listing holds an item with a deleted id |

## Left out

- moment is an oracle (`Creation.Formats`): its parsing rules, the time zone and the locale formats are left out. The combined `"L LT"` parse of date and time is taken to give the day of the date parse at the minute of the time parse.
- The date-time strings become integer minutes. createdAt/updatedAt become whole seconds. That the former are local time and the latter UTC is not modelled.
- `makeId` is the identity on id strings. An id string that is not a valid ObjectId would make `makeId` throw; that is not modelled.
- A request without `tags` makes `parsedBody.tags.length` throw. The model's request always has a tag list.
- The shared `helper` has a notion of the current collection. `callAutomation` switches it to the organisations and contacts collections, and no handler selects the appointments collection before it works. A later request in the same warm process would run against whatever was selected last: create's overlap query and `insertOne` (abc.js:202, abc.js:233), list's aggregate (abc.js:129), and delete's `findById`, `$merge` and `deleteForce` (abc.js:247-253). The model always runs them on the appointments collection. `helper.init` parameters are left out as well.
- Concurrency: awaits and the read-then-insert race between two creates are left out; the model is sequential.
- Response envelopes, status codes, the Lambda context and all logging are left out.
- The messages of the TypeErrors raised by a null lookup are left out (`Store.CreateMessage` gives none). Only which lookup failed is kept.
- How the contact's fields merge with the `appointment_*` fields at abc.js:295 cannot be recovered from the source, so `Payloads.Payload` keeps the two parts side by side. The contact's other fields are an opaque string map.
- `JSON.stringify` of the payload, the AWS region and the unused `getExecutionHistory` are left out.
- `$group` output order is not fixed by MongoDB:
  - the listing keeps first-appearance order before its sort;
  - the sort keeps ties in input order, while MongoDB's sort is not stable;
  - the dispatcher visits the matches in an arbitrary order.
- A `pageId` or `LIMIT` that does not convert to a number (NaN skip or limit) is left out; page and limit are integers.
- A blueprint that is not an array, and event names containing dots, are left out. Blueprints are lists of steps with a flag map.
- `Text.Lower` lowers ASCII letters only.
- Store.AppointmentStore.Delete: `$merge` into the tombstones merges into an existing tombstone with the same id; the model replaces it.

## Findings

| source | as written | input that shows it | evidently intended | confidence | as-written member | corrected member |
|---|---|---|---|---|---|---|
| abc.js:254 | after `deleteForce` the handler passes the removed id to `callAutomation`, which looks it up again, gets null and throws; the handler answers with a failure and the `appointmentDeleted` automations never run | deleting any appointment that exists | notify with the pre-delete record and answer "Appointment deleted successfully." | high; not executed | Store.AppointmentStore.Delete | Store.AppointmentStore.DeleteWithSnapshot |
| abc.js:196 | the overlap aggregate matches the raw date string while validation parses 'MM/DD/YYYY' leniently, so two spellings of one day hide a conflict and both overlapping appointments are stored | "01/10/2030" stored 09:00-10:00 AM, then "1/10/2030" 09:00-10:00 AM for the same contact | refuse a request that overlaps an active appointment of the contact on the time line | medium; not executed | Creation.RespelledDateDoubleBooks | Conflict.InsertKeepsNoOverlap |
| abc.js:163 | the zero-length check compares the raw time strings, so two spellings of one time pass it and a zero-length appointment is stored | fromTime "09:00 AM" and toTime "9:00 AM" on a future date | refuse a request whose parsed times are equal | medium; not executed | Creation.ZeroLengthPassesWithTwoSpellings | Creation.ValidateParsed |

The store's `Create` follows the code as written: it validates with
`Creation.Validate` and queries with `Conflict.Blocking`, so its invariant
`NoDoubleBooking` holds per date string only. `Conflict.BlockingAt` is the
corrected query, and `Conflict.NoOverlapHasNoDoubleBooking` shows that its
invariant is the stronger one. For requests whose time strings are equal exactly when
their parsed times are, `Creation.ParsedAgreesUnlessRespelled` shows that
the two validations decide alike.
