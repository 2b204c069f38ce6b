# Event calendar: recurrence expansion and the event store

A model, in Dafny, of the part of the calendar application that is more than rendering:

- the **event store** (`src/context/EventContext.js`): a list of events, some of which are
  bases and some materialised instances of a recurring base, with `addEvent`, `updateEvent`
  and `deleteEvent` replacing that list while keeping each recurrence family together;
- its **recurrence expander** (`generateRecurringEvents`), which turns a base into the base
  plus 30 daily, 12 weekly or 12 monthly instances with ids `base.id + "_" + i`;
- the **date utilities** (`src/utils/dateUtils.js`): the one-hour conflict test and a second,
  independent expander with `-` ids and 29/11/11 instances.

Family membership is what the source makes it: an event is in the family of `b` when its id
is `b` or starts with `b + "_"`; the base id of an id is the text before its first `_`.

Files and modules:

| file | module | models |
|---|---|---|
| ids.dfy | `Ids` | decimal ids, `split('_')[0]`, the `startsWith` family test |
| seqs.dfy | `Seqs` | `filter`, specified by what it keeps and that it keeps order |
| recurrence.dfy | `Recurrence` | the `Event` record and `generateRecurringEvents` of the store |
| event_store.dfy | `EventStore` | the `events` state as class `Store` and its three operations |
| date_utils.dfy | `DateUtils` | `checkEventConflict` and the second `generateRecurringEvents` |

The store's contracts are written with a few helpers that spell out source expressions:
`Ids.InFamily` is the membership test `id === baseId || id.startsWith(baseId + "_")`
(src/context/EventContext.js:104, 117, 136); `EventStore.NewBase` is the `newEvent` record
with the fresh id and `isRecurringInstance: false` (src/context/EventContext.js:84-89);
`EventStore.Regenerate` is "filter out the family, then append the expansion"
(src/context/EventContext.js:103-107 and 116-119); `EventStore.RecurrenceChanged` is the
guard `existingEvent && existingEvent.recurrence !== updatedEvent.recurrence`
(src/context/EventContext.js:111-113).

Modelling choices:

- Dates are day numbers: `addDays(d, i)` is `d + i`, `addWeeks(d, i)` is `d + 7 * i`. Adding
  calendar months (date-fns `addMonths`, and `Date.prototype.setMonth` in the utilities) is
  passed in as a function, so every property about monthly dates holds whatever that
  function does, month-end rollover included.
- The clock reading `Date.now()` is the parameter `now` of `AddEvent`; the fresh id is its
  decimal text.
- Each store operation is one atomic replacement of `events`. The read of `events` that
  `updateEvent` makes outside the updater function is modelled as a read of the current list.
- For the conflict test, an event whose date and time text parse starts at `date * 1440 + time`
  minutes and lasts 60.
- The expanders are loops that push onto a list, as in the source; each is proved equal to a
  function (`Expansion`, `VariantExpansion`) about which the properties are proved.
- The store keeps ids unique: every operation preserves `UniqueIds(events)`, adding on the
  condition that no stored id is in the fresh id's family.

The model follows the code where it departs from what its callers expect: the conflict test
does not report two events that start at the same minute (see Findings), and `addEvent` and
`updateEvent` return nothing (the form awaits a `success` result that never comes).

## Model

| member | source | states |
|---|---|---|
| `Ids.NatToString` | src/context/EventContext.js:86 | the text of a clock reading or instance number is non-empty and all decimal digits, so it never contains `_` |
| `Ids.ParseNatToString` | src/context/EventContext.js:86 | the decimal text an id is built from reads back as the same number |
| `Ids.NatToStringInjective` | src/context/EventContext.js:53 | different numbers give different decimal texts |
| `Ids.FreshIdHasNoSeparator` | src/context/EventContext.js:86 | an id from `Date.now().toString()` contains no `_` |
| `Ids.BeforeFirst` | src/context/EventContext.js:101 | `split('_')[0]` is the prefix of the id before its first `_`, and contains none |
| `Ids.BaseIdOfPlainId` | src/context/EventContext.js:101 | an id without `_` is its own base id |
| `Ids.BaseIdOfInstance` | src/context/EventContext.js:101 | splitting an instance id `b_i` at `_` gives back `b` when `b` has no `_` |
| `Ids.InstanceIdInFamily` | src/context/EventContext.js:104 | an instance id passes the `startsWith(baseId + "_")` test and differs from the base id |
| `Ids.InstanceIdInjective` | src/context/EventContext.js:53 | instance ids of one base with different numbers differ |
| `Seqs.Filter` | src/context/EventContext.js:103-105 | an element is in the filtered list exactly when it is in the input and passes the test |
| `Seqs.FilterCounts` | src/context/EventContext.js:135-137 | the filtered list holds each passing element as often as the input does, and nothing else |
| `Seqs.FilterIsSubsequence` | src/context/EventContext.js:135-137 | filtering keeps the surviving events in their original order |
| `Seqs.FilterConcat` | src/context/EventContext.js:116-119 | filtering a concatenation filters each part |
| `Seqs.FilterKeepsAll` | src/context/EventContext.js:139 | a filter every element passes changes nothing |
| `Seqs.FilterDropsAll` | src/context/EventContext.js:136 | a filter no element passes leaves nothing |
| `Seqs.FilterIdempotent` | src/context/EventContext.js:135-139 | deleting twice by the same test is deleting once |
| `Recurrence.GenerateRecurringEvents` | src/context/EventContext.js:46-81 | the list the three counted push loops build is the expansion of the base |
| `Recurrence.ExpandOther` | src/context/EventContext.js:46-80 | `none`, or any recurrence other than daily/weekly/monthly, expands to exactly `[base]` |
| `Recurrence.ExpandDaily` | src/context/EventContext.js:49-58 | daily: 31 events, the base first, instance i dated base + i days with id `base.id_i`, flagged as instance, other fields copied |
| `Recurrence.ExpandWeekly` | src/context/EventContext.js:59-68 | weekly: 13 events, instance i dated base + 7i days with id `base.id_i` |
| `Recurrence.ExpandMonthly` | src/context/EventContext.js:69-78 | monthly: 13 events, instance i dated `addMonths(base, i)` with id `base.id_i` |
| `Recurrence.ExpansionIsFamily` | src/context/EventContext.js:47-77 | every expanded event is in the base's family, only the base has the base id, and the ids are distinct |
| `Recurrence.ExpansionBaseIds` | src/context/EventContext.js:101 | splitting any expanded id at `_` names the base, when the base id has no `_` |
| `Recurrence.ExpansionHasOneBase` | src/context/EventContext.js:47-55 | a non-instance base is the only non-instance in its expansion |
| `EventStore.FindById` | src/context/EventContext.js:111 | `find` returns the first event with the id, or nothing exactly when no event has it |
| `EventStore.ReplaceById` | src/context/EventContext.js:122-126 | the mapped list has the same length and ids; events with the id become the edit, all others stay |
| `EventStore.FilterKeepsUniqueIds` | src/context/EventContext.js:135-139 | removing events keeps ids unique |
| `EventStore.UniqueIdsConcat` | src/context/EventContext.js:95 | appending events whose ids are new keeps ids unique |
| `EventStore.RegenerateReplacesFamily` | src/context/EventContext.js:100-120 | after regenerating, the family is exactly the new expansion, the rest is unchanged and in order, and exactly one event has the base id |
| `EventStore.RegenerateKeepsIdsUnique` | src/context/EventContext.js:100-120 | regenerating a family keeps ids unique |
| `EventStore.AddKeepsIdsUnique` | src/context/EventContext.js:83-95 | adding under a fresh id whose family is absent keeps ids unique |
| `EventStore.DeleteThroughInstanceUndoesAdd` | src/context/EventContext.js:131-137 | deleting through any instance id of a just-added family gives back the list before the add |
| `EventStore.DeleteBareIdOrphansInstances` | src/context/EventContext.js:138-139 | deleting a bare base id removes only the base; the instances added with it all remain |
| `EventStore.ReplaceIdempotent` | src/context/EventContext.js:122-126 | applying the same in-place edit twice is applying it once |
| `EventStore.ReplaceLeavesInstances` | src/context/EventContext.js:121-126 | an in-place edit of a base leaves its instances (ids `base_…`) as they were |
| `EventStore.Store.constructor` | src/context/EventContext.js:8 | the store starts with no events |
| `EventStore.Store.AddEvent` | src/context/EventContext.js:83-96 | the old list stays as a prefix and the expansion of the new base (fresh id, not an instance) is appended; ids stay unique |
| `EventStore.Store.UpdateEvent` | src/context/EventContext.js:98-129 | an edited instance regenerates its family under the base id; a changed recurrence regenerates the family; otherwise events are replaced by id; ids stay unique |
| `EventStore.Store.DeleteEvent` | src/context/EventContext.js:131-141 | an id with `_` removes the family of its base id, any other id removes just the events with that id; ids stay unique |
| `DateUtils.CheckEventConflict` | src/utils/dateUtils.js:9-23 | true exactly when some event starts more than 0 and less than 60 minutes from the new one |
| `DateUtils.OverlapsIsNearStart` | src/utils/dateUtils.js:17-21 | the three comparisons for one event hold exactly when the starts are 1 to 59 minutes apart |
| `DateUtils.ContainmentNeverHolds` | src/utils/dateUtils.js:20 | the third comparison can never hold with equal durations |
| `DateUtils.ConflictSymmetric` | src/utils/dateUtils.js:17-21 | a conflicts with b exactly when b conflicts with a |
| `DateUtils.NoConflictWithNoEvents` | src/utils/dateUtils.js:13 | no stored events, no conflict |
| `DateUtils.TouchingIsNoConflict` | src/utils/dateUtils.js:18-19 | events exactly one hour apart do not conflict |
| `DateUtils.SameStartIsNoConflict` | src/utils/dateUtils.js:17-21 | events starting at the same minute are not reported |
| `DateUtils.CheckEventConflictIntended` | src/utils/dateUtils.js:9-23 | corrected test: true exactly when some event starts less than 60 minutes from the new one |
| `DateUtils.IntendedSameStartConflicts` | src/utils/dateUtils.js:17-21 | the corrected test reports identical starts and still not touching hours |
| `DateUtils.IntendedAddsSameStarts` | src/utils/dateUtils.js:17-21 | the corrected test differs from the written one exactly by the events at the same start |
| `DateUtils.GenerateRecurringEvents` | src/utils/dateUtils.js:25-62 | the list the counted push loops build is the variant expansion of the event |
| `DateUtils.VariantOther` | src/utils/dateUtils.js:26-28 | the event comes first unchanged, and `none` or an unknown recurrence gives `[event]` |
| `DateUtils.VariantDaily` | src/utils/dateUtils.js:31-39 | daily: 30 events, instance i dated start + i days with id `event.id-i`, other fields copied |
| `DateUtils.VariantWeekly` | src/utils/dateUtils.js:40-48 | weekly: 12 events, instance i dated start + 7i days with id `event.id-i` |
| `DateUtils.VariantMonthly` | src/utils/dateUtils.js:49-58 | monthly: 12 events, instance i dated by advancing the month by i, id `event.id-i` |
| `DateUtils.VariantIdsDistinct` | src/utils/dateUtils.js:36 | the ids of a variant expansion are pairwise distinct |

## Left out

- Loading and saving through `localStorage` (src/context/EventContext.js:11-43): browser storage, JSON and ISO date text. On a parse failure the source drops the stored key and keeps the empty list.
- React state: `useState`, `useEffect`, the provider and the functional updaters. Every operation is one synchronous replacement of `events`, so the stale read of `events` at src/context/EventContext.js:111 is not modelled.
- `Date.now()` is a parameter; nothing checks that two calls give different readings.
- Calendar month arithmetic (`addMonths`, `setMonth` and its rollover) is a parameter. Time zones and daylight saving are not modelled. This includes `new Date('yyyy-MM-dd')` being read as UTC while `format` writes local time in the second expander.
- In the store, `date` is a day number: the time of day that the stored `Date` carries, and that `addDays`, `addWeeks` and `addMonths` keep, is not modelled. The form's `time` text is kept as the opaque field `Event.time`, copied into every instance. In the conflict test, time of day is modelled as the minute `time` of `FormEvent`.
- `DateUtils.GenerateRecurringEvents`: for `daily`, `weekly` and `monthly` the source formats every instance date with date-fns `format(newDate, 'yyyy-MM-dd')` (src/utils/dateUtils.js:37,46,56), which throws `RangeError: Invalid time value` when `new Date(event.date)` (src/utils/dateUtils.js:29) is an Invalid Date, such as a missing or malformed `date`; `none` and unknown recurrences return `[event]` for the same input. `FormEvent.date` is a day number and cannot be unparseable, so the model always returns the expansion and does not model that throw.
- `DateUtils.CheckEventConflict`: the parse of `${date}T${time}` (src/utils/dateUtils.js:10,14) becomes `date * 1440 + time`, which assumes the text parses. An event whose text does not parse gives an Invalid Date, on which every `isAfter` and `isBefore` is false, so it never conflicts. A stored event, whose `date` is a `Date` object and not `yyyy-MM-dd` text, is such an event. That path is not modelled.
- `new Date(event.date)` at src/context/EventContext.js:87 and 124 is the identity on day numbers.
- Object spread copies every field of the input. The model's records hold the fields the form edits (`title`, `date`, `time`, `description`, `recurrence`, `color`) plus `id` and, in the store, `isRecurringInstance`. `FormEvent` has no `isRecurringInstance`, which the second expander never sets.
- `Ids.NatToString`: plain decimal text only. JavaScript switches to exponent notation from 10^21 on, far beyond clock readings and instance numbers.
- `formatEventDate` (src/utils/dateUtils.js:4-7): library date formatting.
- The components (EventForm.jsx, Calendar.jsx, EventItem.jsx, DayCell.jsx, App.js): rendering, form validation and drag and drop. Dropping an event calls `updateEvent`, which the store models.

## Findings

| source | as written | input that shows it | evidently intended | confidence | as-written member | corrected member |
|---|---|---|---|---|---|---|
| src/utils/dateUtils.js:17-21 | every comparison is strict, so an event starting at the same minute as the new one fails all three disjuncts | a stored event and a new event with the same date and time | one-hour slots that share any time conflict, identical starts included | high; not executed | `DateUtils.SameStartIsNoConflict` | `DateUtils.CheckEventConflictIntended` |
