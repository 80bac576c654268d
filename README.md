# Wardrobe store: a verified model

This project models the state logic of a small wardrobe web application, which keeps outfits and a calendar of when to wear them. At its centre is the application store (`AppProvider`). It holds three collections:

- the outfits;
- the schedules, where a schedule says that an outfit is planned for a date and, optionally, a time slot;
- the registry of tags used so far.

The store also keeps a snapshot of each collection in local storage. It has five mutations (`addOutfit`, `deleteOutfit`, `addSchedule`, `deleteSchedule`, `addTag`), each of which writes through to the snapshot, and two queries (`getScheduleByDate`, `getOutfitById`). Four views call the store. The dashboard (views/DashboardView.tsx:7-85) only reads it through the two queries and is left out. The other three are modelled:

- the library search and its confirm-gated delete;
- the outfit-creation form, with its tag chips;
- the calendar's schedule form, day list and grid cells.

We model each part in the form it takes in the source:

- The store is a class, `Store.AppStore`. It has in-memory fields and stored-snapshot fields, and methods that reassign them. Each method's contract gives the complete new state. The changed collections are functions of the old ones, and those functions are characterised by lemmas: order-preserving selection, cascade, duplicate freedom, idempotence, and the no-op conditions.
- The queries and the search filter are pure functions over sequences.
- The creation form and the calendar view are classes whose fields are the components' state variables. `handleCreate` is a loop over the chips that calls the store's `AddTag`, proved against the fold `Create.WithTags`.

The modules are:

- `Collections`: the generic `filter`, `find` and remove-at-index used everywhere. It proves that `Filter` computes exactly the order-preserving subsequence of matching elements.
- `Types`: the record types, and decimal ids.
- `Store`: the store.
- `Library`: the library view.
- `Create`: the creation view.
- `Calendar`: the calendar view.

The clock value `Date.now()`, the ISO creation time, and the user's answer to `confirm()` are parameters. An id is the decimal text of the clock value. `Types.DecimalStringInjective` proves that distinct clock values give distinct ids. The code itself never checks ids for uniqueness. `Store.AddOutfitIdsDistinct` shows that ids stay distinct exactly when the clock id is new, and `Store.AddOutfitWithLaterClock` shows that they stay distinct under a clock that moves forward. The deletes keep ids distinct and issued before the current clock value (`Store.DeleteOutfitKeepsIdsFresh`, `Store.DeleteScheduleKeepsIdsFresh`), so the argument holds for the whole life of the store.

`app/page.tsx` is the page that is actually rendered, and it repeats the same code. The model describes that code once. The table below cites the split files; these are the matching lines in `app/page.tsx`:

| app/page.tsx | same code as |
|---|---|
| 88-100 | context.tsx:27-40 |
| 102-111 | context.tsx:42-51 |
| 113-121 | context.tsx:53-62 |
| 123-131 | context.tsx:64-72 |
| 133-137 | context.tsx:74-78 |
| 139-145 | context.tsx:80-86 |
| 147-153 | context.tsx:88-94 |
| 414-420 | views/CreateView.tsx:15-21 |
| 474-488 | views/CreateView.tsx:75-89 |
| 505 | views/CreateView.tsx:106 |
| 518 | views/CreateView.tsx:119 |
| 534-540 | views/LibraryView.tsx:14-20 |
| 564-566 | views/LibraryView.tsx:44-46 |
| 575 | views/LibraryView.tsx:55 |
| 337-338 | views/CalendarView.tsx:46-47 |
| 638-649 | views/CalendarView.tsx:110-121 |
| 651 | views/CalendarView.tsx:123 |
| 699 | views/CalendarView.tsx:171 |
| 721 | views/CalendarView.tsx:193 |

### deleteOutfit with an absent id

`deleteOutfit(id)` filters the outfits by id and, separately, filters the schedules by `outfitId`. When no outfit has `id` but some schedule still names it (a dangling schedule), the outfits stay the same while that schedule is removed. So "an absent id changes nothing" holds for the outfits whenever no outfit has the id, and for the schedules only when no schedule names it. `Store.DeleteOutfitAbsent` states both conditions as if-and-only-ifs. When every schedule names an existing outfit, deleting an absent id changes nothing at all (`Store.DeleteAbsentOutfitNoOp`).

Filtering never modifies its input: `Library.Search`, `Store.ScheduleByDate` and `Store.OutfitById` are functions, so the collections they read stay as they are.

## Model

| member | source | states |
|---|---|---|
| Collections.Filter | context.tsx:54 | `filter` keeps only elements of the input that satisfy the predicate, keeps every one that does, and is never longer than its input |
| Collections.FilterIsOrderedSelection | context.tsx:53-62 | the result of `filter` is the subsequence of matching elements, picked at strictly increasing positions, with no matching element skipped |
| Collections.FilterSelects | context.tsx:74-78 | returns the increasing positions that `filter` picks from its input |
| Collections.OrderedSelectionIsFilter | context.tsx:88-90 | conversely, any order-preserving selection of all matching elements equals `filter`, so the selection characterises `filter` |
| Collections.FilterKeepsAll | context.tsx:74-78 | `filter` returns its input unchanged if and only if every element matches (an absent id is a no-op) |
| Collections.FilterCongruent | views/LibraryView.tsx:14-20 | filtering by two predicates that agree on the input gives the same result |
| Collections.FilterAppend | context.tsx:69 | filtering distributes over concatenation, so appending a record extends a filtered view by at most that record |
| Collections.Find | context.tsx:92-94 | `find` returns nothing exactly when no element matches, and otherwise the first matching element |
| Collections.RemoveAt | views/CreateView.tsx:104-107 | removing index `i` keeps the elements before `i`, shifts those after it down by one, and shortens a sequence by one when `i` is in range |
| Collections.RemoveAtReinsert | views/CreateView.tsx:104-107 | putting the removed chip back at index `i` restores the original list |
| Collections.NoDuplicatesAppend | context.tsx:80-86 | appending `x` keeps a list duplicate-free if and only if the list was duplicate-free and did not contain `x` |
| Collections.FilterKeepsKeys | context.tsx:54 | every id left after a filter was an id before it |
| Collections.FilterKeepsKeysDistinct | context.tsx:54 | filtering keeps pairwise distinct ids pairwise distinct |
| Types.DecimalString | context.tsx:45 | `toString()` of a non-negative number is a non-empty string of decimal digits, with a leading `0` only for zero |
| Types.ParseDecimalString | context.tsx:45 | reading the decimal text back gives the number |
| Types.DecimalStringInjective | context.tsx:45 | two clock values give the same id if and only if they are equal |
| Types.FreshClockIdAppend | context.tsx:67 | an id issued at a clock value later than all earlier ones is new, and the ids stay pairwise distinct |
| Types.ClockId | context.tsx:45 | the id of clock value `now` is non-empty decimal text that reads back as `now` |
| Types.IssuedBeforeSublist | context.tsx:54 | ids taken from ids issued before `now` were issued before `now` |
| Store.NewOutfit | context.tsx:43-47 | the new outfit carries exactly the caller's fields, the clock id and the creation time |
| Store.NewSchedule | context.tsx:65-68 | the new schedule carries exactly the caller's fields, with the outfit id unchecked, and the clock id |
| Store.WithoutOutfit | context.tsx:54 | the remaining outfits are outfits of the store without the id, and every outfit without the id remains |
| Store.WithoutOutfitSchedules | context.tsx:59 | the remaining schedules are schedules of the store not naming the id, and every schedule not naming it remains |
| Store.WithoutSchedule | context.tsx:75 | the remaining schedules are schedules of the store without the id, and every schedule without the id remains |
| Store.WithTag | context.tsx:81-82 | the registry keeps its tags as a prefix, grows by at most one, and afterwards holds exactly the old tags and `t` |
| Store.ScheduleByDate | context.tsx:88-90 | every returned schedule is on the date and in the store, and every stored schedule on the date is returned |
| Store.OutfitById | context.tsx:92-94 | returns none exactly when no outfit has the id, and otherwise the first outfit with that id |
| Store.AppStore.constructor | context.tsx:27-31 | before the first load all three collections are empty, whatever storage holds |
| Store.AppStore.Load | context.tsx:33-40 | the load installs the three stored snapshots, after which memory and storage agree |
| Store.AppStore.AddOutfit | context.tsx:42-51 | exactly one outfit is appended and written to storage; schedules and tags and their snapshots are unchanged |
| Store.AppStore.DeleteOutfit | context.tsx:53-62 | the outfits lose the id and the schedules lose every reference to it, both written to storage; tags are unchanged |
| Store.AppStore.AddSchedule | context.tsx:64-72 | exactly one schedule is appended and written to storage; outfits and tags are unchanged |
| Store.AppStore.DeleteSchedule | context.tsx:74-78 | the schedules with the id are removed and the rest written to storage; outfits and tags are unchanged |
| Store.AppStore.AddTag | context.tsx:80-86 | a present tag changes nothing and writes nothing; an absent one is appended and written to storage |
| Store.DeleteOutfitCascades | context.tsx:53-62 | after `deleteOutfit` no outfit has the id and no schedule names it, while every other outfit and schedule remains, in its original order |
| Store.DeleteOutfitAbsent | context.tsx:54 | the outfits are unchanged if and only if no outfit has the id, and the schedules if and only if no schedule names it |
| Store.DeleteAbsentOutfitNoOp | context.tsx:53-62 | when every schedule names an existing outfit, deleting an id no outfit has leaves both collections unchanged |
| Store.DeleteOutfitKeepsSchedulesResolved | context.tsx:58-61 | if every schedule named an existing outfit before the delete, the same holds after it |
| Store.DeleteScheduleRemovesId | context.tsx:74-78 | no schedule with the id remains and all others remain, in order; an absent id is a no-op, and only an absent id |
| Store.AddTagKeepsRegistry | context.tsx:80-86 | the registry stays duplicate-free, gains exactly `t`, keeps existing tags first and in order, and a second `addTag(t)` changes nothing |
| Store.AddTagTwiceOnce | context.tsx:81 | after two `addTag(t)` calls, `t` occurs exactly once |
| Store.ScheduleByDateSelects | context.tsx:88-90 | the schedules of a date are exactly the stored schedules on that date, in stored order |
| Store.ScheduleByDateAfterAdd | context.tsx:69 | an added schedule appears at the end of its own date's list and changes no other date's list |
| Store.AddOutfitIdsDistinct | context.tsx:45 | `addOutfit` keeps outfit ids pairwise distinct if and only if the clock id is not already in use |
| Store.AddScheduleIdsDistinct | context.tsx:67 | `addSchedule` keeps schedule ids pairwise distinct if and only if the clock id is not already in use |
| Store.AddOutfitWithLaterClock | context.tsx:45 | with a clock that moves forward, outfit ids stay pairwise distinct |
| Store.AddScheduleWithLaterClock | context.tsx:67 | with a clock that moves forward, schedule ids stay pairwise distinct |
| Store.FilterOutfitsKeepsIdsFresh | context.tsx:54 | filtering the outfits keeps their ids pairwise distinct and issued before `now` |
| Store.FilterSchedulesKeepsIdsFresh | context.tsx:59 | filtering the schedules keeps their ids pairwise distinct and issued before `now` |
| Store.DeleteOutfitKeepsIdsFresh | context.tsx:53-62 | `deleteOutfit` keeps outfit and schedule ids pairwise distinct and issued before the current clock value |
| Store.DeleteScheduleKeepsIdsFresh | context.tsx:74-78 | `deleteSchedule` keeps schedule ids pairwise distinct and issued before the current clock value |
| Library.ToLower | views/LibraryView.tsx:16 | lowering keeps the length, turns each capital ASCII letter into its small letter, keeps every other character, and leaves no capital letter |
| Library.ToLowerIdempotent | views/LibraryView.tsx:16 | lowering an already lowered string changes nothing |
| Library.Contains | views/LibraryView.tsx:16 | `includes` holds only for a substring no longer than the string, and always for the empty string and for a prefix |
| Library.Matches | views/LibraryView.tsx:15-19 | every outfit matches the empty query; a matching query is no longer than the title or some tag |
| Library.Search | views/LibraryView.tsx:14-20 | every shown outfit is in the library and matches, every matching outfit is shown, and the result is no longer than the library |
| Library.SearchKeepsMatches | views/LibraryView.tsx:14-20 | the search result is the subsequence of the library, in order, keeping an outfit if and only if its lowered title or some lowered tag contains the lowered query |
| Library.SearchEmptyQuery | views/LibraryView.tsx:14-20 | an empty query shows the whole library |
| Library.SearchIgnoresQueryCase | views/LibraryView.tsx:16-18 | two queries that differ only in the case of some ASCII letters, at the same positions, give the same result |
| Library.ShowsNoOutfitsFound | views/LibraryView.tsx:52 | "No outfits found" appears if and only if no outfit matches |
| Library.OnDelete | views/LibraryView.tsx:43-47 | the outfit is deleted, with its schedules, only when the user confirmed; otherwise the store is untouched |
| Create.WithTags | views/CreateView.tsx:18 | registering a list of tags keeps the old registry as a prefix, adds at most one entry per tag, and leaves exactly the old tags and the listed ones |
| Create.WithTagsKeepsRegistry | views/CreateView.tsx:18 | registering the chips in order keeps the registry duplicate-free, keeps existing tags first and in order, and adds exactly the chips' tags |
| Create.WithTagsPresent | views/CreateView.tsx:18 | registering tags that are all present changes nothing |
| Create.CreateForm.constructor | views/CreateView.tsx:9-13 | the form starts with every field empty |
| Create.CreateForm.AddChip | views/CreateView.tsx:84-88 | a non-empty pending tag is appended as the last chip, even if it is a duplicate, and the input clears; an empty one changes nothing |
| Create.CreateForm.OnTagKeyPress | views/CreateView.tsx:75-79 | Enter with a non-empty pending tag adds it as a chip; any other key, or an empty tag, changes nothing |
| Create.CreateForm.RemoveChip | views/CreateView.tsx:104-107 | chip `i` is removed and the other chips keep their order |
| Create.CreateForm.HandleCreate | views/CreateView.tsx:15-21 | with an empty image or title nothing happens; otherwise each chip's tag is registered in chip order, then an outfit with exactly the form's title, image, chips and notes is appended |
| Create.CreateForm.ClickCreate | views/CreateView.tsx:117-123 | while the title is empty the button is disabled and a click changes nothing; otherwise the click creates the outfit exactly when an image is present |
| Calendar.Resolve | views/CalendarView.tsx:170-200 | every listed entry pairs a schedule with the outfit its id resolves to, and there are no more entries than schedules |
| Calendar.ResolveSkipsDangling | views/CalendarView.tsx:170-172 | the listed schedules are exactly those whose outfit resolves, in order; a dangling schedule is skipped |
| Calendar.ResolveAppend | views/CalendarView.tsx:170-172 | resolving a concatenation of schedule lists resolves each part |
| Calendar.DayList | views/CalendarView.tsx:123 | with no date selected the list is empty; otherwise it holds stored schedules on that date and every such schedule |
| Calendar.DayEntries | views/CalendarView.tsx:170-172 | with no date selected nothing is listed; every listed entry is a stored schedule on the selected date shown with the outfit it names |
| Calendar.DayEntriesSpec | views/CalendarView.tsx:123 | with no date selected the day list is empty; otherwise it is that date's schedules whose outfits resolve, in stored order |
| Calendar.CellEntries | views/CalendarView.tsx:46-59 | a cell shows at most two thumbnails, each of a stored schedule on its date, with the outfit it names |
| Calendar.CellShowsFirstTwo | views/CalendarView.tsx:46-48 | the thumbnails are exactly the day's first two schedules whose outfits resolve, in order |
| Calendar.CellHighlighted | views/CalendarView.tsx:33 | a cell is highlighted exactly when some stored schedule is on its date |
| Calendar.CalendarView.constructor | views/CalendarView.tsx:92-97 | no date selected, modal closed, no outfit and no time slot |
| Calendar.CalendarView.HandleSchedule | views/CalendarView.tsx:110-121 | without a selected date and outfit nothing changes; otherwise one schedule with exactly the selected outfit, date and slot is appended, the modal closes, and the outfit and slot reset |
| Calendar.CalendarView.Remove | views/CalendarView.tsx:192-194 | Remove deletes exactly the schedules with that entry's id |
| Calendar.ScheduledJoinsDayList | views/CalendarView.tsx:110-123 | a new schedule comes last in its day's schedule list; in the modal it is shown last with its outfit when the outfit resolves, and not at all otherwise |
| Calendar.RemovedLeavesDayList | views/CalendarView.tsx:193 | after Remove, no schedule with the removed id is listed for any date |

## Left out

- Storage I/O: `localStorage`, `JSON.stringify` and `JSON.parse`, and the `typeof window` check in `utils/storage.ts` are foreign code. Each snapshot is a field of the store. An unparsable stored value, for which `JSON.parse` throws, is not modelled.
- React's state semantics: asynchronous `setState` and stale closures are not modelled. Every mutation is an atomic update applied in sequence.
- Create.CreateForm.HandleCreate: under React, `forEach(addTag)` reads one render-time snapshot of the registry. In the running app only the last new chip tag therefore survives in the registry. The model registers every chip's tag, as a sequential reading of the code does.
- `toLowerCase` is modelled on ASCII letters only. Unicode case mapping is not modelled.
- `Date`: the clock value and the ISO creation time are parameters. Time zones, month navigation, the days of a month grid, date formatting and the dashboard's upcoming days are not modelled, and dates are opaque strings.
- `confirm()` is a parameter of `Library.OnDelete`.
- The `onBack` navigation after `handleCreate` is not modelled; the `created` result stands for it.
- Rendering is not modelled: JSX, `Modal`, `OutfitCard`, `UploadDropzone` (asynchronous `FileReader`), `DashboardView` (a read-only caller of `getScheduleByDate` and `getOutfitById` for today's and the week's schedules, plus statistics), the Tailwind configuration, and the error `useApp` raises outside a provider.
- The field setters that only assign what the user typed (`setTitle`, `setNotes`, `setImage`, `setSelectedDate`, `setSelectedOutfitId`, `setSelectedTimeSlot`) are plain field assignments and have no methods of their own.
