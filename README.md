# Rostretto scheduling core in Dafny

This project models the logic at the heart of Rostretto, a café staff-rostering app, and proves properties of it. Each proved property is stated as a contract or a lemma.

The main piece is the backend endpoint `POST /assignments/cleanup/{week}`. It removes duplicate manual shift assignments:

- it keeps only manual assignment documents;
- it groups them by (shift, employee, role upper-cased);
- in every group it keeps the member with the widest time range and deletes the others;
- it counts the kept groups and the deleted documents.

Around the endpoint sit the client-side pieces that share its vocabulary:

- the clock-time parsers `time_to_minutes` and `toMinutes`, and the 24-to-12-hour formatter `to12Hour`;
- the day-view slot builder `buildDaySlots`;
- the capability search language (`parseQuery`, `passesSkillCmp`);
- the employees/assignments reducer;
- the module-level employee list;
- the in-memory feedback log;
- the state selectors;
- the role and demand tables;
- the stepping rules of the time picker and the role picker.

Layout: one module per source file, plus a few shared modules.

| module | models |
|---|---|
| `CleanupModel`, `Cleanup`, `CleanupLemmas` | `backend-cleanup-patch.py`: specification functions, the imperative endpoint body proved against them, and the properties of the cleanup |
| `ClockPattern` | the pattern `^(\d{1,2}):(\d{2})\s*(am|pm)$` that both time parsers match, written as a recogniser |
| `TimeUtils` | `helpers/timeUtils.ts` |
| `ScheduleView` | `viewmodels/schedule.ts` |
| `Skills` | `constants/skills.ts` |
| `Types` | the role tables of `state/types.ts` |
| `EmployeesReducer` | `state/employees.tsx` |
| `EmployeeStore` | `state/employees.ts`, as a class whose field is the list |
| `Selectors` | `state/selectors.ts` |
| `FeedbackRepo` | `data/feedback.repo.ts`, as a class whose field is the storage array |
| `RoleMappers` | `helpers/roleMappers.ts` |
| `SchedulerIO` | `helpers/schedulerIO.ts` |
| `TimePicker` | `components/shared/TimePickerRow.tsx` |
| `RolePicker` | `components/shared/RolePickerRow.tsx` |
| `Wrappers`, `Text`, `Seqs`, `Sorting`, `Dict` | shared support: `Option`; ASCII character classes, trimming, case and digits; filter and sums; the descending sort used by `Array.prototype.sort`; a JavaScript record as an insertion-ordered list of (key, value) pairs |

Modelling conventions:

- **Cleanup.** The document store is an input sequence of (document id, fields) pairs in stream order. The endpoint's result is the sequence of deleted ids plus the kept and deleted counts.
- **Non-determinism.** `uuid()`, `Date`, `toISOString` and the fitness score are parameters:
  - a fresh id;
  - a function from an abstract instant to its date key or ISO text;
  - a function giving the fitness of an employee.
- **Scores and averages** are `real`.

## Model

| member | source | states |
|---|---|---|
| Cleanup.GroupManual | backend-cleanup-patch.py:16-26 | the loop builds, for every key of a manual document, the list of manual documents under that key in stream order, and lists the keys in first-appearance order |
| Cleanup.Measure | backend-cleanup-patch.py:62-64 | start and end are the parsed times; span is end-start when end > start, else 0 |
| Cleanup.ScanTakes | backend-cleanup-patch.py:67-77 | a member with a wider span, or an equal span and a strictly earlier start, becomes the running best |
| Cleanup.ScanKeeps | backend-cleanup-patch.py:67-77 | any other member leaves the running best unchanged |
| Cleanup.SelectWidest | backend-cleanup-patch.py:56-81 | the scan loop plus the fallback returns the kept id of the group (`KeptId`) |
| Cleanup.DeleteOthers | backend-cleanup-patch.py:86-89 | the delete loop removes exactly the members whose id differs from the kept one, in order |
| Cleanup.CleanupDuplicates | backend-cleanup-patch.py:16-99 | the deleted ids are `DeletedIds(docs)`; kept count = number of groups; deleted count = number of deletions |
| CleanupModel.WinnerIsWidest | backend-cleanup-patch.py:61-77 | the scan's choice has the widest span and the earliest start among equal spans, and is preferred over every earlier member (a full tie keeps the first) |
| CleanupModel.KeyOf | backend-cleanup-patch.py:23 | the group key: shift id, employee id and the role upper-cased, an absent role read as "" (`RoleCaseIgnored` gives when two keys agree) |
| CleanupModel.TimeToMinutes | backend-cleanup-patch.py:32-47 | empty text gives 0; otherwise the stripped, lower-cased text is matched against the clock pattern, 0 when it does not match, else hours·60+minutes with the am/pm adjustment (examples and `TimeToMinutesOfClock` below) |
| CleanupModel.Winner | backend-cleanup-patch.py:61-77 | the index the scan ends on: always a member index; `WinnerIsWidest` proves it is the widest member by the tie-break rule |
| CleanupModel.KeptId | backend-cleanup-patch.py:79-81 | the winner's id, or the first member's id when the winner's id is falsy ("") |
| CleanupModel.DeletedIds | backend-cleanup-patch.py:50-89 | the ids deleted group by group in group order: the other ids of every group of two or more, none of a singleton (`DeletedFromOwner`, `DeletedFromLoser`, `DeletedCount`) |
| CleanupModel.WinnerStep | backend-cleanup-patch.py:67-77 | proof step for `ScanTakes`/`ScanKeeps`: one more member takes over exactly when it is preferred to the running best |
| CleanupModel.KeyOrderMembers | backend-cleanup-patch.py:23-26 | a key is a group exactly when some manual document carries it; no key appears twice |
| CleanupLemmas.MembersMembership | backend-cleanup-patch.py:19-26 | a group holds exactly the manual documents with its key |
| CleanupLemmas.MembersDistinct | backend-cleanup-patch.py:26 | groups inherit distinct document ids |
| CleanupLemmas.OtherIdsMembership | backend-cleanup-patch.py:86-87 | the ids deleted from a group are exactly its other ids |
| CleanupLemmas.OtherIdsAbsent | backend-cleanup-patch.py:86-87 | when the kept id is not in the group, every member is deleted |
| CleanupLemmas.OtherIdsLength | backend-cleanup-patch.py:86-89 | with distinct ids, size-1 members are deleted |
| CleanupLemmas.WithIdUnique | backend-cleanup-patch.py:87 | with distinct ids, exactly one member has the kept id |
| CleanupLemmas.WithoutOthers | backend-cleanup-patch.py:86-88 | after the deletes only the kept member remains in the group |
| CleanupLemmas.MembersWithout | backend-cleanup-patch.py:16-26 | grouping the surviving documents is the same as deleting from each group |
| CleanupLemmas.DeletedFromOwner | backend-cleanup-patch.py:50-89 | every deleted id was deleted as a loser of some group |
| CleanupLemmas.DeletedFromLoser | backend-cleanup-patch.py:50-89 | every loser of every group is deleted |
| CleanupLemmas.DeletedIsManualLoser | backend-cleanup-patch.py:19-89 | a deleted document is manual and lost in its own group |
| CleanupLemmas.GroupSurvivor | backend-cleanup-patch.py:50-89 | every group keeps exactly one member, the one with the kept id |
| CleanupLemmas.SurvivorIsWidest | backend-cleanup-patch.py:61-89 | the survivor is the widest member by the tie-break rule; the fallback is never needed for a non-empty id |
| CleanupLemmas.NonManualNeverDeleted | backend-cleanup-patch.py:19-20 | documents not flagged manual are never deleted |
| CleanupLemmas.LosersLength | backend-cleanup-patch.py:51-89 | a group of size n loses n-1 members; a single member loses none |
| CleanupLemmas.DeletedFromLength | backend-cleanup-patch.py:83-89 | deletions plus groups = the total size of the groups |
| CleanupLemmas.GroupSizesStep | backend-cleanup-patch.py:19-26 | one more document adds one to the size of its own group only, and only when manual |
| CleanupLemmas.CountDistinct | backend-cleanup-patch.py:24-25 | a key listed once counts once |
| CleanupLemmas.GroupsPartitionManual | backend-cleanup-patch.py:16-26 | the groups partition the manual documents |
| CleanupLemmas.DeletedCount | backend-cleanup-patch.py:83-98 | deleted + kept = the number of manual documents, so deleted = sum of (size-1) over the groups |
| CleanupLemmas.DeletedFromSingletons | backend-cleanup-patch.py:51-53 | when every group is a singleton nothing is deleted |
| CleanupLemmas.CleanupIdempotent | backend-cleanup-patch.py:50-89 | running the cleanup on the surviving documents deletes nothing |
| CleanupLemmas.RoleCaseIgnored | backend-cleanup-patch.py:23 | two documents share a key iff they have the same shift and employee and their roles agree up to case |
| CleanupLemmas.TieBreakExample | backend-cleanup-patch.py:67-77 | spans 90, 60, 90, 90 with starts 540, 420, 480, 480 keep the third member |
| CleanupLemmas.TimeToMinutesOfClock | backend-cleanup-patch.py:36-47 | every text of the clock shape parses to hours·60+minutes with the am/pm adjustment |
| CleanupLemmas.TimeToMinutesAfternoon | backend-cleanup-patch.py:43-47 | "2:30 pm" gives 870 |
| CleanupLemmas.TimeToMinutesUnchecked | backend-cleanup-patch.py:40-47 | the hour is not range-checked: "13:00 pm" gives 1500 |
| CleanupLemmas.TimeToMinutesMidnight | backend-cleanup-patch.py:45-46 | "12:00 am" gives 0 |
| CleanupLemmas.TimeToMinutesNoon | backend-cleanup-patch.py:43-44 | "12:30 pm" gives 750 |
| CleanupLemmas.TimeToMinutesMorning | backend-cleanup-patch.py:40-47 | "9:00 am" gives 540 |
| CleanupLemmas.TimeToMinutesNoSpace | backend-cleanup-patch.py:37 | `\s*` allows "9:00am", which also gives 540 |
| CleanupLemmas.ClockExample | backend-cleanup-patch.py:36-47 | the clock-shape result, stated position by position on the text |
| CleanupLemmas.TimeToMinutesMalformed | backend-cleanup-patch.py:33-39 | empty text, a missing period, a wrong separator and a three-digit hour all give 0 |
| ClockPattern.MinutesOfClock | backend-cleanup-patch.py:43-47 | 12 am is 0, 12 pm is 720, other pm hours add 12 |
| ClockPattern.MatchClockOfShape | backend-cleanup-patch.py:37 | the recogniser accepts 1-2 digits, ':', 2 digits, spaces, am/pm, and returns those groups |
| ClockPattern.ShapeInsertSpace | helpers/timeUtils.ts:9 | inserting a space between a digit and am/pm keeps a match and its groups |
| ClockPattern.ShapeRemoveSpace | helpers/timeUtils.ts:9 | a match after the insertion was already a match before it |
| ClockPattern.InsertSpaceKeepsMatch | helpers/timeUtils.ts:9-10 | inserting the space never changes the match result |
| TimeUtils.FindMeridiem | helpers/timeUtils.ts:9 | finds the first digit followed by am/pm, case-insensitively |
| TimeUtils.ToMinutes | helpers/timeUtils.ts:7-22 | trim, insert a space between a digit and am/pm, match the clock pattern case-insensitively; 0 on no match, else hours·60+minutes with the am/pm adjustment (`ToMinutesOfClock`, `ToMinutesAgrees`) |
| TimeUtils.NormalizeKeepsMatch | helpers/timeUtils.ts:9-10 | normalising the spacing never changes what the pattern matches |
| TimeUtils.ToMinutesAgrees | helpers/timeUtils.ts:7-22 | the model of `toMinutes` gives the same value as the model of `time_to_minutes` on every input; the two programs differ on U+001C–U+001F (see Left out) |
| TimeUtils.ToMinutesOfClock | helpers/timeUtils.ts:9-21 | on the clock shape: hours·60+minutes with the am/pm adjustment, and "9:00am" equals "9:00 am" |
| TimeUtils.ScoreToTone | helpers/timeUtils.ts:26-31 | good iff score >= 70, warn iff 50 <= score < 70, alert otherwise; a missing score counts as 0 |
| TimeUtils.ScoreToToneMonotone | helpers/timeUtils.ts:27-30 | a higher score never gives a worse tone |
| TimeUtils.DisplayNameOfCode | helpers/timeUtils.ts:65-82 | each API code maps to its capitalised name, and each capitalised name maps to itself |
| TimeUtils.RoleToDisplayName | helpers/timeUtils.ts:65-83 | `roleMap[role] \|\| role`: a listed role gives its entry, any other text comes back unchanged |
| TimeUtils.ApiCodesAreUpper | helpers/timeUtils.ts:67-80 | the API codes are the capitalised names upper-cased |
| TimeUtils.DisplayNameUnknown | helpers/timeUtils.ts:82 | an unknown role comes back unchanged |
| TimeUtils.DisplayNameIdempotent | helpers/timeUtils.ts:65-83 | mapping a second time changes nothing |
| ScheduleView.IndexOf | viewmodels/schedule.ts:13 | the first position of the separator, or none |
| ScheduleView.SplitDigits | viewmodels/schedule.ts:13 | `split(':')` of "H:M" gives the hour and minute texts; without ':' the minutes are absent |
| ScheduleView.To12Hour | viewmodels/schedule.ts:12-22 | the hour before ':' read by `parseInt`, the minutes after it copied verbatim ("00" when missing), formatted with am/pm (`To12HourOfDigits`, `To12HourTable`, `To12HourRoundTrip`) |
| ScheduleView.To12HourOfDigits | viewmodels/schedule.ts:12-21 | the formatted text is made from the parsed hour and the verbatim minutes, defaulting to "00" |
| ScheduleView.To12HourTable | viewmodels/schedule.ts:17-21 | hour 0 gives "12:MM am", 1-11 am, 12 gives "12:MM pm", 13 and above give hour-12 pm |
| ScheduleView.Format12Table | viewmodels/schedule.ts:17-21 | the same table for the formatting step |
| ScheduleView.To12HourNoMinutes | viewmodels/schedule.ts:15 | "H" formats like "H:00" |
| ScheduleView.To12HourRoundTrip | viewmodels/schedule.ts:12-22 | for "HH:MM" with HH <= 23, `toMinutes(to12Hour(s))` = HH·60+MM |
| ScheduleView.Hour12Back | viewmodels/schedule.ts:17-19 | the 12-hour hour and its period determine the 24-hour hour |
| ScheduleView.Format12Clock | viewmodels/schedule.ts:17-21 | the formatted text is the 12-hour hour, ':', minutes, a space and the period |
| ScheduleView.TimeIndex | viewmodels/schedule.ts:58-70 | the `timeIdx` lookup: the index of a time option, -1 when not an option |
| ScheduleView.ShiftById | viewmodels/schedule.ts:32-41 | the `shiftById` lookup finds a shift with that id, or none when there is none |
| ScheduleView.FindEmployee | viewmodels/schedule.ts:65 | finds an employee with that id, or none when there is none |
| ScheduleView.DaySlots | viewmodels/schedule.ts:37-77 | the slots keep the generated slots' count, order, ids and times |
| ScheduleView.FilledStep | viewmodels/schedule.ts:69-74 | proof step for `PlacedInRange`: one more assignment appends its entry to a slot exactly when the slot's index lies in [si, ei) |
| ScheduleView.AddToSlots | viewmodels/schedule.ts:69-74 | the inner loop appends the entry, in place, to exactly the slots with si <= index < ei; nothing else changes |
| ScheduleView.BuildDaySlots | viewmodels/schedule.ts:24-78 | the nested loops over an array of slots produce `DaySlots` |
| ScheduleView.OtherDayIgnored | viewmodels/schedule.ts:39-41 | an assignment whose shift is unknown or on another date changes nothing |
| ScheduleView.UnlistedTimeSkipped | viewmodels/schedule.ts:58-60 | an assignment whose start or end is not a time option changes nothing |
| ScheduleView.PlacedInRange | viewmodels/schedule.ts:69-74 | a placed assignment reaches exactly the slots in [si, ei); when ei <= si it reaches none |
| ScheduleView.TimesChoice | viewmodels/schedule.ts:48-56 | a manual assignment with both times uses them; otherwise the shift's times are formatted by `to12Hour` |
| ScheduleView.AutoStartReadsBack | viewmodels/schedule.ts:52-55 | an automatic assignment's start text reads back as the shift's minutes |
| ScheduleView.EntryDefaults | viewmodels/schedule.ts:62-72 | a missing name gives "#<employeeId>", a missing role "MANAGER", a missing employee the alert tone |
| ScheduleView.StaffFromCoveringAssignments | viewmodels/schedule.ts:39-75 | every entry in a slot comes from an assignment whose range covers it |
| Skills.FindOp | constants/skills.ts:72 | finds the first comparator character at or after a position |
| Skills.SkipSpaces | constants/skills.ts:72 | skips exactly the run of spaces |
| Skills.MatchSkill | constants/skills.ts:72-73 | the optional case-insensitive `skill\s*:\s*` prefix is taken when present, then the body pattern is matched against the rest (`SkillPrefix`, `MatchBodyQuery`) |
| Skills.ParseQuery | constants/skills.ts:68-83 | null iff the trimmed query is empty; a skill value lies in 0..100 and its name starts with a letter; a name needle is the trimmed query lower-cased |
| Skills.ComparatorsComplement | constants/skills.ts:88-100 | `>` is the negation of `<=`, `<` of `>=`, and `=` is both `>=` and `<=` |
| Skills.PassesSkillCmp | constants/skills.ts:88-100 | each comparator is the matching integer comparison of the value against the target |
| Skills.FindOpAt | constants/skills.ts:72 | the operator search stops at the first comparator character |
| Skills.MatchBodyQuery | constants/skills.ts:72 | "name op digits" with 1-3 digits matches with those three groups |
| Skills.ParseSkillQuery | constants/skills.ts:72-79 | a skill query gives the trimmed name, the comparator and the value clamped to at most 100 |
| Skills.ParsePrefixedSkillQuery | constants/skills.ts:72-79 | the optional "skill: " prefix does not change the result |
| Skills.ParseOfMatch | constants/skills.ts:73-79 | proof step for `ParseSkillQuery`: whatever matches gives the trimmed name, the comparator and the clamped value |
| Skills.ParseQueryExample | constants/skills.ts:63-79 | "skill: Sandwich >= 70" gives skill Sandwich, >=, 70 |
| Skills.ParseQueryClamp | constants/skills.ts:78 | "Coffee > 150" gives value 100 |
| Skills.TooManyDigitsIsName | constants/skills.ts:72-82 | a value of four or more digits falls through to a name query |
| Skills.NonLetterIsName | constants/skills.ts:72-82 | a trimmed query not starting with a letter cannot carry the prefix and is a name query |
| Skills.NonLetterPrefixedIsName | constants/skills.ts:72-82 | after the "skill: " prefix, a body not starting with a letter gives a name query of the whole text |
| Skills.NonLetterPrefixedExample | constants/skills.ts:72-82 | "skill: 1abc > 5" gives a name query |
| Types.RoleTablesInverse | state/types.ts:13-25 | the UI-to-scheduler and scheduler-to-UI role tables are inverse to each other (Closer excluded) |
| EmployeesReducer.AddSetsOne | state/employees.tsx:41-45 | ADD_EMPLOYEE sets the payload under its id; nothing else changes |
| EmployeesReducer.Reduce | state/employees.tsx:39-89 | the reducer, one branch per action type; each branch's effect is stated by the lemmas below |
| EmployeesReducer.UpdateAbsent | state/employees.tsx:48 | UPDATE_EMPLOYEE on an absent id returns the state unchanged |
| EmployeesReducer.UpdateOverlays | state/employees.tsx:49-55 | UPDATE_EMPLOYEE overlays the patch on the record under the same key; nothing else changes |
| EmployeesReducer.OverlayEmpty | state/employees.tsx:53 | an empty patch leaves the record unchanged |
| EmployeesReducer.RemoveOne | state/employees.tsx:57-60 | REMOVE_EMPLOYEE drops exactly that key; assignments are untouched |
| EmployeesReducer.AssignAppends | state/employees.tsx:62-73 | ASSIGN appends the new shift with the fresh id to its start date's list; other dates are unchanged |
| EmployeesReducer.UnassignRemoves | state/employees.tsx:75-84 | UNASSIGN keeps exactly the shifts of that date with another id, in order and with their multiplicities; a date with no list gets an empty one |
| EmployeesReducer.UnassignIdempotent | state/employees.tsx:75-84 | a second UNASSIGN of the same id changes nothing |
| EmployeesReducer.UnknownIsIdentity | state/employees.tsx:86-87 | an unknown action returns the state unchanged |
| EmployeesReducer.ReducePreservesValid | state/employees.tsx:39-89 | every action keeps the keys of both records distinct |
| EmployeesReducer.InitialValid | state/employees.tsx:19-29 | the initial state has distinct keys |
| EmployeeStore.FindIndex | state/employees.ts:69 | `findIndex`: the first index with that id, or none |
| EmployeeStore.Store.constructor | state/employees.ts:34-42 | the list starts as the four initial employees |
| EmployeeStore.Store.GetEmployees | state/employees.ts:54-56 | returns the current list |
| EmployeeStore.Store.SetEmployees | state/employees.ts:59-63 | a list replaces the current one |
| EmployeeStore.Store.SetEmployeesWith | state/employees.ts:59-63 | a function replaces the list by its value on the current list |
| EmployeeStore.Store.UpsertEmployee | state/employees.ts:67-75 | the new list is `Upserted(old list, one)` |
| EmployeeStore.Store.RemoveEmployee | state/employees.ts:78-80 | the new list is `Removed(old list, id)` |
| EmployeeStore.Store.ResetEmployees | state/employees.ts:83-86 | the list is the four initial employees again |
| EmployeeStore.UpsertPresent | state/employees.ts:69-73 | a present id replaces the first element with it in place; length and the other elements are kept |
| EmployeeStore.UpsertAbsent | state/employees.ts:70 | a new id is appended at the end |
| EmployeeStore.UpsertKeepsDistinct | state/employees.ts:67-75 | upsert keeps ids distinct, and the employee is in the result |
| EmployeeStore.UpsertIdempotent | state/employees.ts:67-75 | upserting the same employee twice equals upserting once |
| EmployeeStore.RemoveDropsId | state/employees.ts:79 | remove keeps exactly the elements with another id, in order and with their multiplicities |
| EmployeeStore.RemoveAfterUpsert | state/employees.ts:67-80 | after upsert then remove, no element has that id |
| EmployeeStore.InitialDistinct | state/employees.ts:34-39 | the four initial employees have distinct ids |
| Selectors.SelectAllEmployees | state/selectors.ts:9-13 | a permutation of all employees, highest score first, a missing score counted as 0 |
| Selectors.SelectAssignmentsForDate | state/selectors.ts:15-20 | the date's list, or [] when the date has none (`NoAssignmentsIsEmpty`) |
| Selectors.SelectAvailable | state/selectors.ts:22-31 | the employees in record order, filtered by the demand's score test; Mixed keeps all (`SelectAvailableEligible`) |
| Selectors.SelectAvailableEligible | state/selectors.ts:26-30 | exactly the eligible employees, in record order and with their multiplicities; Mixed gives everyone |
| Selectors.CoffeeOrSandwich | state/selectors.ts:28-29 | no score excludes from both; any score passes one of them; both iff 70 <= score < 80 |
| Selectors.NoAssignmentsIsEmpty | state/selectors.ts:19 | a date with no list gives the empty list |
| Selectors.SelectAfterAssign | state/selectors.ts:15-20 | after ASSIGN the date's list gains the new shift at the end; other dates are unchanged |
| Selectors.SelectAfterUnassign | state/selectors.ts:15-20 | after UNASSIGN the date's list holds exactly the shifts with another id, in order and with their multiplicities |
| Selectors.InitialRanking | state/selectors.ts:9-13 | the seed employees rank Jason (91), Kyle (88), Emil (72), Mat (68) |
| FeedbackRepo.ByEmployee | data/feedback.repo.ts:41-43 | exactly the stored entries of that employee, in storage order and with their multiplicities |
| FeedbackRepo.ByEmployeeAndSkill | data/feedback.repo.ts:48-55 | exactly the stored entries of that employee and skill, in storage order and with their multiplicities |
| FeedbackRepo.ByDate | data/feedback.repo.ts:60-62 | exactly the stored entries of that date, in storage order and with their multiplicities |
| FeedbackRepo.ByDateRange | data/feedback.repo.ts:67-71 | exactly the entries whose date lies between the bounds, both inclusive, by string order; in storage order and with their multiplicities |
| FeedbackRepo.Ratings | data/feedback.repo.ts:80 | ratings lie in 1..5 |
| FeedbackRepo.AverageRating | data/feedback.repo.ts:76-82 | null iff no entry matches; otherwise the mean lies in [1, 5] |
| FeedbackRepo.SliceEnd | data/feedback.repo.ts:104 | `slice(0, limit)` ends at the limit, or at the length; a negative limit counts from the end |
| FeedbackRepo.Repository.constructor | data/feedback.repo.ts:5 | storage starts empty |
| FeedbackRepo.Repository.StoreFeedback | data/feedback.repo.ts:21-35 | appends exactly one entry with the given fields, today's date and the timestamp |
| FeedbackRepo.Repository.GetFeedbackByEmployee | data/feedback.repo.ts:41-43 | the by-employee query on storage |
| FeedbackRepo.Repository.GetFeedbackByEmployeeAndSkill | data/feedback.repo.ts:48-55 | the by-employee-and-skill query on storage |
| FeedbackRepo.Repository.GetFeedbackByDate | data/feedback.repo.ts:60-62 | the by-date query on storage |
| FeedbackRepo.Repository.GetFeedbackByDateRange | data/feedback.repo.ts:67-71 | the date-range query on storage |
| FeedbackRepo.Repository.GetAverageRating | data/feedback.repo.ts:76-82 | the average rating on storage |
| FeedbackRepo.Repository.GetAllFeedback | data/feedback.repo.ts:87-89 | returns a value equal to storage |
| FeedbackRepo.Repository.ClearAllFeedback | data/feedback.repo.ts:94-96 | storage becomes empty |
| FeedbackRepo.Repository.GetRecentFeedback | data/feedback.repo.ts:101-105 | sorts storage in place, newest first, and returns its first `limit` entries (10 by default) |
| FeedbackRepo.Repository.GetFeedbackStats | data/feedback.repo.ts:110-142 | the statistics of storage (`StatsOf`) |
| FeedbackRepo.TallySkills | data/feedback.repo.ts:117-125 | the counting loop produces `Tally(entries)` |
| FeedbackRepo.AverageSkills | data/feedback.repo.ts:128-132 | the averaging loop produces `WithAverages(tallied)` |
| FeedbackRepo.StringLeReflexive | data/feedback.repo.ts:69 | a date lies in the range from itself to itself |
| FeedbackRepo.StringLeAntisymmetric | data/feedback.repo.ts:69 | string order is antisymmetric |
| FeedbackRepo.ByDateRangeOneDay | data/feedback.repo.ts:60-71 | a one-day range is the by-date query |
| FeedbackRepo.StoreExtendsQueries | data/feedback.repo.ts:21-82 | a stored entry is appended to its employee's query results and gives that employee and skill an average |
| FeedbackRepo.RecentAreNewest | data/feedback.repo.ts:101-105 | the sort is a permutation, the slice is newest-first, no left-out entry is newer than an included one, and at most `limit` entries come back |
| FeedbackRepo.RecordStep | data/feedback.repo.ts:120-124 | one more entry adds 1 to its skill's count and appends its rating |
| FeedbackRepo.TallyGet | data/feedback.repo.ts:117-125 | a skill's tally is the count and ratings of exactly its entries, in order |
| FeedbackRepo.TallyDistinct | data/feedback.repo.ts:120-121 | each skill is tallied under one key |
| FeedbackRepo.PutCountSum | data/feedback.repo.ts:123 | replacing one skill's record changes the count total by the difference |
| FeedbackRepo.TallyCount | data/feedback.repo.ts:117-125 | the per-skill counts sum to the number of entries |
| FeedbackRepo.WithAveragesGet | data/feedback.repo.ts:128-132 | averaging keeps keys and counts and sets each average |
| FeedbackRepo.StatsPerSkill | data/feedback.repo.ts:110-141 | null iff the employee has no feedback; otherwise each skill's record holds that skill's count, ratings and average |
| FeedbackRepo.StatsOf | data/feedback.repo.ts:110-141 | null for an employee with no feedback; otherwise the total, the overall mean rating and the per-skill tally with averages (`StatsPerSkill`, `StatsTotals`) |
| FeedbackRepo.StatsTotals | data/feedback.repo.ts:110-141 | total = the employee's entries = sum of per-skill counts; the overall average lies in [1, 5] |
| RoleMappers.DemandToSchedulerRoles | helpers/roleMappers.ts:14-25 | Coffee gives [BARISTA], Sandwich gives [SANDWICH]; never MANAGER, never empty, no repeats |
| RoleMappers.DemandRolesCover | helpers/roleMappers.ts:22-23 | Mixed gives exactly the non-manager roles; the others give one role |
| RoleMappers.ToSchedulerAssignment | helpers/roleMappers.ts:27-43 | Closer maps to BARISTA and other roles through the table; stored ISO times win; tags default to []; employeeId is copied |
| RoleMappers.CloserAsCoffee | helpers/roleMappers.ts:28-31 | a Closer shift maps like a Coffee shift |
| RoleMappers.RoleRoundTrip | helpers/roleMappers.ts:28-31 | mapping back recovers the UI role, with Closer read as Coffee |
| SchedulerIO.SerializeSchedule | helpers/schedulerIO.ts:10-21 | one {id, name} per employee, in order; one scheduler assignment per stored shift |
| SchedulerIO.RoleCoverageFromIndicators | helpers/schedulerIO.ts:24-49 | the loop produces one coverage record per date (`CoverageTable`) |
| SchedulerIO.CoverageFor | helpers/schedulerIO.ts:30-43 | MANAGER 1 always; Coffee adds BARISTA 2, Sandwich adds SANDWICH 2, anything else 1 each of BARISTA, WAITER and SANDWICH (`CoverageMatchesDemandRoles`) |
| SchedulerIO.CoverageMatchesDemandRoles | helpers/schedulerIO.ts:30-43 | MANAGER is always 1; a non-manager role is needed iff the demand's role list holds it |
| SchedulerIO.CoverageTablePerDate | helpers/schedulerIO.ts:29-45 | the output has exactly the input's dates, each with its demand's coverage |
| SchedulerIO.SerializedShifts | helpers/schedulerIO.ts:16-18 | the i-th serialised assignment is the mapping of the i-th shift across all dates |
| SchedulerIO.SerializeAfterAssign | helpers/schedulerIO.ts:10-21 | ASSIGN adds exactly one serialised assignment and leaves the employees unchanged |
| SchedulerIO.PutSumLengths | helpers/schedulerIO.ts:16-17 | replacing one date's list changes the shift total by the difference |
| TimePicker.IndexOf | components/shared/TimePickerRow.tsx:26 | `findIndex`: the first position, or -1 iff absent |
| TimePicker.EffectiveMinIndex | components/shared/TimePickerRow.tsx:27-28 | at most the number of options; for a minimum that is an option, the index just after its first occurrence; 0 for a minimum that is not an option and without a minimum |
| TimePicker.Previous | components/shared/TimePickerRow.tsx:30-36 | the option before the current one when its index is at least the effective minimum, otherwise nothing |
| TimePicker.Next | components/shared/TimePickerRow.tsx:38-43 | the option after the current one unless the current one is last, otherwise nothing |
| TimePicker.IsAtMinimum | components/shared/TimePickerRow.tsx:45 | the current index is at or below the effective minimum (`PreviousSpec` relates it to `Previous`) |
| TimePicker.IsAtMaximum | components/shared/TimePickerRow.tsx:46 | the current index is the last one (`NextSpec` relates it to `Next`) |
| TimePicker.PreviousSpec | components/shared/TimePickerRow.tsx:30-45 | previous emits nothing iff at the minimum; otherwise it emits the option before the current one |
| TimePicker.NextSpec | components/shared/TimePickerRow.tsx:38-46 | next emits nothing iff at the maximum; otherwise it emits the option after the current one |
| TimePicker.UnknownValue | components/shared/TimePickerRow.tsx:26-40 | for a value not in the options, next gives the first option and previous gives nothing |
| TimePicker.NextThenPrevious | components/shared/TimePickerRow.tsx:30-43 | above the minimum, previous undoes next |
| TimePicker.PreviousThenNext | components/shared/TimePickerRow.tsx:30-43 | next undoes previous |
| RolePicker.CurrentIndex | components/shared/RolePickerRow.tsx:24 | the position in ROLE_OPTIONS, or -1 iff absent |
| RolePicker.Previous | components/shared/RolePickerRow.tsx:26-29 | the role before the current one, the last role before the first; index -2 for an unlisted value emits nothing |
| RolePicker.Next | components/shared/RolePickerRow.tsx:31-34 | the role after the current one, the first role after the last and after an unlisted value |
| RolePicker.Wraps | components/shared/RolePickerRow.tsx:26-34 | next from Sandwich wraps to Manager; previous from Manager wraps to Sandwich |
| RolePicker.StepsAreCyclic | components/shared/RolePickerRow.tsx:26-34 | next and previous step by ±1 modulo 4 |
| RolePicker.StepsInverse | components/shared/RolePickerRow.tsx:26-34 | for a listed role, next and previous undo each other |
| RolePicker.FourStepsIdentity | components/shared/RolePickerRow.tsx:31-34 | four nexts return to a listed role (an unlisted value ends at Sandwich) |
| RolePicker.UnknownRole | components/shared/RolePickerRow.tsx:24-32 | for an unlisted value next gives Manager and previous reads index -2, giving nothing |
| Dict.Get | state/employees.tsx:48 | a key lookup succeeds iff the key is present |
| Dict.Put | state/employees.tsx:44 | `{...r, [k]: v}` keeps the key order (new keys go last) and changes the value of `k` only |
| Dict.Remove | state/employees.tsx:58 | the rest pattern drops exactly key `k` |
| Dict.PutDistinct | state/employees.tsx:44 | setting a key keeps keys distinct |
| Dict.RemoveDistinct | state/employees.tsx:58 | removing a key keeps keys distinct |
| Dict.GetAppend | state/employees.tsx:44 | a new last pair is found only when the key was absent |
| Seqs.FilterMultiset | state/selectors.ts:28-29 | `filter` keeps each passing element with its multiplicity and drops the rest |
| Seqs.FilterMembership | state/employees.ts:79 | an element is in the filtered list iff it is in the list and passes |
| Seqs.FilterSubsequence | state/employees.tsx:81 | `filter` keeps order: its result is a subsequence of its input, holding each passing element with its multiplicity and nothing else |
| Seqs.FilterAppend | data/feedback.repo.ts:42 | filtering distributes over concatenation |
| Seqs.FilterFilter | data/feedback.repo.ts:111-125 | filtering twice is filtering by both conditions |
| Seqs.FlattenLength | helpers/schedulerIO.ts:16-17 | `flat()` yields the total of the list lengths |
| Seqs.MeanBounds | data/feedback.repo.ts:80-81 | a mean of values in [lo, hi] lies in [lo, hi] |
| Sorting.SortDescCorrect | state/selectors.ts:10-12 | the sort is a permutation and puts the keys in non-increasing order |
| Sorting.InsertDescCorrect | state/selectors.ts:10-12 | inserting into a sorted list keeps it sorted and adds exactly one element |
| Text.NatToString | viewmodels/schedule.ts:21 | decimal text reads back as the number |
| Text.ParseIntDigits | viewmodels/schedule.ts:14 | `parseInt` of a digit string is its value |
| Text.DigitPrefix | viewmodels/schedule.ts:14 | `parseInt` reads the leading digits |

## Left out

- Firestore access, streaming, the per-document `delete()` calls, the logging `print`s and the HTTP 500 wrapper (backend-cleanup-patch.py:11-13, 88, 90, 101-104): the store is an input sequence and the deletions are the output id list.
- A `role` field present with the value null makes `data.get("role", "").upper()` raise; the model reads an absent role as "" and does not model a null one.
- `time_to_minutes` of a non-string value (`str(time_str)`) is not modelled; times are strings.
- Unicode: `\d`, `\s`, `\w`, `trim()`, `strip()`, `lower()` and `toLowerCase()` are modelled on ASCII only.
- CleanupModel.TimeToMinutes: Python's `strip()` and `\s` also treat U+001C–U+001F as white space, and JavaScript's do not. The model uses the JavaScript set for both. So `time_to_minutes("\x1c9:00 am")` is 540 in the backend, but 0 in the model.
- TimeUtils.ToMinutesAgrees: it relates the two models, which share one white-space set. For text holding U+001C–U+001F the two programs differ, as the previous line says.
- Cleanup.GroupManual: `isManual` is modelled as a boolean. The backend tests its truthiness (backend-cleanup-patch.py:19), so a stored 1 or "yes" counts as manual and 0 or "" does not. Only a boolean field is modelled.
- EmployeesReducer.UpdateOverlays: a patch field given explicitly as `undefined` overwrites the field with `undefined` in `{...old, ...patch}`. The model's patch has no such value: `None` stands for an absent field, which keeps the old value.
- EmployeesReducer.UpdateAbsent: an id naming an inherited property, such as "constructor", is truthy in `state.employees[id]`, so UPDATE_EMPLOYEE adds an own entry built from that function and the patch. The model treats the id as absent and changes nothing.
- FeedbackRepo.StatsOf: a skill named "constructor" (or another inherited name) finds the inherited function in `skillStats`. `count++` then writes NaN onto that inherited object, and `ratings.push` throws a TypeError, so the call throws. The model returns a record for every skill name.
- EmployeeStore.Store.GetEmployees and EmployeeStore.Store.SetEmployees: the source returns and stores the array object itself (state/employees.ts:55, 62), so a caller that mutates it changes the store. The model's list is a value, so this aliasing is not modelled.
- EmployeeStore: the seed employees built by `mkEmp` (state/employees.ts:14-30) carry more fields than the model's `Employee`: employee_id, first and last name, primary_role, the skill values, updated_at_iso. Only id, name, score and fairnessColor are modelled, because no modelled operation reads the others.
- Document ids are assumed distinct, as Firestore ids are. The group lemmas require `DistinctIds`.
- Cleanup.SelectWidest: the fallback at backend-cleanup-patch.py:80-81 fires when the chosen id is falsy. This is modelled as the empty id falling back to the first member. The `None` half of that test is dead code, because the first member always satisfies one of the two branches.
- Cleanup.SelectWidest: `latest_end` (backend-cleanup-patch.py:59, 71, 77) is written but never read. The loop keeps it in a variable of its own, and no contract mentions it.
- `calculateFitness` (helpers/timeUtils.ts:35-62) and `overallScore` are floating-point code. `buildDaySlots` takes the fitness as a function parameter.
- `generateTimeSlots` and `TIME_OPTIONS` are not part of this model. `buildDaySlots` takes the generated slots and the time options as parameters.
- JavaScript numbers are modelled as `int` for minutes and ratings and as `real` for scores and averages. Rounding and NaN are not modelled. A NaN average cannot arise, because an average is only taken of a non-empty list.
- `Date`, `toISOString`, `getTime` and `uuid()` are parameters: a date-key function, an ISO function, a timestamp and a fresh id.
- Dict: JavaScript enumerates integer-like keys (such as the seed employee ids "1" to "4") in ascending numeric order, before the other keys. The model keeps every key in insertion order. The two orders differ once such a key is removed and added again: after REMOVE_EMPLOYEE "2" then ADD_EMPLOYEE "2", `Object.values` gives 1, 2, 3, 4 but `Values` gives 1, 3, 4, 2. ISO date keys are not integer-like.
- Selectors.SelectAvailable, Selectors.SelectAllEmployees and SchedulerIO.SerializeSchedule inherit that difference: the order of the Mixed list, the order among employees with equal scores, and the order of the serialised employees follow insertion order, not JavaScript's integer-key order.
- `roleToDisplayName` on inherited property names such as "constructor" (a prototype lookup) is not modelled. The role map is modelled as its twelve own entries.
- Sorting.SortDescCorrect: stability of `Array.prototype.sort` is not stated. The model sorts stably by insertion, but only the order and the permutation are proved.
- FeedbackRepo.Repository.GetAllFeedback: copying the array is implicit, because sequences are values; that a later change to the copy leaves storage alone holds trivially.
- FeedbackRepo.Repository.GetRecentFeedback: the default parameter applies when the argument is absent (`None`); a JavaScript `undefined` passed explicitly behaves the same way.
- Listeners, `emit`, the `useEmployees` hook and the React Context provider (state/employees.ts:44-49, 88-101; state/employees.tsx:92-125) are not modelled: they only notify.
- The `console.log` in `storeFeedback` is not modelled.
- The selector `e.score! >= 70` on a missing score compares `undefined`, which is false; the model states this as "no score is excluded" rather than modelling the JavaScript coercion.
- Cleanup.SelectWidest: the comment at backend-cleanup-patch.py:79 says the fallback fires "if no valid times found". The code instead tests whether the chosen id is falsy. The model follows the code.
