# Family dinner calendar — a Dafny model

This project models the core of a family dinner-attendance web application:
a weekly calendar where each family member marks, day by day, whether they
will be at dinner (present, absent, or unknown), with per-day notes, a
member roster, a daily headcount, browser reminders at set times of day,
and a LINE bot that sends reminder pushes and answers keywords.

The data lives in a per-family document store. A family (tenant) is chosen
from the signed-in user: a `photoURL` starting `family_` names a shared family,
otherwise the user's uid does. Each family holds:
- a family document;
- a members collection;
- attendance records keyed `${date}_${memberId}`;
- notes;
- the `system/initialization` flag that guards first-run seeding of four default members.

The model is organised by source file:

| module | file | form |
|---|---|---|
| `FamilyTypes` | src/types/index.ts | datatypes, `Filter`, per-date note filter |
| `Strings` | — | the JavaScript string operations the code relies on (`trim`, `includes`, `toLowerCase`, `replace`, `split`) |
| `TimeOfDay` | — | local wall-clock arithmetic, `HH:MM` parsing and formatting |
| `FamilyStore` | src/services/firestoreService.ts | what each store call does to a family, as functions |
| `Bootstrap` | src/services/firestoreService.ts | first-run initialization, as functions over an environment of backend outcomes |
| `Firestore` | src/services/firestoreService.ts | the service object (`FirestoreService` class over a `Database` object) proved against the two modules above |
| `WeeklyCalendar` | src/components/WeeklyCalendar.tsx | the status cycle and the cell default |
| `AppState` | src/App.tsx | the local state and its handlers (`App` class), the calendar projection |
| `MemberManagement` | src/components/MemberManagement.tsx | the roster form (`MemberForm` class), colour choice |
| `NoteModal` | src/components/NoteModal.tsx | the note form (`NoteForm` class), author lookup |
| `NotificationSettings` | src/components/NotificationSettings.tsx | the settings dialog (`SettingsDialog` class) |
| `DailySummary` | src/components/DailySummary.tsx | today's headcount |
| `NotificationService` | src/services/notificationService.ts | the timer scheduler (`Scheduler` class) |
| `AuthComponent` | src/components/AuthComponent.tsx | the sign-in form (`AuthForm` class) |
| `Webhook` | api/webhook.ts | the LINE webhook handler |
| `SendReminder` | api/send-reminder.ts | the reminder cron handler |

What the environment does is an input throughout:
- A backend call that throws is a parameter (`backendError`, `queryError`, `storeFails`, `callbackFails`, the `InitEnv` record).
- Fresh ids and the current instant are parameters.
- Browser timeouts are the `pending` map of `NotificationService.Scheduler`.
- Pushes, replies and sent callbacks are returned values.

Time is a number of milliseconds since local midnight of 1970-01-01 (a
Thursday), with no daylight-saving shift.

## Model

| member | source | states |
|---|---|---|
| FamilyTypes.Filter | src/App.tsx:206 | `Array.prototype.filter`: an element is kept exactly when it was there and passes the test, and the result is no longer than the input |
| FamilyTypes.FilterAppend | src/App.tsx:220 | filtering a concatenation is the concatenation of the filtered parts, so a filter keeps the original order |
| FamilyTypes.NotesForDate | src/components/WeeklyCalendar.tsx:39-41 | `getNotesForDate`: a note is listed exactly when it is in the list and carries that date |
| FamilyTypes.NotesForDateAppend | src/App.tsx:256-258 | adding notes later appends to each date's list and leaves the earlier notes of that date in front |
| FamilyTypes.StatusName | src/types/index.ts:1 | the three status strings; defined by its body; properties in `WeeklyCalendar.NextStatusOfNameAgrees` |
| FamilyTypes.DayOf | src/services/firestoreService.ts:183-185 | `attendance[date] \|\| {}`, the day's map or the empty one; defined by its body; properties in `FamilyStore.ProjectEntries`, `AppState.SetAttendanceEffect` |
| FamilyTypes.OnDate | src/components/WeeklyCalendar.tsx:40 | the per-date test of `getNotesForDate`; defined by its body; properties in `FamilyTypes.NotesForDate` |
| Strings.TrimEmptyIffBlank | src/components/NoteModal.tsx:38 | `!s.trim()` holds exactly when every character of `s` is JavaScript whitespace |
| Strings.TrimIdempotent | src/components/NoteModal.tsx:47 | trimming text that was already trimmed changes nothing |
| Strings.TrimIsSlice | src/components/NoteModal.tsx:47 | the trimmed text is a contiguous piece of the input |
| Strings.LowerKeepsCaselessMatch | api/webhook.ts:79 | lower-casing the text does not change whether a keyword without ASCII letters occurs in it |
| Strings.ReplaceFirstWithoutOccurrence | api/send-reminder.ts:26 | `replace` with a string that does not occur returns the input unchanged |
| Strings.SplitJoin | src/services/notificationService.ts:77 | `split(':')` of `a:b` with no colon in `a` or `b` gives exactly `[a, b]` |
| Strings.StartsWith | src/services/firestoreService.ts:59 | `startsWith`; defined by its body; properties in `FamilyStore.TenantKey`, `FamilyStore.SharedFamilyAccount` |
| Strings.Contains | api/webhook.ts:79 | `includes`; defined by its body; properties in `Webhook.ReplyPrecedence`, `Strings.LowerKeepsCaselessMatch`, `Strings.ReplaceFirstWithoutOccurrence`, `SendReminder.BearerHeaderAccepted` |
| Strings.IsJsWhitespace | src/components/NoteModal.tsx:38 | the characters `trim` removes; defined by its body; properties in `Strings.TrimEmptyIffBlank` |
| Strings.TrimStart | src/components/NoteModal.tsx:47 | the result is a suffix of the input that does not start with whitespace |
| Strings.TrimEnd | src/components/NoteModal.tsx:47 | the result is a prefix of the input that does not end with whitespace |
| Strings.TrimStartDropsWhitespace | src/components/NoteModal.tsx:47 | what the leading trim removes is all whitespace |
| Strings.TrimEndDropsWhitespace | src/components/NoteModal.tsx:47 | what the trailing trim removes is all whitespace |
| Strings.BlankTrimsToEmpty | src/components/NoteModal.tsx:38 | an all-whitespace text trims to nothing |
| Strings.Trim | src/components/NoteModal.tsx:47 | `trim`; defined by its body; properties in `Strings.TrimEmptyIffBlank`, `Strings.TrimIdempotent`, `Strings.TrimIsSlice`, `NoteModal.SentTextIsTrimmed` |
| Strings.LowerChar | api/webhook.ts:79 | `toLowerCase` of one character, ASCII letters only; defined by its body; properties in `Strings.LowerKeepsCaselessMatch` |
| Strings.ToLower | api/webhook.ts:79 | `toLowerCase` keeps the length and lowers each character in place |
| Strings.ReplaceFirst | api/send-reminder.ts:26 | `replace` with a string pattern; defined by its body; properties in `Strings.ReplaceFirstWithoutOccurrence`, `SendReminder.BearerHeaderAccepted`, `SendReminder.UnsetSecret` |
| Strings.Split | src/services/notificationService.ts:77 | `split` on one character never gives an empty list |
| Strings.SplitNoSeparator | src/services/notificationService.ts:77 | a string without the separator splits into itself alone |
| TimeOfDay.DecimalStringValue | api/send-reminder.ts:84 | `toString()` of a number reads back as that number |
| TimeOfDay.DayOfWeek | api/send-reminder.ts:33 | `getDay` is a weekday number below 7, 0 being Sunday |
| TimeOfDay.PadTwoValue | api/send-reminder.ts:84 | `padStart(2, '0')` of an hour or minute is two digits and reads back as the same number |
| TimeOfDay.FormatParseRoundTrip | src/services/notificationService.ts:77 | a formatted `HH:MM` is five characters with a colon in the middle, and `split(':').map(Number)` gives back the hour and minute |
| TimeOfDay.NextOccurrenceProperties | src/services/notificationService.ts:76-89 | the next occurrence of a valid time of day is after now and at most one day later; it falls on that hour and minute with zero seconds; it is today exactly when today's time is still ahead, tomorrow otherwise |
| TimeOfDay.NextOccurrenceAtItself | src/services/notificationService.ts:58-62 | computed at the instant it names, the next occurrence is exactly one day later |
| TimeOfDay.DayStart | src/services/notificationService.ts:81 | local midnight of an instant; defined by its body; properties in `TimeOfDay.NextOccurrenceProperties` |
| TimeOfDay.HoursOf | api/send-reminder.ts:82 | `getHours`; defined by its body; properties in `SendReminder.CurrentTimeIsClock`, `TimeOfDay.NextOccurrenceProperties` |
| TimeOfDay.MinutesOf | api/send-reminder.ts:83 | `getMinutes`; defined by its body; properties in `SendReminder.CurrentTimeIsClock`, `TimeOfDay.NextOccurrenceProperties` |
| TimeOfDay.ToNumber | src/services/notificationService.ts:77 | `Number` of one piece of a time string; defined by its body; properties in `TimeOfDay.PadTwoValue`, `TimeOfDay.FormatParseRoundTrip` |
| TimeOfDay.ParseTime | src/services/notificationService.ts:77 | `split(':').map(Number)`; defined by its body; properties in `TimeOfDay.FormatParseRoundTrip`, `NotificationService.GetNextScheduledTime` |
| TimeOfDay.DecimalString | api/send-reminder.ts:84 | `toString()` is at least one digit: one below 10, two from 10 to 99; its value in `TimeOfDay.DecimalStringValue` |
| TimeOfDay.PadTwo | api/send-reminder.ts:84 | `padStart(2, '0')`; defined by its body; properties in `TimeOfDay.PadTwoValue` |
| TimeOfDay.FormatClock | api/send-reminder.ts:84 | `HH:MM`; defined by its body; properties in `TimeOfDay.FormatParseRoundTrip`, `SendReminder.CurrentTimeIsClock` |
| TimeOfDay.TodayAt | src/services/notificationService.ts:79-81 | `setHours(h, m, 0, 0)` on today's date; defined by its body; properties in `TimeOfDay.NextOccurrenceProperties`, `TimeOfDay.NextOccurrenceAtItself` |
| TimeOfDay.NextOccurrence | src/services/notificationService.ts:79-88 | today's instant if still ahead, else one day later; defined by its body; properties in `TimeOfDay.NextOccurrenceProperties`, `TimeOfDay.NextOccurrenceAtItself`, `NotificationService.NextAfterNow` |
| WeeklyCalendar.NextStatus | src/components/WeeklyCalendar.tsx:16-27 | `getNextStatus` always moves to a different status |
| WeeklyCalendar.NextStatusOfName | src/components/WeeklyCalendar.tsx:16-27 | a value that is none of the three status names moves to unknown (the `default` branch) |
| WeeklyCalendar.NextStatusOfNameAgrees | src/components/WeeklyCalendar.tsx:16-27 | on the three status names, the string switch agrees with the status cycle |
| WeeklyCalendar.CycleOfThree | src/components/WeeklyCalendar.tsx:16-27 | three taps bring a cell back to its starting status |
| WeeklyCalendar.NoShortCycle | src/components/WeeklyCalendar.tsx:16-27 | one or two taps never do |
| WeeklyCalendar.CellStatus | src/components/WeeklyCalendar.tsx:109-110 | a cell without a record shows unknown; a cell with one shows the record's status |
| WeeklyCalendar.HandleStatusChange | src/components/WeeklyCalendar.tsx:43-47 | a tap asks for the next status of what the cell shows, for that member and date: present for an empty cell, never the status shown |
| FamilyStore.TenantKey | src/services/firestoreService.ts:53-65 | the family id is the `photoURL` when it starts with `family_`, otherwise the uid; so it is always the uid or a `family_` name |
| FamilyStore.SharedFamilyAccount | src/services/firestoreService.ts:43-51 | two users with the same `family_` photo URL work on the same family |
| FamilyStore.AttendanceKeyInjective | src/services/firestoreService.ts:195 | for dates without `_`, the key `${date}_${memberId}` determines the date and the member |
| FamilyStore.WriteAttendance | src/services/firestoreService.ts:193-207 | `updateAttendance` replaces the whole record at its key with a new record of the given status and no note; no other record or collection changes |
| FamilyStore.LastWriteWins | src/services/firestoreService.ts:193-207 | two writes to one (member, date) leave one record, holding the second status |
| FamilyStore.WritePreservesKeys | src/services/firestoreService.ts:193-207 | every record still sits under the key made from its own date and member |
| FamilyStore.AttendanceKey | src/services/firestoreService.ts:195 | `${date}_${memberId}`; defined by its body; properties in `FamilyStore.AttendanceKeyInjective`, `FamilyStore.WriteAttendance` |
| FamilyStore.KeysMatchRecords | src/services/firestoreService.ts:195-206 | every record sits at its own key; defined by its body; properties in `FamilyStore.WritePreservesKeys` |
| FamilyStore.ProjectDays | src/services/firestoreService.ts:170-189 | the snapshot projection has a date exactly when some record has that date |
| FamilyStore.ProjectEntries | src/services/firestoreService.ts:183-186 | it has an entry at `[date][member]` exactly when some record has that pair |
| FamilyStore.ProjectLastWins | src/services/firestoreService.ts:183-186 | the entry is the last record with that pair |
| FamilyStore.Place | src/services/firestoreService.ts:183-186 | one step of the snapshot callback; defined by its body; properties in `FamilyStore.ProjectEntries`, `FamilyStore.ProjectLastWins` |
| FamilyStore.Project | src/services/firestoreService.ts:170-189 | the map the snapshot callback builds; defined by its body; properties in `FamilyStore.ProjectDays`, `FamilyStore.ProjectEntries`, `FamilyStore.ProjectLastWins`, `Firestore.ProjectSnapshot` |
| FamilyStore.DeleteMemberCascade | src/services/firestoreService.ts:131-159 | `deleteMember` removes the member and exactly the attendance records and notes with that member id; every other member, record and note is kept as it was |
| FamilyStore.AttendanceOfMember | src/services/firestoreService.ts:139-143 | the attendance query by member; defined by its body; properties in `FamilyStore.DeleteMemberCascade` |
| FamilyStore.NotesOfMember | src/services/firestoreService.ts:149-153 | the notes query by member; defined by its body; properties in `FamilyStore.DeleteMemberCascade` |
| FamilyStore.DeleteMemberBatch | src/services/firestoreService.ts:131-156 | the batch `deleteMember` builds; defined by its body; properties in `FamilyStore.DeleteMemberCascade` |
| FamilyStore.Commit | src/services/firestoreService.ts:158 | `batch.commit()`; defined by its body; properties in `FamilyStore.DeleteMemberCascade` |
| FamilyStore.AddNote | src/services/firestoreService.ts:230-242 | `addNote` adds one note under the fresh id with the given member, date and text, with created and updated times equal; nothing else changes |
| FamilyStore.UpdateNote | src/services/firestoreService.ts:244-250 | `updateNote` on a missing note fails with not-found; otherwise only that note's text and update time change |
| FamilyStore.DeleteNote | src/services/firestoreService.ts:252-255 | `deleteNote` removes only that id (a missing id is a no-op) |
| FamilyStore.AddThenDeleteNote | src/services/firestoreService.ts:230-255 | deleting a note just added restores the family exactly |
| Bootstrap.Classify | src/services/firestoreService.ts:365-379 | an initialization error is tolerated exactly when its message mentions `offline`, `network` or `already-exists`; other errors pass through unchanged |
| Bootstrap.IsTolerated | src/services/firestoreService.ts:368-376 | the error test of the outer catch; defined by its body; properties in `Bootstrap.Classify`, `Bootstrap.FailuresAreNotTolerated` |
| Bootstrap.SeedUpToAll | src/services/firestoreService.ts:443-456 | the batch built member by member is the four-member seed |
| Bootstrap.SeedCount | src/services/firestoreService.ts:444-449 | the seed writes exactly four members, under the four fresh ids |
| Bootstrap.SeedRoster | src/services/firestoreService.ts:444-449 | the seeded members have orders 1 to 4 and four different colours |
| Bootstrap.SeedMembers | src/services/firestoreService.ts:443-456 | the members the seed batch writes; defined by its body; properties in `Bootstrap.SeedUpToAll`, `Bootstrap.SeedCount`, `Bootstrap.SeedRoster` |
| Bootstrap.SeedUpTo | src/services/firestoreService.ts:452-456 | the batch after its first sets; defined by its body; properties in `Bootstrap.SeedUpToAll` |
| Bootstrap.AcquireFlag | src/services/firestoreService.ts:389-432 | when the flag step decides not to proceed, the family is left untouched |
| Bootstrap.EnsureFamilyDoc | src/services/firestoreService.ts:323-335 | step 1, the family document; defined by its body; properties in `Bootstrap.FamilyDocEnsured`, `Bootstrap.FamilyErrorsDoNotAbort` |
| Bootstrap.CheckMembers | src/services/firestoreService.ts:337-364 | step 2, the members check and double check; defined by its body; properties in `Bootstrap.ExistingMembersKept`, `Bootstrap.MembersStepIgnoresFamilyDoc`, `Bootstrap.FailuresAreNotTolerated` |
| Bootstrap.MarkCompleted | src/services/firestoreService.ts:461-469 | the flag update after the commit; defined by its body; properties in `Bootstrap.SeedSuccessMarksFlag` |
| Bootstrap.RollBack | src/services/firestoreService.ts:473-478 | the flag delete after a failure; defined by its body; properties in `Bootstrap.SeedFailureRollsBack` |
| Bootstrap.SeedSafely | src/services/firestoreService.ts:382-481 | `initializeDefaultDataSafely`; defined by its body; properties in `Bootstrap.SeedSafelyMembers`, `Bootstrap.FlagPresentSkipsSeeding`, `Bootstrap.SeedFailureRollsBack`, `Bootstrap.SeedSuccessMarksFlag` |
| Bootstrap.PerformInitialization | src/services/firestoreService.ts:320-380 | `performInitialization`; defined by its body; properties in `Bootstrap.FamilyDocEnsured`, `Bootstrap.ExistingMembersKept`, `Bootstrap.SeedingOnlyIntoEmpty`, `Bootstrap.FailuresAreNotTolerated`, `Bootstrap.FamilyErrorsDoNotAbort`, `Bootstrap.NoDoubleSeeding` |
| Bootstrap.FamilyDocEnsured | src/services/firestoreService.ts:320-335 | when the family calls succeed the family document exists afterwards, and an existing family name is never changed |
| Bootstrap.ExistingMembersKept | src/services/firestoreService.ts:337-359 | a family that has members keeps them and its flag untouched |
| Bootstrap.SeedingOnlyIntoEmpty | src/services/firestoreService.ts:320-380 | the members change only when the family had none, and then they become exactly the four seeded members with a successful outcome |
| Bootstrap.SeedSafelyMembers | src/services/firestoreService.ts:389-480 | the guarded seeding step leaves the members as they were, or adds exactly the four defaults to an empty collection and ends normally |
| Bootstrap.FlagPresentSkipsSeeding | src/services/firestoreService.ts:389-418 | when the flag cannot be created because it already exists, nothing is seeded and the flag is left alone |
| Bootstrap.SeedFailureRollsBack | src/services/firestoreService.ts:471-480 | a failed seed commit leaves no members, deletes the flag, and reports the commit error as classified |
| Bootstrap.SeedSuccessMarksFlag | src/services/firestoreService.ts:458-469 | a successful seed leaves the four members and the flag marked completed, or still initializing when that write fails |
| Bootstrap.FailuresAreNotTolerated | src/services/firestoreService.ts:365-379 | a run reports failure only for an error that is not tolerated; a tolerated error from the members step ends the run as done |
| Bootstrap.FamilyErrorsDoNotAbort | src/services/firestoreService.ts:333-335 | an error on the family document changes neither the outcome nor what happens to members and flag |
| Bootstrap.MembersStepIgnoresFamilyDoc | src/services/firestoreService.ts:337-380 | the members step depends only on members, flag, attendance and notes |
| Bootstrap.NoDoubleSeeding | src/services/firestoreService.ts:320-481 | two runs in a row on an empty family leave either no members or exactly four, never eight |
| Firestore.ProjectSnapshot | src/services/firestoreService.ts:170-189 | the snapshot callback's loop builds exactly the projection of the records |
| Firestore.FirestoreService.UserFamilyId | src/services/firestoreService.ts:53-65 | without a user, `getUserFamilyId` fails with not-logged-in; with one it gives the user's family id |
| Firestore.FirestoreService.SetUser | src/services/firestoreService.ts:43-51 | sets the user and the family id derived from it (none for no user) |
| Firestore.FirestoreService.Valid | src/services/firestoreService.ts:43-51 | the stored family id is the one derived from the stored user; kept by `Firestore.FirestoreService.SetUser` and `Firestore.FirestoreService.Cleanup`, used by `Firestore.FamilyIdAgrees` |
| Firestore.FamilyIdAgrees | src/services/firestoreService.ts:43-65 | the cached family id and `getUserFamilyId` always agree |
| Firestore.FirestoreService.UpdateAttendance | src/services/firestoreService.ts:193-207 | fails without a user or on a backend error, writing nothing; otherwise performs `WriteAttendance` on the user's family and leaves every other family unchanged |
| Firestore.FirestoreService.DeleteMember | src/services/firestoreService.ts:131-159 | builds one batch of the member and its records and notes, and commits it to the user's family only |
| Firestore.FirestoreService.AddNote | src/services/firestoreService.ts:230-242 | returns the new note's id and performs `AddNote` on the user's family only |
| Firestore.FirestoreService.UpdateNote | src/services/firestoreService.ts:244-250 | performs `UpdateNote`, reporting not-found for a missing note and writing nothing then |
| Firestore.FirestoreService.DeleteNote | src/services/firestoreService.ts:252-255 | performs `DeleteNote` on the user's family only |
| Firestore.FirestoreService.StartEnsureFamilyExists | src/services/firestoreService.ts:298-318 | while an initialization is pending a second call joins it and starts nothing; without a user it fails; otherwise it marks one pending for the user's family |
| Firestore.FirestoreService.FinishEnsureFamilyExists | src/services/firestoreService.ts:310-317 | runs the initialization and clears the pending slot on every outcome |
| Firestore.FirestoreService.RunInitialization | src/services/firestoreService.ts:320-380 | performs `PerformInitialization` on that family only |
| Firestore.FirestoreService.InitializeDefaultDataSafely | src/services/firestoreService.ts:382-481 | performs `SeedSafely` on that family only, building the batch member by member |
| Firestore.FirestoreService.Cleanup | src/services/firestoreService.ts:485-489 | forgets the user, the family id and the pending initialization |
| AppState.SetAttendanceEffect | src/App.tsx:167-173 | `handleAttendanceChange` puts a fresh record with the new status at `[date][member]`, creating the day when missing, and keeps every other entry |
| AppState.CellShowsChange | src/App.tsx:167-173 | after the change, the calendar cell of that member and date shows the new status |
| AppState.SetAttendance | src/App.tsx:167-173 | the `setAttendance` update; defined by its body; properties in `AppState.SetAttendanceEffect`, `AppState.CellShowsChange`, `AppState.WeeklyViewShowsChange` |
| AppState.RemoveMemberAttendance | src/App.tsx:209-217 | deleting a member removes its entry from every day and keeps the days and every other entry |
| AppState.NotMember | src/App.tsx:206 | the member filter; defined by its body; properties in `AppState.DeleteMemberLeavesNoTrace`, `AppState.DeleteAbsentMember` |
| AppState.NotOfMember | src/App.tsx:220 | the note filter by member; defined by its body; properties in `AppState.DeleteMemberLeavesNoTrace`, `AppState.DeleteAbsentMember` |
| AppState.ApplyPatchIdempotent | src/App.tsx:199-203 | merging the same partial member twice is merging it once; an empty patch changes nothing |
| AppState.ApplyPatch | src/App.tsx:201 | `{ ...member, ...memberData }`; defined by its body; properties in `AppState.ApplyPatchIdempotent`, `MemberManagement.UpdatePatchRestoresEdit` |
| AppState.UpdateMembers | src/App.tsx:199-203 | `handleUpdateMember` merges the patch into the members with that id and keeps every other member in place |
| AppState.UpdateMembersIdempotent | src/App.tsx:199-203 | repeating the same update changes nothing more |
| AppState.UpdateNoteText | src/App.tsx:234-238 | `handleUpdateNote` changes only the text and update time of the notes with that id, in place |
| AppState.UpdateThenDeleteNote | src/App.tsx:234-242 | deleting a note after editing it leaves the same list as deleting it without the edit |
| AppState.AddThenDeleteNote | src/App.tsx:224-242 | deleting a note just added restores the list |
| AppState.NotNote | src/App.tsx:241 | the note filter by id; defined by its body; properties in `AppState.UpdateThenDeleteNote`, `AppState.AddThenDeleteNote` |
| AppState.StatusViewIsProjection | src/App.tsx:291-297 | the record-list view is the status part of the store's date/member projection |
| AppState.StatusViewLastWins | src/App.tsx:291-297 | in that view the last record of a pair decides its status |
| AppState.WeeklyAttendanceData | src/App.tsx:291-297 | the loop builds exactly that view |
| AppState.PlaceStatus | src/App.tsx:293-296 | one step of the view loop; defined by its body; properties in `AppState.StatusViewIsProjection` |
| AppState.StatusView | src/App.tsx:291-297 | the view for a record list; defined by its body; properties in `AppState.StatusViewIsProjection`, `AppState.StatusViewLastWins`, `AppState.WeeklyAttendanceData` |
| AppState.WeeklyViewAsWritten | src/App.tsx:291-297 | as written, the view exists only while the state is still the initial record list; on the map the handlers store, `forEach` fails |
| AppState.ViewFailsOnFirstSnapshot | src/App.tsx:116-120 | the map the attendance subscription stores from its first snapshot already makes the as-written view fail |
| AppState.ViewFailsAfterChange | src/App.tsx:167-173 | after any attendance change, the view as written fails |
| AppState.WeeklyView | src/App.tsx:291-297 | the intended view over the date/member map: the same days, and each entry's status |
| AppState.WeeklyViewShowsChange | src/App.tsx:167-173 | after a change, the intended view shows the new status at that date and member |
| AppState.StatusOfCell | src/components/WeeklyCalendar.tsx:109-110 | a cell shows a record's status and unknown for anything else, a bare status included |
| AppState.CellAsWired | src/App.tsx:350 | the value a calendar cell gets from the status view; defined by its body; properties in `AppState.CalendarShowsUnknownAsWired`, `AppState.CalendarLosesAbsent` |
| AppState.CalendarShowsUnknownAsWired | src/App.tsx:350 | handed the status view, every calendar cell shows unknown and a tap always asks for present |
| AppState.CalendarLosesAbsent | src/App.tsx:350 | a stored absent is shown as unknown, and a tap then sets present instead of unknown |
| AppState.App.HandleAttendanceChange | src/App.tsx:159-188 | performs `SetAttendance`; members and notes unchanged |
| AppState.App.HandleAddMember | src/App.tsx:191-197 | appends one member with the fresh id and the given data |
| AppState.App.HandleUpdateMember | src/App.tsx:199-203 | performs `UpdateMembers` |
| AppState.App.HandleDeleteMember | src/App.tsx:205-221 | removes the member, its attendance entries and its notes |
| AppState.App.HandleAddNote | src/App.tsx:224-232 | appends one note with the fresh id and equal created and updated times |
| AppState.App.HandleUpdateNote | src/App.tsx:234-238 | performs `UpdateNoteText` |
| AppState.App.HandleDeleteNote | src/App.tsx:240-242 | removes the notes with that id |
| AppState.DeleteMemberLeavesNoTrace | src/App.tsx:205-221 | after deletion no member, note or attendance entry has that id, and everything else remains |
| AppState.DeleteAbsentMember | src/App.tsx:205-221 | deleting an id nobody has changes neither members nor notes |
| MemberManagement.ColorsOf | src/components/MemberManagement.tsx:109 | the colours in use, member by member |
| MemberManagement.FirstUnused | src/components/MemberManagement.tsx:108-111 | the first palette index from a point whose colour is unused, or none when all are used |
| MemberManagement.AvailableColor | src/components/MemberManagement.tsx:108-111 | `getAvailableColor` is the first palette colour no member uses, or the first palette colour when all are used |
| MemberManagement.AvailableColorAvoidsUsed | src/components/MemberManagement.tsx:108-111 | while a palette colour is free, the offered colour is no member's colour |
| MemberManagement.BlankNameIffWhitespace | src/components/MemberManagement.tsx:37 | a name is refused exactly when it is all whitespace |
| MemberManagement.BlankName | src/components/MemberManagement.tsx:37 | `!name.trim()`; defined by its body; properties in `MemberManagement.BlankNameIffWhitespace` |
| MemberManagement.CanDelete | src/components/MemberManagement.tsx:218 | the delete button's enabled condition; defined by its body; properties in `MemberManagement.DeleteCall`, `MemberManagement.DeleteLeavesAMember` |
| MemberManagement.DeleteCall | src/components/MemberManagement.tsx:84-96 | a member's delete button sends that member's id to `onDeleteMember` exactly when more than one member remains (the button is disabled otherwise, src/components/MemberManagement.tsx:218) and the user confirms |
| MemberManagement.DeleteLeavesAMember | src/components/MemberManagement.tsx:214-220 | the last member can never be deleted, and with unique ids every delete the form sends leaves at least one member in the roster |
| MemberManagement.MemberForm.constructor | src/components/MemberManagement.tsx:27-34 | not editing, not adding, an empty name with the first palette colour and order 1 |
| MemberManagement.MemberForm.HandleAddMember | src/components/MemberManagement.tsx:36-61 | a blank name sends nothing; otherwise the untrimmed name, the chosen colour and order `members.length + 1` are sent, and only on success the form resets with the next available colour and closes |
| MemberManagement.MemberForm.ResetAddForm | src/components/MemberManagement.tsx:50-55 | after a successful add the form holds an empty name, the colour `getAvailableColor` suggests for the roster, order 1, and is closed; the edit form is untouched |
| MemberManagement.MemberForm.HandleUpdateMember | src/components/MemberManagement.tsx:63-82 | without an edited member or with a blank name nothing is sent; otherwise name, colour and order go out as a patch, and editing ends only on success |
| MemberManagement.MemberForm.StartEditing | src/components/MemberManagement.tsx:98-101 | editing starts on a copy of that member |
| MemberManagement.MemberForm.CancelEditing | src/components/MemberManagement.tsx:103-106 | editing state is cleared |
| MemberManagement.UpdatePatchRestoresEdit | src/components/MemberManagement.tsx:70-74 | the patch sent, merged into the original member, gives exactly the edited member |
| NoteModal.FindMember | src/components/NoteModal.tsx:95-101 | `members.find`: none exactly when no member has the id, otherwise the first member with it |
| NoteModal.MemberName | src/components/NoteModal.tsx:95-97 | the author's name; `不明` when no member has the id or the member found has an empty name |
| NoteModal.MemberColor | src/components/NoteModal.tsx:99-101 | the author's colour; `#6B7280` when no member has the id or the member found has an empty colour |
| NoteModal.LookupFindsMember | src/components/NoteModal.tsx:95-101 | with unique ids, the lookups give the member's own name and colour |
| NoteModal.DefaultMemberId | src/components/NoteModal.tsx:27 | the first member is selected by default, none for an empty roster |
| NoteModal.NoteForm.constructor | src/components/NoteModal.tsx:26-29 | empty input, the first member selected, not editing |
| NoteModal.NoteForm.MembersChanged | src/components/NoteModal.tsx:31-35 | once members exist and none is selected, the first one is selected |
| NoteModal.NoteForm.HandleAddNote | src/components/NoteModal.tsx:37-54 | blank text is refused exactly when it is all whitespace; otherwise the selected member, the date and the trimmed text are sent, and the input clears only on success |
| NoteModal.NoteForm.HandleUpdateNote | src/components/NoteModal.tsx:56-70 | the same for an edit: the trimmed text is sent and editing ends only on success |
| NoteModal.NoteForm.StartEditing | src/components/NoteModal.tsx:85-88 | editing starts with the note's id and text |
| NoteModal.NoteForm.CancelEditing | src/components/NoteModal.tsx:90-93 | editing state is cleared |
| NoteModal.SentTextIsTrimmed | src/components/NoteModal.tsx:47 | the text sent is already trimmed and not blank |
| NotificationSettings.ToggleMember | src/components/NotificationSettings.tsx:35-44 | a present id is filtered out, an absent one appended |
| NotificationSettings.ToggleFlips | src/components/NotificationSettings.tsx:35-44 | a toggle flips that id's membership and keeps every other id's |
| NotificationSettings.ToggleTwiceRestores | src/components/NotificationSettings.tsx:35-44 | toggling an absent id twice restores the list |
| NotificationSettings.ToggleOffShrinks | src/components/NotificationSettings.tsx:38-39 | removing a present id shortens the list |
| NotificationSettings.NotId | src/components/NotificationSettings.tsx:37 | the filter that removes an id; defined by its body; properties in `NotificationSettings.ToggleMember`, `NotificationSettings.ToggleFlips` |
| NotificationSettings.SettingsDialog.constructor | src/components/NotificationSettings.tsx:19-20 | the dialog opens on a copy of the given settings, not loading |
| NotificationSettings.SettingsDialog.HandleMemberToggle | src/components/NotificationSettings.tsx:35-44 | only the member list of the local settings changes |
| NotificationSettings.SettingsDialog.ToggleEnabled | src/components/NotificationSettings.tsx:122-125 | only `enabled` flips |
| NotificationSettings.SettingsDialog.HandleSaveSettings | src/components/NotificationSettings.tsx:22-33 | the local settings are sent; the dialog closes only on success; loading is false afterwards on every path |
| DailySummary.TodayAttendance | src/components/DailySummary.tsx:18 | today's records, or none when the date is absent |
| DailySummary.PresentCount | src/components/DailySummary.tsx:20-22 | the count never exceeds the roster |
| DailySummary.PresentNames | src/components/DailySummary.tsx:24-26 | as many names are listed as are counted |
| DailySummary.IsPresentIn | src/components/DailySummary.tsx:21 | the present test; defined by its body; properties in `DailySummary.CountedIffPresent` |
| DailySummary.PresentMembers | src/components/DailySummary.tsx:20-25 | the members that pass it; defined by its body; properties in `DailySummary.CountedIffPresent`, `DailySummary.PresentCountAppend`, `DailySummary.MarkedPresentIsCounted` |
| DailySummary.Names | src/components/DailySummary.tsx:26 | `.map(member => member.name)`: one name per member, in order |
| DailySummary.CountedIffPresent | src/components/DailySummary.tsx:20-22 | a member is counted exactly when today's record says present |
| DailySummary.PresentCountAppend | src/components/DailySummary.tsx:20-26 | one more member adds one to the count and its name to the list exactly when present, in roster order |
| DailySummary.NobodyPresent | src/components/DailySummary.tsx:20-26 | nobody present gives zero and an empty list |
| DailySummary.TodayAttendanceAsWired | src/components/DailySummary.tsx:18 | handed the day's member → status map, `attendance[todayStr] \|\| {}` gives `{}` exactly when no member id equals the date |
| DailySummary.CountIsZeroAsWired | src/components/DailySummary.tsx:18-22 | handed the day's member → status map (src/App.tsx:360), the date lookup finds no record map, and the count is zero whatever the statuses are |
| DailySummary.MemberEntryAsWired | src/components/DailySummary.tsx:21 | `todayAttendance[member.id]` as wired; defined by its body; properties in `DailySummary.CountIsZeroAsWired` |
| DailySummary.PresentCountAsWired | src/components/DailySummary.tsx:20-22 | the count as wired; defined by its body; properties in `DailySummary.CountIsZeroAsWired` |
| DailySummary.MarkedPresentIsCounted | src/components/DailySummary.tsx:20-26 | handed the day's records, a member just marked present is counted and listed |
| NotificationService.GetNextScheduledTime | src/services/notificationService.ts:76-89 | none for an unparsable time; for a valid one, after now and at most a day later, on that hour and minute with zero seconds, and today exactly when today's time is still ahead |
| NotificationService.NextScheduledTime | src/services/notificationService.ts:76-89 | `getNextScheduledTime` as a value; defined by its body; properties in `NotificationService.GetNextScheduledTime`, `NotificationService.RearmedNextDay` |
| NotificationService.Due | src/services/notificationService.ts:57 | the `time > now` test; defined by its body; properties in `NotificationService.Scheduler.ArmReminderIfDue`, `NotificationService.Scheduler.ArmDeadlineIfDue` |
| NotificationService.CanSendNotification | src/services/notificationService.ts:171-185 | API present, permission granted, settings enabled; defined by its body; properties in `NotificationService.Scheduler.Fire` |
| NotificationService.StatusText | src/services/notificationService.ts:146 | 出席, 欠席 and 未定 for present, absent and unknown, and only for them |
| NotificationService.StatusEmoji | src/services/notificationService.ts:147 | 🍽️, ❌ and ❓ for present, absent and unknown, and only for them |
| NotificationService.NextAfterNow | src/services/notificationService.ts:57-72 | every parsed time lies ahead, so enabled settings with parsable times always arm both timers |
| NotificationService.RearmedNextDay | src/services/notificationService.ts:58-62 | every time the scheduler arms is an occurrence of its time of day, and a timer re-armed at that instant is due exactly one day later |
| NotificationService.Scheduler.constructor | src/services/notificationService.ts:5-7 | no settings, no timeouts |
| NotificationService.Scheduler.Valid | src/services/notificationService.ts:38-73 | every pending timeout is the one a field names, of its kind; kept by every scheduler method |
| NotificationService.Scheduler.ClearTimeout | src/services/notificationService.ts:41 | `clearTimeout`: that id is no longer pending, nothing else changes |
| NotificationService.Scheduler.SetTimeout | src/services/notificationService.ts:58 | `setTimeout`: a fresh id, pending with the given timer, nothing else changes |
| NotificationService.Scheduler.ClearBoth | src/services/notificationService.ts:39-45 | clearing both ids leaves nothing pending; fields and settings kept |
| NotificationService.Scheduler.ArmReminder | src/services/notificationService.ts:58-62 | the reminder id names a fresh pending reminder timer due at the given time; the deadline id kept |
| NotificationService.Scheduler.ArmDeadline | src/services/notificationService.ts:67-71 | the deadline id names a fresh pending deadline timer due at the given time; the reminder id kept |
| NotificationService.Scheduler.ScheduleNotifications | src/services/notificationService.ts:38-73 | clears both timeouts; with missing or disabled settings nothing is pending; otherwise each timer whose next time is ahead is armed for that time, and no other is pending |
| NotificationService.Scheduler.ArmReminderIfDue | src/services/notificationService.ts:53-63 | the reminder timeout is armed for the next reminder time exactly when that time is ahead of now, otherwise no reminder is pending; the deadline side is untouched |
| NotificationService.Scheduler.ArmDeadlineIfDue | src/services/notificationService.ts:66-72 | the deadline timeout is armed for the next deadline time exactly when that time is ahead of now; every timeout already pending stays as it was |
| NotificationService.Scheduler.UpdateSettings | src/services/notificationService.ts:32-35 | stores the settings and reschedules; no old timeout survives |
| NotificationService.Scheduler.Fire | src/services/notificationService.ts:57-71 | a fired timeout is gone; a notification of its kind goes out exactly when `canSendNotification` allows; both timers are then rescheduled at the fire instant (nothing pending when disabled, each due timer armed for its next time, only new timeouts pending), so a timer firing at its time of day is armed again exactly one day later |
| NotificationService.Scheduler.ClearNotifications | src/services/notificationService.ts:258-267 | nothing pending and both ids forgotten; settings kept |
| NotificationService.Scheduler.Destroy | src/services/notificationService.ts:270-273 | as above, and the settings are forgotten |
| AuthComponent.EmailErrorMessage | src/components/AuthComponent.tsx:64-70 | the three known error codes get their fixed Japanese wording, any other error its own message |
| AuthComponent.AuthForm.constructor | src/components/AuthComponent.tsx:25-30 | login mode, empty fields, not loading |
| AuthComponent.AuthForm.HandleUsernameLogin | src/components/AuthComponent.tsx:77-116 | an empty username or password is refused before any query; login signs in, with the username as display name, exactly when a record matches both fields; registration is refused when the name exists, and otherwise adds exactly one record and switches to login; loading is false after every path that set it |
| AuthComponent.HasMatch | src/components/AuthComponent.tsx:87-89 | the login query is not empty; defined by its body; properties in `AuthComponent.AuthForm.HandleUsernameLogin`, `AuthComponent.RegisteredCanLogIn` |
| AuthComponent.NameTaken | src/components/AuthComponent.tsx:101-103 | the registration query is not empty; defined by its body; properties in `AuthComponent.AuthForm.HandleUsernameLogin`, `AuthComponent.RegistrationKeepsNamesUnique` |
| AuthComponent.AuthForm.HandleEmailLogin | src/components/AuthComponent.tsx:46-75 | an empty e-mail or password is refused with its message; a backend error is shown with the mapped wording; success opens the backend's session; loading is false after every path that set it |
| AuthComponent.RegisteredCanLogIn | src/components/AuthComponent.tsx:99-109 | after registering, the same name and password match a record |
| AuthComponent.RegistrationKeepsNamesUnique | src/components/AuthComponent.tsx:101-108 | a table with unique names keeps them unique through every registration the flow accepts |
| AuthComponent.UsernameSessionKeyedByUid | src/components/AuthComponent.tsx:93-96 | the session this flow opens has no `photoURL`, so its family is keyed by its uid, never by a `family_` name |
| Webhook.StatusFor | api/webhook.ts:28-37 | 405 for any method but POST, 400 for a missing or empty signature whose value is never checked, otherwise 200 (500 when there is no event list) |
| Webhook.ReplyPrecedence | api/webhook.ts:79-94 | the calendar reply exactly when the text has 夕飯 or 予定, even with help words; the usage reply exactly when it has 使い方 or ヘルプ but neither of those; the greeting exactly when it has none |
| Webhook.ReplyKindFor | api/webhook.ts:79-94 | the keyword choice; defined by its body; properties in `Webhook.ReplyPrecedence` |
| Webhook.ReplyKindText | api/webhook.ts:80-93 | the three reply texts; defined by its body; properties in `Webhook.ReplyPrecedence` |
| Webhook.ReplyText | api/webhook.ts:77-94 | the reply text for a message; defined by its body; properties in `Webhook.ReplyPrecedence` |
| Webhook.AfterEvent | api/webhook.ts:46-62 | a follow event only adds or replaces that user's record, always active, and only when the save succeeds: profile found, store up, and no undefined `pictureUrl` unless the store ignores undefined fields; every other record stays |
| Webhook.SavesRecord | api/webhook.ts:48-58 | when the profile `set` succeeds; defined by its body; properties in `Webhook.AfterEvent`, `Webhook.PictureLessFollowerNeverSaved` |
| Webhook.AfterEvents | api/webhook.ts:44-98 | the store after a request's events; defined by its body; properties in `Webhook.FollowerIsActive`, `Webhook.PictureLessFollowerNeverSaved`, `Webhook.StoreDownChangesNothing`, `Webhook.HandleWebhook` |
| Webhook.RepliesFor | api/webhook.ts:44-98 | the replies to a request's events; defined by its body; properties in `Webhook.WelcomeAlwaysSent`, `Webhook.HandleWebhook` |
| Webhook.FollowerIsActive | api/webhook.ts:46-62 | a follower whose profile is found, whose store accepts writes, and whose profile has a picture (or whose store ignores undefined fields) ends up with an active record of their own id |
| Webhook.PictureLessFollowerNeverSaved | api/webhook.ts:52-61 | as the handler runs, a follower without a profile picture is never saved: no new record, and an existing one unchanged |
| Webhook.FollowWithoutPicture | api/webhook.ts:52-61 | a follow by a user without a picture saves nothing as the handler runs, and saves an active record without a picture when undefined fields are ignored |
| Webhook.WelcomeAlwaysSent | api/webhook.ts:64-69 | every follow event gets the welcome reply, whether or not the save failed |
| Webhook.StoreDownChangesNothing | api/webhook.ts:59-61 | when saving fails the error is swallowed and no record changes |
| Webhook.HandleWebhook | api/webhook.ts:27-105 | the guard's status; with it nothing is written or replied; otherwise the events are handled in order, with the store's default settings (undefined fields refused) |
| SendReminder.BearerHeaderAccepted | api/send-reminder.ts:26-29 | `Bearer <secret>` passes; a header without `Bearer ` passes exactly when it is the secret itself |
| SendReminder.UnsetSecret | api/send-reminder.ts:26-29 | with the secret unset, exactly the requests without an `Authorization` header pass |
| SendReminder.TokenOf | api/send-reminder.ts:26 | the token read from the header; defined by its body; properties in `SendReminder.BearerHeaderAccepted`, `SendReminder.UnsetSecret` |
| SendReminder.Authorized | api/send-reminder.ts:26-29 | the token check; defined by its body; properties in `SendReminder.BearerHeaderAccepted`, `SendReminder.UnsetSecret` |
| SendReminder.DayMessage | api/send-reminder.ts:39-51 | Monday, Wednesday and Friday have their own message and every other day has none |
| SendReminder.CurrentTimeIsClock | api/send-reminder.ts:82-84 | `currentTime` is a five-character `HH:MM` that reads back as the hour and minute of invocation |
| SendReminder.CurrentTime | api/send-reminder.ts:82-84 | `currentTime`; defined by its body; properties in `SendReminder.CurrentTimeIsClock` |
| SendReminder.ScheduleFiresIff | api/send-reminder.ts:74-88 | a schedule fires exactly when enabled, for today, and its time string equals `currentTime` character for character |
| SendReminder.Fires | api/send-reminder.ts:74-88 | the store query plus the time filter; defined by its body; properties in `SendReminder.ScheduleFiresIff` |
| SendReminder.MatchingSchedules | api/send-reminder.ts:74-88 | the schedules that fire now; defined by its body; properties in `SendReminder.ScheduleFiresIff` |
| SendReminder.ActiveUserIdsIff | api/send-reminder.ts:54-58 | an id is pushed to exactly when some record with it is active |
| SendReminder.ActiveUserIds | api/send-reminder.ts:54-58 | never more ids than records; membership in `SendReminder.ActiveUserIdsIff` |
| SendReminder.CustomMessage | api/send-reminder.ts:96 | a schedule's own message, or the day's message when it is absent or empty |
| SendReminder.CustomText | api/send-reminder.ts:101 | the custom push text; defined by its body; properties in `SendReminder.CustomPushReachesEveryone`, `SendReminder.ActiveUserReminded` |
| SendReminder.PushesTo | api/send-reminder.ts:63-68 | one push of the text to each user, in order |
| SendReminder.CustomPushCount | api/send-reminder.ts:93-107 | the custom pushes number schedules × users |
| SendReminder.PushCount | api/send-reminder.ts:63-107 | total pushes = users × (1 + matching schedules) |
| SendReminder.CustomPushReachesEveryone | api/send-reminder.ts:93-104 | each matching schedule reaches every active user with its own text |
| SendReminder.CustomPushes | api/send-reminder.ts:93-104 | the custom pushes; defined by its body; properties in `SendReminder.CustomPushCount`, `SendReminder.CustomPushReachesEveryone`, `SendReminder.PushSchedules` |
| SendReminder.PlannedPushes | api/send-reminder.ts:61-107 | all pushes of a run; defined by its body; properties in `SendReminder.PushCount`, `SendReminder.SendReminders`, `SendReminder.ActiveUserReminded` |
| SendReminder.PushToEach | api/send-reminder.ts:63-69 | the loop makes exactly one push to each user, in order |
| SendReminder.PushSchedules | api/send-reminder.ts:90-106 | for each matching schedule in turn, its custom text (own message, or the day's when empty) is pushed to every user |
| SendReminder.SendReminders | api/send-reminder.ts:61-108 | the pushes are the planned ones and `sentCount` is their number, users × (1 + matching) |
| SendReminder.HandleReminder | api/send-reminder.ts:24-120 | 401 with nothing sent unless the token matches; on other days 200 "No reminder scheduled", nothing sent and no schedule read; a failing query gives 500; otherwise the planned pushes, and a response reporting the user count and the matching-schedule count |
| SendReminder.StatusCode | api/send-reminder.ts:28-118 | 401, 200 or 500 by response; defined by its body; properties in `SendReminder.HandleReminder` |
| SendReminder.NoReminderMessage | api/send-reminder.ts:49 | the other-day message; defined by its body; properties in `SendReminder.HandleReminder` |
| SendReminder.SentMessage | api/send-reminder.ts:112 | the success message; defined by its body; properties in `SendReminder.HandleReminder` |
| SendReminder.ActiveUserReminded | api/send-reminder.ts:54-108 | an active user gets the day's message and every matching schedule's text |

## Findings

| source | as written | input that shows it | evidently intended | confidence | as-written member | corrected member |
|---|---|---|---|---|---|---|
| src/App.tsx:291-297 | `attendance.forEach` treats the attendance state as a record array, but both the subscription callback and `handleAttendanceChange` store a date/member map in it | no tap is needed: the attendance subscription's callback (src/App.tsx:116-120) stores the date/member map built by src/services/firestoreService.ts:170-189, so the first snapshot already makes the render throw (the map has no `forEach`); a status change (src/App.tsx:167-173) stores such a map too | the view built from the date/member map, showing every stored status, including a new one | not executed | AppState.ViewFailsOnFirstSnapshot | AppState.WeeklyViewShowsChange |
| src/App.tsx:350, src/App.tsx:360 | both components receive the date → member → status view. The calendar (src/components/WeeklyCalendar.tsx:109-110) reads `.status` of each entry, which a bare status lacks. The summary gets the day's member → status map and looks the date up in it again (src/components/DailySummary.tsx:18), finding `{}`. This input arises only once the row above is fixed, since the render throws first | a stored `absent` for m1 on 2024-05-01: the cell shows unknown and a tap sends present; on any day, today's count is 0 | pass the records and the weekly map, so that cells show the stored status and present members are counted | not executed | AppState.CalendarLosesAbsent, DailySummary.CountIsZeroAsWired | AppState.CellShowsChange, DailySummary.MarkedPresentIsCounted |
| api/webhook.ts:52-61 | `pictureUrl: profile.pictureUrl` is undefined for a LINE user without a profile picture. The store from `getFirestore()` (api/webhook.ts:17) keeps the default `ignoreUndefinedProperties` off, so `set` rejects the document and the catch swallows the error | user U1 with profile `Taro` and no picture follows: no `lineUsers` record is written, so U1 never gets a reminder | the record saved without a picture | not executed | Webhook.FollowWithoutPicture, Webhook.PictureLessFollowerNeverSaved | Webhook.FollowerIsActive (with undefined fields ignored) |

## Left out

- The `addMember`/`updateMember` store calls and the live subscriptions' lifetimes (`onSnapshot`). Only the snapshot callbacks' bodies are modelled. Concurrency between devices, and the real atomicity of the init flag across devices, cannot be shown by a sequential model.
- The waiter of a pending initialization receives the pending run's result in the source; `StartEnsureFamilyExists` returns `Joined` instead.
- `serverTimestamp` and `new Date()`: each becomes the `now` parameter. Several `new Date()` calls in one handler are treated as one instant.
- The connection probe, polling and the random invite code (src/services/firestoreService.ts:261-289): network, timers and randomness.
- src/hooks/useFirestore.ts, src/utils/dateUtils.ts and src/config/firebase.ts: hooks, date-fns wrappers and configuration. Dates are opaque `YYYY-MM-DD` strings.
- Browser `Notification` and service-worker calls (src/services/notificationService.ts:92-136, 188-255). `Fire` reports which notification would go out; the browser's API availability and permission are parameters.
- api/register-user.ts and api/update-schedules.ts: store writes behind one-line validation.
- Toasts, JSX rendering and the presentation-only components.
- The NoteModal delete (src/components/NoteModal.tsx:72-83): it is only a confirm dialog around `onDeleteNote`, whose effect is `AppState.App.HandleDeleteNote`.
- `NotificationSettings.Settings`: the settings type is not declared in src/types/index.ts. Its four fields are those of the application's defaults (src/App.tsx:34-39).
- `Number()` on `HH:MM` pieces: only digit strings (empty reads as 0) are numbers; signs, spaces, decimals and exponents are treated as not a number.
- `toLowerCase` is modelled on ASCII letters only. The keywords it matters for contain no letters of any cased script.
- Daylight-saving shifts and time zones: the server's clock and the browser's are both the local clock of module TimeOfDay.
- AppState.App.HandleDeleteMember: the source mutates the previous state's day objects while copying only the outer map. The model builds new values, so sharing between old and new React state is not represented.
- MemberManagement.MemberForm.HandleAddMember: the next colour is chosen from the roster as it was before the add (the component's prop when the handler runs). The member just added is not yet in it.
- AuthComponent.AuthForm.HandleUsernameLogin: a backend error is modelled at the first query only. A failure of `signInAnonymously`, `updateProfile` or `addDoc` after a successful query is not modelled separately; the source reports all of them through the same catch.
- AuthComponent.AuthForm.HandleEmailLogin: sign-in and account creation are one backend step that either gives a user or throws. The success toasts are not modelled; `shown` is the error toast's text.
- SendReminder.HandleReminder: the store and push failures that give 500 are modelled as one failure before any push. Pushes made before a later push fails are not modelled.
- Webhook.HandleWebhook: events are handled in array order, whereas the source runs them concurrently. A failing `replyMessage` (which gives 500) is not modelled. The profile lookup fails exactly for users without a known profile. The handler keeps the source's behaviour for followers without a picture (they are not saved); the corrected behaviour is stated with undefined fields ignored.
- The security of the plaintext credential table is not a property of this model.
