# Scripture-memory scheduler — a Dafny model

This project models the core of a scripture-memory app with spaced repetition. Each verse the
user memorises sits in one of four buckets, visited less and less often:

- **Daily**: every day.
- **OddEven**: odd or even days of the month.
- **DaysOfWeek**: one weekday.
- **DatesOfMonth**: one date of the month.

A verse is due on a day when it is daily or when its bucket position matches that day's slot.
A practice session walks through the due verses and collects one "mastered / not yet" answer
per verse. When the session completes, the batch is applied: every answered verse is stamped
with the practice time, and each mastered verse below Dates of Month moves one bucket on, to a
slot that is not today's; a verse already in Dates of Month stays where it is. The app also
keeps a practice streak and offers a bucket browser that steps through weekdays and dates. Verses are added through a form that searches a built-in KJV table.

The model has one module per source component:

| module | models | form |
|---|---|---|
| `Types` | `src/types/index.ts` | datatypes |
| `Scheduler` | the due rule and the promotion of `src/App.tsx` | functions and lemmas |
| `Streak` | the start-up streak check and the practice stamp of `src/App.tsx` | functions and lemmas |
| `App` | the app state | class `AppState`, whose handlers reassign `user`, `verses` and `isPracticing` |
| `VerseBuckets` | `src/components/VerseBuckets.tsx` | pure section lists plus class `BucketBrowser` (selected weekday and date, dialog flag) |
| `DailyPractice` | `src/components/DailyPractice.tsx` | pure feedback text plus class `PracticeSession` |
| `AddVerseModal` | `src/components/AddVerseModal.tsx` | pure search and form transitions plus class `AddVerseForm` |
| `Seqs` | `Array.prototype.filter`, `slice(0, n)` and `String.prototype.includes` | generic helpers |

Several things are inputs rather than computed:

- **Clock.** A day is a `CalendarDay`: a day number, a day of the month and a weekday. Weekdays
  run 0..6 with Sunday as 0, as in `Date.getDay()`. Timestamps such as `now` and `dateAdded` are
  opaque strings passed in.
- **Ids.** Verse ids are parameters.
- **KJV table.** The form's table is a parameter: a sequence of (reference, text) pairs in the
  table's own order.

A stored bucket position is an `Option<int>` that nothing validates. The model proves two
things about it:

- A position outside its bucket's domain is never due.
- Promotion only ever writes positions inside the domain.

## Model

| member | source | states |
|---|---|---|
| Types.TranslationIndex | src/components/AddVerseModal.tsx:58 | the form offers each of the five translations exactly once, in the order KJV, NIV, ESV, NASB, NLT |
| Types.Rank | src/types/index.ts:3 | the four buckets form a chain; each has exactly one place in promotion order |
| Scheduler.ParityMatches | src/App.tsx:73 | an odd/even position matches a day exactly when it is slot 1 on an odd date or slot 2 on an even date; the bucket browser uses the same rule (src/components/VerseBuckets.tsx:63) |
| Scheduler.IsDue | src/App.tsx:70-76 | a daily verse is always due; any other due verse has a position, and on a valid day that position lies in its bucket's domain |
| Scheduler.TodaysSlot | src/App.tsx:66-75 | on a valid day, the slot a non-daily verse needs to be due lies in its bucket's domain: 1 or 2, 0..6, or 1..31 |
| Scheduler.DueIffTodaysSlot | src/App.tsx:70-76 | due exactly when daily or holding today's slot (odd day → slot 1, even day → 2, the weekday, the date); a missing or out-of-domain position is never due |
| Scheduler.EveryInDomainPositionIsReachable | src/App.tsx:70-76 | every in-domain position of a non-daily bucket is due on some valid day |
| Scheduler.DueVerses | src/App.tsx:65-77 | today's list holds exactly the stored verses that are due, in stored order (a subsequence) |
| Scheduler.DailyAlwaysDue | src/App.tsx:71 | every daily verse is in every day's list |
| Scheduler.OutOfDomainNeverListed | src/App.tsx:72-75 | a non-daily verse with a missing or out-of-domain position is in no day's list |
| Scheduler.DueVersesAppend | src/App.tsx:65-77 | appending a verse appends it to a day's list exactly when it is due that day |
| Scheduler.NewVerse | src/App.tsx:79-89 | a new verse carries the given id and date added and the submitted reference, text and translation; it is unmastered, daily, with no position, no practice stamp and no notes, and it is due on every day |
| Scheduler.Promote | src/App.tsx:94-134 | stamps the practice time and keeps identity and content; moves at most one bucket on, exactly one on mastery below the last; a "not yet" answer or a verse already in DatesOfMonth changes only the stamp; never loses mastery |
| Scheduler.PromoteStaysInDomain | src/App.tsx:110-125 | the new positions (2 on odd days, else 1; next weekday; `date % 31 + 1`) lie in the new bucket's domain |
| Scheduler.NotDueOnPromotionDay | src/App.tsx:104-127 | a verse promoted today is not due again today |
| Scheduler.FirstDueDay | src/App.tsx:104-127 | a verse promoted out of Daily is due tomorrow iff the date's parity flips; one out of OddEven is always due tomorrow; one out of DaysOfWeek is due tomorrow iff the date advances by one or today is the 31st |
| Scheduler.FindResult | src/App.tsx:95 | finds the first result with the verse's id, and none exactly when no result carries it |
| Scheduler.UpdateVerse | src/App.tsx:95-134 | a verse with no result is returned unchanged; a verse with a result is stamped, keeps its id, and is promoted by its first result's answer |
| Scheduler.ApplyResults | src/App.tsx:94-135 | length and order kept; id, reference, text, translation, date added and notes kept; a verse without a result is unchanged; a verse with a result becomes Promote of it with its first result's answer, so it is stamped, and a mastered answer below DatesOfMonth moves it exactly one bucket on; a first result of "not yet" changes only the stamp; buckets and mastery never move back |
| Scheduler.ReplayMonotonic | src/App.tsx:104-131 | over any series of answers, the id, reference, text, translation, date added and notes are kept, mastery is never lost and the bucket never moves back |
| Scheduler.ReplayAbsorbing | src/App.tsx:128-130 | DatesOfMonth is absorbing: any series of answers changes only the last-practised stamp |
| Scheduler.ReplayAllMastered | src/App.tsx:104-131 | n mastered answers move a verse n buckets on, capped at DatesOfMonth |
| Scheduler.ReplayStaysInDomain | src/App.tsx:104-131 | from in-domain data, no series of answers on valid days produces an out-of-domain position |
| Scheduler.WorkedExample | src/App.tsx:104-127 | a new verse mastered on Tuesday the 10th goes to slot 1; mastered again on Wednesday the 11th it goes to weekday 4; mastered on the 31st it goes to date 1 |
| Streak.Guest | src/App.tsx:11-16 | the app starts with a guest who has streak 0 and no practice date |
| Streak.StreakUpdate | src/App.tsx:43-59 | the streak rule with the judged date apart from the updated user: no date leaves the user alone; yesterday gives streak + 1 dated today; today leaves the user alone; any other date resets the streak to 0 and changes nothing else |
| Streak.AdvanceStreak | src/App.tsx:41-61 | the intended check on the user's own date: no last date: nothing changes; last practice yesterday: streak + 1 and dated today; last practice today: nothing changes; otherwise the streak resets to 0 and the date is kept |
| Streak.StartupCheckAsWritten | src/App.tsx:41-61 | as written, the check judges the first render's guest, who has no practice date, so the loaded user comes out unchanged |
| Streak.StaleStartupCheckKeepsBrokenStreak | src/App.tsx:41-61 | a stored user with a streak of 5 and practice three days ago keeps the streak 5 as written, where the intended rule resets it to 0 |
| Streak.RecordPractice | src/App.tsx:137-141 | a finished session records today and leaves the streak untouched |
| Streak.AdvanceStreakIdempotent | src/App.tsx:41-61 | a second start-up check on the same day changes nothing |
| Streak.CheckAfterPracticeIsNoOp | src/App.tsx:41-61 | after practice is recorded today, the start-up check leaves the user alone |
| Streak.ConsecutiveDaysExtendStreak | src/App.tsx:41-61 | starting and practising on n consecutive days right after the last practice adds n to the streak |
| Streak.GapResetsStreak | src/App.tsx:54-59 | a gap of two or more days resets the streak to 0, and practising then leaves it 0, dated today |
| Streak.StreakExample | src/App.tsx:48-53 | a streak of 4 with practice yesterday becomes 5, dated today |
| App.CompletedSessionStampsPractisedVerses | src/App.tsx:91-135 | applying a session's results stamps every practised stored verse and leaves every verse the session did not cover unchanged |
| App.AppState.constructor | src/App.tsx:11-19 | the app starts as a guest with streak 0, no practice date, no verses, not practising |
| App.AppState.TodaysVerses | src/App.tsx:63-77 | the due list is exactly the stored verses that are due today |
| App.AppState.StartPractice | src/App.tsx:178-185 | offered only with a non-empty due list; starts a session over exactly today's due list, with no results yet |
| App.AppState.CheckStreak | src/App.tsx:41-61 | the user becomes the intended streak check's result; verses and practice mode are untouched |
| App.AppState.HandleAddVerse | src/App.tsx:79-89 | the new daily verse is appended; the user is untouched; every day's due list gains exactly that verse at its end |
| App.AppState.HandlePracticeComplete | src/App.tsx:91-144 | the verses become the batch update; the user gets today's practice date with the streak unchanged; practice mode ends |
| VerseBuckets.BucketVerses | src/components/VerseBuckets.tsx:22-25 | a bucket's list holds exactly the verses of that bucket, in stored order |
| VerseBuckets.BucketsPartition | src/components/VerseBuckets.tsx:22-25 | the four bucket lists partition the verses: as multisets they add up to the verses, and their lengths add up to the count |
| VerseBuckets.AtPosition | src/components/VerseBuckets.tsx:72 | the weekday and date sections hold exactly the bucket's verses at the selected position |
| VerseBuckets.OddEvenToday | src/components/VerseBuckets.tsx:62-64 | the odd/even section holds exactly the odd/even verses matching today's parity, as a subsequence of the odd/even bucket |
| VerseBuckets.OddEvenTodayIsDue | src/components/VerseBuckets.tsx:62-64 | the odd/even section equals the odd/even part of the app's due list, because both use the same parity rule |
| VerseBuckets.SelectedTodayIsDue | src/components/VerseBuckets.tsx:72-86 | with today's weekday or date selected, the weekly or monthly section equals that bucket's part of the due list |
| VerseBuckets.DailyListIsDue | src/components/VerseBuckets.tsx:22 | the daily section equals the daily part of the due list |
| VerseBuckets.Panels | src/components/VerseBuckets.tsx:50-95 | four sections in bucket order. Daily shows the whole daily bucket. Odd/Even shows exactly the odd/even verses matching today's parity. Days of Week and Dates of Month show exactly their bucket's verses at the selected weekday or date, whether or not that is today. Each of the last three also carries its whole bucket, and its shown list is a subsequence of it and no longer. Daily and Odd/Even are always current; Days of Week is current iff the selected weekday is today's; Dates of Month is current iff the selected date is today's |
| VerseBuckets.CurrentPanelsShowDueVerses | src/components/VerseBuckets.tsx:50-95 | a section marked current shows exactly today's due verses of its bucket |
| VerseBuckets.DueListSplitsIntoPanels | src/components/VerseBuckets.tsx:50-95 | viewing today, the four sections together show each due verse exactly once |
| VerseBuckets.NextDay | src/components/VerseBuckets.tsx:33-35 | the next weekday is day + 1, with Saturday (6) wrapping to Sunday (0) |
| VerseBuckets.PrevDay | src/components/VerseBuckets.tsx:29-31 | the previous weekday is day − 1, with Sunday (0) wrapping to Saturday (6) |
| VerseBuckets.DayStepsInverse | src/components/VerseBuckets.tsx:29-35 | stepping back and forward through the week undo each other |
| VerseBuckets.NextDate | src/components/VerseBuckets.tsx:41-43 | the next date stays in 1..31; it is date + 1, with 31 wrapping to 1 |
| VerseBuckets.PrevDate | src/components/VerseBuckets.tsx:37-39 | as written, the backward date step stays in 1..31 |
| VerseBuckets.PrevDateIsIdentity | src/components/VerseBuckets.tsx:37-39 | as written, the backward date step is the identity on 1..31 |
| VerseBuckets.PrevDateDoesNotUndoNextDate | src/components/VerseBuckets.tsx:37-43 | forward then back from the 5th lands on the 6th: the backward step does not undo the forward step |
| VerseBuckets.PrevDateIntended | src/components/VerseBuckets.tsx:37-39 | the intended backward step: date − 1, with 1 wrapping to 31 |
| VerseBuckets.DateStepsInverse | src/components/VerseBuckets.tsx:37-43 | the intended backward step and the forward step undo each other on 1..31 |
| VerseBuckets.BucketBrowser.constructor | src/components/VerseBuckets.tsx:14-16 | the browser opens on today's weekday and date, with the dialog closed |
| VerseBuckets.BucketBrowser.CurrentPanels | src/components/VerseBuckets.tsx:75-88 | the displayed sections; the weekday and date sections are current iff they show today |
| VerseBuckets.BucketBrowser.HandlePrevDay | src/components/VerseBuckets.tsx:29-31 | the selected weekday steps back with wrap-around; nothing else changes |
| VerseBuckets.BucketBrowser.HandleNextDay | src/components/VerseBuckets.tsx:33-35 | the selected weekday steps forward with wrap-around; nothing else changes |
| VerseBuckets.BucketBrowser.HandlePrevDate | src/components/VerseBuckets.tsx:37-39 | as written, the selected date stays the same; nothing else changes |
| VerseBuckets.BucketBrowser.HandleNextDate | src/components/VerseBuckets.tsx:41-43 | the selected date steps forward, 31 wrapping to 1; nothing else changes |
| VerseBuckets.BucketBrowser.OpenAddModal | src/components/VerseBuckets.tsx:114 | the add-verse dialog opens; the selection is kept |
| VerseBuckets.BucketBrowser.CloseAddModal | src/components/VerseBuckets.tsx:161 | the dialog closes; the selection is kept |
| VerseBuckets.BucketBrowser.HandleAddVerse | src/components/VerseBuckets.tsx:45-48 | the submission is forwarded to the app unchanged and the dialog closes |
| DailyPractice.GetFeedbackMessage | src/components/DailyPractice.tsx:20-35 | the message quotes the verse's reference |
| DailyPractice.FeedbackNamesPromotionTarget | src/components/DailyPractice.tsx:20-35 | below the last bucket, the message announces a move to the bucket the promotion actually moves the verse to; in DatesOfMonth it announces no move, and the promotion indeed keeps the verse there |
| DailyPractice.PracticeSession.constructor | src/components/DailyPractice.tsx:12-15 | a session starts at the first verse, text hidden, no results, no feedback |
| DailyPractice.PracticeSession.Progress | src/components/DailyPractice.tsx:64 | the "k of n" label has 1 ≤ k ≤ n, and n is the number of verses |
| DailyPractice.PracticeSession.RevealVerse | src/components/DailyPractice.tsx:80 | the verse text is shown; nothing else changes |
| DailyPractice.PracticeSession.HandleResponse | src/components/DailyPractice.tsx:37-57 | appends one result for the current verse; shows feedback iff mastered; on the last verse completes with exactly one result per verse, in order; otherwise moves to the next verse, hides its text and clears the feedback |
| AddVerseModal.LowerChar | src/components/AddVerseModal.tsx:20 | ASCII lower-casing: upper-case letters map to their lower-case forms and every other character is kept |
| AddVerseModal.Lower | src/components/AddVerseModal.tsx:20 | lower-casing keeps the length and lower-cases each character |
| AddVerseModal.LowerIdempotent | src/components/AddVerseModal.tsx:20-24 | lower-casing twice is lower-casing once |
| AddVerseModal.IncludesLower | src/components/AddVerseModal.tsx:22-24 | a run contained in a string stays contained once both are lower-cased |
| AddVerseModal.Search | src/components/AddVerseModal.tsx:21-26 | the first five matching entries in table order: a prefix of the list of all matches, of length five or the number of matches if smaller |
| AddVerseModal.FilteredVerses | src/components/AddVerseModal.tsx:18-27 | empty search: no suggestions; otherwise the first five table entries, in table order, whose reference or text contains the term ignoring ASCII case (all of them when there are fewer than five) |
| AddVerseModal.SearchIgnoresCase | src/components/AddVerseModal.tsx:18-27 | terms differing only in ASCII case give the same suggestions |
| AddVerseModal.ExactContainmentMatches | src/components/AddVerseModal.tsx:22-24 | an entry containing the term verbatim, in reference or text, matches |
| AddVerseModal.PickedReferenceIsFound | src/components/AddVerseModal.tsx:29-31 | after a suggestion is picked, the search box holds its reference and the suggestion list is not empty |
| AddVerseModal.Lookup | src/components/AddVerseModal.tsx:40 | a table lookup finds a text stored under the key, and nothing exactly when no entry has that key |
| AddVerseModal.TextOf | src/components/AddVerseModal.tsx:33 | the text of a known reference is a table entry's text for it |
| AddVerseModal.InitialForm | src/components/AddVerseModal.tsx:12-16 | the form opens empty, under KJV, outside custom mode, and consistent |
| AddVerseModal.SelectVerse | src/components/AddVerseModal.tsx:29-35 | picking a suggestion sets both the selection and the search box to its reference; under KJV the text box gets the table text, otherwise it is kept; consistency is preserved |
| AddVerseModal.ChangeTranslation | src/components/AddVerseModal.tsx:47-56 | away from KJV: custom mode on and text cleared; back to KJV with a selection: custom mode off and the table text restored; back to KJV without one: only the translation changes; consistency is preserved |
| AddVerseModal.SubmittedReference | src/components/AddVerseModal.tsx:39 | a custom verse's reference is the typed one, otherwise the selection |
| AddVerseModal.SubmittedText | src/components/AddVerseModal.tsx:40 | a custom verse or a non-KJV translation uses the typed text; under KJV outside custom mode the text is the selection's table text, absent exactly when the selection is not in the table |
| AddVerseModal.Submit | src/components/AddVerseModal.tsx:37-45 | the submit handler hands on a verse only when reference and text are both non-empty, in the form's translation; custom mode uses the typed reference and text; KJV table mode hands on exactly the selected table entry |
| AddVerseModal.SubmitForm | src/components/AddVerseModal.tsx:37-45 | pressing "Add Verse" hands on nothing while the required reference or text box is empty (lines 102 and 135), otherwise what the submit handler hands on |
| AddVerseModal.ClearedReferenceBoxBlocksSubmission | src/components/AddVerseModal.tsx:95-103 | an empty reference box blocks the submission |
| AddVerseModal.TableModeIgnoresEditedText | src/components/AddVerseModal.tsx:40 | under KJV outside custom mode, editing the text box (without emptying it) does not change what is handed on: the table text is used |
| AddVerseModal.SelectThenSubmit | src/components/AddVerseModal.tsx:29-45 | picking a suggestion under KJV and pressing "Add Verse" hands on exactly that table entry |
| AddVerseModal.SubmitIgnoresSearchBoxOutsideCustomMode | src/components/AddVerseModal.tsx:39 | outside custom mode, retyping a non-empty search box does not affect what is handed on; only emptying it blocks the submission |
| AddVerseModal.TranslationRoundTrip | src/components/AddVerseModal.tsx:47-56 | leaving KJV and coming back with a verse selected restores its table text and ends custom mode |
| AddVerseModal.AddVerseForm.Snapshot | src/components/AddVerseModal.tsx:12-16 | the form's five fields as one value |
| AddVerseModal.AddVerseForm.constructor | src/components/AddVerseModal.tsx:12-16 | the form opens in the initial state |
| AddVerseModal.AddVerseForm.VisibleSuggestions | src/components/AddVerseModal.tsx:107-121 | suggestions are shown only under KJV, and there are at most five |
| AddVerseModal.AddVerseForm.SetSearchTerm | src/components/AddVerseModal.tsx:99 | typing in the reference box changes only the search term |
| AddVerseModal.AddVerseForm.SetCustomText | src/components/AddVerseModal.tsx:132 | typing in the text box changes only the text |
| AddVerseModal.AddVerseForm.SetCustomVerse | src/components/AddVerseModal.tsx:144-150 | the custom-text checkbox, present only under KJV, changes only the custom flag |
| AddVerseModal.AddVerseForm.HandleVerseSelect | src/components/AddVerseModal.tsx:29-35 | the form becomes the result of picking the suggestion and stays consistent |
| AddVerseModal.AddVerseForm.HandleTranslationChange | src/components/AddVerseModal.tsx:47-56 | the form becomes the result of the translation change and stays consistent |
| AddVerseModal.AddVerseForm.HandleSubmit | src/components/AddVerseModal.tsx:37-45 | what is handed on is the "Add Verse" rule applied to the current form, in the form's translation, and outside custom mode it is a table entry |
| Seqs.Filter | src/components/VerseBuckets.tsx:22-25 | filtering keeps exactly the elements satisfying the predicate, in order |
| Seqs.Take | src/components/AddVerseModal.tsx:26 | `slice(0, n)`: a prefix of length at most n, and the whole sequence when it is shorter |
| Seqs.IncludesIffOccurs | src/components/AddVerseModal.tsx:23-24 | `includes` holds exactly when the term occurs at some offset |

## Left out

- **Storage.** Persistence is left out: `localStorage`, JSON loading and saving, and the reset
  (`window.confirm`, page reload). The state starts from the constructors.
- **Clock.** The clock is injected, not read:
  - Locale date strings and calendar arithmetic (`toLocaleDateString`, `setDate`) are replaced by
    `CalendarDay`. Yesterday is day number − 1.
  - The batch update reads `new Date()` once per verse. The model uses one `now` and one day for
    the whole batch, so a batch that straddles midnight is not modelled.
- **Randomness.** `crypto.randomUUID` ids are parameters.
- **Timers.** The feedback delay (`setTimeout`, 2 s on mastery) is treated as immediate. Clicking
  again during the delay is not modelled.
- **React.** Render scheduling and batching are left out. The app state's `CheckStreak` applies
  the intended check to the current user. The check as the app runs it is modelled separately;
  see "## Findings".
- **Unicode.** `toLowerCase` is modelled for ASCII letters only. Other case mappings are not
  modelled.
- **KJV table contents.** The built-in table is a parameter. Its ten entries are not reproduced.
- **Other UI.** The profile name edit, the header and profile dialog, the verse card and all
  rendering (descriptions, weekday names, icons) are not part of this model. The "k of n" label
  and the section contents are.
- **Unknown values.** Bucket and translation values outside their unions cannot be represented.
  So the default branch of the feedback message is unreachable in the model, and stored data with
  an unknown bucket string is left out.
- **Extra fields.** `handleAddVerse` in the app accepts any fields of a verse except id, date
  added, mastery and bucket. The form only sends reference, text and translation, and the model
  passes only those. A position or notes supplied through the wider type is not modelled.
- **Weekday range.** The type's comment gives weekday positions as 1-7. The code uses
  `getDay()`, so weekdays run 0..6 with Sunday as 0. The model follows the code.
- **Stage type.** A verse's bucket and position stay a bucket plus an unchecked optional number,
  as in the code; they are not a single sum type. Instead, the model proves that out-of-domain
  positions are never due and never produced.
- DailyPractice.PracticeSession.HandleResponse: requires the verse to be revealed and not yet
  answered. The answer buttons stay on screen during the feedback delay, and a second answer
  given then is not modelled (see the Timers line).
- App.AppState.StartPractice: requires a non-empty due list, because the button is shown only
  then.

## Findings

| source | as written | input that shows it | evidently intended | confidence | as-written member | corrected member |
|---|---|---|---|---|---|---|
| src/App.tsx:41-61 | the streak effect runs once, with the closure of the first render, so `user.lastPracticeDate` is the fresh guest's empty date (line 15) and no branch is taken; the user loaded from storage is never checked | a stored user with streak 5 and practice three days ago: the streak stays 5 | judge the loaded user's own practice date: reset to 0 after a gap, + 1 after yesterday | medium (not executed) | Streak.StaleStartupCheckKeepsBrokenStreak | Streak.GapResetsStreak |
| src/components/VerseBuckets.tsx:37-39 | the backward date step computes `(prev - 1 + 31) % 31 + 1`, which is `prev` for every date in 1..31 | selected date 5: "previous" stays on 5; after "next" from 5 (to 6), "previous" stays on 6 | step back one date, with 1 wrapping to 31, undoing the forward step | high (not executed) | VerseBuckets.PrevDateIsIdentity | VerseBuckets.DateStepsInverse |

The app state's `App.AppState.CheckStreak` uses the intended rule `Streak.AdvanceStreak`. The
as-written check `Streak.StartupCheckAsWritten` shares its branches (`Streak.StreakUpdate`) but
judges the guest's date.

The browser class `VerseBuckets.BucketBrowser.HandlePrevDate` keeps the behaviour as written.
The corrected step `VerseBuckets.PrevDateIntended` is proved to be the inverse of `NextDate`.
