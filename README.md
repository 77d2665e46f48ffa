# Cryptic contest: a verified model of the contest core

Cryptic contest is a small web site for a crossword-clue game. A user starts a
**contest** by naming a word. For the first 2 days and 2 minutes the contest takes
**submissions** (clues for the word, each with an explanation). For the next
2 days and 2 minutes it is open for **voting** (users like clues). Then it is
**closed**, and the clue with the most likes wins; on a tie, the earlier clue
wins. Phases advance lazily. `check_if_too_old` runs whenever a contest is looked
at and whenever a queued status-check callback fires. Two such callbacks are
queued when a contest is created, and a management command re-creates them for
contests still running.

A user may submit only if they have liked at least one clue for every two clues
they have submitted. A user may have only one contest taking submissions at a
time. The leaderboard ranks users by contests won, then by average likes. Two
browser scripts help with clue entry. `enumerate` appends a crossword
enumeration such as `(7, 7)` to a word. `check_for_enumeration` warns when a
clue does not end in one.

The model is written in Dafny, one module per source file, on top of two helper
modules:

- `wrappers.dfy` (`Wrappers`): `Option` and `Result`.
- `text.dfy` (`Text`): the character classes the scripts' regular expressions
  use, ASCII upper-casing, decimal rendering, and the white-space strip that
  Django's text fields apply before validating.
- `models.dfy` (`Models`): the contest records, the three-phase state machine,
  the winner, the admission rules of `SubmissionManager.add`, and a `Store`
  class. The store holds the contests, the submissions, a log of the notices the
  site posts, and a log of the status-check callbacks it queues. Its methods
  update these fields in place, as the ORM methods update rows.
- `leaderboard.dfy` (`Leaderboard`): `sort_users`. A loop builds one row per
  user, then a stable sort orders the rows.
- `forms.dfy` (`Forms`): the per-field checks of `ContestForm` and
  `SubmissionForm`, and how their `save` hands data to the managers.
- `tasks.dfy` (`Tasks`): the `update_contest_status` callback.
- `create_celery_tasks.dfy` (`CreateCeleryTasks`): the command that re-queues
  callbacks.
- `enumerate.dfy` (`Enumerate`): `enumerate(clue)`, covering the strip regular
  expression, the counting loop and the trailing strip.
- `warn_about_enumeration.dfy` (`EnumWarning`): the `ENUM_REGEX` test and the
  warning it drives.

Time is an integer number of seconds, passed in as `now`. Both phase lengths are
172920 seconds. Contest and submission ids are positions in the store's
sequences. A clue's likes are a set of user ids. The store's methods are proved
against pure functions on contest records: `Refreshed` for `check_if_too_old`,
`WithWinner` for `declare_winner`, `Winner` for the ordering query, and
`AdmissionErrors` for the error list. The properties the code promises are then
proved about those functions.

## Model

| member | source | states |
|---|---|---|
| Models.Winner | apps/cryptics/models.py:109-111 | The result is none exactly when the contest has no entries. Otherwise it is one of its own entries, and no entry of the contest sorts before it by (most likes, earliest created). Among entries with equal keys, it is the first stored. |
| Models.WinnerHasMostLikes | apps/cryptics/models.py:109-111 | No entry has more likes than the winner. An entry with as many likes was not created earlier. |
| Models.WinnerOfFiveEntries | apps/cryptics/tests/test_views.py:175-199 | With five entries liked 1, 0, 2, 2 and 1 times, created in that order, the third entry (index 2) wins. |
| Models.SortOrderRanks | apps/cryptics/models.py:198-199 | An entry sorts before another exactly when it has more likes, or as many and was created earlier. |
| Models.PhaseWindows | apps/cryptics/models.py:69-74 | `SubmissionsEndTime` is 172920 s after creation, and `VotingEndTime` 172920 s after that. |
| Models.Refreshed | apps/cryptics/models.py:141-149 | The phase never moves back. A closed contest is unchanged. Past the voting end the contest is closed, even straight from submissions. A contest taking submissions whose submissions window has passed, but not its voting window, is voting. Before the submissions end, and for a voting contest before the voting end, nothing changes. Word, starter and creation time are kept. |
| Models.StillOpenAfterRefresh | apps/cryptics/models.py:141-149 | After the refresh, the contest takes submissions exactly when it did before and its submissions window has not passed. |
| Models.WinnerDeclaredOnce | apps/cryptics/models.py:105-115 | A contest with entries gets a winner. Once a winner is set, declaring again, even after new entries, changes nothing and posts no notice. |
| Models.DeactivateWithoutEntries | apps/cryptics/models.py:121-126 | With no entries there is no winner and no notice, and `deactivate` still closes the contest. |
| Models.RefreshSettles | apps/cryptics/models.py:141-149 | A refresh posts at most one notice. A second refresh at the same time changes nothing and posts nothing. |
| Models.ScheduledChecksAdvance | apps/cryptics/models.py:30-37 | The callback at submissions end + 1 s moves a new contest to voting. The callback at voting end + 1 s then closes it. |
| Models.NewUsersOweNoLikes | apps/cryptics/models.py:163 | A user with at most one submission never owes a like. |
| Models.LikesOwedIff | apps/cryptics/models.py:163 | `LikesNeeded` is positive exactly when the user's submissions number at least twice one more than the likes they gave. |
| Models.SubmittingOwesAtMostOneMore | apps/cryptics/models.py:163 | A new, unliked submission of the user's raises `LikesNeeded` by zero or one. |
| Models.LikingPaysOneOwed | apps/cryptics/models.py:163 | Liking an entry the user had not liked lowers `LikesNeeded` by exactly one. |
| Models.LikesMessage | apps/cryptics/models.py:166 | The message starts "Please like at least ". It ends in "s" exactly when the count is not one. |
| Models.FiveEntriesOweTwoLikes | apps/cryptics/tests/test_views.py:277-296 | A user with five submissions and no likes given owes 2 likes, and is told "Please like at least 2 more clues". |
| Models.OneLikeIsSingular | apps/cryptics/models.py:166 | One like owed reads "Please like at least 1 more clue". |
| Models.AdmissionErrorsReportFailedChecks | apps/cryptics/models.py:153-173 | `AdmissionErrors`: a clue, explanation or contest-closed error appears exactly when that check fails. A like error carrying the owed count appears when likes are owed. The contest-id and logged-in errors never reach the result, because those paths raise first. |
| Models.AdmissionErrorsLikesCount | apps/cryptics/models.py:163-166 | `AdmissionErrors`: every like error carries the number of likes owed, and appears only when that number is positive. |
| Models.AdmissionErrorsInCheckOrder | apps/cryptics/models.py:153-173 | `AdmissionErrors`: the errors come in the order the checks are made: clue, explanation, likes, closed. |
| Models.AdmittedIffAllChecksPass | apps/cryptics/models.py:175-184 | `AdmissionErrors`: the error list is empty exactly when the clue and explanation are given, no likes are owed and the contest is still open. |
| Models.Store.AddContest | apps/cryptics/models.py:24-39 | Appends the contest with its word upper-cased, in the submissions phase, with no winner. Posts one notice. Queues exactly two callbacks for it, at created + S + 1 s and created + S + V + 1 s. Changes nothing else. |
| Models.Store.DeclareWinner | apps/cryptics/models.py:103-119 | Only this contest changes, by `WithWinner`. One "winner" notice is posted exactly when a winner is newly set. The store stays consistent: a winner is one of its contest's entries, and the winning user is its author. |
| Models.Store.Deactivate | apps/cryptics/models.py:121-126 | Declares the winner, then closes the contest. Nothing else changes. |
| Models.Store.SwitchToVoting | apps/cryptics/models.py:128-139 | Moves only a contest taking submissions to voting, posting one notice. Any other phase is left alone. |
| Models.Store.CheckIfTooOld | apps/cryptics/models.py:141-149 | The contest becomes `Refreshed` of its old record, with the matching notices. No other contest, submission or callback changes. |
| Models.Store.AddSubmission | apps/cryptics/models.py:152-184 | A missing user or an unknown contest id raises and changes nothing. Otherwise the contest is refreshed. The submission, with one notice, is stored exactly when the error list is empty; otherwise the errors are returned in check order and nothing is stored. |
| Leaderboard.Average | apps/cryptics/models.py:220 | The average is non-negative, times the submission count gives the total likes, and is 0 with no submissions. |
| Leaderboard.StatsOf | apps/cryptics/models.py:214-227 | Each row names its user and counts the contests they won, their submissions and the likes those received. The average times the submission count is the total likes. A user with no submissions has no likes and an average of 0. |
| Leaderboard.NoSubmissionsNoLikes | apps/cryptics/models.py:218-220 | A user with no submissions has received no likes. |
| Leaderboard.SortedRowsRanked | apps/cryptics/models.py:235 | The sorted rows are in descending wins, then descending average. |
| Leaderboard.SortedRowsPermutes | apps/cryptics/models.py:235 | The sort is a permutation of the rows. |
| Leaderboard.SortedRowsStable | apps/cryptics/models.py:235 | Rows with equal keys keep their relative order. |
| Leaderboard.SortUsers | apps/cryptics/models.py:211-237 | The loop's rows, sorted: ranked, a permutation of one row per user, and stable. |
| Leaderboard.FixtureStats | apps/cryptics/tests/test_models.py:34-58 | The three-user fixture gives the expected wins, submissions, likes and averages, 1.5 among them. |
| Leaderboard.FixtureOrder | apps/cryptics/tests/test_models.py:71-75 | The fixture ranks the third user, then the second, then the first. |
| Forms.HasOpenContest | apps/cryptics/forms.py:26 | True exactly when some contest started by the user is taking submissions. |
| Forms.CleanStartedBy | apps/cryptics/forms.py:23-28 | Refuses the user, with the "one active contest" error, exactly when they already have a contest taking submissions. |
| Forms.FinishedContestDoesNotBlock | apps/cryptics/tests/test_views.py:56-71 | A contest of the user's that is voting or closed does not block a new one. |
| Forms.ContestFormErrors | apps/cryptics/forms.py:8-28 | A "required" error appears exactly when the word is empty or all white space, which the field strips. The "one active contest" error appears exactly when the user has a contest taking submissions. No other of the modelled errors appears. |
| Forms.ContestSaveBinds | apps/cryptics/forms.py:33 | The form's cleaned fields bind exactly the parameters of `ContestManager.add`. |
| Forms.SaveContestForm | apps/cryptics/forms.py:30-35 | Invalid data stores nothing. With `commit`, `ContestManager.add` runs once on the stripped word, with its whole effect. Without it, nothing is stored. |
| Forms.CleanSubmittedBy | apps/cryptics/forms.py:53-67 | Refuses the user exactly when likes are owed. The error carries the owed count. |
| Forms.CleanContest | apps/cryptics/forms.py:69-74 | Refreshes the contest, then accepts it exactly when it was taking submissions and its window has not passed; both voting and closed are refused. |
| Forms.CleanContestField | apps/cryptics/forms.py:69-74 | A missing or unknown contest is refused without a refresh. A stored one is refreshed, then refused exactly when it no longer takes submissions. |
| Forms.ContestFieldErrors | apps/cryptics/forms.py:69-74 | A missing contest is "required", an unknown one is an invalid choice, and a stored one is refused exactly when it no longer takes submissions. The field is clean exactly when the contest is stored and open. |
| Forms.SubmitterErrors | apps/cryptics/forms.py:53-67 | The submitter is refused, with the owed count, exactly when likes are owed. |
| Forms.SubmissionFormErrors | apps/cryptics/forms.py:38-74 | The form has no error exactly when the stripped clue and explanation are not empty, the contest is stored and takes submissions, and no likes are owed. |
| Forms.SubmissionFormErrorsReport | apps/cryptics/forms.py:38-49 | The clue, explanation, missing-contest and unknown-contest errors each appear exactly when their check fails. |
| Forms.SubmissionFormErrorsReportRefusals | apps/cryptics/forms.py:53-74 | The closed-contest error appears exactly when a stored contest no longer takes submissions. A like error appears exactly when likes are owed, and carries the count. |
| Forms.ValidFormRefreshesNothing | apps/cryptics/forms.py:69-74 | For a valid form, the refresh of `clean_contest` changes no contest and posts nothing. |
| Forms.RequiredErrors | apps/cryptics/forms.py:39-45 | "Clue is required." appears exactly when the clue is empty or all white space, and "Explanation is required." exactly when the explanation is. |
| Text.Strip | apps/cryptics/forms.py:39-45 | Like Python's `str.strip()`: a piece of the input that neither starts nor ends with white space, with only white space cut off. It is empty exactly when the input is all white space. |
| Text.StripIdempotent | apps/cryptics/forms.py:39-45 | Stripping a stripped value changes nothing. |
| Text.ExampleStripBlank | apps/cryptics/forms.py:39-42 | A clue of two spaces strips to the empty string, so it is reported as required. |
| Text.ExampleStripWord | apps/cryptics/forms.py:10 | The word " tree " strips to "tree". |
| Forms.ValidateSubmissionForm | apps/cryptics/forms.py:38-74 | Reports exactly `SubmissionFormErrors`, judged on the contests before the refresh. The only change to the store is the refresh of the named contest, if it is stored. |
| Forms.SubmissionSaveDoesNotBind | apps/cryptics/forms.py:79 | The cleaned fields (`clue`, ...) do not bind the parameters `data` and `user` of `SubmissionManager.add`. |
| Forms.SaveSubmissionForm | apps/cryptics/forms.py:76-81 | As written: it validates, with the refresh as its only change. Invalid data raises. Without `commit` nothing is stored. With `commit` it raises `TypeError` exactly because the cleaned fields do not bind `add`. |
| Forms.SaveSubmissionFormCorrected | apps/cryptics/forms.py:76-81 | With the intended call `add(data, user)`, a valid form with `commit` creates exactly its submission, from the stripped clue and explanation, with one notice, and changes no contest. Otherwise only validation's refresh happens. |
| Tasks.UpdateContestStatus | apps/cryptics/tasks.py:10-19 | An unknown id changes nothing. A known id changes exactly that contest, by `check_if_too_old`. No other contest, no submission and no callback changes. |
| Tasks.RepeatAfterCloseIsNoOp | apps/cryptics/tasks.py:19 | Once the callback has closed a contest, running it again changes and posts nothing. |
| CreateCeleryTasks.ContestCallbacks | apps/cryptics/management/commands/create_celery_tasks.py:14-28 | A contest gets at most two callbacks, all for it and all due after `now`. It gets a voting-end callback, at voting end + 1 s, exactly when its voting end is ahead. It also gets a submissions-end callback, at submissions end + 1 s, exactly when its submissions end is ahead too. |
| CreateCeleryTasks.BackfillDueLater | apps/cryptics/management/commands/create_celery_tasks.py:15-28 | Every queued callback is for a stored contest, and is due after `now`. |
| CreateCeleryTasks.BackfillPerContest | apps/cryptics/management/commands/create_celery_tasks.py:15-28 | Each contest gets exactly its own callbacks from the whole pass, so at most one of each kind. |
| CreateCeleryTasks.Handle | apps/cryptics/management/commands/create_celery_tasks.py:13-29 | The loop queues exactly the callbacks of the whole pass, contest by contest. |
| Enumerate.FirstOpening | apps/cryptics/static/cryptics/js/enumerate.js:8 | Finds the first `(` whose remainder closes with a `)` followed only by white space, with no line break in between. |
| Enumerate.StripEnumeration | apps/cryptics/static/cryptics/js/enumerate.js:8 | The result is a prefix of the clue. The pattern matches at its end, unless nothing was cut, and at no earlier position. |
| Enumerate.ScanChar | apps/cryptics/static/cryptics/js/enumerate.js:12-28 | One pass of the loop body changes `output` and `count` exactly as the scan step does. |
| Enumerate.ScanWellFormed | apps/cryptics/static/cryptics/js/enumerate.js:11-29 | The loop keeps `output` to digits, `- . / !`, commas and single spaces, with no number left half-written. Its finished numbers plus `count` equal the letters seen. |
| Enumerate.TrimNonDigits | apps/cryptics/static/cryptics/js/enumerate.js:35 | The result is a prefix that is empty or ends in a digit. Only non-digits are dropped. |
| Enumerate.TrimKeepsSum | apps/cryptics/static/cryptics/js/enumerate.js:35 | The trailing strip does not change the numbers written. |
| Enumerate.Enumeration | apps/cryptics/static/cryptics/js/enumerate.js:11-35 | The enumeration is empty or ends in a digit, has only enumeration characters and no double space, and its numbers add up to the letters A-Z of the clue. |
| Enumerate.EnumerateClue | apps/cryptics/static/cryptics/js/enumerate.js:1-38 | The script's loop returns the stripped, upper-cased clue, then " (", the enumeration and ")". |
| Enumerate.EnumeratedCountsLetters | apps/cryptics/static/cryptics/js/enumerate.js:1-38 | `Enumerated` keeps the upper-cased clue up to where the strip cut it, then adds " (", numbers that add up to the letters of the kept clue, and ")". No lower-case letter is left. |
| Enumerate.EnumerateIdempotent | apps/cryptics/static/cryptics/js/enumerate.js:8 | Enumerating a result gives it back, if the stripped clue has no `(` and does not end in white space. |
| Enumerate.StripEnumerated | apps/cryptics/static/cryptics/js/enumerate.js:8 | The strip of an enumerated clue removes exactly the enumeration that was added. |
| Enumerate.ScanAppend | apps/cryptics/static/cryptics/js/enumerate.js:11-29 | Scanning two pieces in turn is scanning their concatenation. |
| Enumerate.ExampleEnumerated | apps/cryptics/static/cryptics/js/enumerate.js:1-38 | "example contest" becomes "EXAMPLE CONTEST (7, 7)". |
| EnumWarning.TrimmedLength | apps/cryptics/static/cryptics/js/warn_about_enumeration.js:4 | Gives the length without trailing white space: what follows is all white space, and the last kept character is not. |
| EnumWarning.ScanBackFinds | apps/cryptics/static/cryptics/js/warn_about_enumeration.js:4 | The right-to-left walk finds a `(` exactly when one opens a group: no letter after it, and a digit. |
| EnumWarning.CloseIsLastNonSpace | apps/cryptics/static/cryptics/js/warn_about_enumeration.js:4 | The `)` of any match is the last character that is not white space. |
| EnumWarning.RegexTestMeansEnumeration | apps/cryptics/static/cryptics/js/warn_about_enumeration.js:4 | `EnumRegexTest`, the computed test, is true exactly when the string ends in `(`, text with a digit and no ASCII letter, `)`, then only white space. |
| EnumWarning.TrailingSpaceIrrelevant | apps/cryptics/static/cryptics/js/warn_about_enumeration.js:4 | White space after the closing parenthesis does not change the verdict, either way. |
| EnumWarning.CheckForEnumeration | apps/cryptics/static/cryptics/js/warn_about_enumeration.js:5-11 | The warning is hidden exactly when the clue ends in an enumeration, and shown exactly when it does not. |
| EnumWarning.EnumeratedPassesCheck | apps/cryptics/static/cryptics/js/warn_about_enumeration.js:4 | Any `enumerate` result whose stripped clue has a letter A-Z passes the check. |
| EnumWarning.AcceptsSingleLength | apps/cryptics/static/cryptics/js/warn_about_enumeration.js:4 | "(7)" is accepted. |
| EnumWarning.AcceptsTwoWords | apps/cryptics/static/cryptics/js/warn_about_enumeration.js:4 | "(7, 7)" is accepted. |
| EnumWarning.AcceptsHyphenated | apps/cryptics/static/cryptics/js/warn_about_enumeration.js:4 | "(4-5)" is accepted. |
| EnumWarning.RejectsEmptyGroup | apps/cryptics/static/cryptics/js/warn_about_enumeration.js:4 | "()" is rejected. |
| EnumWarning.RejectsSpelledLength | apps/cryptics/static/cryptics/js/warn_about_enumeration.js:4 | "(seven)" is rejected. |

## Left out

- Discord messages (`to_discord`, `get_discord_pingable_role` in `apps/cryptics/utils.py`) are left out. Each one is a `Notice` event in the store's log; its text is not modelled.
- Logging, `stdout` output, `transaction.atomic` and `refresh_from_db` are left out. The model runs sequentially, so a reload gives back the record just held.
- The task queue is a log of `(contest, eta)` callbacks; Celery itself is left out. `update_contest_status` is modelled as a method the caller runs at `now`.
- The clock is the parameter `now`. It stands for every read of the clock in one operation, which the model takes to be one instant: the two reads in `check_if_too_old` (`apps/cryptics/models.py:144`, `:147`), the command's read at `create_celery_tasks.py:14` and its reads at `:16` and `:23` for each contest, and the `auto_now_add` stamps of `Contest.created_at` (`apps/cryptics/models.py:63`) and `Submission.created_at` (`apps/cryptics/models.py:193`).
- `Text.Upper` upper-cases only ASCII `a`-`z`. Python's `str.upper` and JavaScript's `toUpperCase` also map other letters.
- `updated_at`, `slugify`, `get_absolute_url`, `ended_recently`, `__str__` and the `Site` lookup are left out. They build URLs and text, or filter for display pages.
- The 150-character limit on the contest word is left out.
- Missing keys are left out. `SubmissionManager.add` reads its fields out of a dict, and a missing key would raise `KeyError`. The model always has all three fields. An empty or missing contest id is `None`.
- Contest ids are positions in the store. Django's id 0 never occurs, so "falsy id" and "no id" coincide.
- `Leaderboard.Average`: the average is an exact `real`, not a float. The float division's rounding does not change the order of the test fixture.
- `sort_users` does not compute the `clues_liked` statistic that `test_models.py` expects. The model follows the code and leaves it out too.
- The fixture contest's winner: the test assigns `winning_submission`, which is not a field. So only `winning_user` is set, as in `Leaderboard.FixtureStats`.
- The user field of `SubmissionForm` is set by the view from the logged-in user. `Forms.ValidateSubmissionForm` takes it as a user id.
- Django's own field validation is modelled as the white-space strip of the text fields (`Text.Strip`), "required" on the word, clue, explanation and contest fields, and "unknown choice" on the contest field. Length limits and type coercion are left out. `Text.IsPythonSpace` lists the white space of `str.isspace()` by code point.
- The `started_by` field of `ContestForm` is filled in by the view from `request.user` (`apps/cryptics/forms.py:17-21`). `Forms.ContestFormErrors` and `Forms.SaveContestForm` take it as a user id, so its own "required" and "Select a valid choice" errors are left out.
- The null-character check is left out. Django 2.0's `CharField` refuses a word, clue or explanation that contains U+0000 with "Null characters are not allowed.". `Forms.ContestFormErrors`, `Forms.RequiredErrors` and `Forms.SubmissionFormErrors` do not report that error, and the model accepts such text.
- `Models.Winner` breaks a tie on equal likes and equal creation time by storage order, taking the first stored entry. That tie-break is the model's choice: `order_by("-num_likes", "created_at").first()` leaves the order of such ties to the database. Ties of this kind can occur in the model, because everything written in one operation shares `now`.
- The message texts: `Models.Message` gives the manager's texts (no final period). `Forms.FormMessage` gives the form's texts ("Sorry, this contest has closed." with a period).
- `apps/cryptics/views.py` and `apps/cryptics/urls.py` are request and template handling, and are not part of this model.
- `sort_table.js`, `check_for_repeats.js` and `click_to_reveal.js` are DOM, fetch and float code, and are not part of this model.
- `warn_about_enumeration.js`'s `console.log` calls and the `focusout` listener are left out. The `style.display` write is the `Display` result.
- `enumerate.js`'s click listener is left out.
- Migrations and the Celery configuration are left out.

## Findings

| source | as written | input that shows it | evidently intended | confidence | as-written member | corrected member |
|---|---|---|---|---|---|---|
| apps/cryptics/forms.py:79 | `SubmissionForm.save` calls `Submission.objects.add(**self.cleaned_data)`, passing `clue`, `explanation`, `contest` and `submitted_by`. `SubmissionManager.add` takes `(data, user)`, so the call raises `TypeError`, and saving a valid form with `commit=True` stores nothing. (The form test replaces `add` with a mock and does not see this.) | any valid submission form saved with `commit=True` | call `add` with the clue, the explanation and the contest id as `data`, and the submitter as `user`, so that the submission is created | not executed | Forms.SubmissionSaveDoesNotBind | Forms.SaveSubmissionFormCorrected |
