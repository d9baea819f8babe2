# Homework Tracker: a verified model of its logic

Homework Tracker is a Django application. Students use it to record courses and assignments, tick assignments off, follow a dashboard of deadlines and completion rates, and export their open work as an iCalendar file. A set of browser scripts adds:

- a month calendar;
- password-strength meters;
- form checks;
- an optimistic "toggle complete" button;
- the dashboard's chart feed and its "due within the hour" banner.

This project models the deterministic part of both sides in Dafny and proves what each piece promises. Dates are proleptic Gregorian (year, month, day) triples with 0-based months, as JavaScript's `Date` uses them. Wall-clock instants add hour, minute and second. Query sets are sequences; the clock, the time zone and the DOM are inputs.

Each module follows one source file:

| module | file | source |
|---|---|---|
| `Basics` | basics.dfy | shared string and number helpers (trim, split and join, lower case, decimal numerals) |
| `Dates` | dates.dfy | shared calendar arithmetic (day numbers, weekdays, month stepping) |
| `Calendar` | calendar.dfy | static/js/calendar.js |
| `PasswordChange` | password_change.dfy | static/js/password_set_change.js |
| `MainScript` | main_script.dfy | static/js/main.js |
| `RecordGrade` | record_grade.dfy | static/js/record_grade.js |
| `AssignmentListScript` | assignment_list_script.dfy | static/js/assignment_list.js |
| `DashboardScript` | dashboard_script.dfy | static/js/dashboard.js |
| `ProfileScript` | profile_script.dfy | static/js/profile.js |
| `CourseModels` | course_models.dfy | courses/models.py |
| `AssignmentModels` | assignment_models.dfy | assignments/models.py |
| `CoreViews` | core_views.dfy | core/views.py |
| `AssignmentViews` | assignment_views.dfy | assignments/views.py |

The modelling follows each piece's own style:

- Pieces that mutate elements or fields in the source are classes with `modifies` clauses, e.g. `SimpleCalendar`, `DashboardCharts`, `ProfileManager`, the assignment table.
- Loops that push onto arrays or lists are methods with loop invariants. Each is proved equal to a specification function, and the properties are proved about that function.
- Pure expressions are functions and lemmas.

## Model

| member | source | states |
|---|---|---|
| Dates.DaysInMonth | static/js/calendar.js:38-39 | a month has 28 to 31 days: fewer than 30 only in February, which has 29 exactly in Gregorian leap years; 30 exactly in April, June, September and November; 31 in the other seven months |
| Dates.Weekday | static/js/calendar.js:40 | the weekday index is in 0..6 |
| Dates.WeekdayAnchors | static/js/calendar.js:40 | the index follows `getDay`, with Sunday as 0: 1 January 1970 gives 4 (Thursday) and 1 January 2024 gives 1 (Monday) |
| Dates.PreviousMonth | static/js/calendar.js:171-177 | going back one month stays in 0..11 and lowers the month count by exactly one, so January steps to December of the previous year |
| Dates.FollowingMonth | static/js/calendar.js:179-185 | going forward one month stays in 0..11 and raises the month count by exactly one, so December steps to January of the next year |
| Dates.MonthRoundTrip | static/js/calendar.js:171-185 | the previous and next buttons undo each other |
| Dates.NextDay | static/js/calendar.js:76-77 | the day after a valid date is a valid date |
| Dates.NextDayNumber | static/js/calendar.js:76-77 | the day count rises by exactly one from any day to the next, across month and year ends |
| Dates.WeekdayShift | static/js/calendar.js:40 | the weekday advances cyclically with the day count |
| Dates.YearStep | static/js/calendar.js:38-39 | a year has 365 days, or 366 in a leap year |
| Dates.FirstFollowsLast | static/js/calendar.js:48-51 | the 1st of a month follows the last day of the previous month |
| Calendar.StatusOf | static/js/calendar.js:135-136 | the status is completed iff the item is completed, overdue iff it is open and flagged overdue, and pending otherwise |
| Calendar.AssignmentsForDate | static/js/calendar.js:130-138 | the result is the items due on that (year, month, day), each paired with its status |
| Calendar.AssignmentsForDateAppend | static/js/calendar.js:130-138 | filtering keeps input order: the result for a concatenation is the concatenation of the results |
| Calendar.AssignmentsForDateMembership | static/js/calendar.js:130-145 | an item is listed for a day iff it is in the list and due that day |
| Calendar.DayIndicators | static/js/calendar.js:96-118 | a day is marked iff it has assignments; it shows min(n, 3) dots, the first three in order; the hint appears iff n > 3 |
| Calendar.DayIndicatorsAccount | static/js/calendar.js:104-118 | the dots plus the number in "+N more" add up to n, and the hint reads back as n - 3 |
| Calendar.FirstDayIndex | static/js/calendar.js:37-40 | the first day's column is in 0..6 |
| Calendar.LeadingCells | static/js/calendar.js:47-53 | there is one leading cell per column before the 1st |
| Calendar.TrailingCells | static/js/calendar.js:72-80 | there are 42 - firstDayIndex - daysInMonth trailing cells |
| Calendar.BuildGrid | static/js/calendar.js:44-80 | the three loops of `renderCalendar` produce exactly `MonthGrid` |
| Calendar.GridCellAt | static/js/calendar.js:47-80 | the grid has 42 cells with adjacent months, otherwise firstDayIndex + daysInMonth; cell k is a previous-month day (`prevMonthDays - i`, ascending) or a placeholder, a day of the month, or a next-month day |
| Calendar.GridShape | static/js/calendar.js:47-80 | at least 5 trailing cells; 42 day cells when adjacent months are shown; otherwise firstDayIndex placeholders and no trailing cells; the month's own days sit exactly at positions f..f+n-1 |
| Calendar.GridIsContiguous | static/js/calendar.js:47-80 | the 42 cells are 42 consecutive valid dates, and cell k falls on weekday k mod 7 |
| Calendar.TodayMarking | static/js/calendar.js:64-69 | at most one cell is "today"; it is never an adjacent-month cell, and one is marked iff today is in the displayed month |
| Calendar.GridBuckets | static/js/calendar.js:84-96 | each cell lists exactly the items due on its date, and an item due in the displayed month appears in exactly one of its cells |
| Calendar.LeapFebruaryExample | static/js/calendar.js:38-39 | February 2024 has 29 day cells and February 2023 has 28 |
| Calendar.SimpleCalendar.constructor | static/js/calendar.js:5-24 | the calendar opens on the month of now, with the given items (none when absent), adjacent months shown unless switched off, and is rendered |
| Calendar.SimpleCalendar.RenderCalendar | static/js/calendar.js:32-81 | the title and the grid show the displayed month |
| Calendar.SimpleCalendar.PrevMonth | static/js/calendar.js:171-177 | the displayed month becomes the previous one, wrapping to December of the year before, and is re-rendered |
| Calendar.SimpleCalendar.NextMonth | static/js/calendar.js:179-185 | the displayed month becomes the next one, wrapping to January of the next year, and is re-rendered |
| Calendar.SimpleCalendar.GoToToday | static/js/calendar.js:187-192 | the displayed month becomes today's |
| Calendar.SimpleCalendar.GotoDate | static/js/calendar.js:202-206 | the displayed month becomes the date's |
| Calendar.SimpleCalendar.SetAssignments | static/js/calendar.js:196-199 | the items are replaced and the grid re-rendered |
| PasswordChange.Checks | static/js/password_set_change.js:16-23 | there are six criteria |
| PasswordChange.CountTrue | static/js/password_set_change.js:25 | the count is between 0 and the number of criteria; it is 0 iff none holds and full iff all hold |
| PasswordChange.LevelFor | static/js/password_set_change.js:33-45 | score to level: at most 1 very-weak, 2 weak, 3 fair, 4 good, 5 or more excellent, with percentages 20/40/60/80/100 |
| PasswordChange.CalculatePasswordStrength | static/js/password_set_change.js:10-48 | an empty password gives (0, very-weak, 0); otherwise the score is the criteria count, less 2 floored at 0 when a weak pattern occurs in lower case; the score is in 0..6 and the percentage at least 20 |
| PasswordChange.PercentageMonotone | static/js/password_set_change.js:35-45 | a higher score never gives a lower percentage |
| PasswordChange.PenaltyCapsScore | static/js/password_set_change.js:28-31 | a password with a weak pattern scores at most 4 and is never excellent |
| PasswordChange.WeakPatternAnywhere | static/js/password_set_change.js:28-29 | a weak pattern anywhere in the password, in any letter case, triggers the penalty |
| PasswordChange.WeakPatternCaseInsensitive | static/js/password_set_change.js:29 | the penalty does not depend on letter case |
| PasswordChange.PenalisedExample | static/js/password_set_change.js:10-48 | "Password1!" scores 3, fair, 60 |
| PasswordChange.FallbacksNeverTaken | static/js/password_set_change.js:88-107 | every level is a key of both maps, so the fallbacks are never used, and distinct levels get distinct bar classes |
| PasswordChange.OneStrengthClass | static/js/password_set_change.js:86-96 | after an update the bar holds exactly one strength class |
| PasswordChange.InitPasswordStrength | static/js/password_set_change.js:56-73 | a listener is attached once: not when an element is missing, not again when one is present |
| PasswordChange.OnStrengthInput | static/js/password_set_change.js:75-108 | the bar holds exactly the class of the computed level, its width is the percentage, and the text names the level |
| PasswordChange.ValidatePasswordMatch | static/js/password_set_change.js:143-154 | the confirmation is invalid, with its message and class, iff it is non-empty and differs from the new password |
| MainScript.Criteria | static/js/main.js:291-295 | there are five criteria |
| MainScript.CheckPasswordStrength | static/js/main.js:288-298 | the strength counts the criteria that hold, is in 0..5, and is 0 for the empty string |
| MainScript.CountFive | static/js/main.js:289-297 | each criterion adds exactly one |
| MainScript.ScorersAgree | static/js/main.js:288-298 | without a weak pattern, the strength page's score equals this score plus one for a length of 12 or more |
| MainScript.GetIconForType | static/js/main.js:239-247 | the four known types map to their icons; a name inherited from `Object.prototype`, such as "constructor", yields that inherited member instead of an icon; every other type maps to info-circle |
| MainScript.CheckUpload | static/js/main.js:164-177 | a file is accepted iff it is at most 5 MB and of an allowed type; the size is checked first |
| MainScript.OnFileChange | static/js/main.js:161-177 | no file does nothing; a rejected file shows its alert and clears the input; an accepted one keeps it |
| MainScript.ValidityClassesSound | static/js/main.js:62-70 | after input a control has at most one of is-valid and is-invalid; is-valid iff valid, and is-invalid only when not valid and non-empty |
| MainScript.FormControl.OnLoad | static/js/main.js:47-49 | a control with a value marks its wrapper focused |
| MainScript.FormControl.OnFocus | static/js/main.js:51-53 | focus marks the wrapper focused |
| MainScript.FormControl.OnBlur | static/js/main.js:55-59 | blur removes focused only when the value is empty |
| MainScript.FormControl.OnInput | static/js/main.js:62-70 | the classes become those the validity rule gives |
| MainScript.OnAnySubmit | static/js/main.js:76-81 | a submit button, when present, is disabled and shows "Processing..." |
| MainScript.Checked | static/js/main.js:266-281 | a blank required field gains is-invalid and keeps all its classes, is-valid included; a filled one loses is-invalid and gains is-valid; its other classes, its value and whether it is blank are kept; anything but a required field is left as it was |
| MainScript.CheckedIdempotent | static/js/main.js:266-281 | checking twice is checking once |
| MainScript.PassPositions | static/js/main.js:266-282 | after i steps the first i fields are checked, the rest untouched, and anything added is a message at the end |
| MainScript.ValidateContainer | static/js/main.js:263-282 | the loop computes `ValidateGroup`, and its flag holds iff no required field is blank |
| MainScript.ValidateForm | static/js/main.js:259-285 | a missing form gives false; otherwise every container is validated and the result is true iff no required field is blank |
| MainScript.ValidateGroupFields | static/js/main.js:266-282 | a complete container gets no message, and a second run changes no field |
| MainScript.NoMessageAdded | static/js/main.js:271-277 | no message is added while no field is blank |
| MainScript.RepeatedMessages | static/js/main.js:271-277 | as written: a blank field followed by another element gets a second message on a second run |
| MainScript.FixedValidateIdempotent | static/js/main.js:271-277 | corrected: a container gets at most one message, and a second run changes nothing |
| MainScript.FixedSingleMessage | static/js/main.js:271-277 | corrected: the example of the finding keeps one message after two runs |
| RecordGrade.OrZero | static/js/record_grade.js:75-76 | an unparseable field counts as 0 |
| RecordGrade.Round | static/js/record_grade.js:82 | `Math.round` gives the integer within one half, halves rounded up |
| RecordGrade.Percentage | static/js/record_grade.js:82 | a maximum of 0 or less gives 0 and never divides |
| RecordGrade.PercentageBounds | static/js/record_grade.js:82 | the percentage is the rounded ratio; it lies in 0..100 while 0 <= score <= max; a full score gives 100, a zero score 0 |
| RecordGrade.PercentageMonotone | static/js/record_grade.js:82 | a higher score never gives a lower percentage |
| RecordGrade.BarWidth | static/js/record_grade.js:85 | the width is min(percentage, 100) |
| RecordGrade.LetterOf | static/js/record_grade.js:108-123 | A from 90, B from 80, C from 70, D from 60, otherwise F, each band as an iff |
| RecordGrade.ColourBands | static/js/record_grade.js:108-123 | success iff 80 or more, warning iff 60..79, danger iff below 60 |
| RecordGrade.BarClassesDiffer | static/js/record_grade.js:101-126 | the three colours give three different bar classes, none of them the bare progress-bar of the prompt |
| RecordGrade.LetterMonotone | static/js/record_grade.js:108-123 | a higher percentage never earns a lower letter |
| RecordGrade.GradeLabel | static/js/record_grade.js:97-127 | the prompt shows iff the percentage is 0 with a field empty, and then the bar has the bare progress-bar class; otherwise the letter text shows, with the success class iff 80 or more, warning iff 60 to 79, danger iff below 60 |
| RecordGrade.PromptIffEmptyField | static/js/record_grade.js:75-102 | the prompt appears iff a field is empty |
| RecordGrade.GradePreview.UpdateGradePreview | static/js/record_grade.js:63-89 | the percentage text, bar width, label and bar class are those the functions give |
| RecordGrade.HandleKeyboardShortcuts | static/js/record_grade.js:175-191 | Ctrl/Cmd+Enter submits only a present, valid form; Escape follows a present cancel link; never both |
| RecordGrade.GradeForm.HandleFormSubmit | static/js/record_grade.js:133-169 | an invalid form is stopped and marked was-validated; a valid one disables its button, shows "Processing..." and marks form-loading |
| AssignmentListScript.FindCookie | static/js/assignment_list.js:80-84 | the result is absent iff no entry starts with `name=`; otherwise it is the rest of the first such entry |
| AssignmentListScript.CookieEntriesShape | static/js/assignment_list.js:80-82 | there is one entry more than there are `;` in the cookie string, and no entry holds `;` or surrounding white space |
| AssignmentListScript.GetCookie | static/js/assignment_list.js:78-85 | null iff there are no cookies; a value iff some entry matches; undefined otherwise |
| AssignmentListScript.GetCookieOfEntries | static/js/assignment_list.js:78-85 | a cookie string built from entries reads entry by entry, first match wins |
| AssignmentListScript.CookieAfterAnother | static/js/assignment_list.js:78-85 | a cookie written after another with the usual `; ` separator is found with its whole value |
| AssignmentListScript.ToggledClasses | static/js/assignment_list.js:24-30 | after the flip exactly one of btn-warning and btn-success is present; btn-warning iff it was absent; all other classes are kept |
| AssignmentListScript.ToggleTwice | static/js/assignment_list.js:24-30 | flipping twice restores the classes when exactly one of btn-warning and btn-success was present, as after any flip |
| AssignmentListScript.ToggleUIState | static/js/assignment_list.js:23-46 | the new state is the negation of having btn-warning; the button's label and icon and the badge's class, icon and text follow it |
| DashboardScript.GenerateColors | static/js/dashboard.js:174-180 | there are `count` colours, all from the palette |
| DashboardScript.ColoursCycle | static/js/dashboard.js:179 | colour i is palette[i mod 10], so colours repeat with period 10 |
| DashboardScript.FirstTenDistinct | static/js/dashboard.js:175-179 | the first ten colours are pairwise distinct |
| DashboardScript.ColoursPrefix | static/js/dashboard.js:179 | asking for more colours extends the list |
| DashboardScript.GlobalSeries | static/js/dashboard.js:117-122 | labels and data have equal length, at most the number of items |
| DashboardScript.ChartDataFromGlobal | static/js/dashboard.js:112-129 | a non-array gives empty data; an array holding `null` gives empty data too, since the caught throw discards the bars already pushed; a null-free array gives its series |
| DashboardScript.GlobalSeriesAppend | static/js/dashboard.js:117-122 | the series of a concatenation is the concatenation of the series |
| DashboardScript.GlobalSeriesSources | static/js/dashboard.js:117-122 | every label is a non-empty course name with its rate, taken from a plotted item |
| DashboardScript.GlobalSeriesComplete | static/js/dashboard.js:117-122 | all items plotted gives one point each; none plotted gives empty data |
| DashboardScript.GlobalSeriesCount | static/js/dashboard.js:117-122 | there are exactly as many labels, and as many data points, as plotted items |
| DashboardScript.GetChartDataFromGlobal | static/js/dashboard.js:112-129 | the loop computes `ChartDataFromGlobal` |
| DashboardScript.TableSeries | static/js/dashboard.js:141-151 | labels and data have equal length, at most the number of rows |
| DashboardScript.TableSeriesSources | static/js/dashboard.js:141-151 | every label is a non-empty trimmed name with a parsed rate from a row of at least two cells |
| DashboardScript.SkippedRow | static/js/dashboard.js:143-146 | a row with fewer than two cells, a blank name or a NaN rate adds nothing |
| DashboardScript.ChartedRow | static/js/dashboard.js:141-149 | a row with two cells, a non-blank name and a numeric rate appends its trimmed name and its rate to the end of the series |
| DashboardScript.GetChartDataFromTable | static/js/dashboard.js:134-154 | no table gives empty data; otherwise the loop computes `TableSeries` |
| DashboardScript.ChosenData | static/js/dashboard.js:33-37 | the global data is used unless empty, and only then the table |
| DashboardScript.CompletionChart | static/js/dashboard.js:26-56 | a chart is made iff the canvas is present and the chosen data is not empty; it has the chosen labels and data, and one palette colour per label, `generateColors` of the label count |
| DashboardScript.GlobalDataWins | static/js/dashboard.js:33-37 | with non-empty global data the table is never consulted |
| DashboardScript.DashboardCharts.constructor | static/js/dashboard.js:5-8 | no charts, not initialised |
| DashboardScript.DashboardCharts.InitCompletionChart | static/js/dashboard.js:26-107 | the completion chart is stored iff one is made; nothing else changes |
| DashboardScript.DashboardCharts.Init | static/js/dashboard.js:13-21 | a no-op while initialised; otherwise the chart is built and the flag set |
| DashboardScript.DashboardCharts.Destroy | static/js/dashboard.js:192-196 | charts emptied and the flag reset |
| DashboardScript.FirstUrgentUnique | static/js/dashboard.js:249-258 | the first urgent item is unique |
| DashboardScript.FindUrgent | static/js/dashboard.js:247-258 | the loop with `break` finds the first item due within (0, 1 h], or none |
| DashboardScript.CountdownBounds | static/js/dashboard.js:262-263 | minutes in 0..60, seconds in 0..59, 0 seconds at 60 minutes, and the two never exceed the difference |
| DashboardScript.Plural | static/js/dashboard.js:267 | the singular is used iff the number is exactly 1 |
| DashboardScript.QuantitiesParts | static/js/dashboard.js:266-267 | the countdown splits into its four words |
| DashboardScript.CountdownReadsBack | static/js/dashboard.js:262-267 | the countdown text reads back as the minutes and seconds, each with its unit |
| DashboardScript.CheckDeadlineReminders | static/js/dashboard.js:242-275 | nothing happens without a banner or data; otherwise the first urgent item fills the banner and shows it, and with none a re-check is scheduled and the banner is untouched |
| ProfileScript.ValidateImage | static/js/profile.js:25-40 | accepted iff jpeg/png/gif and at most 5 MB; a wrong type is reported before the size |
| ProfileScript.ImageAlert | static/js/profile.js:29-37 | an alert is shown iff the file is refused |
| ProfileScript.ProfileStricterThanMain | static/js/profile.js:26-37 | what the profile page accepts the main script accepts; they disagree exactly on refused types that are WebP or oversize |
| ProfileScript.SizeBoundary | static/js/profile.js:27-37 | exactly 5 MB passes and one byte more does not |
| ProfileScript.OnAvatarChange | static/js/profile.js:17-22 | a preview starts iff a file is chosen and passes, and an alert iff a chosen file fails |
| ProfileScript.ProfileManager.ValidateForm | static/js/profile.js:77-94 | false iff the username is blank; is-invalid set exactly then; a warning added exactly then |
| ProfileScript.ProfileManager.ShowLoading | static/js/profile.js:96-107 | true disables the button with "Saving...", false enables it with "Save Changes", nothing without a button |
| ProfileScript.ProfileManager.OnSubmit | static/js/profile.js:66-74 | submit is prevented iff the username is blank; the username gains is-invalid when prevented and loses it otherwise, its other classes kept; otherwise the loading state is shown |
| CourseModels.DisplayShape | courses/models.py:8-22 | the display starts with the name; its length is the name's, plus the code's and 3 when there is a code; at most 123 for valid field lengths |
| CourseModels.DisplayDetermines | courses/models.py:18-22 | for names without "(", the display determines name and code |
| AssignmentModels.OverdueFacts | assignments/models.py:34-36 | a completed assignment is never overdue, and an overdue one stays overdue later |
| AssignmentModels.StatusDisplay | assignments/models.py:38-49 | Completed iff completed, Overdue iff overdue, Pending iff open and not yet due; always one of the three |
| AssignmentModels.CalendarAgreesWithModel | assignments/models.py:38-49 | the calendar's status is the model's status in lower case |
| AssignmentModels.InsertBy | assignments/models.py:30-31 | inserting into a sorted list keeps it sorted and adds exactly the new element |
| AssignmentModels.OrderBy | assignments/models.py:30-31 | the result is sorted by the key, has the input's length and is a permutation of it |
| AssignmentModels.OrderByDueSorted | assignments/models.py:30-31 | ordering by due date sorts by due date, ascending |
| CoreViews.Mine | core/views.py:22 | the user's assignments, as a permutation, in due-date order |
| CoreViews.OwnedBy | core/views.py:22 | every selected assignment is the user's and comes from the table |
| CoreViews.OwnedByComplete | core/views.py:22 | every assignment of the user is selected |
| CoreViews.CountCompleted | core/views.py:26 | completed is at most the total; it is 0 iff none is completed and the total iff all are |
| CoreViews.CountOverdue | core/views.py:27-30 | overdue is at most the total; it is 0 iff none is overdue and the total iff all are |
| CoreViews.CountsBounded | core/views.py:25-30 | completed plus overdue is at most the total; overdue is 0 iff every assignment is completed or not yet due |
| CoreViews.CompletionRate | core/views.py:104 | 0 for no assignments; in [0, 100] when completed <= total; 100 when all are completed |
| CoreViews.CountNamed | core/views.py:37-40 | a course name's count is positive iff some assignment is filed under that name (and completed, for the completed count) |
| CoreViews.CountNamedOrder | core/views.py:37-40 | a course's completed count is at most its total |
| CoreViews.InsertName | core/views.py:41 | adding a name to a strictly increasing list of names keeps it strictly increasing and adds exactly that name |
| CoreViews.CourseNames | core/views.py:33-41 | the course names in use, each once, in strictly increasing order |
| CoreViews.CourseStatsOf | core/views.py:33-42 | the grouped query: one row per course name in use, in name order, each with the number of assignments filed under it and how many are done |
| CoreViews.CourseStatsUnique | core/views.py:33-42 | any list of rows fitting that description is the one computed, so the grouped query has a single answer |
| CoreViews.StrictlySortedUnique | core/views.py:41 | two strictly increasing lists of the same names are equal |
| CoreViews.StatRate | core/views.py:46 | a course's rate lies in [0, 100] |
| CoreViews.BuildCourseChartData | core/views.py:44-50 | the loop gives one entry per statistic, in order, with its name and rate |
| CoreViews.CourseRatesSound | core/views.py:33-50 | the entries have distinct course names, and every rate lies in [0, 100] with a positive total |
| CoreViews.StatSound | core/views.py:33-46 | a course that has assignments has a positive total and a rate in [0, 100] |
| CoreViews.FilterWeek | core/views.py:53-58 | only open assignments due today through today + 6 are kept |
| CoreViews.FilterWeekComplete | core/views.py:53-58 | every such assignment is kept |
| CoreViews.Upcoming | core/views.py:55-59 | at most 10, sorted by due date |
| CoreViews.UpcomingWhichTen | core/views.py:55-59 | as many as qualify are listed, up to 10, all drawn from the qualifying ones; none left out is due before a listed one |
| CoreViews.UpcomingSound | core/views.py:55-59 | every upcoming assignment is open, due within the week, and one of the user's |
| CoreViews.UpcomingComplete | core/views.py:55-59 | when there are at most 10 in the window, every one is listed |
| CoreViews.UpcomingJson | core/views.py:62-69 | one entry per upcoming assignment, with the course defaulting to "No Course" |
| CoreViews.FilterRemindable | core/views.py:72-76 | only open assignments due strictly after now are kept |
| CoreViews.FilterRemindableComplete | core/views.py:72-76 | every open assignment due after now is kept |
| CoreViews.Reminders | core/views.py:72-84 | one entry per open assignment of the user due after now, in due-date order |
| CoreViews.RemindersSound | core/views.py:72-84 | every reminder is one of the user's open assignments due strictly after now |
| CoreViews.RemindersComplete | core/views.py:72-84 | every open assignment of the user due strictly after now is in the reminders |
| CoreViews.BuildCalendarEvents | core/views.py:87-97 | one event per assignment, in order, with status flags and the course defaulting to "No Course" |
| CoreViews.Dashboard | core/views.py:12-112 | the context holds the counts, the rate, the per-course data of the grouped query, the upcoming list and JSON, the reminders and the events these functions define |
| AssignmentViews.ParseCourseFilter | assignments/views.py:23-37 | as written: "uncategorized" selects no course; a string of ASCII decimal digits selects that course id; a string that `isdigit` accepts but `int` rejects, such as "²", raises; anything else filters nothing |
| AssignmentViews.SuperscriptCrashes | assignments/views.py:36-37 | as written: "²" passes `isdigit` and makes `int` raise |
| AssignmentViews.FixedCourseFilter | assignments/views.py:33-37 | corrected: "uncategorized" selects no course; exactly the non-empty decimal digit strings select a course, their value as the id, which prints back as the parameter unless it has leading zeros; anything else filters nothing |
| AssignmentViews.FixedFilterAgrees | assignments/views.py:33-37 | the corrected filter agrees with the original wherever the original does not fail |
| AssignmentViews.MatchesIgnoresCase | assignments/views.py:28-31 | the search ignores case: a query matches as its lower-case form does, and it matches whenever the title or the course name holds it as typed |
| AssignmentViews.Select | assignments/views.py:28-37 | the filtered list is no longer than the input |
| AssignmentViews.SelectExact | assignments/views.py:28-37 | an assignment is kept iff it matches the search (title or course name, any case) and passes the course filter |
| AssignmentViews.SelectAppend | assignments/views.py:28-37 | the filtered queryset keeps the input order: selecting from two joined lists joins their selections |
| AssignmentViews.AssignmentList | assignments/views.py:15-48 | the request fails iff the course parameter makes `int` raise |
| AssignmentViews.AssignmentListExact | assignments/views.py:21-37 | an assignment is listed iff it belongs to the user, matches the search and passes the course filter |
| AssignmentViews.Toggled | assignments/views.py:99-101 | exactly the user's assignment with that id has its flag flipped; the other rows are unchanged |
| AssignmentViews.ToggleTwice | assignments/views.py:99-101 | toggling twice restores the table |
| AssignmentViews.AssignmentTable.Toggle | assignments/views.py:96-102 | a missing row or another user's row is a 404 that changes nothing; otherwise the row is flipped and saved |
| AssignmentViews.Stamp | assignments/views.py:138 | the UTC DATE-TIME form has 16 characters |
| AssignmentViews.StampRoundTrip | assignments/views.py:138-146 | the stamp parses back to the instant it was made from |
| AssignmentViews.EventLines | assignments/views.py:139-148 | a VEVENT has eight lines |
| AssignmentViews.CalendarLines | assignments/views.py:120-150 | the calendar has 6 + 8n lines |
| AssignmentViews.CalendarLine | assignments/views.py:120-150 | the calendar starts with the five header lines and ends with END:VCALENDAR; line 5 + 8k + j is line j of the k-th event |
| AssignmentViews.EventTimes | assignments/views.py:138-147 | in the calendar, DTSTART and DTEND of each VEVENT both carry its due date, and DTSTAMP carries the export time |
| AssignmentViews.OpenOf | assignments/views.py:130 | only open assignments are exported |
| AssignmentViews.ExportedExactly | assignments/views.py:130-132 | an assignment is exported iff it is one of the user's and still open |
| AssignmentViews.ExportCalendar | assignments/views.py:114-153 | the loop builds exactly the calendar lines, joined by CRLF |
| AssignmentViews.UnescapedBreak | assignments/views.py:143 | as written: a line break in a description breaks the DESCRIPTION content line |
| AssignmentViews.LineBreakExample | assignments/views.py:139-151 | as written: the description "first\nsecond" yields a calendar line that is not a content line |
| AssignmentViews.EscapeText | assignments/views.py:142-143 | corrected: escaped text never holds CR or LF |
| AssignmentViews.EscapeRoundTrip | assignments/views.py:142-143 | corrected: unescaping the escaped text gives it back, less carriage returns |
| AssignmentViews.FixedCalendarContentLines | assignments/views.py:120-150 | corrected: every line of the escaped calendar is a content line |
| AssignmentViews.ReadLinesJoin | assignments/views.py:151 | content lines joined with CRLF split back into the same lines |
| AssignmentViews.FixedExport | assignments/views.py:114-153 | corrected: the escaped export reads back as exactly its lines |

## Left out

- Browser and library glue is not modelled: DOM lookups, animation, ripple and toast timers, IntersectionObserver, `alert`, bootstrap.Toast, Chart.js drawing, FileReader previews, the background `fetch` of the toggle, focus and scrolling. A message shown to the user is recorded as a value, and the chart as the labels, data and colours it is given.
- The clock and the time zone are inputs. "now" and "today" are parameters, and every instant is a wall-clock time in one zone, so `timezone.localtime`, `toISOString` and the UTC assumption of the export collapse into one time scale.
- Floating-point numbers are exact reals. `parseFloat` is an input (`None` for NaN), and the `round(..., 1)` of the course and overall rates is not modelled. The fraction text `score / max` of the grade preview is not modelled either.
- The ORM is sequences. Query order is the model's due-date order, and ties between equal due dates fall as the model's insertion sort puts them, not as the database would.
- CoreViews.CourseStatsOf orders course names by code point. The database orders them by its collation, which can differ: under a case-insensitive collation "apple" comes before "Banana", by code point after it.
- DashboardScript.GlobalSeries and DashboardScript.TableSeries state only lengths in their own contracts. What each element or row adds is stated by GlobalSeriesCount, GlobalSeriesSources, ChartedRow and SkippedRow.
- Strings are sequences of code points; JavaScript's UTF-16 units are not modelled. Trim, lower case and `\d` follow ASCII only.
- AssignmentViews.ParseCourseFilter models `str.isdigit` for the ASCII digits and the superscripts ¹ ² ³ only, and treats every other character as a non-digit, so it returns "filters nothing" for them. In the source two other groups behave differently. Unicode decimal digits (category Nd, such as the Arabic-Indic "٣" or the fullwidth "３") pass `isdigit`, and `int` parses them, so `?course=٣` selects course 3. Other non-decimal digits, such as "⁴" or "①", pass `isdigit` and make `int` raise, like "²".
- Dates of JavaScript's years 0..99, which `new Date(y, m, d)` shifts into the 1900s, are not modelled.
- `SimpleCalendar`'s constructor returning early when the container is missing is not modelled. Neither are the detail alert of `showDayDetails` and the global `initCalendar` loader.
- Calendar.MonthGrid follows the code, not the intended 42-cell grid, when adjacent months are hidden: the placeholders lead and no trailing cells follow.
- `due_date` is a NOT NULL column, so an assignment always has a due date. The `if not assignment.due_date` guard of the export and the `due_date__isnull=False` filter of the dashboard therefore never drop anything.
- AssignmentViews.Stamp assumes a four-digit year. The `Instant` type limits years to 1..9999, which is what Python's `datetime` supports.
- AssignmentViews.ExportCalendar takes `DTSTAMP` once for the whole export, where the source reads the clock again for each event. Within one export these differ by at most the time the loop takes.
- Line folding at 75 octets (section 3.1 of RFC 5545) is not modelled, in the original or in the corrected export.
- AssignmentListScript.ToggledClasses models the class attribute as a set. The regular-expression removal of `btn-warning`/`btn-success` from the class string, and the spaces it leaves, are not modelled.
- The submit, escape and autofocus handlers of the password pages and the staggered progress-bar start of the dashboard are not modelled; they are browser behaviour with no result to state.
- RecordGrade.GradePreview.UpdateGradePreview assumes all six elements are present; the early return when one is missing is not modelled.
- ProfileScript.ProfileManager.OnSubmit assumes the username input is present.
- `ProfileManager.previewImage` and its success message are not modelled; they depend on FileReader.
- The thin form scripts (static/js/assignment-form.js, static/js/course-form.js), the forms, admin and URL modules, and the course, grade and account views are not part of this model.

## Findings

| source | as written | input that shows it | evidently intended | confidence | as-written member | corrected member |
|---|---|---|---|---|---|---|
| static/js/main.js:271-277 | the guard looks only at the input's next sibling, but the message is appended at the end of the parent | a blank required input followed by a help text, validated twice, gets two "This field is required" messages | at most one message per field's container, and a second validation changes nothing | not executed | MainScript.RepeatedMessages | MainScript.FixedValidateIdempotent |
| assignments/views.py:141-143 | SUMMARY and DESCRIPTION are written without TEXT escaping (section 3.3.11 of RFC 5545) | a description "first\nsecond" puts a bare line break inside the DESCRIPTION line, so the file no longer splits into the lines written | text escaped, so every line is a content line and the body reads back as the lines written | not executed | AssignmentViews.LineBreakExample | AssignmentViews.FixedExport |
| assignments/views.py:36-37 | `str.isdigit()` accepts superscript digits, which `int()` rejects | `?course=²` raises ValueError and the list page fails with a server error | only strings of ASCII decimal digits select a course; anything else filters nothing | not executed | AssignmentViews.SuperscriptCrashes | AssignmentViews.FixedCourseFilter |
