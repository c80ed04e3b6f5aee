# Work-hours tracker: the punch log and time accounting of `TimeTracker`

This project models the core of a personal work-hours tracker, the `TimeTracker` class of
`script.js`. The core has four parts:

- **Punch log.** This is the list of punches: the working day's start, a break's start, the return
  from the break, and the day's end. A new punch passes a consistency check before it joins the log.
  After each save the log is sorted by timestamp and cut to its latest 1000 records. Records can be
  edited (justification, time, date), deleted and replaced wholesale by an import.
- **Time accounting.** It computes the minutes of a day (the segment scan), the worked time of today
  (read from the "HH:MM" texts, less the breaks), and the overtime of a period. It renders amounts
  as "Xh Ymin". It also says when a punch asks for a justification and when the daily-journey alert
  is due.
- **Status and buttons.** The day's status and which punch buttons are enabled, both read from the
  last punch of the day. The status reads today's punches in log order. The buttons read them after
  the journey check and the running work time have sorted them in place by timestamp.
- **History view.** The period filter, grouping by date and pages of ten days, newest first.

The tracker object is a `class` (`Tracking.Tracker`). Its fields are the ones the source updates in
place: the log, the settings, the record the justification dialog is open for, the page counters,
the current page's days, and the dates whose alert has been shown. Operations that work in place
are methods with loops or an `array` where the source has them. Each is proved against a function
that says what it computes, and the lemmas about those functions state the properties.

The host environment is taken as values. `Punch.Host` gives the instant a timestamp string denotes,
in minutes, and the day key of local midnight. `Tracking.View` gives the period filter's value,
today's key, the current instant and the current minute of the day. `Tracking.Moment` gives the
moment of a punch as the host renders it. Record ids and the answers to confirmation prompts are
parameters.

Modules:

- `wrappers.dfy`: `Option`, `Result`, `Outcome`.
- `seqs.dfy`: `filter`, `find`, `some`.
- `text.dfy`: `split`, `join`, `trim`, `Number`, decimal rendering.
- `clock.dfy`: "HH:MM" times of day.
- `stable_sort.dfy`: the stable sort `Array.prototype.sort` performs.
- `punch.dfy`: records, the check, and the log operations.
- `settings.dfy` (module `Config`): settings and the settings form.
- `grouping.dfy`: grouping by date.
- `accounting.dfy`: totals, worked hours, statistics, justification rule.
- `status.dfy`: status and buttons.
- `query.dfy`: period filter and pages.
- `tracker.dfy` (module `Tracking`): the tracker object.

Some behaviours of the code worth knowing, which the model keeps:

- An import replaces the log with the imported array as it is. The log is not sorted afterwards.
- A return from a break is accepted on any day that has some break start, even one already ended.
  No open break start is needed. `Status.SecondReturnPasses` states this.
- Editing or deleting an unknown id does nothing, and no error is raised.

## Model

| member | source | states |
|---|---|---|
| Punch.ParseKind | script.js:326-329 | only the four type names are accepted, each read as the kind with that name; any other string is refused |
| Punch.KindRoundTrip | script.js:326-329 | every kind's stored name reads back as that kind |
| Punch.Validate | script.js:693-714 | refuses as a duplicate exactly when a record of the same date has the same type and time text; otherwise refuses a return exactly when the date has no break start; passes in every other case |
| Punch.Retain | script.js:1210-1213 | `slice(-1000)` keeps the last 1000 records when there are more, else all of them |
| Punch.RetainSuffix | script.js:1210-1213 | what is kept is a suffix of the log, the whole log when it is within the capacity |
| Punch.SaveLogSortedAndCapped | script.js:1207-1213 | after a save the log is ordered by timestamp instant; it grows by one until it reaches 1000 and then stays at 1000 |
| Punch.SaveLogUnderCapacity | script.js:1207-1208 | below capacity a save loses nothing: the new log is the old log plus the new record, as a multiset |
| Punch.SaveLogStable | script.js:1208 | the sort is stable: the records with one timestamp instant keep their order, and the new record comes after them |
| Punch.SaveLogInsertsInOrder | script.js:1207-1208 | on an ordered log, a save inserts the record after every record stamped no later and before every later one |
| Punch.SaveLogOverflow | script.js:1210-1213 | over capacity the dropped records are as many as the excess, are together with the kept ones the old log plus the new record, and none is later than a kept record |
| Punch.RemoveIdCounts | script.js:1231 | deleting removes every record with the id and keeps each other record as often as before |
| Punch.RemoveIdUnknown | script.js:1231 | deleting an id no record carries leaves the log as it is |
| Punch.RemoveIdSorted | script.js:1231 | deleting keeps an ordered log ordered |
| Punch.Replace | script.js:662-664 | replacing the entries equal to one record (what a change to the shared record object does) keeps the log's length |
| Punch.ReplaceCounts | script.js:662-664 | after the replacement the old version is gone and the new one is there as often as both were |
| Punch.ReplaceAbsent | script.js:662-664 | a record not in the log is replaced nowhere |
| Punch.LocalStamp | script.js:775 | an edited stamp is date, `T`, time and `:00`, with no `Z` at its end |
| Punch.LocalStampRoundTrip | script.js:771-781 | an edited stamp reads back as the date and the time it was made from |
| Punch.EditedFields | script.js:762-781 | an edit keeps the id and type and sets the justification; the date and time supplied win and the others stay; without either the stamp stays, with one the stamp is rebuilt from them |
| Punch.EditLog | script.js:757-797 | editing gives nothing exactly when no record has the id, and otherwise a log of the same length |
| Punch.EditLogKnown | script.js:759-789 | after editing a known id (its first record) the log is ordered, holds the edited record, holds every other record as often as before, and no longer holds the old version if the edit changed it |
| Punch.JustifyLogDuplicates | script.js:662-664 | a fresh punch that is justified is then in the log twice: once from its registration and once from the second save |
| Punch.JustifyLogAbsent | script.js:662-664 | a fresh punch no longer in the log when justified is saved once, as a new entry |
| Config.EffectiveDaily | script.js:961 | a stored daily time of zero counts as 8 hours; any other value is used as it is |
| Config.EffectiveWeekly | script.js:962 | a stored weekly time of zero counts as 40 hours; any other value is used as it is |
| Config.TrimmedLines | script.js:402-403 | piece i is line i of the text trimmed; none has white space at its ends or a line break |
| Config.ParseHolidays | script.js:399-405 | every holiday kept from the text is non-empty, trimmed and free of line breaks |
| Config.ParseHolidaysMember | script.js:399-405 | a string is a holiday exactly when it is non-empty and is some line of the text trimmed |
| Config.ParseHolidaysEmpty | script.js:400-404 | an empty text gives no holidays |
| Config.ParseHolidaysJoin | script.js:399-405 | holidays shown one per line are read back as the same list |
| Config.ParseHolidaysStable | script.js:399-405 | saving the holidays text a second time unchanged gives the same holidays |
| Config.ApplyForm | script.js:379-420 | a present daily or weekly value that is a number above zero is stored, otherwise the old one stays; a present holidays text stores its parsed holidays; a present checkbox stores its state; a present zone stores the zone, the empty one as none; an absent control keeps the old setting |
| Config.FormRoundTrip | script.js:189-214 | saving the form filled in from the settings gives the same settings, for settings the form could have produced |
| Config.EmptyFormKeeps | script.js:379-420 | with none of the form controls on the page nothing changes |
| Grouping.GroupRecordsByDate | script.js:1238-1247 | the loop builds the grouping of `GroupSpec`: keys in first-seen order, each record pushed to its date's group |
| Grouping.GroupSpecMeaning | script.js:1238-1247 | the keys are distinct and are exactly the records' dates; each group is the records of its date in log order |
| Grouping.GroupSizes | script.js:1238-1247 | every record lands in exactly one group: the group sizes add up to the number of records |
| Accounting.DayTotalMinutes | script.js:999-1024 | the loop computes the segment scan's total |
| Accounting.ScanFromAppend | script.js:1003-1021 | the scan of a concatenation is the scan of the second part from the state the first part leaves |
| Accounting.DayTotalConcat | script.js:999-1024 | the total adds up over a split point where no segment is open |
| Accounting.DayTotalOpenAtEnd | script.js:1009-1013 | a segment still open at the end of the day counts nothing |
| Accounting.DayTotalCloserWithoutOpen | script.js:1014-1020 | a break start or end with nothing open counts nothing |
| Accounting.DayTotalBounds | script.js:999-1024 | on a day in time order the total lies between zero and the time from its first punch to its last |
| Accounting.DayTotalStartEnd | script.js:999-1024 | a start and an end count the time between them |
| Accounting.DayTotalWithBreak | script.js:999-1024 | start, break, return and end count the time before the break plus the time after it |
| Accounting.Span | script.js:1440-1447 | a span is a number exactly when both times are |
| Accounting.ClockTimesAt | script.js:1477-1478 | each punch's time of day is read from its own "HH:MM" text |
| Accounting.WorkedFrom | script.js:1438-1504 | the worked time is never negative and is a number exactly when the start, the end and every paired break are |
| Accounting.Worked | script.js:1430-1504 | a day with no start has worked zero, and the worked time is never negative |
| Accounting.WorkedMinutes | script.js:1411-1505 | the array is sorted in place by timestamp and the result is the worked time of the sorted day |
| Accounting.WorkedOfSorted | script.js:1418-1504 | after the sort: first start, first end or now, minus the breaks, as `Worked` states |
| Accounting.WorkedBetween | script.js:1436-1504 | the span from start to end less the paired breaks, never below 0, NaN when either is |
| Accounting.CopyInto | script.js:1415 | the array holds the sorted sequence afterwards |
| Accounting.BreakMinutes | script.js:1465-1491 | the loop adds up each break start paired with the return of the same rank, NaN as soon as one of them is |
| Accounting.BreakSumUnpaired | script.js:1476-1489 | break starts with no return of their rank add nothing |
| Accounting.WrapInDay | script.js:1484 | adding a day to a negative difference gives a span inside one day |
| Accounting.BreakSumInDay | script.js:1465-1491 | with readable times the break total is a number and never negative |
| Accounting.WorkedWithinDay | script.js:1411-1505 | with readable times the worked time is a number below one day and at most the span from start to end |
| Accounting.WorkedStartEnd | script.js:1438-1447 | a start and an end alone work the span between their times |
| Accounting.WorkedOneBreak | script.js:1438-1504 | start, break, return, end work the span less that one break |
| Accounting.WorkedStartOnly | script.js:1448-1458 | a start with no end runs to the current time of day |
| Accounting.WorkedNineToFive | script.js:1438-1504 | 09:00 to 17:00 is 8 hours, whatever the current time |
| Accounting.WorkedWithLunch | script.js:1438-1504 | 09:00 to 18:00 with a break from 12:00 to 13:00 is 8 hours |
| Accounting.WorkedOvernight | script.js:1446-1447 | 22:00 to 02:00 crosses midnight and is 4 hours |
| Accounting.WorkedStillOpen | script.js:1448-1458 | a start at 09:00 with no end is 150 minutes at 11:30 |
| Accounting.Overtime | script.js:991 | overtime is the worked time beyond the standard time and never negative |
| Accounting.CalculateStatistics | script.js:951-997 | the statistics are the rendered total, the rendered overtime and the number of days |
| Accounting.GroupedTotal | script.js:952-959 | the records are grouped by date and the day totals of the groups added up |
| Accounting.StandardOfPeriod | script.js:961-990 | "week" gives the weekly time less a daily time per holiday, never below 0; any other period a daily time per working day |
| Accounting.SumOfDayTotals | script.js:956-959 | the loop adds up each day's total |
| Accounting.CountHolidays | script.js:968-975 | the loop counts the days of the week that are holidays |
| Accounting.WorkingDaysStandard | script.js:984-989 | the loop gives a daily time for each day that is not a holiday |
| Accounting.OvertimeOneDay | script.js:984-991 | with an 8-hour day, 9 hours on one day is 1 hour of overtime on a working day and 9 on a holiday |
| Accounting.WeekStandardBounds | script.js:966-982 | a week's standard time lies between zero and the weekly time |
| Accounting.HolidaysSplitDays | script.js:968-989 | each day is either a holiday or a working day |
| Accounting.TotalOnSortedLog | script.js:951-959 | on a log in time order the period's total is never negative |
| Accounting.SumDayTotalsNonNegative | script.js:956-959 | day totals that are never negative add up to a total that is never negative |
| Accounting.JsRem | script.js:1028 | JavaScript's `%`: Euclidean for a non-negative dividend; for a negative one 0 when it divides evenly, else the Euclidean remainder less the divisor |
| Accounting.FormatHoursMinutesRoundTrip | script.js:1026-1030 | "Xh Ymin" of a non-negative amount reads back as the same amount |
| Accounting.FormatHoursMinutesShape | script.js:1026-1030 | a non-negative amount shows its whole hours and its remaining minutes, below 60 |
| Accounting.FormatHoursMinutesNegative | script.js:1026-1030 | a negative amount shows "-Xh 0min" for whole hours, otherwise one hour more than its whole hours and its minutes negated, the parts adding up to an hour less than the amount |
| Accounting.FormatMinusHalfHour | script.js:1026-1030 | -30 minutes shows as "-1h -30min" |
| Accounting.OrdinaryHours | script.js:504-516 | a punch asks for no justification exactly from Monday to Friday, 06:00 to 21:59, on a day not in the holidays |
| Clock.ClockMinutes | script.js:1440-1444 | a time text read as a number gives a number of minutes that is never negative |
| Clock.FormatClock | script.js:336-341 | a time of day renders as five characters with a colon in the middle |
| Clock.ClockRoundTrip | script.js:336-341 | a rendered time reads back as its minutes after midnight, which lie within one day |
| Clock.FormatClockInjective | script.js:698-701 | different times of day render as different texts |
| Status.CurrentStatusAppend | script.js:1060-1079 | the status is that of the last punch: not started for an empty day, otherwise what the last punch leaves |
| Status.ButtonsFollowStatus | script.js:1081-1101 | start is enabled exactly when not started or finished, break and end exactly while working, return exactly while on a break |
| Status.ButtonsExclusive | script.js:1081-1101 | at every moment start, return, or break with end are on, and never two of these |
| Status.ReturnEnabledPasses | script.js:1092-1094 | when return is enabled for a date, the check never refuses a return on it for lack of a break start |
| Status.SecondReturnPasses | script.js:705-712 | a second return after an ended break passes the check although the return button is off |
| Status.GuardedOpenDay | script.js:1081-1101 | a day punched through enabled buttons with no end opens with its only start, and break starts outnumber returns by one exactly while on a break |
| Status.CountStatusAgrees | script.js:1353-1381 | on a day punched through the buttons, with an end only as its last punch, the counting status equals the last-punch status |
| Status.CountStatusDiverges | script.js:1353-1381 | a day restarted after its end shows "working" by its last punch and "finished" by counting |
| Query.PeriodOf | script.js:815-850 | an empty or "today" value is today, "week" the week, "month" the month, anything else everything |
| Query.FilterByPeriodMember | script.js:834-850 | a record is listed exactly when it is in the log and falls in the period: today's date, or stamped within 7 or 30 days before now |
| Query.WeekWithinMonth | script.js:841-846 | the week is part of the month: the month's records narrowed to the week give the week's records |
| Query.FilterByPeriodSorted | script.js:834-850 | a time-ordered log gives time-ordered periods |
| Query.TotalPagesCeiling | script.js:821 | the page count is the least number of pages of ten holding all the days, zero only with no day |
| Query.JsSlice | script.js:1253 | a slice is never longer than the list |
| Query.Page | script.js:1249-1261 | a page's keys are exactly the keys of its map, and each of them carries its group unchanged |
| Query.SortedDatesNewestFirst | script.js:1250 | the listed dates are the same keys, newest first |
| Query.PageAt | script.js:1251-1253 | a page lists the sorted dates from position (page − 1) × 10 on |
| Query.PageSize | script.js:1251-1253 | no page lists more than ten days |
| Query.PageZeroEmpty | script.js:1336-1339 | page 0, which the last-page button reaches when nothing is listed, shows nothing |
| Query.PageBeyondLastEmpty | script.js:1251-1253 | pages after the last show nothing |
| Query.PagesDisjoint | script.js:1249-1261 | two different pages share no day |
| Query.PagesCover | script.js:1249-1261 | every day is on some page between the first and the last |
| Query.PageOfPosition | script.js:1251-1253 | the day at listed position k is on page k / 10 + 1 |
| Tracking.PunchRecord | script.js:331-343 | a new punch carries the id, the type, the moment's stamp, date and time, and no justification |
| Tracking.Punched | script.js:318-346 | a punch is refused for an invalid moment, else for an unknown type, else for the consistency check's error, and otherwise accepted as the new record |
| Tracking.Listed | script.js:813-820 | the listed dates are distinct and are exactly the keys of the grouping |
| Tracking.ResetPage | script.js:824-826 | after a reload the page is within the page count or is the first; a page within the count stays |
| Tracking.JustificationText | script.js:655-681 | the saved text is trimmed and non-empty, and none is saved exactly when the trimmed text is empty |
| Tracking.NewTime | script.js:668-673 | a new time is taken exactly when the time input is there, enabled and not empty |
| Tracking.NewDate | script.js:675-678 | a new date is taken exactly when the date input is there and not empty |
| Tracking.ShowPopup | script.js:361-364 | the prompt follows the checkbox on the page when there is one, else the setting |
| Tracking.Tracker.constructor | script.js:3-27 | the stored log, settings and alert marks, page 1 of 1, no dialog open; the closing `init()` call is `Init`, run next |
| Tracking.Tracker.Init | script.js:29-46 | the history is loaded for the view and the status refreshed |
| Tracking.Tracker.LoadTimeRecords | script.js:813-832 | the day and page counts and the current page's days agree with the log for the view, and the page is reset to the first when it ran past the end |
| Tracking.Tracker.CheckDailyJourney | script.js:1383-1409 | the alert fires exactly when today has two or more punches, one a start, and reaches the daily time, and today was not yet marked; today is then marked; the day's array is left sorted by timestamp exactly when the worked time was computed |
| Tracking.Tracker.UpdateCurrentWorkTime | script.js:1549-1613 | the day's array is left sorted by timestamp exactly when its status is working, and is untouched otherwise |
| Tracking.Tracker.UpdateUI | script.js:1036-1058 | the status is that of today's punches as filtered; the journey alert fires as `Due` says; the buttons are those of the array after the journey check and the work-time display sorted it |
| Tracking.ButtonDay | script.js:1036-1058 | the punches the buttons read are a permutation of today's punches |
| Tracking.ButtonDayOfSorted | script.js:1036-1058 | on a day in time order the buttons read today's punches unchanged and follow their status |
| Tracking.ButtonDayDiverges | script.js:1040-1054 | a day listing its end before an earlier start shows "working" while the buttons are those of a finished day |
| Tracking.Tracker.SaveRecord | script.js:1192-1225 | the log becomes the saved log, and the history and the status are refreshed |
| Tracking.Tracker.RegisterTime | script.js:314-377 | a refused punch changes nothing and returns its error; an accepted one is saved, the buttons are those of the saved log's punches of the punch's date, and the dialog opens for it when the moment needs a justification and the prompt is wanted |
| Tracking.Tracker.AcceptPunch | script.js:349-371 | the punch is saved and refreshed, the buttons are set from the saved log's punches of its date, and the dialog's record is set when a justification is offered |
| Tracking.SavedDayButtons | script.js:352-355 | after a save the punches of a date are in time order, so the buttons set from them are those `updateUI` sets when the date is today, and follow their status |
| Tracking.Tracker.SavePunch | script.js:351-371 | the punch is saved and the dialog's record is set when it is offered |
| Tracking.Tracker.EditRecord | script.js:799-811 | the dialog opens, for the first record with the id, exactly when some record has it |
| Tracking.Tracker.CloseModal | script.js:590-622 | the dialog forgets its record |
| Tracking.Tracker.UpdateRecordJustification | script.js:757-797 | an unknown id changes nothing; a known one edits the log and refreshes |
| Tracking.Tracker.SaveJustification | script.js:645-691 | fails and changes nothing without a text input or a pending record; otherwise the dialog closes and the log becomes the justified log, refreshed, or stays when the edited id has gone |
| Tracking.Tracker.ClosePending | script.js:662-685 | the dialog ends closed and the log becomes the justified log of the pending record, refreshed, or stays as it was |
| Tracking.Tracker.ApplyJustification | script.js:662-682 | a fresh punch is justified and saved again; an edit goes through the record update |
| Tracking.Tracker.ResaveJustified | script.js:662-664 | the fresh punch gets the justification and is saved once more |
| Tracking.Tracker.DeleteRecord | script.js:1228-1236 | unconfirmed, nothing changes; confirmed, every record with the id leaves the log and the history is refreshed |
| Tracking.Tracker.Import | script.js:1126-1154 | an array payload, once confirmed, replaces the whole log as it is; anything else changes nothing |
| Tracking.Tracker.UpdateSettingsFromForm | script.js:379-420 | the settings become the form applied to them and the status is refreshed, without reloading the history |
| Tracking.Tracker.GoToFirstPage | script.js:1317-1320 | page 1, with the history reloaded |
| Tracking.Tracker.GoToPrevPage | script.js:1322-1327 | one page back unless on the first; a page in range stays in range |
| Tracking.Tracker.GoToNextPage | script.js:1329-1334 | one page on unless on the last; a page in range stays in range |
| Tracking.Tracker.GoToLastPage | script.js:1336-1339 | the page becomes the page count; with nothing listed that is page 0, which shows no day |
| Seqs.FilterMember | script.js:695 | `filter` keeps an element exactly when it is in the input and satisfies the predicate |
| Seqs.FilterMultiset | script.js:1231 | `filter` keeps each kept element as often as it was and drops the others |
| Seqs.FindFirst | script.js:698-701 | `find` gives the first element that satisfies the predicate, or none when no element does |
| Seqs.Any | script.js:709 | `some` holds exactly when some element satisfies the predicate |
| StableSort.SortByPermutation | script.js:1208 | sorting keeps the same elements, each as often as before |
| StableSort.SortBySorted | script.js:1208 | a sorted result is ordered by the key |
| StableSort.SortByStable | script.js:1208 | elements with equal keys keep their order |
| StableSort.SortBySortedIdentity | script.js:1208 | sorting an ordered sequence leaves it as it is |
| StableSort.FilterSorted | script.js:838-846 | filtering an ordered sequence keeps it ordered |
| Text.Split | script.js:1440 | `split` gives at least one piece and no piece holds the separator |
| Text.JoinSplit | script.js:1440 | the pieces of a split joined again give the string back |
| Text.SplitJoin | script.js:399-405 | pieces that hold no separator, joined and split again, come back |
| Text.TrimIsInfix | script.js:403 | `trim` gives a piece of the input with only white space removed around it |
| Text.TrimIdempotent | script.js:403 | trimming twice is trimming once |
| Text.Lines | script.js:402 | one line per line feed plus one, none holding a line feed; each line is its piece of the split with one carriage return dropped from the end of every piece but the last |
| Text.LinesOfCarriageReturns | script.js:402 | lines written with "\r\n" line ends read back as themselves |
| Text.LinesOfJoin | script.js:402 | lines written with "\n" line ends read back as themselves when none but the last ends in a carriage return |
| Text.Number | script.js:1440 | `Number` reads a string whose trimmed text is all digits, and gives NaN otherwise |
| Text.ShowNat | script.js:1029 | `${n}` of a non-negative integer is its decimal digits |
| Text.NumberOfShowNat | script.js:1029 | `Number` reads back what `${n}` wrote |

## Left out

- Rendering, notifications and the modal dialogs' markup (`displayRecords`, `updatePaginationControls`, `showNotification`, `showJourneyAlert`, `openJustificationModal`, `openTimeEditModal`, `updateDBStatus`, `populateTimezoneSelect`, `setupEventListeners`) are not modelled, because they only draw the page. The dialog is modelled only as its pending record.
- `localStorage` is not modelled. The stored log and settings are the constructor's arguments, and the journey-alert keys are the set `alerted`.
- `Date`, `Intl` and `toLocaleTimeString` are not modelled. They are the `Host`, `View` and `Moment` values (the instant a timestamp denotes, the day key of local midnight, the current time, a punch's rendered time, hour and weekday).
- Invalid dates in stored records are not modelled. `Host.instantOf` always gives an instant, whereas `new Date` of a malformed stamp gives NaN, which makes the sort comparator's order depend on the engine.
- `Object.keys` is taken in insertion order, because the date keys are never integer-like.
- Record ids (`Date.now()` plus a random number), confirmation prompts and the clock timer are parameters, or are not modelled.
- JSON parsing and `FileReader` are not modelled. An import payload is `Some(records)` for an array and `None` otherwise. Array elements that are not record-shaped are not modelled, and neither are stored records missing a field.
- `saveRecord`'s check for required fields is not modelled, because a `Record` value always has them.
- `getEffectiveTime`, the manual-time override, `createDateInTimeZone` and `updateCurrentTime` are not modelled; the effective moment is the `Moment` argument.
- `exportData`, the time `updateCurrentWorkTime` displays and the "Horas hoje" display of `calculateDayTotal` are not modelled, because they write nothing to the tracker's state.
- Instants are whole minutes. `Host.instantOf` gives a timestamp's instant in minutes, where `new Date` gives milliseconds. Records stamped within the same minute therefore keep their insertion order in the sorts of `Punch.SaveLog`, `Punch.EditLog` and `Accounting.WorkedMinutes`, where the source orders them by their milliseconds. A real punch at 09:00:30 followed by a manual-time punch for 09:00 stays last here, which can change that day's status and total. The 7- and 30-day windows of `Query.FilterByPeriod` are compared in minutes as well.
- Working times are whole minutes: a daily or weekly setting is the hours times 60, `parseFloat` results are whole minutes, and the day total's millisecond division is left out. `Accounting.JourneyDue` compares worked minutes with the daily minutes rather than hours with hours, which is the same comparison scaled by 60.
- Accounting.FormatHoursMinutes: `Math.floor` of fractional minutes is not modelled, because amounts are whole minutes.
- `Number` is modelled for digit strings and white space only. Other numeric syntaxes (signs, decimals, exponents, hexadecimal) read as NaN here.
- Sorting is a stable insertion sort proved ordered, a permutation and stable. `Accounting.WorkedMinutes` copies it into the array. The in-place algorithm of the JavaScript engine is not modelled.
- Aliasing of record objects is not modelled; value equality stands in for it. Changing the pending record's justification changes every log entry equal to it, and an edit changes every entry equal to the first record with the id.
- Tracking.Tracker.RegisterTime: the dialog's record is set before the save and refresh, not after them, because nothing in between reads it.
- Tracking.Tracker.SaveJustification: the dialog is closed before the log changes, not after, for the same reason.
- Tracking.Tracker.UpdateUI: the status and the button states are returned rather than written to the page. `Tracking.Tracker.RegisterTime` returns the button states it sets after the save in the same way.
- `calculateWorkedHours` makes `Math.max(0, workedHours)`, and `Accounting.Worked` states that result in minutes. The examples (`WorkedNineToFive` and the like) are stated on times of day as read from the records.
- `Accounting.BreakMinutes` reads the break times before its loop rather than inside it; the result is the same.
- `Tracking.Tracker.Valid` is a predicate the methods require and keep, not a class invariant the language enforces.
- `updateStatistics`, which would call `calculateStatistics`, is not modelled; `Accounting.CalculateStatistics` is modelled on its own.
- The first copy of `saveRecord` (script.js:716-755) is not modelled separately. It is replaced by the later one (script.js:1192-1225), which does the same.
