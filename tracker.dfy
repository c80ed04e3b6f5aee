/** The tracker object: its punch log, its settings, the justification dialog's pending record, the
    history's page bookkeeping and the dates whose daily-journey alert has been shown. Each operation
    that changes the log reloads the history and refreshes the status, as the page does. */
module Tracking {
  import opened Wrappers
  import opened Seqs
  import opened Text
  import opened Punch
  import opened Config
  import opened Grouping
  import opened Accounting
  import opened Status
  import opened Query
  import opened StableSort

  /** What the page and the clock show when the tracker looks: the period filter's value, today's
      date key, the current instant in minutes and the current local minute of the day. */
  datatype View = View(period: string, today: string, now: int, nowMinute: int)

  /** The moment of a punch as the host renders it: whether it is a valid date, its ISO timestamp,
      its date key, its "HH:MM" local time, and its local hour and day of the week. */
  datatype Moment = Moment(valid: bool, timestamp: string, date: string, time: string, hour: int, weekday: int)

  /** The record the justification dialog is open for: a punch just taken, or one picked for editing. */
  datatype Pending = New(rec: Record) | Edit(rec: Record)

  /** The time input of the dialog, which may be missing or disabled. */
  datatype TimeInput = NoTimeInput | TimeInput(disabled: bool, value: string)

  /** The day's punches after `checkDailyJourney`: sorted by timestamp when it went as far as
      working the time out, which it does for two punches or more with a start among them. */
  function AfterJourney(day: seq<Record>, host: Host): seq<Record> {
    if |day| >= 2 && Any(day, OfKind(Start)) then SortBy(day, StampKey(host)) else day
  }

  /** The day's punches after `updateCurrentWorkTime`: sorted by timestamp when their status is
      working. */
  function AfterWorkTime(day: seq<Record>, host: Host): seq<Record> {
    if CurrentStatus(day) == Working then SortBy(day, StampKey(host)) else day
  }

  /** The punches `updateButtonStates` reads in `updateUI`: today's punches as the journey check and
      the running work time left their array. */
  function ButtonDay(day: seq<Record>, host: Host): (r: seq<Record>)
    ensures multiset(r) == multiset(day)
  {
    var afterJourney := AfterJourney(day, host);
    SortByPermutation(day, StampKey(host));
    SortByPermutation(afterJourney, StampKey(host));
    AfterWorkTime(afterJourney, host)
  }

  /** On a day already in time order the sorting changes nothing, so the buttons read the punches the
      status is read from, and they follow that status. */
  lemma ButtonDayOfSorted(day: seq<Record>, host: Host)
    requires SortedBy(day, StampKey(host))
    ensures ButtonDay(day, host) == day
    ensures var b := ButtonStates(ButtonDay(day, host));
      (b.start <==> CurrentStatus(day) == NotStarted || CurrentStatus(day) == Finished) &&
      (b.pause <==> CurrentStatus(day) == Working) && (b.resume <==> CurrentStatus(day) == OnBreak) &&
      (b.finish <==> CurrentStatus(day) == Working)
  {
    SortBySortedIdentity(day, StampKey(host));
    ButtonsFollowStatus(day);
  }

  /** After a save the log is in time order, so the buttons `registerTime` sets from the punches of a
      date are the ones `updateUI` sets when that date is today: both follow the status of those
      punches. */
  lemma SavedDayButtons(log: seq<Record>, rec: Record, date: string, host: Host)
    ensures var day := Filter(SaveLog(log, rec, host), OnDate(date));
      ButtonDay(day, host) == day &&
      (CanStart(day) <==> CurrentStatus(day) == NotStarted || CurrentStatus(day) == Finished) &&
      (CanBreak(day) <==> CurrentStatus(day) == Working) && (CanReturn(day) <==> CurrentStatus(day) == OnBreak) &&
      (CanEnd(day) <==> CurrentStatus(day) == Working)
  {
    var day := Filter(SaveLog(log, rec, host), OnDate(date));
    SaveLogSortedAndCapped(log, rec, host);
    FilterSorted(SaveLog(log, rec, host), OnDate(date), StampKey(host));
    ButtonDayOfSorted(day, host);
    ButtonsFollowStatus(day);
  }

  /** On a day out of time order the buttons can disagree with the status: an end stamped after the
      start but listed before it leaves the status working, while the journey check sorts the start
      first, so the buttons are those of a finished day. */
  lemma ButtonDayDiverges(s: Record, e: Record, host: Host)
    requires s.kind == Start && e.kind == End
    requires host.instantOf(s.timestamp) < host.instantOf(e.timestamp)
    ensures CurrentStatus([e, s]) == Working
    ensures ButtonDay([e, s], host) == [s, e]
    ensures ButtonStates(ButtonDay([e, s], host)) == Buttons(true, false, false, false)
  {
    JourneySortsEndStart(s, e, host);
    assert AfterWorkTime([s, e], host) == [s, e];
  }

  lemma JourneySortsEndStart(s: Record, e: Record, host: Host)
    requires s.kind == Start
    requires host.instantOf(s.timestamp) < host.instantOf(e.timestamp)
    ensures AfterJourney([e, s], host) == [s, e]
  {
    SortTwo(e, s, StampKey(host));
    assert Any([e, s], OfKind(Start)) by {
      assert OfKind(Start)([e, s][1]);
    }
  }

  /** The punch `registerTime` builds; it carries no justification yet. */
  function PunchRecord(id: int, kind: Kind, at: Moment): (r: Record)
    ensures r.kind == kind && r.date == at.date && r.time == at.time && r.timestamp == at.timestamp
    ensures r.id == id && r.justification == None
  {
    Record(id, kind, at.timestamp, at.date, at.time, None)
  }

  /** The punch `registerTime` saves, or why it refuses one: a moment that is not a valid date, an
      unknown type, or the consistency check's error, in that order. */
  function Punched(log: seq<Record>, typeName: string, at: Moment, id: int): (r: Result<Record, Error>)
    ensures r == Failure(InvalidDate) <==> !at.valid
    ensures r == Failure(InvalidType(typeName)) <==> at.valid && ParseKind(typeName).None?
    ensures at.valid && ParseKind(typeName).Some? ==>
      var rec := PunchRecord(id, ParseKind(typeName).value, at);
      match Validate(log, rec)
      case Pass => r == Success(rec)
      case Fail(e) => r == Failure(e)
  {
    if !at.valid then Failure(InvalidDate)
    else match ParseKind(typeName)
      case None => Failure(InvalidType(typeName))
      case Some(kind) =>
        var rec := PunchRecord(id, kind, at);
        match Validate(log, rec)
        case Pass => Success(rec)
        case Fail(e) => Failure(e)
  }

  /** The log once a justification is saved for the pending record: a new punch, already in the log,
      is given it and pushed once more; an edit goes through `EditLog`, which gives nothing when the
      record's id has left the log. */
  function JustifiedLog(log: seq<Record>, p: Pending, justification: Option<string>, newTime: Option<string>,
                        newDate: Option<string>, host: Host): Option<seq<Record>> {
    match p
    case New(rec) => Some(JustifyLog(log, rec, justification, host))
    case Edit(rec) => EditLog(log, rec.id, justification, newTime, newDate, host)
  }

  /** The days the history lists for a view, grouped by date. */
  function Listed(records: seq<Record>, view: View, host: Host): (g: Grouping)
    ensures Distinct(g.dates)
    ensures forall d :: d in g.dates <==> d in g.byDate
  {
    var filtered := FilterByPeriod(records, PeriodOf(view.period), view.today, view.now, host);
    GroupSpecKeys(filtered);
    GroupSpec(filtered)
  }

  /** The page kept after a reload: one above the page count goes back to the first. */
  function ResetPage(page: int, total: nat): (p: int)
    ensures p <= total || p == 1
    ensures page <= total ==> p == page
  {
    if page > total then 1 else page
  }

  /** `text.trim() || null`. */
  function JustificationText(text: string): (j: Option<string>)
    ensures j.Some? ==> j.value != "" && Trim(j.value) == j.value
    ensures j.None? <==> Trim(text) == ""
  {
    var t := Trim(text);
    TrimIdempotent(text);
    if t == "" then None else Some(t)
  }

  /** The new time of an edit: the time input's value when it is present, enabled and not empty. */
  function NewTime(input: TimeInput): (t: Option<string>)
    ensures t.Some? <==> input.TimeInput? && !input.disabled && input.value != ""
    ensures t.Some? ==> t.value == input.value
  {
    if input.TimeInput? && !input.disabled && input.value != "" then Some(input.value) else None
  }

  /** The new date of an edit: the date input's value when it is present and not empty. */
  function NewDate(input: Field<string>): (d: Option<string>)
    ensures d.Some? <==> input.Present? && input.value != ""
    ensures d.Some? ==> d.value == input.value
  {
    if input.Present? && input.value != "" then Some(input.value) else None
  }

  /** Whether the prompt follows a punch: the checkbox on the page if there is one, else the setting. */
  function ShowPopup(box: Field<bool>, settings: Settings): (show: bool)
    ensures box.Present? ==> show == box.value
    ensures box.Absent? ==> show == settings.showJustificationPopup
  {
    if box.Present? then box.value else settings.showJustificationPopup
  }

  class Tracker {
    const host: Host
    var records: seq<Record>
    var settings: Settings
    var pending: Option<Pending>
    var currentPage: int
    var totalPages: nat
    var totalRecords: nat
    var shown: Grouping
    var alerted: set<string>

    /** The current page is never negative, and it is within the page count unless it is the first. */
    predicate Valid()
      reads this`currentPage, this`totalPages
    {
      0 <= currentPage && (currentPage <= totalPages || currentPage == 1)
    }

    /** The page bookkeeping agrees with the log for a view: the number of days listed, the page
        count, and the days of the current page. */
    predicate Lists(view: View)
      reads this`records, this`totalRecords, this`totalPages, this`shown, this`currentPage
    {
      var g := Listed(records, view, host);
      totalRecords == |g.dates| && totalPages == TotalPages(totalRecords) && shown == Page(g, currentPage, host)
    }

    /** Whether today's punches reach the daily working time. */
    predicate Due(view: View)
      reads this`records, this`settings
    {
      JourneyDue(Filter(records, OnDate(view.today)), settings, view.nowMinute, host)
    }

    /** The state after `loadTimeRecords` and `updateUI`, from a state on page `page` with the alert
        marks `marked`: the history reloaded for the view, the page reset if it ran past the end, and
        today's alert shown (and marked) exactly when it is due and was not marked before. */
    predicate Refreshed(page: int, marked: set<string>, view: View, fired: bool)
      reads this`records, this`settings, this`currentPage, this`totalPages, this`totalRecords, this`shown,
            this`alerted
    {
      Valid() && Lists(view) && currentPage == ResetPage(page, totalPages) &&
      (fired <==> Due(view) && view.today !in marked) &&
      alerted == (if fired then marked + {view.today} else marked)
    }

    /** The field initialisations of the constructor: the stored log, settings and alert marks, page 1
        of 1, no dialog open. The constructor's closing `this.init()` is `Init`, which the caller runs
        next; until then no day is shown. */
    constructor (host: Host, stored: seq<Record>, settings: Settings, alerted: set<string>)
      ensures this.host == host && records == stored && this.settings == settings && this.alerted == alerted
      ensures pending == None && currentPage == 1 && totalPages == 1 && totalRecords == 0
      ensures Valid()
    {
      this.host := host;
      records := stored;
      this.settings := settings;
      pending := None;
      currentPage := 1;
      totalPages := 1;
      totalRecords := 0;
      shown := Grouping([], map[]);
      this.alerted := alerted;
    }

    /** `init`: the history is loaded and the status shown; the event listeners and the clock timer
        are not part of this model. */
    method Init(view: View) returns (fired: bool)
      requires Valid()
      modifies this`currentPage, this`totalPages, this`totalRecords, this`shown, this`alerted
      ensures Refreshed(old(currentPage), old(alerted), view, fired)
    {
      fired := Refresh(view);
    }

    /** `loadTimeRecords`: filter the log by period, group it by date, count the days and pages,
        reset the page if it ran past the end, and take the current page's days. */
    method LoadTimeRecords(view: View)
      requires Valid()
      modifies this`currentPage, this`totalPages, this`totalRecords, this`shown
      ensures Valid() && Lists(view)
      ensures currentPage == ResetPage(old(currentPage), totalPages)
    {
      var filtered := FilterByPeriod(records, PeriodOf(view.period), view.today, view.now, host);
      var g := GroupRecordsByDate(filtered);
      totalRecords := |g.dates|;
      totalPages := TotalPages(totalRecords);
      if currentPage > totalPages {
        currentPage := 1;
      }
      assert g == Listed(records, view, host);
      shown := Page(g, currentPage, host);
    }

    /** `checkDailyJourney`: the alert for today is due when the day has two punches or more, one of
        them a start, and the worked time reaches the daily working time; it is shown only if today
        is not yet marked, and today is then marked. Working the time out sorts the day's array in
        place by timestamp. */
    method CheckDailyJourney(day: array<Record>, view: View) returns (fired: bool)
      modifies this`alerted, day
      ensures fired <==> JourneyDue(old(day[..]), settings, view.nowMinute, host) && view.today !in old(alerted)
      ensures alerted == if fired then old(alerted) + {view.today} else old(alerted)
      ensures day[..] == AfterJourney(old(day[..]), host)
    {
      fired := false;
      if day.Length < 2 || !Any(day[..], OfKind(Start)) {
        return;
      }
      var worked := WorkedMinutes(day, host, view.nowMinute);
      if worked.Some? && worked.value >= EffectiveDaily(settings) && view.today !in alerted {
        fired := true;
        alerted := alerted + {view.today};
      }
    }

    /** `updateCurrentWorkTime`: while the day's status is working, the time worked so far is shown,
        which sorts the day's array in place by timestamp; the shown time is not part of this model. */
    method UpdateCurrentWorkTime(day: array<Record>, view: View)
      modifies day
      ensures day[..] == AfterWorkTime(old(day[..]), host)
    {
      var status := CurrentStatus(day[..]);
      if status != Working || day.Length == 0 {
        return;
      }
      var worked := WorkedMinutes(day, host, view.nowMinute);
    }

    /** `updateUI`: the status of today's punches, the daily-journey check and the running work time
        on the same array of them, and then the buttons of what that array holds. */
    method UpdateUI(view: View) returns (status: Status, fired: bool, buttons: Buttons)
      modifies this`alerted
      ensures status == CurrentStatus(Filter(records, OnDate(view.today)))
      ensures fired <==> Due(view) && view.today !in old(alerted)
      ensures alerted == if fired then old(alerted) + {view.today} else old(alerted)
      ensures buttons == ButtonStates(ButtonDay(Filter(records, OnDate(view.today)), host))
    {
      var today := Filter(records, OnDate(view.today));
      var todayRecords := new Record[|today|](i requires 0 <= i < |today| => today[i]);
      assert todayRecords[..] == today;
      status := CurrentStatus(todayRecords[..]);
      fired := CheckDailyJourney(todayRecords, view);
      UpdateCurrentWorkTime(todayRecords, view);
      buttons := ButtonStates(todayRecords[..]);
    }

    method Refresh(view: View) returns (fired: bool)
      requires Valid()
      modifies this`currentPage, this`totalPages, this`totalRecords, this`shown, this`alerted
      ensures Refreshed(old(currentPage), old(alerted), view, fired)
    {
      LoadTimeRecords(view);
      var status, buttons;
      status, fired, buttons := UpdateUI(view);
    }

    /** `saveRecord`: the record joins the log, which is sorted by timestamp and cut to its latest
        1000 records; then the history and the status are refreshed. */
    method SaveRecord(rec: Record, view: View) returns (fired: bool)
      requires Valid()
      modifies this`records, this`currentPage, this`totalPages, this`totalRecords, this`shown, this`alerted
      ensures records == SaveLog(old(records), rec, host)
      ensures Refreshed(old(currentPage), old(alerted), view, fired)
    {
      records := SaveLog(records, rec, host);
      fired := Refresh(view);
    }

    /** `registerTime`: the punch is saved, the buttons are set once more from the log's punches of the
        punch's own date, and the justification dialog opens for it when the moment calls for one and
        the prompt is wanted; a refused punch changes nothing. */
    method RegisterTime(typeName: string, at: Moment, id: int, popupBox: Field<bool>, view: View)
      returns (res: Outcome<Error>, fired: bool, buttons: Buttons)
      requires Valid()
      modifies this`records, this`pending, this`currentPage, this`totalPages, this`totalRecords, this`shown,
               this`alerted
      ensures res.Fail? <==> Punched(old(records), typeName, at, id).Failure?
      ensures res.Fail? ==> res.error == Punched(old(records), typeName, at, id).error && unchanged(this) && !fired
      ensures res.Pass? ==>
        var rec := Punched(old(records), typeName, at, id).value;
        records == SaveLog(old(records), rec, host) && Refreshed(old(currentPage), old(alerted), view, fired) &&
        pending == if NeedsJustification(at.hour, at.weekday, at.date, settings.holidays) && ShowPopup(popupBox, settings)
                   then Some(New(rec)) else old(pending)
    ensures res.Pass? ==> buttons == ButtonStates(Filter(records, OnDate(at.date)))
    {
      var punched := Punched(records, typeName, at, id);
      if punched.Failure? {
        return Fail(punched.error), false, ButtonStates([]);
      }
      fired, buttons := AcceptPunch(punched.value, at, popupBox, view);
      res := Pass;
    }

    /** The steps of `registerTime` after the check: the save, the buttons of the punch's date, and the
        justification dialog when the moment calls for one and the prompt is wanted. */
    method AcceptPunch(rec: Record, at: Moment, popupBox: Field<bool>, view: View) returns (fired: bool, buttons: Buttons)
      requires Valid()
      modifies this`records, this`pending, this`currentPage, this`totalPages, this`totalRecords, this`shown,
               this`alerted
      ensures records == SaveLog(old(records), rec, host) && Refreshed(old(currentPage), old(alerted), view, fired)
      ensures pending == if NeedsJustification(at.hour, at.weekday, at.date, settings.holidays) && ShowPopup(popupBox, settings)
                         then Some(New(rec)) else old(pending)
      ensures buttons == ButtonStates(Filter(records, OnDate(at.date)))
    {
      var offer := NeedsJustification(at.hour, at.weekday, at.date, settings.holidays) && ShowPopup(popupBox, settings);
      fired := SavePunch(rec, offer, view);
      var todayRecords := Filter(records, OnDate(at.date));
      buttons := ButtonStates(todayRecords);
    }

    /** An accepted punch is saved; the justification dialog opens for it when `offer` holds. */
    method SavePunch(rec: Record, offer: bool, view: View) returns (fired: bool)
      requires Valid()
      modifies this`records, this`pending, this`currentPage, this`totalPages, this`totalRecords, this`shown,
               this`alerted
      ensures records == SaveLog(old(records), rec, host) && Refreshed(old(currentPage), old(alerted), view, fired)
      ensures pending == if offer then Some(New(rec)) else old(pending)
    {
      // The dialog's record is set before the save, which does not read it.
      if offer {
        pending := Some(New(rec));
      }
      fired := SaveRecord(rec, view);
    }

    /** `editRecord`: the dialog opens for the first record with the id, if there is one. */
    method EditRecord(id: int) returns (found: bool)
      modifies this`pending
      ensures found <==> exists i :: 0 <= i < |records| && records[i].id == id
      ensures found ==> pending == Some(Edit(records[FindFirst(records, HasId(id)).value]))
      ensures !found ==> pending == old(pending)
    {
      var i := FindFirst(records, HasId(id));
      found := i.Some?;
      if found {
        pending := Some(Edit(records[i.value]));
        assert HasId(id)(records[i.value]);
      } else {
        assert forall k :: 0 <= k < |records| ==> !HasId(id)(records[k]);
      }
    }

    /** `closeModal`: the dialog closes and forgets its record. */
    method CloseModal()
      modifies this`pending
      ensures pending == None
    {
      pending := None;
    }

    /** `updateRecordJustification`: nothing at all for an unknown id; otherwise the first record with
        the id is edited, the log sorted again, and the history and the status refreshed. */
    method UpdateRecordJustification(id: int, justification: Option<string>, newTime: Option<string>,
                                     newDate: Option<string>, view: View) returns (found: bool, fired: bool)
      requires Valid()
      modifies this`records, this`currentPage, this`totalPages, this`totalRecords, this`shown, this`alerted
      ensures found <==> exists i :: 0 <= i < |old(records)| && old(records)[i].id == id
      ensures !found ==> unchanged(this) && !fired
      ensures found ==> records == EditLog(old(records), id, justification, newTime, newDate, host).value &&
                        Refreshed(old(currentPage), old(alerted), view, fired)
    {
      var edited := EditLog(records, id, justification, newTime, newDate, host);
      found := edited.Some?;
      fired := false;
      if found {
        records := edited.value;
        fired := Refresh(view);
      }
    }

    /** `saveJustification`: the trimmed text (none when empty) goes to the pending record, with the
        time and date typed in when it is an edit, and the dialog closes. Without the text input or a
        pending record nothing changes. */
    method SaveJustification(textBox: Field<string>, timeBox: TimeInput, dateBox: Field<string>, view: View)
      returns (res: Outcome<Error>, fired: bool)
      requires Valid()
      modifies this`records, this`pending, this`currentPage, this`totalPages, this`totalRecords, this`shown,
               this`alerted
      ensures textBox.Absent? ==> res == Fail(NoJustificationInput) && unchanged(this) && !fired
      ensures textBox.Present? && old(pending).None? ==> res == Fail(NothingPending) && unchanged(this) && !fired
      ensures textBox.Present? && old(pending).Some? ==>
        res == Pass && pending == None &&
        var r := JustifiedLog(old(records), old(pending).value, JustificationText(textBox.value),
                              NewTime(timeBox), NewDate(dateBox), host);
        (r.None? ==> records == old(records) && currentPage == old(currentPage) && totalPages == old(totalPages) &&
                     totalRecords == old(totalRecords) && shown == old(shown) && alerted == old(alerted) && !fired) &&
        (r.Some? ==> records == r.value && Refreshed(old(currentPage), old(alerted), view, fired))
    {
      if textBox.Absent? {
        return Fail(NoJustificationInput), false;
      }
      if pending.None? {
        return Fail(NothingPending), false;
      }
      fired := ClosePending(JustificationText(textBox.value), NewTime(timeBox), NewDate(dateBox), view);
      res := Pass;
    }

    /** The dialog is closed, then the justification goes to the record it was pending for. */
    method ClosePending(justification: Option<string>, newTime: Option<string>, newDate: Option<string>, view: View)
      returns (fired: bool)
      requires Valid() && pending.Some?
      modifies this`records, this`pending, this`currentPage, this`totalPages, this`totalRecords, this`shown,
               this`alerted
      ensures pending == None
      ensures var r := JustifiedLog(old(records), old(pending).value, justification, newTime, newDate, host);
        (r.None? ==> records == old(records) && currentPage == old(currentPage) && totalPages == old(totalPages) &&
                     totalRecords == old(totalRecords) && shown == old(shown) && alerted == old(alerted) && !fired) &&
        (r.Some? ==> records == r.value && Refreshed(old(currentPage), old(alerted), view, fired))
    {
      var p := pending.value;
      // The dialog is closed before the log changes, which does not read it.
      CloseModal();
      fired := ApplyJustification(p, justification, newTime, newDate, view);
    }

    /** A justification saved for the pending record: a new punch is given it and saved once more, an
        edited record is updated through `updateRecordJustification`. */
    method ApplyJustification(p: Pending, justification: Option<string>, newTime: Option<string>,
                              newDate: Option<string>, view: View) returns (fired: bool)
      requires Valid()
      modifies this`records, this`currentPage, this`totalPages, this`totalRecords, this`shown, this`alerted
      ensures var r := JustifiedLog(old(records), p, justification, newTime, newDate, host);
        (r.None? ==> records == old(records) && currentPage == old(currentPage) && totalPages == old(totalPages) &&
                     totalRecords == old(totalRecords) && shown == old(shown) && alerted == old(alerted) && !fired) &&
        (r.Some? ==> records == r.value && Refreshed(old(currentPage), old(alerted), view, fired))
    {
      match p
      case New(rec) =>
        fired := ResaveJustified(rec, justification, view);
      case Edit(rec) =>
        var found;
        found, fired := UpdateRecordJustification(rec.id, justification, newTime, newDate, view);
    }

    /** The new punch, which the log holds, is given the justification and saved once more, so that the
        log then holds it twice. */
    method ResaveJustified(rec: Record, justification: Option<string>, view: View) returns (fired: bool)
      requires Valid()
      modifies this`records, this`currentPage, this`totalPages, this`totalRecords, this`shown, this`alerted
      ensures records == JustifyLog(old(records), rec, justification, host) && Refreshed(old(currentPage), old(alerted), view, fired)
    {
      var justified := rec.(justification := justification);
      records := Replace(records, rec, justified);
      fired := SaveRecord(justified, view);
      assert records == JustifyLog(old(records), rec, justification, host);
    }

    /** `deleteRecord`: once confirmed, every record with the id leaves the log. */
    method DeleteRecord(id: int, confirmed: bool, view: View) returns (fired: bool)
      requires Valid()
      modifies this`records, this`currentPage, this`totalPages, this`totalRecords, this`shown, this`alerted
      ensures !confirmed ==> unchanged(this) && !fired
      ensures confirmed ==> records == RemoveId(old(records), id) && Refreshed(old(currentPage), old(alerted), view, fired)
    {
      fired := false;
      if confirmed {
        records := RemoveId(records, id);
        fired := Refresh(view);
      }
    }

    /** The import of `handleFileImport`: a payload that is an array replaces the whole log, as it is
        and unsorted, once confirmed. `payload` is `None` when the file is not a JSON array. */
    method Import(payload: Option<seq<Record>>, confirmed: bool, view: View) returns (imported: bool, fired: bool)
      requires Valid()
      modifies this`records, this`currentPage, this`totalPages, this`totalRecords, this`shown, this`alerted
      ensures imported <==> payload.Some? && confirmed
      ensures !imported ==> unchanged(this) && !fired
      ensures imported ==> records == payload.value && Refreshed(old(currentPage), old(alerted), view, fired)
    {
      imported := payload.Some? && confirmed;
      fired := false;
      if imported {
        records := payload.value;
        fired := Refresh(view);
      }
    }

    /** `updateSettingsFromForm`: the form's values are taken into the settings and the status is
        refreshed; the history is not reloaded. */
    method UpdateSettingsFromForm(form: Form, view: View) returns (fired: bool)
      modifies this`settings, this`alerted
      ensures settings == ApplyForm(old(settings), form)
      ensures fired <==> Due(view) && view.today !in old(alerted)
      ensures alerted == if fired then old(alerted) + {view.today} else old(alerted)
    {
      settings := ApplyForm(settings, form);
      var status, buttons;
      status, fired, buttons := UpdateUI(view);
    }

    // ---------------------------------------------------------------- page navigation

    /** `goToFirstPage`. */
    method GoToFirstPage(view: View)
      requires Valid()
      modifies this`currentPage, this`totalPages, this`totalRecords, this`shown
      ensures Valid() && Lists(view) && currentPage == 1
    {
      currentPage := 1;
      LoadTimeRecords(view);
    }

    /** `goToPrevPage`: one page back unless on the first. When the listing is up to date, a page in
        range stays in range. */
    method GoToPrevPage(view: View)
      requires Valid()
      modifies this`currentPage, this`totalPages, this`totalRecords, this`shown
      ensures Valid()
      ensures old(currentPage) > 1 ==> Lists(view) && currentPage == ResetPage(old(currentPage) - 1, totalPages)
      ensures old(currentPage) <= 1 ==> unchanged(this)
      ensures old(Lists(view)) ==> totalPages == old(totalPages)
      ensures old(Lists(view)) && 1 <= old(currentPage) <= old(totalPages) ==> 1 <= currentPage <= totalPages
    {
      if currentPage > 1 {
        currentPage := currentPage - 1;
        LoadTimeRecords(view);
      }
    }

    /** `goToNextPage`: one page on unless on the last. When the listing is up to date, a page in
        range stays in range. */
    method GoToNextPage(view: View)
      requires Valid()
      modifies this`currentPage, this`totalPages, this`totalRecords, this`shown
      ensures Valid()
      ensures old(currentPage) < old(totalPages) ==>
                Lists(view) && currentPage == ResetPage(old(currentPage) + 1, totalPages)
      ensures old(currentPage) >= old(totalPages) ==> unchanged(this)
      ensures old(Lists(view)) ==> totalPages == old(totalPages)
      ensures old(Lists(view)) && 1 <= old(currentPage) <= old(totalPages) ==> 1 <= currentPage <= totalPages
    {
      if currentPage < totalPages {
        currentPage := currentPage + 1;
        LoadTimeRecords(view);
      }
    }

    /** `goToLastPage`: the page is set to the page count. With nothing listed that is page 0, which
        shows no day. */
    method GoToLastPage(view: View)
      requires Valid()
      modifies this`currentPage, this`totalPages, this`totalRecords, this`shown
      ensures Valid() && Lists(view) && currentPage == ResetPage(old(totalPages), totalPages)
      ensures old(Lists(view)) ==> currentPage == totalPages
      ensures old(Lists(view)) && old(totalPages) == 0 ==> currentPage == 0 && shown.dates == []
    {
      currentPage := totalPages;
      LoadTimeRecords(view);
      PageZeroEmpty(Listed(records, view, host).dates, host);
    }
  }
}
