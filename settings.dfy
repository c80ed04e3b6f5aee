/** The tracker's settings and the settings form: the daily and weekly working time, the holiday
    list, whether the justification prompt is shown, and an optional time zone. Working times are
    held in minutes. */
module Config {
  import opened Wrappers
  import opened Seqs
  import opened Text

  datatype Settings = Settings(dailyMinutes: int, weeklyMinutes: int, holidays: seq<string>,
                               showJustificationPopup: bool, timeZone: Option<string>)

  /** The settings used when none are stored: 8 hours a day, 40 a week, no holidays, prompt shown. */
  const Defaults := Settings(8 * 60, 40 * 60, [], true, None)

  /** `(dailyHours || 8) * 60`: a stored zero counts as the default 8 hours. */
  function EffectiveDaily(s: Settings): (m: int)
    ensures s.dailyMinutes != 0 ==> m == s.dailyMinutes
    ensures s.dailyMinutes == 0 ==> m == Defaults.dailyMinutes
  {
    if s.dailyMinutes == 0 then Defaults.dailyMinutes else s.dailyMinutes
  }

  /** `(weeklyHours || 40) * 60`. */
  function EffectiveWeekly(s: Settings): (m: int)
    ensures s.weeklyMinutes != 0 ==> m == s.weeklyMinutes
    ensures s.weeklyMinutes == 0 ==> m == Defaults.weeklyMinutes
  {
    if s.weeklyMinutes == 0 then Defaults.weeklyMinutes else s.weeklyMinutes
  }

  /** A settings-form control, which the page may lack. */
  datatype Field<T> = Absent | Present(value: T)

  /** What the settings form holds: the daily and weekly inputs as read by `parseFloat` (in minutes,
      `None` for NaN), the holidays text, the prompt checkbox and the selected time zone. */
  datatype Form = Form(daily: Field<Option<int>>, weekly: Field<Option<int>>, holidaysText: Field<string>,
                       showJustificationPopup: Field<bool>, timeZone: Field<string>)

  predicate NonEmpty(s: string) { s != "" }

  /** A holiday as the form stores it: non-empty, with no surrounding white space and no line break. */
  predicate CleanHoliday(h: string) {
    h != "" && Trim(h) == h && '\n' !in h
  }

  /** The lines of a text, each trimmed. */
  function TrimmedLines(text: string): (r: seq<string>)
    ensures |r| == |Lines(text)|
    ensures forall i :: 0 <= i < |r| ==> r[i] == Trim(Lines(text)[i])
    ensures forall i :: 0 <= i < |r| ==> Trim(r[i]) == r[i] && '\n' !in r[i]
  {
    var lines := Lines(text);
    var r := seq(|lines|, i requires 0 <= i < |lines| => Trim(lines[i]));
    forall i | 0 <= i < |r| ensures Trim(r[i]) == r[i] && '\n' !in r[i] {
      TrimIdempotent(lines[i]);
      TrimKeepsOut(lines[i], '\n');
    }
    r
  }

  /** The holiday list typed one per line: lines split at `\r?\n`, trimmed, blank ones dropped. */
  function ParseHolidays(text: string): (hs: seq<string>)
    ensures forall i :: 0 <= i < |hs| ==> CleanHoliday(hs[i])
  {
    var trimmed := TrimmedLines(text);
    var hs := Filter(trimmed, NonEmpty);
    forall i | 0 <= i < |hs| ensures CleanHoliday(hs[i]) {
      FilterMember(trimmed, NonEmpty, hs[i]);
    }
    hs
  }

  /** A holiday is kept exactly when it is some line of the text, trimmed, and not blank. */
  lemma ParseHolidaysMember(text: string, h: string)
    ensures h in ParseHolidays(text) <==>
      h != "" && exists i :: 0 <= i < |Lines(text)| && Trim(Lines(text)[i]) == h
  {
    KeptTrimmed(Lines(text), TrimmedLines(text), h);
  }

  lemma KeptTrimmed(lines: seq<string>, trimmed: seq<string>, h: string)
    requires |trimmed| == |lines|
    requires forall i :: 0 <= i < |trimmed| ==> trimmed[i] == Trim(lines[i])
    ensures h in Filter(trimmed, NonEmpty) <==> h != "" && exists i :: 0 <= i < |lines| && Trim(lines[i]) == h
  {
    FilterMember(trimmed, NonEmpty, h);
    if h in trimmed {
      var i :| 0 <= i < |trimmed| && trimmed[i] == h;
      assert Trim(lines[i]) == h;
    }
    if exists i :: 0 <= i < |lines| && Trim(lines[i]) == h {
      var i :| 0 <= i < |lines| && Trim(lines[i]) == h;
      assert trimmed[i] == h;
    }
  }

  /** The form shows the holidays one per line, and reading them back gives the same list. */
  lemma {:induction false} ParseHolidaysJoin(hs: seq<string>)
    requires forall i :: 0 <= i < |hs| ==> CleanHoliday(hs[i])
    ensures ParseHolidays(Join(hs, '\n')) == hs
  {
    if hs == [] {
      ParseHolidaysEmpty();
    } else {
      CleanLinesJoin(hs);
      TrimmedClean(hs, TrimmedLines(Join(hs, '\n')));
      FilterAll(hs, NonEmpty);
    }
  }

  /** An empty holidays text gives no holidays. */
  lemma ParseHolidaysEmpty()
    ensures ParseHolidays("") == []
  {
    assert Lines("") == [""];
    var trimmed := TrimmedLines("");
    assert trimmed == [""];
    assert Filter(trimmed, NonEmpty) == [] by { assert trimmed[1..] == []; }
  }

  lemma TrimmedClean(hs: seq<string>, trimmed: seq<string>)
    requires |trimmed| == |hs|
    requires forall i :: 0 <= i < |hs| ==> CleanHoliday(hs[i])
    requires forall i :: 0 <= i < |trimmed| ==> trimmed[i] == Trim(hs[i])
    ensures trimmed == hs
  {
  }

  /** Clean holidays joined with line feeds read back as the same lines. */
  lemma CleanLinesJoin(hs: seq<string>)
    requires |hs| >= 1
    requires forall i :: 0 <= i < |hs| ==> CleanHoliday(hs[i])
    ensures Lines(Join(hs, '\n')) == hs
  {
    forall i | 0 <= i < |hs| - 1 ensures hs[i] == [] || hs[i][|hs[i]| - 1] != '\r' {
      TrimIsInfix(hs[i]);
      assert IsSpace('\r');
    }
    LinesOfJoin(hs);
  }

  /** Saving the form a second time without touching the holidays text keeps the same holidays. */
  lemma ParseHolidaysStable(text: string)
    ensures ParseHolidays(Join(ParseHolidays(text), '\n')) == ParseHolidays(text)
  {
    ParseHolidaysJoin(ParseHolidays(text));
  }

  /** The settings after the form is saved: a daily or weekly value is taken only when it is a number
      above zero; the holidays, the prompt choice and the time zone (empty meaning none) are taken as
      they are, wherever the control is present. */
  function ApplyForm(s: Settings, f: Form): (r: Settings)
    ensures f.daily.Present? && f.daily.value.Some? && f.daily.value.value > 0 ==> r.dailyMinutes == f.daily.value.value
    ensures !(f.daily.Present? && f.daily.value.Some? && f.daily.value.value > 0) ==> r.dailyMinutes == s.dailyMinutes
    ensures f.weekly.Present? && f.weekly.value.Some? && f.weekly.value.value > 0 ==> r.weeklyMinutes == f.weekly.value.value
    ensures !(f.weekly.Present? && f.weekly.value.Some? && f.weekly.value.value > 0) ==> r.weeklyMinutes == s.weeklyMinutes
    ensures r.holidays == if f.holidaysText.Present? then ParseHolidays(f.holidaysText.value) else s.holidays
    ensures r.showJustificationPopup ==
      if f.showJustificationPopup.Present? then f.showJustificationPopup.value else s.showJustificationPopup
    ensures f.timeZone.Present? && f.timeZone.value != "" ==> r.timeZone == Some(f.timeZone.value)
    ensures f.timeZone.Present? && f.timeZone.value == "" ==> r.timeZone == None
    ensures f.timeZone.Absent? ==> r.timeZone == s.timeZone
    ensures s.dailyMinutes > 0 ==> r.dailyMinutes > 0
    ensures s.weeklyMinutes > 0 ==> r.weeklyMinutes > 0
    ensures f.timeZone.Present? ==> r.timeZone != Some("")
    ensures f.holidaysText.Present? ==> forall i :: 0 <= i < |r.holidays| ==> CleanHoliday(r.holidays[i])
  {
    var daily := if f.daily.Present? && f.daily.value.Some? && f.daily.value.value > 0
                 then f.daily.value.value else s.dailyMinutes;
    var weekly := if f.weekly.Present? && f.weekly.value.Some? && f.weekly.value.value > 0
                  then f.weekly.value.value else s.weeklyMinutes;
    var holidays := if f.holidaysText.Present? then ParseHolidays(f.holidaysText.value) else s.holidays;
    var popup := if f.showJustificationPopup.Present? then f.showJustificationPopup.value
                 else s.showJustificationPopup;
    var zone := if f.timeZone.Present? then (if f.timeZone.value == "" then None else Some(f.timeZone.value))
                else s.timeZone;
    Settings(daily, weekly, holidays, popup, zone)
  }

  /** The form as the settings page fills it in from the current settings. */
  function PopulatedForm(s: Settings): Form {
    Form(Present(Some(s.dailyMinutes)), Present(Some(s.weeklyMinutes)), Present(Join(s.holidays, '\n')),
         Present(s.showJustificationPopup), Present(if s.timeZone.Some? then s.timeZone.value else ""))
  }

  /** Opening the settings and saving them unchanged gives back the same settings, for settings the
      form itself could have produced. */
  lemma FormRoundTrip(s: Settings)
    requires s.dailyMinutes > 0 && s.weeklyMinutes > 0
    requires forall i :: 0 <= i < |s.holidays| ==> CleanHoliday(s.holidays[i])
    requires s.timeZone != Some("")
    ensures ApplyForm(s, PopulatedForm(s)) == s
  {
    ParseHolidaysJoin(s.holidays);
  }

  /** An empty form (no controls on the page) changes nothing. */
  lemma EmptyFormKeeps(s: Settings)
    ensures ApplyForm(s, Form(Absent, Absent, Absent, Absent, Absent)) == s
  {
  }
}
