/** The status of the working day and the punch buttons: `getCurrentStatus` reads the status off the
    last punch of the day, `updateButtonStates` enables each button from that same punch, and
    `updateCurrentStatus` is an older variant that counts punches instead. */
module Status {
  import opened Wrappers
  import opened Seqs
  import opened Punch

  datatype Status = NotStarted | Working | OnBreak | Finished

  /** The status a punch leaves the day in. */
  function After(k: Kind): Status {
    match k
    case Start => Working
    case BreakStart => OnBreak
    case BreakEnd => Working
    case End => Finished
  }

  /** `getCurrentStatus` over the day's punches in date order: not started for an empty day,
      otherwise what the last punch leaves. */
  function CurrentStatus(day: seq<Record>): Status {
    if day == [] then NotStarted else After(day[|day| - 1].kind)
  }

  /** The status depends on the last punch only: a punch appended to any day sets it. */
  lemma CurrentStatusAppend(day: seq<Record>, r: Record)
    ensures CurrentStatus(day + [r]) == After(r.kind)
    ensures CurrentStatus([]) == NotStarted
  {
  }

  // ---------------------------------------------------------------- the buttons of `updateButtonStates`

  /** "Start" is enabled before any punch and after an end. */
  predicate CanStart(day: seq<Record>) {
    day == [] || day[|day| - 1].kind == End
  }

  /** "Break" is enabled after a start or a return. */
  predicate CanBreak(day: seq<Record>) {
    day != [] && (day[|day| - 1].kind == Start || day[|day| - 1].kind == BreakEnd)
  }

  /** "Return" is enabled only during a break. */
  predicate CanReturn(day: seq<Record>) {
    day != [] && day[|day| - 1].kind == BreakStart
  }

  /** "End" is enabled after some punch that is neither an end nor a break start. */
  predicate CanEnd(day: seq<Record>) {
    day != [] && day[|day| - 1].kind != End && day[|day| - 1].kind != BreakStart
  }

  /** Whether the button for a punch of kind `k` is enabled. */
  predicate Enabled(day: seq<Record>, k: Kind) {
    match k
    case Start => CanStart(day)
    case BreakStart => CanBreak(day)
    case BreakEnd => CanReturn(day)
    case End => CanEnd(day)
  }

  /** Which of the start, break, return and end buttons `updateButtonStates` enables. */
  datatype Buttons = Buttons(start: bool, pause: bool, resume: bool, finish: bool)

  /** `updateButtonStates` over the day's punches. */
  function ButtonStates(day: seq<Record>): Buttons {
    Buttons(CanStart(day), CanBreak(day), CanReturn(day), CanEnd(day))
  }

  /** The buttons follow the status: start when not started or finished, break and end while working,
      return while on a break. */
  lemma ButtonsFollowStatus(day: seq<Record>)
    ensures CanStart(day) <==> CurrentStatus(day) == NotStarted || CurrentStatus(day) == Finished
    ensures CanBreak(day) <==> CurrentStatus(day) == Working
    ensures CanReturn(day) <==> CurrentStatus(day) == OnBreak
    ensures CanEnd(day) <==> CurrentStatus(day) == Working
  {
  }

  /** In every status exactly one group of buttons is on: at any moment a start, a return, or a
      break and an end together are possible, and never two of these groups. */
  lemma ButtonsExclusive(day: seq<Record>)
    ensures CanStart(day) || CanReturn(day) || (CanBreak(day) && CanEnd(day))
    ensures CanStart(day) ==> !CanBreak(day) && !CanReturn(day) && !CanEnd(day)
    ensures CanReturn(day) ==> !CanBreak(day) && !CanEnd(day)
  {
    ButtonsFollowStatus(day);
  }

  /** When "Return" is enabled for the punches of a date, the consistency check cannot refuse a
      return on that date for lack of a break start. */
  lemma ReturnEnabledPasses(log: seq<Record>, rec: Record)
    requires rec.kind == BreakEnd && CanReturn(Filter(log, OnDate(rec.date)))
    ensures Validate(log, rec) != Fail(NoBreakStart)
  {
    var day := Filter(log, OnDate(rec.date));
    var last := day[|day| - 1];
    FilterMember(log, OnDate(rec.date), last);
    assert HasBreakStartOn(log, rec.date) by {
      assert last in log && last.date == rec.date && last.kind == BreakStart;
    }
  }

  /** The check is weaker than the button: after a break that already ended, a second return at
      another time passes the check although "Return" is disabled. */
  lemma SecondReturnPasses(log: seq<Record>, rec: Record)
    requires |log| == 3 && log[0].kind == Start && log[1].kind == BreakStart && log[2].kind == BreakEnd
    requires forall i :: 0 <= i < 3 ==> log[i].date == rec.date
    requires rec.kind == BreakEnd && rec.time != log[2].time
    ensures Validate(log, rec) == Pass
    ensures !CanReturn(Filter(log, OnDate(rec.date)))
  {
    NoSecondReturnAt(log, rec);
    assert HasBreakStartOn(log, rec.date) by {
      assert log[1] in log;
    }
    assert forall r :: r in log ==> OnDate(rec.date)(r);
    FilterAll(log, OnDate(rec.date));
  }

  lemma NoSecondReturnAt(log: seq<Record>, rec: Record)
    requires |log| == 3 && log[0].kind == Start && log[1].kind == BreakStart && log[2].kind == BreakEnd
    requires rec.kind == BreakEnd && rec.time != log[2].time
    ensures !IsDuplicate(log, rec)
  {
    forall r | r in log ensures !(r.kind == rec.kind && r.time == rec.time) {
      var i :| 0 <= i < 3 && log[i] == r;
    }
  }

  // ---------------------------------------------------------------- `updateCurrentStatus`

  /** The number of punches of kind `k`. */
  function CountOf(day: seq<Record>, k: Kind): nat {
    |Filter(day, OfKind(k))|
  }

  /** `updateCurrentStatus`: finished as soon as the day has an end, on a break while break starts
      outnumber returns, working once it has a start, and not started otherwise. */
  function CountStatus(day: seq<Record>): Status {
    if day == [] then NotStarted
    else if Any(day, OfKind(End)) then Finished
    else if CountOf(day, BreakStart) > CountOf(day, BreakEnd) then OnBreak
    else if Any(day, OfKind(Start)) then Working
    else NotStarted
  }

  /** A day punched only through enabled buttons. */
  predicate Guarded(day: seq<Record>) {
    forall i :: 0 <= i < |day| ==> Enabled(day[..i], day[i].kind)
  }

  predicate NoEnd(day: seq<Record>) {
    forall i :: 0 <= i < |day| ==> day[i].kind != End
  }

  /** What holds of a guarded day with no end: it opens with its only start, and break starts
      outnumber returns by one exactly while on a break, by none otherwise. */
  predicate OpenDay(day: seq<Record>) {
    day != [] ==>
      day[0].kind == Start &&
      (forall i :: 0 < i < |day| ==> day[i].kind != Start) &&
      CountOf(day, BreakStart) == CountOf(day, BreakEnd) + (if day[|day| - 1].kind == BreakStart then 1 else 0)
  }

  lemma CountOfAppend(day: seq<Record>, r: Record, k: Kind)
    ensures CountOf(day + [r], k) == CountOf(day, k) + (if r.kind == k then 1 else 0)
  {
    FilterConcat(day, [r], OfKind(k));
    FilterSingleton(r, OfKind(k));
  }

  lemma {:induction false} GuardedOpenDay(day: seq<Record>)
    requires Guarded(day) && NoEnd(day)
    ensures OpenDay(day)
    decreases |day|
  {
    if day != [] {
      var init, r := day[..|day| - 1], day[|day| - 1];
      GuardedInit(day);
      NoEndInit(day);
      GuardedOpenDay(init);
      OpenDayStep(init, r);
      assert day == init + [r];
    }
  }

  /** Every punch before the last was also made through an enabled button, and so was the last. */
  lemma GuardedInit(day: seq<Record>)
    requires Guarded(day) && day != []
    ensures Guarded(day[..|day| - 1]) && Enabled(day[..|day| - 1], day[|day| - 1].kind)
  {
    var init := day[..|day| - 1];
    forall i | 0 <= i < |init| ensures Enabled(init[..i], init[i].kind) {
      assert init[..i] == day[..i] && init[i] == day[i];
    }
  }

  lemma NoEndInit(day: seq<Record>)
    requires NoEnd(day) && day != []
    ensures NoEnd(day[..|day| - 1]) && day[|day| - 1].kind != End
  {
    var init := day[..|day| - 1];
    forall i | 0 <= i < |init| ensures init[i].kind != End {
      assert init[i] == day[i];
    }
  }

  /** A punch other than an end, made through its enabled button, keeps an open day open. */
  lemma OpenDayStep(init: seq<Record>, r: Record)
    requires OpenDay(init) && NoEnd(init) && Enabled(init, r.kind) && r.kind != End
    ensures OpenDay(init + [r])
  {
    var day := init + [r];
    CountOfAppend(init, r, BreakStart);
    CountOfAppend(init, r, BreakEnd);
    if init == [] {
      assert CountOf([], BreakStart) == 0 && CountOf([], BreakEnd) == 0;
    } else {
      assert init[|init| - 1].kind != End;
      assert day[0] == init[0];
      forall i | 0 < i < |day| ensures day[i].kind != Start {
        if i < |init| {
          assert day[i] == init[i];
        }
      }
    }
  }

  /** On a day punched through the buttons, with an end at most as its last punch, the counting
      variant reports the same status as the last-punch rule. */
  lemma CountStatusAgrees(day: seq<Record>)
    requires Guarded(day)
    requires forall i :: 0 <= i < |day| - 1 ==> day[i].kind != End
    ensures CountStatus(day) == CurrentStatus(day)
  {
    if day != [] {
      var init, r := day[..|day| - 1], day[|day| - 1];
      if r.kind == End {
        assert Any(day, OfKind(End)) by { assert OfKind(End)(day[|day| - 1]); }
      } else {
        assert NoEnd(day);
        GuardedOpenDay(day);
        assert !Any(day, OfKind(End));
        assert Any(day, OfKind(Start)) by { assert OfKind(Start)(day[0]); }
      }
    }
  }

  /** A guarded day may start again after its end; from then on the two rules disagree. */
  lemma CountStatusDiverges(day: seq<Record>)
    requires |day| == 3 && day[0].kind == Start && day[1].kind == End && day[2].kind == Start
    ensures Guarded(day)
    ensures CurrentStatus(day) == Working && CountStatus(day) == Finished
  {
    assert day[..1][0] == day[0] && day[..2][1] == day[1];
    assert Any(day, OfKind(End)) by { assert OfKind(End)(day[1]); }
  }
}
