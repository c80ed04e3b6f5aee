/** Time accounting over the punches of a day or a period: the segment scan of
    `calculateDayTotalMinutes`, the clock-text computation of `calculateWorkedHours`, the overtime of
    `calculateStatistics`, the "Xh Ymin" rendering, and the rule for when a punch asks for a
    justification. All amounts are whole minutes. */
module Accounting {
  import opened Wrappers
  import opened Seqs
  import opened Text
  import opened Clock
  import opened StableSort
  import opened Punch
  import opened Config
  import opened Grouping

  // ---------------------------------------------------------------- segment scan

  /** The state of the scan: minutes counted so far, and the instant the open segment began. */
  datatype Scan = Scan(total: int, open: Option<int>)

  const Idle := Scan(0, None)

  /** A start or a return from a break opens a segment (replacing one already open); a break start or
      an end closes the open segment and counts it; a closer with nothing open counts nothing. */
  function ScanStep(st: Scan, at: int, kind: Kind): Scan {
    match kind
    case Start => Scan(st.total, Some(at))
    case BreakEnd => Scan(st.total, Some(at))
    case BreakStart => if st.open.Some? then Scan(st.total + (at - st.open.value), None) else st
    case End => if st.open.Some? then Scan(st.total + (at - st.open.value), None) else st
  }

  function ScanFrom(st: Scan, records: seq<Record>, host: Host): Scan
    decreases |records|
  {
    if records == [] then st
    else
      var last := records[|records| - 1];
      ScanStep(ScanFrom(st, records[..|records| - 1], host), host.instantOf(last.timestamp), last.kind)
  }

  /** The minutes worked in the closed segments of `records`, taken in the order given. */
  function DayTotal(records: seq<Record>, host: Host): int {
    ScanFrom(Idle, records, host).total
  }

  method DayTotalMinutes(records: seq<Record>, host: Host) returns (totalMinutes: int)
    ensures totalMinutes == DayTotal(records, host)
  {
    totalMinutes := 0;
    var segmentStart: Option<int> := None;
    for i := 0 to |records|
      invariant Scan(totalMinutes, segmentStart) == ScanFrom(Idle, records[..i], host)
    {
      var r := records[i];
      var recordTime := host.instantOf(r.timestamp);
      assert records[..i + 1][..i] == records[..i];
      match r.kind {
        case Start => segmentStart := Some(recordTime);
        case BreakEnd => segmentStart := Some(recordTime);
        case BreakStart =>
          if segmentStart.Some? {
            totalMinutes := totalMinutes + (recordTime - segmentStart.value);
            segmentStart := None;
          }
        case End =>
          if segmentStart.Some? {
            totalMinutes := totalMinutes + (recordTime - segmentStart.value);
            segmentStart := None;
          }
      }
    }
    assert records[..|records|] == records;
  }

  lemma {:induction false} ScanFromAppend(st: Scan, a: seq<Record>, b: seq<Record>, host: Host)
    ensures ScanFrom(st, a + b, host) == ScanFrom(ScanFrom(st, a, host), b, host)
    decreases |b|
  {
    if b == [] {
      assert a + b == a;
    } else {
      assert (a + b)[..|a + b| - 1] == a + b[..|b| - 1];
      ScanFromAppend(st, a, b[..|b| - 1], host);
    }
  }

  /** Minutes already counted are carried along unchanged. */
  lemma {:induction false} ScanFromShift(t: int, open: Option<int>, b: seq<Record>, host: Host)
    ensures ScanFrom(Scan(t, open), b, host).total == t + ScanFrom(Scan(0, open), b, host).total
    ensures ScanFrom(Scan(t, open), b, host).open == ScanFrom(Scan(0, open), b, host).open
    decreases |b|
  {
    if b != [] {
      ScanFromShift(t, open, b[..|b| - 1], host);
    }
  }

  /** The total is additive over a split point where no segment is open. */
  lemma DayTotalConcat(a: seq<Record>, b: seq<Record>, host: Host)
    requires ScanFrom(Idle, a, host).open.None?
    ensures DayTotal(a + b, host) == DayTotal(a, host) + DayTotal(b, host)
  {
    ScanFromAppend(Idle, a, b, host);
    ScanFromShift(DayTotal(a, host), None, b, host);
  }

  /** A segment still open at the end counts nothing: appending a start or a return leaves the total. */
  lemma DayTotalOpenAtEnd(s: seq<Record>, r: Record, host: Host)
    requires r.kind == Start || r.kind == BreakEnd
    ensures DayTotal(s + [r], host) == DayTotal(s, host)
  {
    assert (s + [r])[..|s|] == s;
  }

  /** A break start or an end with no open segment counts nothing. */
  lemma DayTotalCloserWithoutOpen(s: seq<Record>, r: Record, host: Host)
    requires r.kind == BreakStart || r.kind == End
    requires ScanFrom(Idle, s, host).open.None?
    ensures DayTotal(s + [r], host) == DayTotal(s, host)
  {
    assert (s + [r])[..|s|] == s;
  }

  /** What the scan keeps on a time-ordered day: the total is never negative and never more than the
      time from the first punch to the open segment's start (or to the last punch when none is open). */
  predicate ScanBounded(s: seq<Record>, st: Scan, host: Host)
    requires s != []
  {
    var first, last := host.instantOf(s[0].timestamp), host.instantOf(s[|s| - 1].timestamp);
    0 <= st.total &&
    (st.open.Some? ==> first <= st.open.value <= last && st.total <= st.open.value - first) &&
    (st.open.None? ==> st.total <= last - first)
  }

  lemma {:induction false} ScanSortedBounded(s: seq<Record>, host: Host)
    requires s != [] && SortedBy(s, StampKey(host))
    ensures ScanBounded(s, ScanFrom(Idle, s, host), host)
    decreases |s|
  {
    var key := StampKey(host);
    if |s| == 1 {
      assert s[..0] == [];
    } else {
      var init := s[..|s| - 1];
      assert SortedBy(init, key);
      ScanSortedBounded(init, host);
      assert key(init[0]) == key(s[0]);
      assert key(init[|init| - 1]) <= key(s[|s| - 1]);
      assert key(s[0]) <= key(s[|s| - 1]);
    }
  }

  /** On punches in time order, the day's total lies between zero and the time from the first punch
      to the last. */
  lemma DayTotalBounds(s: seq<Record>, host: Host)
    requires s != [] && SortedBy(s, StampKey(host))
    ensures 0 <= DayTotal(s, host) <= host.instantOf(s[|s| - 1].timestamp) - host.instantOf(s[0].timestamp)
  {
    ScanSortedBounded(s, host);
  }

  /** A day of start and end counts the time between them. */
  lemma DayTotalStartEnd(s: seq<Record>, host: Host)
    requires |s| == 2 && s[0].kind == Start && s[1].kind == End
    ensures DayTotal(s, host) == host.instantOf(s[1].timestamp) - host.instantOf(s[0].timestamp)
  {
    var t0 := host.instantOf(s[0].timestamp);
    assert ScanFrom(Idle, s[..1], host) == Scan(0, Some(t0)) by {
      assert s[..1][..0] == [];
      assert s[..1][0] == s[0];
    }
    assert s[..|s| - 1] == s[..1];
  }

  /** A day with one break counts the time before it and the time after it. */
  lemma DayTotalWithBreak(s: seq<Record>, host: Host)
    requires |s| == 4 && s[0].kind == Start && s[1].kind == BreakStart && s[2].kind == BreakEnd && s[3].kind == End
    ensures DayTotal(s, host) == (host.instantOf(s[1].timestamp) - host.instantOf(s[0].timestamp))
                                 + (host.instantOf(s[3].timestamp) - host.instantOf(s[2].timestamp))
  {
    var t0, t1 := host.instantOf(s[0].timestamp), host.instantOf(s[1].timestamp);
    var t2 := host.instantOf(s[2].timestamp);
    assert ScanFrom(Idle, s[..1], host) == Scan(0, Some(t0)) by {
      assert s[..1][..0] == [];
      assert s[..1][0] == s[0];
    }
    assert ScanFrom(Idle, s[..2], host) == Scan(t1 - t0, None) by {
      assert s[..2][..1] == s[..1];
      assert s[..2][1] == s[1];
    }
    assert ScanFrom(Idle, s[..3], host) == Scan(t1 - t0, Some(t2)) by {
      assert s[..3][..2] == s[..2];
      assert s[..3][2] == s[2];
    }
    assert s[..|s| - 1] == s[..3];
  }

  // ---------------------------------------------------------------- worked time from the clock texts

  /** A negative difference of times of day is taken as crossing midnight. */
  function Wrap(d: int): int {
    if d < 0 then d + MinutesPerDay else d
  }

  /** The minutes from one time of day to another; NaN (`None`) when either is NaN. */
  function Span(from: Option<int>, to: Option<int>): (r: Option<int>)
    ensures r.Some? <==> from.Some? && to.Some?
  {
    if from.Some? && to.Some? then Some(Wrap(to.value - from.value)) else None
  }

  /** The times of day of punches, read from their "HH:MM" texts. */
  function ClockTimes(rs: seq<Record>): (ts: seq<Option<int>>)
    ensures |ts| == |rs|
    decreases |rs|
  {
    if rs == [] then [] else ClockTimes(rs[..|rs| - 1]) + [ClockMinutes(rs[|rs| - 1].time)]
  }

  lemma {:induction false} ClockTimesAt(rs: seq<Record>, i: nat)
    requires i < |rs|
    ensures ClockTimes(rs)[i] == ClockMinutes(rs[i].time)
    decreases |rs|
  {
    if i < |rs| - 1 {
      ClockTimesAt(rs[..|rs| - 1], i);
    }
  }

  /** The length of the `i`-th break: the `i`-th break start to the `i`-th return; a break start
      without a return of the same rank adds nothing. */
  function BreakPair(starts: seq<Option<int>>, ends: seq<Option<int>>, i: nat): Option<int>
    requires i < |starts|
  {
    if i < |ends| then Span(starts[i], ends[i]) else Some(0)
  }

  /** The sum of the first `n` breaks, NaN as soon as one of them is. */
  function BreakSum(starts: seq<Option<int>>, ends: seq<Option<int>>, n: nat): Option<int>
    requires n <= |starts|
    decreases n
  {
    if n == 0 then Some(0)
    else
      var before, pair := BreakSum(starts, ends, n - 1), BreakPair(starts, ends, n - 1);
      if before.Some? && pair.Some? then Some(before.value + pair.value) else None
  }

  /** The minutes from the start to the end (crossing midnight when the end is earlier), less the
      breaks, and never below 0; NaN when any time involved is. */
  function WorkedFrom(from: Option<int>, to: Option<int>, starts: seq<Option<int>>, ends: seq<Option<int>>): (w: Option<int>)
    ensures w.Some? ==> w.value >= 0
    ensures w.Some? <==> from.Some? && to.Some? && BreakSum(starts, ends, |starts|).Some?
  {
    var total := Span(from, to);
    var breaks := BreakSum(starts, ends, |starts|);
    if total.Some? && breaks.Some? then Some(Max(0, total.value - breaks.value)) else None
  }

  /** The time the day is taken to end: the first end punch's, or the current time of day. */
  function EndTime(s: seq<Record>, nowMinute: int): Option<int> {
    match FindFirst(s, OfKind(End))
    case Some(j) => ClockMinutes(s[j].time)
    case None => Some(nowMinute)
  }

  /** Worked minutes of a day's punches, as `calculateWorkedHours` computes them after sorting: no
      start gives 0; otherwise the first end (or the current time of day, `nowMinute`, when there is
      no end) minus the first start, less the breaks, and never below 0. NaN is `None`. */
  function Worked(s: seq<Record>, nowMinute: int): (w: Option<int>)
    ensures FindFirst(s, OfKind(Start)).None? ==> w == Some(0)
    ensures w.Some? ==> w.value >= 0
  {
    match FindFirst(s, OfKind(Start))
    case None => Some(0)
    case Some(i) =>
      WorkedFrom(ClockMinutes(s[i].time), EndTime(s, nowMinute),
                 ClockTimes(Filter(s, OfKind(BreakStart))), ClockTimes(Filter(s, OfKind(BreakEnd))))
  }

  /** `calculateWorkedHours` in minutes: it sorts the array it is given by timestamp, then computes
      the worked minutes of the sorted punches. */
  method WorkedMinutes(a: array<Record>, host: Host, nowMinute: int) returns (w: Option<int>)
    modifies a
    ensures a[..] == SortBy(old(a[..]), StampKey(host))
    ensures w == Worked(a[..], nowMinute)
  {
    var sorted := SortBy(a[..], StampKey(host));
    CopyInto(a, sorted);
    w := WorkedOfSorted(sorted, nowMinute);
  }

  /** The part of `calculateWorkedHours` after the sort: first start, first end (or now), breaks. */
  method WorkedOfSorted(s: seq<Record>, nowMinute: int) returns (w: Option<int>)
    ensures w == Worked(s, nowMinute)
  {
    var startRecord := FindFirst(s, OfKind(Start));
    var endRecord := FindFirst(s, OfKind(End));
    if startRecord.None? {
      return Some(0);
    }
    var from := ClockMinutes(s[startRecord.value].time);
    var to: Option<int>;
    if endRecord.Some? {
      to := ClockMinutes(s[endRecord.value].time);
    } else {
      to := Some(nowMinute);
    }
    assert to == EndTime(s, nowMinute);
    w := WorkedBetween(from, to, Filter(s, OfKind(BreakStart)), Filter(s, OfKind(BreakEnd)));
  }

  /** The part of `calculateWorkedHours` after the start and end times are known: the span between
      them, less the breaks, never below 0. */
  method WorkedBetween(from: Option<int>, to: Option<int>, breakStartRecords: seq<Record>, breakEndRecords: seq<Record>)
    returns (w: Option<int>)
    ensures w == WorkedFrom(from, to, ClockTimes(breakStartRecords), ClockTimes(breakEndRecords))
  {
    var totalWorkMinutes := Span(from, to);
    var breakMinutes := BreakMinutes(breakStartRecords, breakEndRecords);
    if totalWorkMinutes.Some? && breakMinutes.Some? {
      w := Some(Max(0, totalWorkMinutes.value - breakMinutes.value));
    } else {
      w := None;
    }
  }

  /** Overwrites the array with the elements of `s`, in place. */
  method CopyInto<T>(a: array<T>, s: seq<T>)
    requires |s| == a.Length
    modifies a
    ensures a[..] == s
  {
    forall i | 0 <= i < a.Length {
      a[i] := s[i];
    }
  }

  /** The break time of a day: each break start paired with the return of the same rank. Both lists
      of punches are read into times of day first; reading has no effect, so this gives what reading
      each pair inside the loop gives. */
  method BreakMinutes(breakStartRecords: seq<Record>, breakEndRecords: seq<Record>) returns (breakMinutes: Option<int>)
    ensures breakMinutes == BreakSum(ClockTimes(breakStartRecords), ClockTimes(breakEndRecords), |breakStartRecords|)
  {
    var starts, ends := ClockTimes(breakStartRecords), ClockTimes(breakEndRecords);
    breakMinutes := Some(0);
    for i := 0 to |starts|
      invariant breakMinutes == BreakSum(starts, ends, i)
    {
      if i < |ends| {
        var b, e := starts[i], ends[i];
        if b.Some? && e.Some? && breakMinutes.Some? {
          var thisBreak := e.value - b.value;
          if thisBreak < 0 {
            thisBreak := thisBreak + MinutesPerDay;
          }
          breakMinutes := Some(breakMinutes.value + thisBreak);
        } else {
          breakMinutes := None;
        }
      }
    }
  }

  /** Two times of day give a span within one day. */
  lemma WrapInDay(a: int, b: int)
    requires 0 <= a < MinutesPerDay && 0 <= b < MinutesPerDay
    ensures 0 <= Wrap(b - a) < MinutesPerDay
  {
  }

  /** Break starts beyond the last return add nothing. */
  lemma {:induction false} BreakSumUnpaired(starts: seq<Option<int>>, ends: seq<Option<int>>, n: nat)
    requires |ends| <= n <= |starts|
    ensures BreakSum(starts, ends, n) == BreakSum(starts, ends, |ends|)
    decreases n
  {
    if n > |ends| {
      BreakSumUnpaired(starts, ends, n - 1);
    }
  }

  /** Every time is a number of minutes within one day. */
  predicate InDay(ts: seq<Option<int>>) {
    forall i :: 0 <= i < |ts| ==> ts[i].Some? && 0 <= ts[i].value < MinutesPerDay
  }

  predicate TimesInDay(s: seq<Record>) {
    InDay(ClockTimes(s))
  }

  lemma {:induction false} BreakSumInDay(starts: seq<Option<int>>, ends: seq<Option<int>>, n: nat)
    requires n <= |starts| && InDay(starts) && InDay(ends)
    ensures BreakSum(starts, ends, n).Some? && BreakSum(starts, ends, n).value >= 0
    decreases n
  {
    if n > 0 {
      BreakSumInDay(starts, ends, n - 1);
    }
  }

  lemma TimesInDayFilter(s: seq<Record>, p: Record -> bool)
    requires TimesInDay(s)
    ensures TimesInDay(Filter(s, p))
  {
    var f := Filter(s, p);
    var ts := ClockTimes(s);
    forall i | 0 <= i < |f| ensures ClockTimes(f)[i].Some? && 0 <= ClockTimes(f)[i].value < MinutesPerDay {
      FilterMember(s, p, f[i]);
      var j :| 0 <= j < |s| && s[j] == f[i];
      ClockTimesAt(s, j);
      ClockTimesAt(f, i);
    }
  }

  /** When every punch of the day carries a readable time of day and the current time is one too,
      the worked time is a number, and it is less than one day and at most the span from start to
      end (or now): breaks only subtract. */
  lemma WorkedWithinDay(s: seq<Record>, nowMinute: int)
    requires TimesInDay(s) && 0 <= nowMinute < MinutesPerDay
    ensures Worked(s, nowMinute).Some? && Worked(s, nowMinute).value < MinutesPerDay
    ensures FindFirst(s, OfKind(Start)).Some? ==>
      var from := ClockMinutes(s[FindFirst(s, OfKind(Start)).value].time);
      Worked(s, nowMinute).value <= Span(from, EndTime(s, nowMinute)).value
  {
    match FindFirst(s, OfKind(Start))
    case None =>
    case Some(i) =>
      var starts, ends := ClockTimes(Filter(s, OfKind(BreakStart))), ClockTimes(Filter(s, OfKind(BreakEnd)));
      TimesInDayFilter(s, OfKind(BreakStart));
      TimesInDayFilter(s, OfKind(BreakEnd));
      ClockTimesAt(s, i);
      match FindFirst(s, OfKind(End)) {
        case Some(j) => ClockTimesAt(s, j);
        case None =>
      }
      WorkedFromWithin(ClockMinutes(s[i].time), EndTime(s, nowMinute), starts, ends);
  }

  lemma WorkedFromWithin(from: Option<int>, to: Option<int>, starts: seq<Option<int>>, ends: seq<Option<int>>)
    requires from.Some? && 0 <= from.value < MinutesPerDay && to.Some? && 0 <= to.value < MinutesPerDay
    requires InDay(starts) && InDay(ends)
    ensures WorkedFrom(from, to, starts, ends).Some?
    ensures WorkedFrom(from, to, starts, ends).value < MinutesPerDay
    ensures WorkedFrom(from, to, starts, ends).value <= Span(from, to).value
  {
    BreakSumInDay(starts, ends, |starts|);
    WrapInDay(from.value, to.value);
  }

  lemma ClockTimesOne(x: Record)
    ensures ClockTimes([x]) == [ClockMinutes(x.time)]
  {
    assert [x][..0] == [];
  }

  /** The punches of one kind, when exactly one punch has it. */
  lemma {:induction false} FilterOnly(s: seq<Record>, k: Kind, j: nat)
    requires j < |s| && s[j].kind == k
    requires forall i :: 0 <= i < |s| && i != j ==> s[i].kind != k
    ensures Filter(s, OfKind(k)) == [s[j]]
    decreases j
  {
    var rest := s[1..];
    if j == 0 {
      assert forall i :: 0 <= i < |rest| ==> rest[i] == s[i + 1];
      FilterNone(rest, OfKind(k));
    } else {
      assert forall i :: 0 <= i < |rest| ==> rest[i] == s[i + 1];
      FilterOnly(rest, k, j - 1);
    }
  }

  /** A start and an end alone: the span between their times, with no breaks. */
  lemma WorkedStartEnd(s: seq<Record>, nowMinute: int)
    requires |s| == 2 && s[0].kind == Start && s[1].kind == End
    ensures Worked(s, nowMinute) == WorkedFrom(ClockMinutes(s[0].time), ClockMinutes(s[1].time), [], [])
  {
    assert FindFirst(s, OfKind(Start)) == Some(0);
    assert FindFirst(s, OfKind(End)) == Some(1);
    FilterNone(s, OfKind(BreakStart));
    FilterNone(s, OfKind(BreakEnd));
  }

  /** A start, one break and an end: the span from start to end less that one break. */
  lemma WorkedOneBreak(s: seq<Record>, nowMinute: int)
    requires |s| == 4 && s[0].kind == Start && s[1].kind == BreakStart && s[2].kind == BreakEnd && s[3].kind == End
    ensures Worked(s, nowMinute)
            == WorkedFrom(ClockMinutes(s[0].time), ClockMinutes(s[3].time), ClockTimes([s[1]]), ClockTimes([s[2]]))
  {
    assert FindFirst(s, OfKind(Start)) == Some(0);
    assert FindFirst(s, OfKind(End)) == Some(3);
    FilterOnly(s, BreakStart, 1);
    FilterOnly(s, BreakEnd, 2);
  }

  /** The same with the four times of day given. */
  lemma WorkedOneBreakAt(s: seq<Record>, nowMinute: int, start: int, away: int, back: int, end: int)
    requires |s| == 4 && s[0].kind == Start && s[1].kind == BreakStart && s[2].kind == BreakEnd && s[3].kind == End
    requires ClockMinutes(s[0].time) == Some(start) && ClockMinutes(s[1].time) == Some(away)
    requires ClockMinutes(s[2].time) == Some(back) && ClockMinutes(s[3].time) == Some(end)
    ensures Worked(s, nowMinute) == WorkedFrom(Some(start), Some(end), [Some(away)], [Some(back)])
  {
    WorkedOneBreak(s, nowMinute);
    ClockTimesOne(s[1]);
    ClockTimesOne(s[2]);
  }

  /** A start with nothing after it runs to the current time of day. */
  lemma WorkedStartOnly(s: seq<Record>, nowMinute: int)
    requires |s| == 1 && s[0].kind == Start
    ensures Worked(s, nowMinute) == WorkedFrom(ClockMinutes(s[0].time), Some(nowMinute), [], [])
  {
    assert FindFirst(s, OfKind(Start)) == Some(0);
    assert FindFirst(s, OfKind(End)) == None;
    FilterNone(s, OfKind(BreakStart));
    FilterNone(s, OfKind(BreakEnd));
  }

  /** A start read as 09:00 and an end read as 17:00 give 8 hours, whatever the current time. */
  lemma WorkedNineToFive(s: seq<Record>, nowMinute: int)
    requires |s| == 2 && s[0].kind == Start && s[1].kind == End
    requires ClockMinutes(s[0].time) == Some(9 * 60) && ClockMinutes(s[1].time) == Some(17 * 60)
    ensures Worked(s, nowMinute) == Some(8 * 60)
  {
    WorkedStartEnd(s, nowMinute);
  }

  /** Start 09:00, break 12:00 to 13:00, end 18:00 also gives 8 hours. */
  lemma WorkedWithLunch(s: seq<Record>, nowMinute: int)
    requires |s| == 4 && s[0].kind == Start && s[1].kind == BreakStart && s[2].kind == BreakEnd && s[3].kind == End
    requires ClockMinutes(s[0].time) == Some(9 * 60) && ClockMinutes(s[1].time) == Some(12 * 60)
    requires ClockMinutes(s[2].time) == Some(13 * 60) && ClockMinutes(s[3].time) == Some(18 * 60)
    ensures Worked(s, nowMinute) == Some(8 * 60)
  {
    WorkedOneBreakAt(s, nowMinute, 9 * 60, 12 * 60, 13 * 60, 18 * 60);
    LunchBreak();
  }

  lemma LunchBreak()
    ensures WorkedFrom(Some(9 * 60), Some(18 * 60), [Some(12 * 60)], [Some(13 * 60)]) == Some(8 * 60)
  {
    assert BreakSum([Some(12 * 60)], [Some(13 * 60)], 1) == Some(60);
  }

  /** Starting at 22:00 and ending at 02:00 crosses midnight: 4 hours. */
  lemma WorkedOvernight(s: seq<Record>, nowMinute: int)
    requires |s| == 2 && s[0].kind == Start && s[1].kind == End
    requires ClockMinutes(s[0].time) == Some(22 * 60) && ClockMinutes(s[1].time) == Some(2 * 60)
    ensures Worked(s, nowMinute) == Some(4 * 60)
  {
    WorkedStartEnd(s, nowMinute);
  }

  /** With no end punch the day runs to the current time: a start read as 09:00 at 11:30 gives 150
      minutes. */
  lemma WorkedStillOpen(s: seq<Record>)
    requires |s| == 1 && s[0].kind == Start && ClockMinutes(s[0].time) == Some(9 * 60)
    ensures Worked(s, 11 * 60 + 30) == Some(150)
  {
    WorkedStartOnly(s, 11 * 60 + 30);
  }

  /** Whether the daily-journey alert is due for today's punches: at least two of them, one a start,
      and worked time (in the order of their timestamps) reaching the daily working time. */
  predicate JourneyDue(day: seq<Record>, settings: Settings, nowMinute: int, host: Host) {
    |day| >= 2 && Any(day, OfKind(Start)) &&
    var w := Worked(SortBy(day, StampKey(host)), nowMinute);
    w.Some? && w.value >= EffectiveDaily(settings)
  }

  // ---------------------------------------------------------------- statistics

  /** `isHoliday(new Date(d + 'T00:00:00'))` for a day key `d`. */
  function HolidayDate(settings: Settings, host: Host): string -> bool {
    d => host.midnightKey(d) in settings.holidays
  }

  /** The day keys that count as working days. */
  function NotHolidayDate(settings: Settings, host: Host): string -> bool {
    d => host.midnightKey(d) !in settings.holidays
  }

  /** The standard working time of a set of days: for a week, the weekly time less a daily time per
      holiday, never below 0; otherwise a daily time for each day that is not a holiday. */
  function StandardMinutes(dates: seq<string>, period: string, settings: Settings, host: Host): int {
    var daily := EffectiveDaily(settings);
    if period == "week" then Max(0, EffectiveWeekly(settings) - |Filter(dates, HolidayDate(settings, host))| * daily)
    else daily * |Filter(dates, NotHolidayDate(settings, host))|
  }

  /** Overtime: worked time beyond the standard, never negative. */
  function Overtime(total: int, standard: int): (o: int)
    ensures o >= 0 && o >= total - standard
    ensures total >= standard ==> o == total - standard
    ensures total <= standard ==> o == 0
  {
    Max(0, total - standard)
  }

  /** The sum of the day totals of the groups of `dates`. */
  function SumDayTotals(dates: seq<string>, byDate: map<string, seq<Record>>, host: Host): int
    decreases |dates|
  {
    if dates == [] then 0
    else
      var last := dates[|dates| - 1];
      SumDayTotals(dates[..|dates| - 1], byDate, host) + (if last in byDate then DayTotal(byDate[last], host) else 0)
  }

  /** What `calculateStatistics` reports: total worked time and overtime rendered as "Xh Ymin", and
      the number of days with punches. */
  datatype Stats = Stats(totalHours: string, overtime: string, workDays: nat)

  function StatsOf(records: seq<Record>, period: string, settings: Settings, host: Host): Stats {
    var g := GroupSpec(records);
    var total := SumDayTotals(g.dates, g.byDate, host);
    Stats(FormatHoursMinutes(total), FormatHoursMinutes(Overtime(total, StandardMinutes(g.dates, period, settings, host))),
          |g.dates|)
  }

  /** `calculateStatistics`: the total of the day totals over the groups, the standard time of the
      period (`period` is the filter's value, "week" choosing the weekly rule), the overtime, and the
      number of days. */
  method CalculateStatistics(records: seq<Record>, period: string, settings: Settings, host: Host)
    returns (stats: Stats)
    ensures stats == StatsOf(records, period, settings, host)
  {
    var grouped, totalMinutes := GroupedTotal(records, host);
    var workDays := |grouped.dates|;
    var standardMinutes := StandardOfPeriod(grouped.dates, period, settings, host);
    var overtimeMinutes := Max(0, totalMinutes - standardMinutes);
    stats := Stats(FormatHoursMinutes(totalMinutes), FormatHoursMinutes(overtimeMinutes), workDays);
  }

  /** The standard time of the period in `calculateStatistics`: the weekly time less a daily time per
      holiday for "week", otherwise a daily time per day that is not a holiday. */
  method StandardOfPeriod(dates: seq<string>, period: string, settings: Settings, host: Host)
    returns (standardMinutes: int)
    ensures standardMinutes == StandardMinutes(dates, period, settings, host)
  {
    var dailyMinutes := EffectiveDaily(settings);
    var weeklyMinutesCfg := EffectiveWeekly(settings);
    if period == "week" {
      var holidaysInWeek := CountHolidays(dates, settings, host);
      standardMinutes := Max(0, weeklyMinutesCfg - holidaysInWeek * dailyMinutes);
    } else {
      standardMinutes := WorkingDaysStandard(dates, dailyMinutes, settings, host);
    }
  }

  /** The records grouped by date and the total of the day totals. */
  method GroupedTotal(records: seq<Record>, host: Host) returns (grouped: Grouping, totalMinutes: int)
    ensures grouped == GroupSpec(records)
    ensures totalMinutes == SumDayTotals(grouped.dates, grouped.byDate, host)
  {
    grouped := GroupRecordsByDate(records);
    GroupSpecKeys(records);
    totalMinutes := SumOfDayTotals(grouped.dates, grouped.byDate, host);
  }

  /** The first `forEach` of `calculateStatistics`: each day's total added up. */
  method SumOfDayTotals(dates: seq<string>, byDate: map<string, seq<Record>>, host: Host) returns (totalMinutes: int)
    requires forall d :: d in dates ==> d in byDate
    ensures totalMinutes == SumDayTotals(dates, byDate, host)
  {
    totalMinutes := 0;
    for i := 0 to |dates|
      invariant totalMinutes == SumDayTotals(dates[..i], byDate, host)
    {
      assert dates[..i + 1][..i] == dates[..i];
      var dayTotal := DayTotalMinutes(byDate[dates[i]], host);
      totalMinutes := totalMinutes + dayTotal;
    }
    assert dates[..|dates|] == dates;
  }

  /** The holidays among the days of a week. */
  method CountHolidays(dates: seq<string>, settings: Settings, host: Host) returns (holidaysInWeek: nat)
    ensures holidaysInWeek == |Filter(dates, HolidayDate(settings, host))|
  {
    holidaysInWeek := 0;
    for i := 0 to |dates|
      invariant holidaysInWeek == |Filter(dates[..i], HolidayDate(settings, host))|
    {
      FilterStep(dates, i, HolidayDate(settings, host));
      if host.midnightKey(dates[i]) in settings.holidays {
        holidaysInWeek := holidaysInWeek + 1;
      }
    }
    assert dates[..|dates|] == dates;
  }

  /** A daily time for each day that is not a holiday. */
  method WorkingDaysStandard(dates: seq<string>, dailyMinutes: int, settings: Settings, host: Host)
    returns (standardMinutes: int)
    ensures standardMinutes == dailyMinutes * |Filter(dates, NotHolidayDate(settings, host))|
  {
    standardMinutes := 0;
    ghost var days := 0;
    for i := 0 to |dates|
      invariant days == |Filter(dates[..i], NotHolidayDate(settings, host))|
      invariant standardMinutes == dailyMinutes * days
    {
      FilterStep(dates, i, NotHolidayDate(settings, host));
      if host.midnightKey(dates[i]) !in settings.holidays {
        standardMinutes := standardMinutes + dailyMinutes;
        MulSucc(dailyMinutes, days);
        days := days + 1;
      }
    }
    assert dates[..|dates|] == dates;
  }

  lemma MulSucc(a: int, n: int)
    ensures a * n + a == a * (n + 1)
  {
  }

  lemma FilterStep(s: seq<string>, i: nat, p: string -> bool)
    requires i < |s|
    ensures Filter(s[..i + 1], p) == Filter(s[..i], p) + (if p(s[i]) then [s[i]] else [])
  {
    assert s[..i + 1] == s[..i] + [s[i]];
    FilterConcat(s[..i], [s[i]], p);
    FilterSingleton(s[i], p);
  }

  /** With the default 8-hour day, 9 hours worked on one day is 1 hour of overtime on a working day
      and all 9 hours on a holiday. */
  lemma OvertimeOneDay(d: string, settings: Settings, host: Host)
    requires EffectiveDaily(settings) == 480
    ensures Overtime(540, StandardMinutes([d], "all", settings, host)) ==
            if host.midnightKey(d) in settings.holidays then 540 else 60
  {
    FilterSingleton(d, NotHolidayDate(settings, host));
  }

  /** The week's standard time: between 0 and the weekly time, a daily time less for each holiday. */
  lemma WeekStandardBounds(dates: seq<string>, settings: Settings, host: Host)
    requires EffectiveDaily(settings) >= 0 && EffectiveWeekly(settings) >= 0
    ensures 0 <= StandardMinutes(dates, "week", settings, host) <= EffectiveWeekly(settings)
  {
  }

  /** Outside a week, each day contributes its daily time unless it is a holiday: holidays and
      working days together are all the days. */
  lemma {:induction false} HolidaysSplitDays(dates: seq<string>, settings: Settings, host: Host)
    ensures |Filter(dates, HolidayDate(settings, host))| + |Filter(dates, NotHolidayDate(settings, host))| == |dates|
    decreases |dates|
  {
    if dates != [] {
      HolidaysSplitDays(dates[1..], settings, host);
    }
  }

  /** On a time-ordered log every day's total is at least 0, and so is the period's total. */
  lemma TotalOnSortedLog(records: seq<Record>, host: Host)
    requires SortedBy(records, StampKey(host))
    ensures var g := GroupSpec(records); SumDayTotals(g.dates, g.byDate, host) >= 0
  {
    var g := GroupSpec(records);
    GroupSpecMeaning(records);
    forall d | d in g.byDate ensures DayTotal(g.byDate[d], host) >= 0 {
      FilterSorted(records, OnDate(d), StampKey(host));
      if g.byDate[d] != [] {
        DayTotalBounds(g.byDate[d], host);
      }
    }
    SumDayTotalsNonNegative(g.dates, g.byDate, host);
  }

  lemma {:induction false} SumDayTotalsNonNegative(dates: seq<string>, byDate: map<string, seq<Record>>, host: Host)
    requires forall d :: d in byDate ==> DayTotal(byDate[d], host) >= 0
    ensures SumDayTotals(dates, byDate, host) >= 0
    decreases |dates|
  {
    if dates != [] {
      SumDayTotalsNonNegative(dates[..|dates| - 1], byDate, host);
    }
  }

  // ---------------------------------------------------------------- rendering and justification

  /** JavaScript's `%`, whose remainder takes the sign of the dividend. */
  function JsRem(a: int, b: int): (r: int)
    requires b > 0
    ensures a >= 0 ==> 0 <= r < b && r == a % b
    ensures a < 0 ==> -b < r <= 0
    ensures a < 0 ==> r == if a % b == 0 then 0 else a % b - b
  {
    if a >= 0 then a % b
    else
      var q, m := (-a) / b, (-a) % b;
      if m == 0 then
        DivModUnique(a, b, -q, 0);
        0
      else
        DivModUnique(a, b, -q - 1, b - m);
        -m
  }

  /** Euclidean division is unique: a quotient and a remainder in `[0, b)` are `/` and `%`. */
  lemma DivModUnique(a: int, b: int, q: int, r: int)
    requires b > 0 && 0 <= r < b && a == q * b + r
    ensures a / b == q && a % b == r
  {
    var q0, r0 := a / b, a % b;
    var d := q - q0;
    assert d * b == r0 - r by {
      assert a == q0 * b + r0;
      assert q * b - q0 * b == d * b;
    }
    if d > 0 {
      MulAtLeast(d, b);
    } else if d < 0 {
      MulAtLeast(-d, b);
    }
  }

  lemma MulAtLeast(d: int, b: int)
    requires d >= 1 && b > 0
    ensures d * b >= b
  {
    assert d * b == (d - 1) * b + b;
    assert (d - 1) * b >= 0;
  }

  /** "Xh Ymin" with `Math.floor(m / 60)` hours and `Math.floor(m % 60)` minutes. */
  function FormatHoursMinutes(m: int): string {
    ShowInt(m / 60) + "h " + ShowInt(JsRem(m, 60)) + "min"
  }

  /** Reads "Xh Ymin" back into minutes: the hours before the 'h', the minutes between it and "min". */
  function ReadHoursMinutes(s: string): Option<int> {
    var parts := Split(s, 'h');
    if |parts| != 2 then None else ReadParts(parts[0], Split(parts[1], 'm'))
  }

  function ReadParts(hours: string, rest: seq<string>): Option<int> {
    if |rest| != 2 || rest[1] != "in" then None
    else
      match (Number(hours), Number(rest[0]))
      case (Some(h), Some(mm)) => Some(h * 60 + mm)
      case _ => None
  }

  /** Reading the rendering of a non-negative amount gives the amount back. */
  lemma FormatHoursMinutesRoundTrip(m: nat)
    ensures ReadHoursMinutes(FormatHoursMinutes(m)) == Some(m)
  {
    var h, mm := m / 60, m % 60;
    HoursAndMinutes(m);
    FormatHoursMinutesShape(m);
    NumberOfShowNat(h);
    NumberOfShowNat(mm);
    ReadJoined(FormatHoursMinutes(m), ShowNat(h), ShowNat(mm), h, mm);
  }

  lemma HoursAndMinutes(m: nat)
    ensures (m / 60) * 60 + m % 60 == m
  {
  }

  /** A negative amount, which a day out of time order can total, shows the hours rounded down and
      the minutes with the amount's sign: whole hours show "-Xh 0min", any other amount shows one hour
      more and its minutes negated, so that the two parts add up to an hour less than the amount. */
  lemma FormatHoursMinutesNegative(m: int)
    requires m < 0
    ensures var h, mm := (-m) / 60, (-m) % 60;
      FormatHoursMinutes(m) ==
        if mm == 0 then "-" + ShowNat(h) + "h " + "0" + "min"
        else "-" + ShowNat(h + 1) + "h " + "-" + ShowNat(mm) + "min"
    ensures (m / 60) * 60 + JsRem(m, 60) == if m % 60 == 0 then m else m - 60
  {
    var h, mm := (-m) / 60, (-m) % 60;
    DivModUnique(-m, 60, h, mm);
    if mm == 0 {
      NegativeWholeHours(m, h);
    } else {
      NegativePartHour(m, h, mm);
    }
  }

  lemma NegativeWholeHours(m: int, h: int)
    requires m < 0 && -m == h * 60
    ensures FormatHoursMinutes(m) == "-" + ShowNat(h) + "h " + "0" + "min"
    ensures m % 60 == 0 && (m / 60) * 60 + JsRem(m, 60) == m
  {
    DivModUnique(m, 60, -h, 0);
    ShowParts(m, -h, 0, ShowNat(h), "0");
  }

  lemma NegativePartHour(m: int, h: int, mm: int)
    requires m < 0 && -m == h * 60 + mm && 0 < mm < 60
    ensures FormatHoursMinutes(m) == "-" + ShowNat(h + 1) + "h " + "-" + ShowNat(mm) + "min"
    ensures m % 60 != 0 && (m / 60) * 60 + JsRem(m, 60) == m - 60
  {
    DivModUnique(m, 60, -h - 1, 60 - mm);
    ShowParts(m, -h - 1, -mm, ShowNat(h + 1), "-" + ShowNat(mm));
  }

  lemma ShowParts(m: int, hours: int, minutes: int, hoursText: string, minutesText: string)
    requires m / 60 == hours < 0 && JsRem(m, 60) == minutes
    requires ShowNat(-hours) == hoursText && ShowInt(minutes) == minutesText
    ensures FormatHoursMinutes(m) == "-" + hoursText + "h " + minutesText + "min"
  {
  }

  /** Half an hour short shows as "-1h -30min". */
  lemma FormatMinusHalfHour()
    ensures FormatHoursMinutes(-30) == "-1h -30min"
  {
    NegativePartHour(-30, 0, 30);
    ShowOneAndThirty();
    assert "-" + "1" + "h " + "-" + "30" + "min" == "-1h -30min";
  }

  lemma ShowOneAndThirty()
    ensures ShowNat(1) == "1" && ShowNat(30) == "30"
  {
    assert ShowNat(3) == "3";
  }

  /** A non-negative amount shows its whole hours and the remaining minutes, below 60, in decimal. */
  lemma FormatHoursMinutesShape(m: nat)
    ensures FormatHoursMinutes(m) == ShowNat(m / 60) + "h " + ShowNat(m % 60) + "min"
    ensures m % 60 < 60
  {
  }

  /** Reading "Xh Ymin" built from digit strings gives the minutes they denote. */
  lemma ReadJoined(s: string, hs: string, ms: string, h: nat, mm: nat)
    requires s == hs + "h " + ms + "min"
    requires ms != [] && AllDigits(hs) && AllDigits(ms) && Number(hs) == Some(h) && Number(ms) == Some(mm)
    ensures ReadHoursMinutes(s) == Some(h * 60 + mm)
  {
    SplitHoursMinutes(hs, ms);
    SplitMinutesTail(ms);
    NumberLeadingSpace(ms);
    ReadPartsOf(hs, " " + ms, h, mm);
  }

  lemma ReadPartsOf(hs: string, ms: string, h: nat, mm: nat)
    requires Number(hs) == Some(h) && Number(ms) == Some(mm)
    ensures ReadParts(hs, [ms, "in"]) == Some(h * 60 + mm)
  {
  }

  lemma SplitHoursMinutes(hs: string, ms: string)
    requires AllDigits(hs) && AllDigits(ms)
    ensures Split(hs + "h " + ms + "min", 'h') == [hs, " " + ms + "min"]
  {
    var tail := " " + ms + "min";
    assert hs + "h " + ms + "min" == hs + ['h'] + tail;
    assert 'h' !in hs by {
      forall i | 0 <= i < |hs| ensures hs[i] != 'h' {
        assert IsDigit(hs[i]);
      }
    }
    assert 'h' !in tail by {
      forall i | 0 <= i < |tail| ensures tail[i] != 'h' {
        if 1 <= i < 1 + |ms| {
          assert tail[i] == ms[i - 1] && IsDigit(ms[i - 1]);
        }
      }
    }
    SplitAfterPiece(hs, 'h', tail);
    SplitNoSep(tail, 'h');
  }

  lemma SplitMinutesTail(ms: string)
    requires AllDigits(ms)
    ensures Split(" " + ms + "min", 'm') == [" " + ms, "in"]
  {
    var a := " " + ms;
    assert " " + ms + "min" == a + ['m'] + "in";
    assert 'm' !in a by {
      forall i | 0 <= i < |a| ensures a[i] != 'm' {
        if 1 <= i {
          assert a[i] == ms[i - 1] && IsDigit(ms[i - 1]);
        }
      }
    }
    SplitAfterPiece(a, 'm', "in");
    SplitNoSep("in", 'm');
  }

  /** Whether a punch asks for a justification: at a weekend (day 0 or 6), on a holiday, before
      06:00 or from 22:00 on. `dateKey` is the punch's formatted date, `hour` and `weekday` its
      local hour and day of the week. */
  predicate NeedsJustification(hour: int, weekday: int, dateKey: string, holidays: seq<string>) {
    weekday == 0 || weekday == 6 || dateKey in holidays || hour < 6 || hour >= 22
  }

  /** Ordinary working hours are exactly Monday to Friday, 06:00 to 21:59, outside the holidays. */
  lemma OrdinaryHours(hour: int, weekday: int, dateKey: string, holidays: seq<string>)
    requires 0 <= weekday <= 6 && 0 <= hour < 24
    ensures !NeedsJustification(hour, weekday, dateKey, holidays) <==>
            1 <= weekday <= 5 && 6 <= hour <= 21 && dateKey !in holidays
  {
  }
}
