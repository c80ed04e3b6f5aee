/** The punch log: the four kinds of punch, the record a punch produces, the consistency check a new
    punch must pass, and the ways the log changes (save, delete, edit, justify a fresh punch). */
module Punch {
  import opened Wrappers
  import opened Seqs
  import opened Text
  import opened StableSort

  /** The four punch types: start of the working day, start of a break, return from it, end. */
  datatype Kind = Start | BreakStart | BreakEnd | End

  /** The name a punch type has in the stored records. */
  function KindName(k: Kind): string {
    match k
    case Start => "start"
    case BreakStart => "break_start"
    case BreakEnd => "break_end"
    case End => "end"
  }

  /** Reads a punch type name; any string other than the four names is not a type. */
  function ParseKind(name: string): (k: Option<Kind>)
    ensures k.Some? ==> KindName(k.value) == name
    ensures k.None? ==> forall kind: Kind :: KindName(kind) != name
  {
    if name == "start" then Some(Start)
    else if name == "break_start" then Some(BreakStart)
    else if name == "break_end" then Some(BreakEnd)
    else if name == "end" then Some(End)
    else None
  }

  lemma KindRoundTrip(k: Kind)
    ensures ParseKind(KindName(k)) == Some(k)
  {
  }

  /** One punch. `timestamp` is the string the log is ordered by, `date` the day key ("YYYY-MM-DD")
      the punch is filed under, `time` the "HH:MM" text shown and used for worked hours. */
  datatype Record = Record(id: int, kind: Kind, timestamp: string, date: string, time: string,
                           justification: Option<string>)

  /** What the tracker asks of the host's date library. `instantOf(s)` is the instant, in minutes
      since the epoch, that `new Date(s)` denotes. `midnightKey(d)` is the day key of
      `new Date(d + 'T00:00:00')` as the tracker formats dates (the UTC calendar date of local midnight). */
  datatype Host = Host(instantOf: string -> int, midnightKey: string -> string)

  /** The order of the log: by the instant of the timestamp. */
  function StampKey(host: Host): Record -> int {
    (r: Record) => host.instantOf(r.timestamp)
  }

  /** Why an operation on the log was refused. */
  datatype Error =
    | InvalidType(name: string)
    | InvalidDate
    | Duplicate
    | NoBreakStart
    | NothingPending
    | NoJustificationInput

  function OnDate(d: string): Record -> bool {
    (r: Record) => r.date == d
  }

  function SameSlot(rec: Record): Record -> bool {
    (r: Record) => r.kind == rec.kind && r.time == rec.time
  }

  function OfKind(k: Kind): Record -> bool {
    (r: Record) => r.kind == k
  }

  /** Some record of the same date has the same type and the same time text. */
  predicate IsDuplicate(log: seq<Record>, rec: Record) {
    exists r :: r in log && r.date == rec.date && r.kind == rec.kind && r.time == rec.time
  }

  /** Some break was started on date `d`, whether or not it has ended since. */
  predicate HasBreakStartOn(log: seq<Record>, d: string) {
    exists r :: r in log && r.date == d && r.kind == BreakStart
  }

  /** The consistency check of a new punch against the log: first duplicates, then a return from a
      break on a day without any break start. */
  function Validate(log: seq<Record>, rec: Record): (res: Outcome<Error>)
    ensures res == Fail(Duplicate) <==> IsDuplicate(log, rec)
    ensures res == Fail(NoBreakStart) <==>
              !IsDuplicate(log, rec) && rec.kind == BreakEnd && !HasBreakStartOn(log, rec.date)
    ensures res == Pass <==>
              !IsDuplicate(log, rec) && (rec.kind == BreakEnd ==> HasBreakStartOn(log, rec.date))
  {
    var sameDay := Filter(log, OnDate(rec.date));
    FilterExists(log, OnDate(rec.date), SameSlot(rec));
    FilterExists(log, OnDate(rec.date), OfKind(BreakStart));
    if FindFirst(sameDay, SameSlot(rec)).Some? then Fail(Duplicate)
    else if rec.kind == BreakEnd && !Any(sameDay, OfKind(BreakStart)) then Fail(NoBreakStart)
    else Pass
  }

  /** The most records the log keeps. */
  const Capacity := 1000

  /** `s.slice(-1000)` when the log is over capacity: its last `Capacity` elements. */
  function Retain<T>(s: seq<T>): (r: seq<T>)
    ensures |r| == if |s| > Capacity then Capacity else |s|
  {
    if |s| > Capacity then s[|s| - Capacity..] else s
  }

  /** What is retained is the end of the log: the records dropped, if any, come before all of it. */
  lemma RetainSuffix<T>(s: seq<T>)
    ensures s == s[..|s| - |Retain(s)|] + Retain(s)
    ensures |s| <= Capacity ==> Retain(s) == s
  {
    assert Retain(s) == s[|s| - |Retain(s)|..];
  }

  /** Saving a record: append it, sort the log stably by timestamp, keep the latest `Capacity`. */
  function SaveLog(log: seq<Record>, rec: Record, host: Host): seq<Record> {
    Retain(SortBy(log + [rec], StampKey(host)))
  }

  lemma SortedSuffix<T>(s: seq<T>, n: nat, key: T -> int)
    requires SortedBy(s, key) && n <= |s|
    ensures SortedBy(s[n..], key)
  {
    var t := s[n..];
    forall i, j | 0 <= i < j < |t| ensures key(t[i]) <= key(t[j]) {
      assert t[i] == s[n + i] && t[j] == s[n + j];
    }
  }

  /** After a save the log is ordered by timestamp and holds at most `Capacity` records; it grows by
      one until it is full. */
  lemma SaveLogSortedAndCapped(log: seq<Record>, rec: Record, host: Host)
    ensures SortedBy(SaveLog(log, rec, host), StampKey(host))
    ensures |SaveLog(log, rec, host)| == if |log| < Capacity then |log| + 1 else Capacity
  {
    var all := SortBy(log + [rec], StampKey(host));
    SortBySorted(log + [rec], StampKey(host));
    RetainSuffix(all);
    SortedSuffix(all, |all| - |Retain(all)|, StampKey(host));
  }

  /** Below capacity nothing is dropped: the log afterwards holds the old records and the new one. */
  lemma SaveLogUnderCapacity(log: seq<Record>, rec: Record, host: Host)
    requires |log| < Capacity
    ensures multiset(SaveLog(log, rec, host)) == multiset(log) + multiset{rec}
  {
    SortByPermutation(log + [rec], StampKey(host));
  }

  /** The sort is stable: below capacity, the records with any one timestamp value keep their order,
      and the new record comes after those already there. */
  lemma SaveLogStable(log: seq<Record>, rec: Record, host: Host, k: int)
    requires |log| < Capacity
    ensures Filter(SaveLog(log, rec, host), WithKey(StampKey(host), k)) ==
            Filter(log, WithKey(StampKey(host), k)) + (if StampKey(host)(rec) == k then [rec] else [])
  {
    var key := StampKey(host);
    SortByStable(log + [rec], key, k);
    FilterConcat(log, [rec], WithKey(key, k));
    FilterSingleton(rec, WithKey(key, k));
  }

  /** On an ordered log below capacity, saving inserts the record after every record with the same or
      an earlier timestamp and before every later one. */
  lemma SaveLogInsertsInOrder(log: seq<Record>, rec: Record, host: Host)
    requires |log| < Capacity && SortedBy(log, StampKey(host))
    ensures SaveLog(log, rec, host) == Insert(log, rec, StampKey(host))
  {
    SortByAppend(log, rec, StampKey(host));
    SortBySortedIdentity(log, StampKey(host));
  }

  /** At capacity the records dropped are the earliest: together with the kept ones they are the old log
      and the new record, there are as many as the excess, and none is later than any kept record. */
  lemma SaveLogOverflow(log: seq<Record>, rec: Record, host: Host)
    requires |log| >= Capacity
    ensures exists dropped: seq<Record> ::
      |dropped| == |log| + 1 - Capacity &&
      multiset(dropped) + multiset(SaveLog(log, rec, host)) == multiset(log) + multiset{rec} &&
      forall d, k :: d in dropped && k in SaveLog(log, rec, host) ==>
        host.instantOf(d.timestamp) <= host.instantOf(k.timestamp)
  {
    var key := StampKey(host);
    var all := SortBy(log + [rec], key);
    var m := |all| - Capacity;
    var dropped := all[..m];
    SortBySorted(log + [rec], key);
    SortByPermutation(log + [rec], key);
    SortedPrefixBelowSuffix(all, m, key);
    assert all == dropped + all[m..];
    assert all[m..] == SaveLog(log, rec, host);
    assert |dropped| == |log| + 1 - Capacity;
    assert multiset(dropped) + multiset(SaveLog(log, rec, host)) == multiset(log) + multiset{rec};
  }

  /** In an ordered sequence, no element before position `m` is later than an element from `m` on. */
  lemma SortedPrefixBelowSuffix<T>(s: seq<T>, m: nat, key: T -> int)
    requires SortedBy(s, key) && m <= |s|
    ensures forall d, k :: d in s[..m] && k in s[m..] ==> key(d) <= key(k)
  {
    forall d, k | d in s[..m] && k in s[m..] ensures key(d) <= key(k) {
      var i :| 0 <= i < m && s[..m][i] == d;
      var j :| 0 <= j < |s| - m && s[m..][j] == k;
      assert s[i] == d && s[m + j] == k;
    }
  }

  function WithoutId(id: int): Record -> bool {
    (r: Record) => r.id != id
  }

  function HasId(id: int): Record -> bool {
    (r: Record) => r.id == id
  }

  /** Deleting: the log without the records carrying `id`, in the order they were. */
  function RemoveId(log: seq<Record>, id: int): seq<Record> {
    Filter(log, WithoutId(id))
  }

  /** Exactly the records with that id disappear, and each other record stays as often as it was. */
  lemma RemoveIdCounts(log: seq<Record>, id: int, x: Record)
    ensures multiset(RemoveId(log, id))[x] == if x.id == id then 0 else multiset(log)[x]
  {
    FilterMultiset(log, WithoutId(id), x);
  }

  /** Deleting an id no record carries leaves the log as it is. */
  lemma RemoveIdUnknown(log: seq<Record>, id: int)
    requires forall r :: r in log ==> r.id != id
    ensures RemoveId(log, id) == log
  {
    FilterAll(log, WithoutId(id));
  }

  /** Deleting keeps an ordered log ordered. */
  lemma RemoveIdSorted(log: seq<Record>, id: int, host: Host)
    requires SortedBy(log, StampKey(host))
    ensures SortedBy(RemoveId(log, id), StampKey(host))
  {
    FilterSorted(log, WithoutId(id), StampKey(host));
  }

  /** `s` with every element equal to `t` replaced by `u`: what changing the fields of one record object
      does to a log that may hold that object more than once. */
  function Replace<T(==)>(s: seq<T>, t: T, u: T): (r: seq<T>)
    ensures |r| == |s|
    decreases |s|
  {
    if s == [] then [] else [if s[0] == t then u else s[0]] + Replace(s[1..], t, u)
  }

  lemma {:induction false} ReplaceCounts<T>(s: seq<T>, t: T, u: T, x: T)
    requires t != u
    ensures multiset(Replace(s, t, u))[x] ==
            if x == t then 0 else if x == u then multiset(s)[u] + multiset(s)[t] else multiset(s)[x]
    decreases |s|
  {
    if s != [] {
      ReplaceCounts(s[1..], t, u, x);
      assert s == [s[0]] + s[1..];
    }
  }

  lemma {:induction false} ReplaceAbsent<T>(s: seq<T>, t: T, u: T)
    requires t !in s
    ensures Replace(s, t, u) == s
    decreases |s|
  {
    if s != [] {
      ReplaceAbsent(s[1..], t, u);
      assert s == [s[0]] + s[1..];
    }
  }

  /** A form field counts only when it holds a non-empty string. */
  predicate Supplied(field: Option<string>) {
    field.Some? && field.value != ""
  }

  /** The timestamp an edit writes: the date and time joined with `T` and seconds `:00`, with no zone
      designator, unlike the `...Z` stamps fresh punches get. */
  function LocalStamp(date: string, time: string): (s: string)
    ensures |s| == |date| + |time| + 4 && s[|s| - 1] != 'Z'
  {
    date + "T" + time + ":00"
  }

  /** Reads a stamp written by `LocalStamp` back into its date and time. */
  function ReadLocalStamp(s: string): Option<(string, string)> {
    var parts := Split(s, 'T');
    if |parts| != 2 || |parts[1]| < 3 || parts[1][|parts[1]| - 3..] != ":00" then None
    else Some((parts[0], parts[1][..|parts[1]| - 3]))
  }

  /** An edited stamp reads back as the date and time it was made from. */
  lemma LocalStampRoundTrip(date: string, time: string)
    requires 'T' !in date && 'T' !in time
    ensures ReadLocalStamp(LocalStamp(date, time)) == Some((date, time))
  {
    var tail := time + ":00";
    NoSepAfter(time, ":00", 'T');
    SplitTwo(date, tail, 'T');
    assert LocalStamp(date, time) == date + ['T'] + tail;
    assert tail[|tail| - 3..] == ":00" && tail[..|tail| - 3] == time;
  }

  lemma NoSepAfter(a: string, b: string, sep: char)
    requires sep !in a && sep !in b
    ensures sep !in a + b
  {
  }

  /** Two pieces without the separator, joined by it, split back into those two pieces. */
  lemma SplitTwo(a: string, b: string, sep: char)
    requires sep !in a && sep !in b
    ensures Split(a + [sep] + b, sep) == [a, b]
  {
    SplitAfterPiece(a, sep, b);
    SplitNoSep(b, sep);
  }

  /** A record after an edit: the new justification, and when a time or a date is supplied, that time
      and that date (the old ones where not supplied) and the stamp made from them. */
  function Edited(r: Record, justification: Option<string>, newTime: Option<string>, newDate: Option<string>): Record {
    if Supplied(newTime) || Supplied(newDate) then
      var date := if Supplied(newDate) then newDate.value else r.date;
      var time := if Supplied(newTime) then newTime.value else r.time;
      r.(justification := justification, timestamp := LocalStamp(date, time), date := date, time := time)
    else r.(justification := justification)
  }

  /** What an edit keeps and changes: the id and type stay; the justification is the new one; without
      a supplied field the date, time and stamp stay; with one, the supplied fields win and the stamp
      is read back as the new date and time. */
  lemma EditedFields(r: Record, justification: Option<string>, newTime: Option<string>, newDate: Option<string>)
    requires 'T' !in r.date && 'T' !in r.time
    requires Supplied(newTime) ==> 'T' !in newTime.value
    requires Supplied(newDate) ==> 'T' !in newDate.value
    ensures var e := Edited(r, justification, newTime, newDate);
      e.id == r.id && e.kind == r.kind && e.justification == justification &&
      (Supplied(newTime) ==> e.time == newTime.value) && (!Supplied(newTime) ==> e.time == r.time) &&
      (Supplied(newDate) ==> e.date == newDate.value) && (!Supplied(newDate) ==> e.date == r.date) &&
      (!Supplied(newTime) && !Supplied(newDate) ==> e.timestamp == r.timestamp) &&
      (Supplied(newTime) || Supplied(newDate) ==> ReadLocalStamp(e.timestamp) == Some((e.date, e.time)))
  {
    var e := Edited(r, justification, newTime, newDate);
    if Supplied(newTime) || Supplied(newDate) {
      LocalStampRoundTrip(e.date, e.time);
    }
  }

  /** Editing the record with `id`: nothing when no record has it; otherwise the first record with it
      (and every entry equal to it) is edited and the log sorted again. */
  function EditLog(log: seq<Record>, id: int, justification: Option<string>, newTime: Option<string>,
                   newDate: Option<string>, host: Host): (r: Option<seq<Record>>)
    ensures r.None? <==> forall i :: 0 <= i < |log| ==> log[i].id != id
    ensures r.Some? ==> |r.value| == |log|
  {
    match FindFirst(log, HasId(id))
    case None => None
    case Some(i) =>
      var target := log[i];
      Some(SortBy(Replace(log, target, Edited(target, justification, newTime, newDate)), StampKey(host)))
  }

  /** After an edit of a known id the log is ordered; the edited record is in it; every record other
      than the one edited (and its new version) is there as often as before; and the old version is
      gone whenever the edit changed it. */
  lemma EditLogKnown(log: seq<Record>, id: int, justification: Option<string>, newTime: Option<string>,
                     newDate: Option<string>, host: Host, i: nat)
    requires i < |log| && log[i].id == id && forall k :: 0 <= k < i ==> log[k].id != id
    ensures var r := EditLog(log, id, justification, newTime, newDate, host);
      var e := Edited(log[i], justification, newTime, newDate);
      r.Some? && SortedBy(r.value, StampKey(host)) && e in r.value &&
      (forall x :: x != log[i] && x != e ==> multiset(r.value)[x] == multiset(log)[x]) &&
      (e != log[i] ==> log[i] !in r.value)
  {
    var t := log[i];
    var e := Edited(t, justification, newTime, newDate);
    assert FindFirst(log, HasId(id)) == Some(i);
    var replaced := Replace(log, t, e);
    var r := SortBy(replaced, StampKey(host));
    assert EditLog(log, id, justification, newTime, newDate, host) == Some(r);
    SortBySorted(replaced, StampKey(host));
    SortByPermutation(replaced, StampKey(host));
    assert t in log;
    if e != t {
      ReplaceCounts(log, t, e, e);
      ReplaceCounts(log, t, e, t);
      forall x | x != t && x != e ensures multiset(r)[x] == multiset(log)[x] {
        ReplaceCounts(log, t, e, x);
      }
    } else {
      ReplaceAbsentOrSame(log, t);
    }
  }

  lemma {:induction false} ReplaceAbsentOrSame<T>(s: seq<T>, t: T)
    ensures Replace(s, t, t) == s
    decreases |s|
  {
    if s != [] {
      ReplaceAbsentOrSame(s[1..], t);
      assert s == [s[0]] + s[1..];
    }
  }

  /** Justifying a fresh punch: the record object already in the log gets the justification (so every
      entry equal to it changes), and then it is saved once more. */
  function JustifyLog(log: seq<Record>, pending: Record, justification: Option<string>, host: Host): seq<Record> {
    var justified := pending.(justification := justification);
    SaveLog(Replace(log, pending, justified), justified, host)
  }

  /** The fresh punch ends up in the log twice: once as the entry its registration pushed, once as the
      second save. */
  lemma JustifyLogDuplicates(log: seq<Record>, pending: Record, justification: Option<string>, host: Host)
    requires |log| < Capacity
    requires multiset(log)[pending] == 1
    requires pending.(justification := justification) != pending ==>
               multiset(log)[pending.(justification := justification)] == 0
    ensures multiset(JustifyLog(log, pending, justification, host))[pending.(justification := justification)] == 2
  {
    var justified := pending.(justification := justification);
    var replaced := Replace(log, pending, justified);
    if justified != pending {
      ReplaceCounts(log, pending, justified, justified);
    } else {
      ReplaceAbsentOrSame(log, pending);
    }
    assert multiset(replaced)[justified] == 1;
    SaveLogUnderCapacity(replaced, justified, host);
    assert JustifyLog(log, pending, justification, host) == SaveLog(replaced, justified, host);
  }

  /** A fresh punch that is no longer in the log when it is justified is saved once, as a new entry. */
  lemma JustifyLogAbsent(log: seq<Record>, pending: Record, justification: Option<string>, host: Host)
    requires pending !in log && |log| < Capacity
    ensures multiset(JustifyLog(log, pending, justification, host)) ==
            multiset(log) + multiset{pending.(justification := justification)}
  {
    ReplaceAbsent(log, pending, pending.(justification := justification));
    SaveLogUnderCapacity(log, pending.(justification := justification), host);
  }
}
