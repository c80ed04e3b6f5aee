/** Choosing what the history shows: the period filter of `filterRecordsByPeriod` and the pages of
    ten days of `loadTimeRecords` and `getPaginatedRecords`. */
module Query {
  import opened Wrappers
  import opened Seqs
  import opened StableSort
  import opened Punch
  import opened Grouping

  datatype Period = Today | Week | Month | All

  /** The period filter's value; an empty or missing value reads as "today", any other unknown
      value shows everything. */
  function PeriodOf(value: string): (p: Period)
    ensures p == Today <==> value == "" || value == "today"
    ensures p == Week <==> value == "week"
    ensures p == Month <==> value == "month"
  {
    if value == "" || value == "today" then Today
    else if value == "week" then Week
    else if value == "month" then Month
    else All
  }

  const MinutesPerWeek := 7 * 24 * 60
  const MinutesPer30Days := 30 * 24 * 60

  /** Records stamped no earlier than `since`. */
  function StampedSince(since: int, host: Host): Record -> bool {
    (r: Record) => host.instantOf(r.timestamp) >= since
  }

  /** The records of the period: today's date key, or those stamped within the last 7 or 30 days
      before `now` (with no upper bound), or all of them. */
  function FilterByPeriod(records: seq<Record>, period: Period, today: string, now: int, host: Host): seq<Record> {
    match period
    case Today => Filter(records, OnDate(today))
    case Week => Filter(records, StampedSince(now - MinutesPerWeek, host))
    case Month => Filter(records, StampedSince(now - MinutesPer30Days, host))
    case All => records
  }

  /** A record is shown for a period exactly when it is in the log and falls in the period. */
  lemma FilterByPeriodMember(records: seq<Record>, period: Period, today: string, now: int, host: Host, r: Record)
    ensures r in FilterByPeriod(records, period, today, now, host) <==>
      r in records &&
      match period
      case Today => r.date == today
      case Week => host.instantOf(r.timestamp) >= now - MinutesPerWeek
      case Month => host.instantOf(r.timestamp) >= now - MinutesPer30Days
      case All => true
  {
    match period
    case Today => FilterMember(records, OnDate(today), r);
    case Week => FilterMember(records, StampedSince(now - MinutesPerWeek, host), r);
    case Month => FilterMember(records, StampedSince(now - MinutesPer30Days, host), r);
    case All =>
  }

  /** The week is part of the month: filtering the month's records by the week gives the week's. */
  lemma WeekWithinMonth(records: seq<Record>, today: string, now: int, host: Host)
    ensures Filter(FilterByPeriod(records, Month, today, now, host), StampedSince(now - MinutesPerWeek, host))
            == FilterByPeriod(records, Week, today, now, host)
  {
    FilterNarrow(records, StampedSince(now - MinutesPer30Days, host), StampedSince(now - MinutesPerWeek, host));
  }

  lemma {:induction false} FilterNarrow<T>(s: seq<T>, wide: T -> bool, narrow: T -> bool)
    requires forall x :: narrow(x) ==> wide(x)
    ensures Filter(Filter(s, wide), narrow) == Filter(s, narrow)
    decreases |s|
  {
    if s != [] {
      FilterNarrow(s[1..], wide, narrow);
      var head := if wide(s[0]) then [s[0]] else [];
      FilterConcat(head, Filter(s[1..], wide), narrow);
      FilterSingleton(s[0], narrow);
      if wide(s[0]) {
        FilterSingleton(s[0], narrow);
      }
    }
  }

  /** Every period keeps the log's order, so a time-ordered log gives time-ordered periods. */
  lemma FilterByPeriodSorted(records: seq<Record>, period: Period, today: string, now: int, host: Host)
    requires SortedBy(records, StampKey(host))
    ensures SortedBy(FilterByPeriod(records, period, today, now, host), StampKey(host))
  {
    match period
    case Today => FilterSorted(records, OnDate(today), StampKey(host));
    case Week => FilterSorted(records, StampedSince(now - MinutesPerWeek, host), StampKey(host));
    case Month => FilterSorted(records, StampedSince(now - MinutesPer30Days, host), StampKey(host));
    case All =>
  }

  // ---------------------------------------------------------------- pages

  const RecordsPerPage := 10

  /** `Math.ceil(n / 10)`. */
  function TotalPages(n: nat): nat {
    (n + RecordsPerPage - 1) / RecordsPerPage
  }

  /** The page count is the least number of pages of ten that hold `n` days. */
  lemma TotalPagesCeiling(n: nat)
    ensures TotalPages(n) * RecordsPerPage >= n
    ensures TotalPages(n) > 0 ==> (TotalPages(n) - 1) * RecordsPerPage < n
    ensures TotalPages(n) == 0 <==> n == 0
  {
  }

  /** A slice position as `Array.prototype.slice` reads it: a negative one counts from the end. */
  function SliceIndex(i: int, n: nat): (k: nat)
    ensures k <= n
    ensures 0 <= i <= n ==> k == i
  {
    if i < 0 then (if n + i < 0 then 0 else n + i) else if i > n then n else i
  }

  /** `s.slice(start, end)`. */
  function JsSlice<T>(s: seq<T>, start: int, end: int): (r: seq<T>)
    ensures |r| <= |s|
  {
    var lo, hi := SliceIndex(start, |s|), SliceIndex(end, |s|);
    if lo < hi then s[lo..hi] else []
  }

  /** Newest first: `(a, b) => new Date(b) - new Date(a)`. */
  function NewestFirst(host: Host): string -> int {
    d => -host.instantOf(d)
  }

  /** The date keys in the order the history lists them: newest first, ties in their first-seen order. */
  function SortedDates(dates: seq<string>, host: Host): seq<string> {
    SortBy(dates, NewestFirst(host))
  }

  /** The date keys of page `page`: positions `(page - 1) * 10` up to ten further. */
  function PageDates(dates: seq<string>, page: int, host: Host): seq<string> {
    var start := (page - 1) * RecordsPerPage;
    JsSlice(SortedDates(dates, host), start, start + RecordsPerPage)
  }

  /** `getPaginatedRecords`: the page's date keys and their groups. */
  function Page(g: Grouping, page: int, host: Host): (r: Grouping)
    requires forall d :: d in g.dates ==> d in g.byDate
    ensures forall d :: d in r.byDate <==> d in r.dates
    ensures forall d :: d in r.byDate ==> d in g.byDate && r.byDate[d] == g.byDate[d]
  {
    var dates := PageDates(g.dates, page, host);
    PageDatesMember(g.dates, page, host);
    Grouping(dates, map d | d in dates :: g.byDate[d])
  }

  lemma PageDatesMember(dates: seq<string>, page: int, host: Host)
    ensures forall d :: d in PageDates(dates, page, host) ==> d in dates
  {
    var sorted := SortedDates(dates, host);
    SortByPermutation(dates, NewestFirst(host));
    forall d | d in PageDates(dates, page, host) ensures d in dates {
      assert d in multiset(sorted);
    }
  }

  /** The listed order is newest first, and it lists the same keys. */
  lemma SortedDatesNewestFirst(dates: seq<string>, host: Host)
    ensures var s := SortedDates(dates, host);
      multiset(s) == multiset(dates) &&
      forall i, j :: 0 <= i < j < |s| ==> host.instantOf(s[i]) >= host.instantOf(s[j])
  {
    var s := SortedDates(dates, host);
    SortByPermutation(dates, NewestFirst(host));
    SortBySorted(dates, NewestFirst(host));
    assert forall i, j :: 0 <= i < j < |s| ==> NewestFirst(host)(s[i]) <= NewestFirst(host)(s[j]);
  }

  /** A page at or after the first: its keys are the sorted keys from its first position on. */
  lemma PageAt(dates: seq<string>, page: int, host: Host, i: nat)
    requires page >= 1 && i < |PageDates(dates, page, host)|
    ensures (page - 1) * RecordsPerPage + i < |dates|
    ensures PageDates(dates, page, host)[i] == SortedDates(dates, host)[(page - 1) * RecordsPerPage + i]
  {
  }

  /** No page holds more than ten days. */
  lemma PageSize(dates: seq<string>, page: int, host: Host)
    ensures |PageDates(dates, page, host)| <= RecordsPerPage
  {
  }

  /** Page 0, which `goToLastPage` reaches when there are no pages, shows nothing. */
  lemma PageZeroEmpty(dates: seq<string>, host: Host)
    ensures PageDates(dates, 0, host) == []
  {
  }

  /** Pages after the last show nothing. */
  lemma PageBeyondLastEmpty(dates: seq<string>, page: int, host: Host)
    requires page > TotalPages(|dates|)
    ensures PageDates(dates, page, host) == []
  {
  }

  /** Two different pages share no day, for distinct date keys like the keys of a grouping. */
  lemma PagesDisjoint(dates: seq<string>, p: int, q: int, host: Host, i: nat, j: nat)
    requires Distinct(dates) && p >= 1 && q >= 1 && p != q
    requires i < |PageDates(dates, p, host)| && j < |PageDates(dates, q, host)|
    ensures PageDates(dates, p, host)[i] != PageDates(dates, q, host)[j]
  {
    var s := SortedDates(dates, host);
    PageAt(dates, p, host, i);
    PageAt(dates, q, host, j);
    SortByPermutation(dates, NewestFirst(host));
    DistinctPermutation(dates, s);
  }

  /** Every day is on some page between the first and the last. */
  lemma PagesCover(dates: seq<string>, host: Host, d: string)
    requires d in dates
    ensures exists p :: 1 <= p <= TotalPages(|dates|) && d in PageDates(dates, p, host)
  {
    var s := SortedDates(dates, host);
    SortByPermutation(dates, NewestFirst(host));
    assert d in multiset(s);
    var k :| 0 <= k < |s| && s[k] == d;
    PageOfPosition(dates, host, k);
  }

  /** The listed day at position `k` is on page `k / 10 + 1`. */
  lemma PageOfPosition(dates: seq<string>, host: Host, k: nat)
    requires k < |dates|
    ensures 1 <= k / RecordsPerPage + 1 <= TotalPages(|dates|)
    ensures SortedDates(dates, host)[k] in PageDates(dates, k / RecordsPerPage + 1, host)
  {
    var s := SortedDates(dates, host);
    var start := k / RecordsPerPage * RecordsPerPage;
    assert start <= k < start + RecordsPerPage;
    var hi := if start + RecordsPerPage <= |s| then start + RecordsPerPage else |s|;
    var page := PageDates(dates, k / RecordsPerPage + 1, host);
    assert page == s[start..hi];
    assert page[k - start] == s[k];
  }

  /** A permutation of distinct elements has distinct elements. */
  lemma DistinctPermutation<T>(s: seq<T>, t: seq<T>)
    requires Distinct(s) && multiset(s) == multiset(t)
    ensures Distinct(t)
  {
    forall x ensures multiset(t)[x] <= 1 {
      DistinctCounts(s, x);
    }
    forall i, j | 0 <= i < j < |t| ensures t[i] != t[j] {
      if t[i] == t[j] {
        TwiceCounts(t, i, j);
      }
    }
  }

  lemma {:induction false} DistinctCounts<T>(s: seq<T>, x: T)
    requires Distinct(s)
    ensures multiset(s)[x] <= 1
    decreases |s|
  {
    if s != [] {
      var init := s[..|s| - 1];
      assert s == init + [s[|s| - 1]];
      assert Distinct(init);
      DistinctCounts(init, x);
      if x == s[|s| - 1] {
        assert x !in init;
      }
    }
  }

  lemma TwiceCounts<T>(t: seq<T>, i: nat, j: nat)
    requires i < j < |t| && t[i] == t[j]
    ensures multiset(t)[t[i]] >= 2
  {
    assert t == t[..j] + t[j..];
    assert t[i] in t[..j];
    assert t[j] in t[j..];
  }
}
