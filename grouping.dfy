/** Grouping punches by their day key, as `groupRecordsByDate` fills an object: the keys in the
    order they first occur, and for each key its records in their order. */
module Grouping {
  import opened Seqs
  import opened Punch

  datatype Grouping = Grouping(dates: seq<string>, byDate: map<string, seq<Record>>)

  /** The grouping of `records`, one record at a time from the first. */
  function GroupSpec(records: seq<Record>): Grouping
    decreases |records|
  {
    if records == [] then Grouping([], map[])
    else
      var g := GroupSpec(records[..|records| - 1]);
      var r := records[|records| - 1];
      if r.date in g.byDate then Grouping(g.dates, g.byDate[r.date := g.byDate[r.date] + [r]])
      else Grouping(g.dates + [r.date], g.byDate[r.date := [r]])
  }

  method GroupRecordsByDate(records: seq<Record>) returns (g: Grouping)
    ensures g == GroupSpec(records)
  {
    g := Grouping([], map[]);
    for i := 0 to |records|
      invariant g == GroupSpec(records[..i])
    {
      var r := records[i];
      assert records[..i + 1][..i] == records[..i];
      if r.date in g.byDate {
        g := Grouping(g.dates, g.byDate[r.date := g.byDate[r.date] + [r]]);
      } else {
        g := Grouping(g.dates + [r.date], g.byDate[r.date := [r]]);
      }
    }
    assert records[..|records|] == records;
  }

  /** The part of `GroupSpecMeaning` about the keys alone: they are distinct and are the map's keys. */
  lemma GroupSpecKeys(records: seq<Record>)
    ensures Distinct(GroupSpec(records).dates)
    ensures forall d :: d in GroupSpec(records).byDate <==> d in GroupSpec(records).dates
  {
    GroupSpecMeaning(records);
  }

  /** `GroupSpec` groups the records by date as `Groups` describes. */
  lemma {:induction false} GroupSpecMeaning(records: seq<Record>)
    ensures Groups(records, GroupSpec(records))
    decreases |records|
  {
    if records != [] {
      var init, r := records[..|records| - 1], records[|records| - 1];
      GroupSpecMeaning(init);
      GroupStep(init, r, records);
    }
  }

  /** `g` groups `records` by date: its keys are listed once each, they are exactly the dates of the
      records, and each key's group is the records of that date in their order. */
  ghost predicate Groups(records: seq<Record>, g: Grouping) {
    Distinct(g.dates) &&
    (forall d :: d in g.byDate <==> d in g.dates) &&
    (forall d :: d in g.byDate <==> exists r :: r in records && r.date == d) &&
    (forall d :: d in g.byDate ==> g.byDate[d] == Filter(records, OnDate(d)))
  }

  /** One more record keeps the grouping as described. */
  lemma GroupStep(init: seq<Record>, r: Record, records: seq<Record>)
    requires records == init + [r]
    requires Groups(init, GroupSpec(init))
    ensures Groups(records, GroupSpec(records))
  {
    GroupStepKeys(init, r);
    GroupStepDates(init, r);
    GroupStepGroups(init, r);
  }

  lemma GroupStepKeys(init: seq<Record>, r: Record)
    requires Distinct(GroupSpec(init).dates)
    requires forall d :: d in GroupSpec(init).byDate <==> d in GroupSpec(init).dates
    ensures Distinct(GroupSpec(init + [r]).dates)
    ensures forall d :: d in GroupSpec(init + [r]).byDate <==> d in GroupSpec(init + [r]).dates
  {
    var records := init + [r];
    assert records[..|records| - 1] == init && records[|records| - 1] == r;
  }

  lemma GroupStepDates(init: seq<Record>, r: Record)
    requires forall d :: d in GroupSpec(init).byDate <==> exists x :: x in init && x.date == d
    ensures forall d :: d in GroupSpec(init + [r]).byDate <==> exists x :: x in init + [r] && x.date == d
  {
    var records := init + [r];
    assert records[..|records| - 1] == init && records[|records| - 1] == r;
    var g := GroupSpec(records);
    forall d ensures d in g.byDate <==> exists x :: x in records && x.date == d {
      if d in g.byDate && d != r.date {
        var x :| x in init && x.date == d;
        assert x in records;
      }
      if exists x :: x in records && x.date == d {
        var x :| x in records && x.date == d;
        if x != r {
          assert x in init;
        }
      }
    }
  }

  lemma GroupStepGroups(init: seq<Record>, r: Record)
    requires forall d :: d in GroupSpec(init).byDate <==> exists x :: x in init && x.date == d
    requires forall d :: d in GroupSpec(init).byDate ==> GroupSpec(init).byDate[d] == Filter(init, OnDate(d))
    ensures forall d :: d in GroupSpec(init + [r]).byDate ==> GroupSpec(init + [r]).byDate[d] == Filter(init + [r], OnDate(d))
  {
    var records := init + [r];
    assert records[..|records| - 1] == init && records[|records| - 1] == r;
    var g0 := GroupSpec(init);
    var g := GroupSpec(records);
    forall d | d in g.byDate ensures g.byDate[d] == Filter(records, OnDate(d)) {
      FilterConcat(init, [r], OnDate(d));
      FilterSingleton(r, OnDate(d));
      if d != r.date {
        assert g.byDate[d] == g0.byDate[d];
      } else if r.date !in g0.byDate {
        assert Filter(init, OnDate(d)) == [] by {
          var f := Filter(init, OnDate(d));
          if f != [] {
            FilterMember(init, OnDate(d), f[0]);
          }
        }
      }
    }
  }

  /** Every record lands in exactly one group: the group sizes add up to the number of records. */
  lemma {:induction false} GroupSizes(records: seq<Record>)
    ensures var g := GroupSpec(records);
      forall d :: d in g.byDate ==> |g.byDate[d]| > 0
    ensures var g := GroupSpec(records); SumSizes(g.dates, g.byDate) == |records|
    decreases |records|
  {
    if records != [] {
      var init, r := records[..|records| - 1], records[|records| - 1];
      GroupSizes(init);
      GroupSpecMeaning(init);
      var g0 := GroupSpec(init);
      if r.date in g0.byDate {
        SumSizesUpdate(g0.dates, g0.byDate, r.date, g0.byDate[r.date] + [r]);
      } else {
        SumSizesFresh(g0.dates, g0.byDate, r.date, [r]);
        SumSizesAppend(g0.dates, g0.byDate[r.date := [r]], r.date);
      }
    }
  }

  /** The total size of the groups of `dates`. */
  function SumSizes(dates: seq<string>, byDate: map<string, seq<Record>>): nat
    decreases |dates|
  {
    if dates == [] then 0
    else (if dates[0] in byDate then |byDate[dates[0]]| else 0) + SumSizes(dates[1..], byDate)
  }

  lemma {:induction false} SumSizesAppend(dates: seq<string>, byDate: map<string, seq<Record>>, d: string)
    ensures SumSizes(dates + [d], byDate) == SumSizes(dates, byDate) + (if d in byDate then |byDate[d]| else 0)
    decreases |dates|
  {
    if dates == [] {
      assert [d][1..] == [];
    } else {
      assert (dates + [d])[1..] == dates[1..] + [d];
      SumSizesAppend(dates[1..], byDate, d);
    }
  }

  /** Changing the group of a key that does not occur in `dates` leaves their sizes alone. */
  lemma {:induction false} SumSizesFresh(dates: seq<string>, byDate: map<string, seq<Record>>, d: string, v: seq<Record>)
    requires d !in dates
    ensures SumSizes(dates, byDate[d := v]) == SumSizes(dates, byDate)
    decreases |dates|
  {
    if dates != [] {
      assert d !in dates[1..] by { assert forall x :: x in dates[1..] ==> x in dates; }
      SumSizesFresh(dates[1..], byDate, d, v);
    }
  }

  /** Growing the group of a key listed once in `dates` by one record grows the total by one. */
  lemma {:induction false} SumSizesUpdate(dates: seq<string>, byDate: map<string, seq<Record>>, d: string, v: seq<Record>)
    requires Distinct(dates) && d in dates && d in byDate && |v| == |byDate[d]| + 1
    ensures SumSizes(dates, byDate[d := v]) == SumSizes(dates, byDate) + 1
    decreases |dates|
  {
    if dates[0] == d {
      assert d !in dates[1..];
      SumSizesFresh(dates[1..], byDate, d, v);
    } else {
      assert d in dates[1..];
      assert Distinct(dates[1..]) by {
        forall i, j | 0 <= i < j < |dates[1..]| ensures dates[1..][i] != dates[1..][j] {
          assert dates[1..][i] == dates[i + 1] && dates[1..][j] == dates[j + 1];
        }
      }
      SumSizesUpdate(dates[1..], byDate, d, v);
    }
  }
}
