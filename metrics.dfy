/**
  The daily metric series: a query result of (date, value) rows becomes a list of
  data points, padded with a zero for every day of the requested range that has no
  point, and sorted by date. Dates are day numbers, so the next day is `d + 1`.
 */
module Metrics {

  /** One data point, `{"date": date, "value": value}`. */
  datatype Datum = Datum(date: int, value: real)

  /** A named series, `{"name": name, "data": data}`. */
  datatype Metric = Metric(name: string, data: seq<Datum>)

  function Dates(count: seq<Datum>): (r: seq<int>)
    ensures |r| == |count| && forall i :: 0 <= i < |count| ==> r[i] == count[i].date
  {
    seq(|count|, i requires 0 <= i < |count| => count[i].date)
  }

  /** The zero points `pad` appends for the days `start <= d < stop` missing from
      `dates`, in increasing order of day. */
  function Gap(dates: seq<int>, start: int, stop: int): (r: seq<Datum>)
    decreases stop - start
  {
    if stop <= start then []
    else Gap(dates, start, stop - 1) + (if stop - 1 in dates then [] else [Datum(stop - 1, 0.0)])
  }

  predicate SortedByDate(s: seq<Datum>)
  {
    forall i, j :: 0 <= i < j < |s| ==> s[i].date <= s[j].date
  }

  /** The points of `s` on day `d`, in order. */
  function OfDate(s: seq<Datum>, d: int): (r: seq<Datum>)
  {
    if |s| == 0 then []
    else (if s[0].date == d then [s[0]] else []) + OfDate(s[1..], d)
  }

  /** Inserting before the first point that is not earlier keeps equal dates in their
      original order. */
  function Insert(x: Datum, t: seq<Datum>): (r: seq<Datum>)
  {
    if |t| == 0 || x.date <= t[0].date then [x] + t
    else [t[0]] + Insert(x, t[1..])
  }

  /** `sorted(count, key=date)`: Python's sort is stable. */
  function SortByDate(s: seq<Datum>): (r: seq<Datum>)
  {
    if |s| == 0 then [] else Insert(s[0], SortByDate(s[1..]))
  }

  /** What `pad(count, start, end)` returns. */
  function Padded(count: seq<Datum>, start: int, end: int): (r: seq<Datum>)
  {
    SortByDate(count + Gap(Dates(count), start, end + 1))
  }

  /**
    `pad`: the dates present are collected once; walking from `start` to `end` a zero
    point is appended for each day not among them; the list is then sorted by date.
   */
  method Pad(count: seq<Datum>, start: int, end: int) returns (result: seq<Datum>)
    ensures result == Padded(count, start, end)
  {
    var dates := Dates(count);
    var padded := count;
    var current := start;
    while current <= end
      invariant start <= current && (current <= end + 1 || current == start)
      invariant padded == count + Gap(dates, start, current)
      decreases end - current
    {
      if current !in dates {
        padded := padded + [Datum(current, 0.0)];
      }
      current := current + 1;
    }
    result := SortByDate(padded);
  }

  /** `data_map`: one point per row, in order. */
  function DataMap(rows: seq<(int, real)>): (r: seq<Datum>)
    ensures |r| == |rows|
    ensures forall i :: 0 <= i < |rows| ==> r[i].date == rows[i].0 && r[i].value == rows[i].1
  {
    seq(|rows|, i requires 0 <= i < |rows| => Datum(rows[i].0, rows[i].1))
  }

  /** `prepare_metric(name)` applied to a metric whose query, run for the range,
      gave `rows`: the series named `name` of the padded points. */
  method PrepareMetric(name: string, rows: seq<(int, real)>, start: int, end: int) returns (m: Metric)
    ensures m.name == name && m.data == Padded(DataMap(rows), start, end)
  {
    var count := DataMap(rows);
    count := Pad(count, start, end);
    m := Metric(name, count);
  }

  // ---------------------------------------------------------------------------
  // Sorting
  // ---------------------------------------------------------------------------

  lemma {:induction false} InsertMultiset(x: Datum, t: seq<Datum>)
    ensures multiset(Insert(x, t)) == multiset{x} + multiset(t)
  {
    if |t| > 0 && x.date > t[0].date {
      InsertMultiset(x, t[1..]);
      assert t == [t[0]] + t[1..];
    }
  }

  lemma {:induction false} InsertSorted(x: Datum, t: seq<Datum>)
    requires SortedByDate(t)
    ensures SortedByDate(Insert(x, t))
  {
    if |t| == 0 || x.date <= t[0].date {
      var r := [x] + t;
      forall i, j | 0 <= i < j < |r|
        ensures r[i].date <= r[j].date
      {
        if i == 0 && j > 1 {
          assert t[0].date <= t[j - 1].date;
        }
      }
    } else {
      InsertSorted(x, t[1..]);
      InsertMultiset(x, t[1..]);
      var rest := Insert(x, t[1..]);
      var r := [t[0]] + rest;
      forall j | 0 < j < |r|
        ensures t[0].date <= r[j].date
      {
        var y := rest[j - 1];
        assert y in multiset(rest);
        assert y == x || y in t[1..];
      }
    }
  }

  lemma {:induction false} InsertOfDate(x: Datum, t: seq<Datum>, d: int)
    ensures OfDate(Insert(x, t), d) == (if x.date == d then [x] else []) + OfDate(t, d)
  {
    if |t| == 0 || x.date <= t[0].date {
      var r := [x] + t;
      assert r[0] == x && r[1..] == t;
      assert OfDate(r, d) == (if x.date == d then [x] else []) + OfDate(t, d);
    } else {
      InsertOfDate(x, t[1..], d);
      var rest := Insert(x, t[1..]);
      var r := [t[0]] + rest;
      assert r[0] == t[0] && r[1..] == rest;
      assert OfDate(t, d) == (if t[0].date == d then [t[0]] else []) + OfDate(t[1..], d);
      if x.date == d {
        assert t[0].date != d;
        assert OfDate(r, d) == [x] + OfDate(t[1..], d);
      } else {
        assert OfDate(r, d) == (if t[0].date == d then [t[0]] else []) + OfDate(t[1..], d);
      }
    }
  }

  /** The sort is a permutation, its result is sorted, and it is stable: the points of
      each day keep their original order. */
  lemma {:induction false} SortByDateFacts(s: seq<Datum>)
    ensures multiset(SortByDate(s)) == multiset(s)
    ensures SortedByDate(SortByDate(s))
    ensures forall d :: OfDate(SortByDate(s), d) == OfDate(s, d)
  {
    if |s| > 0 {
      var t := SortByDate(s[1..]);
      SortByDateFacts(s[1..]);
      InsertMultiset(s[0], t);
      InsertSorted(s[0], t);
      forall d ensures OfDate(Insert(s[0], t), d) == OfDate(s, d) {
        InsertOfDate(s[0], t, d);
      }
      assert s == [s[0]] + s[1..];
    }
  }

  // ---------------------------------------------------------------------------
  // The padded series
  // ---------------------------------------------------------------------------

  lemma {:induction false} GapFacts(dates: seq<int>, start: int, stop: int)
    ensures forall x :: x in Gap(dates, start, stop) <==>
      x.value == 0.0 && start <= x.date < stop && x.date !in dates
    ensures forall d :: |OfDate(Gap(dates, start, stop), d)| <= 1
    decreases stop - start
  {
    if stop > start {
      GapFacts(dates, start, stop - 1);
      var init := Gap(dates, start, stop - 1);
      var last: seq<Datum> := if stop - 1 in dates then [] else [Datum(stop - 1, 0.0)];
      forall d ensures |OfDate(init + last, d)| <= 1 {
        OfDateAppend(init, last, d);
        if d == stop - 1 {
          OfDateNone(init, d);
        }
      }
    }
  }

  lemma {:induction false} OfDateAppend(s: seq<Datum>, t: seq<Datum>, d: int)
    ensures OfDate(s + t, d) == OfDate(s, d) + OfDate(t, d)
  {
    if |s| > 0 {
      OfDateAppend(s[1..], t, d);
      assert (s + t)[1..] == s[1..] + t;
    } else {
      assert s + t == t;
    }
  }

  /** No point of `s` is on day `d` exactly when `OfDate(s, d)` is empty. */
  lemma {:induction false} OfDateNone(s: seq<Datum>, d: int)
    ensures OfDate(s, d) == [] <==> forall x :: x in s ==> x.date != d
  {
    if |s| > 0 {
      OfDateNone(s[1..], d);
      assert s == [s[0]] + s[1..];
    }
  }

  /** `pad` returns its input and the zero points of the missing days, sorted by date. */
  lemma PaddedSortedPermutation(count: seq<Datum>, start: int, end: int)
    ensures SortedByDate(Padded(count, start, end))
    ensures multiset(Padded(count, start, end)) == multiset(count) + multiset(Gap(Dates(count), start, end + 1))
  {
    SortByDateFacts(count + Gap(Dates(count), start, end + 1));
  }

  /** The added points are exactly the zero points of the days of [start, end] that
      have no point in the input. */
  lemma GapMeaning(count: seq<Datum>, start: int, end: int)
    ensures forall x :: x in Gap(Dates(count), start, end + 1) <==>
      && x.value == 0.0 && start <= x.date <= end
      && forall i :: 0 <= i < |count| ==> count[i].date != x.date
  {
    GapFacts(Dates(count), start, end + 1);
  }

  /** A day that already had points keeps exactly those points, in their order: no
      zero is added for it. */
  lemma PaddedKeepsPresentDays(count: seq<Datum>, start: int, end: int, i: int)
    requires 0 <= i < |count|
    ensures OfDate(Padded(count, start, end), count[i].date) == OfDate(count, count[i].date)
  {
    var d := count[i].date;
    var gap := Gap(Dates(count), start, end + 1);
    SortByDateFacts(count + gap);
    GapFacts(Dates(count), start, end + 1);
    OfDateAppend(count, gap, d);
    assert d in Dates(count);
    OfDateNone(gap, d);
  }

  /** A day of [start, end] without a point gets a single zero point. */
  lemma PaddedFillsMissingDays(count: seq<Datum>, start: int, end: int, d: int)
    requires start <= d <= end
    requires forall i :: 0 <= i < |count| ==> count[i].date != d
    ensures OfDate(Padded(count, start, end), d) == [Datum(d, 0.0)]
  {
    var dates := Dates(count);
    var gap := Gap(dates, start, end + 1);
    SortByDateFacts(count + gap);
    GapFacts(dates, start, end + 1);
    OfDateAppend(count, gap, d);
    OfDateNone(count, d);
    assert d !in dates;
    assert Datum(d, 0.0) in gap;
    OneOfDate(gap, d, Datum(d, 0.0));
  }

  /** An empty range adds nothing: the input is only sorted. */
  lemma PaddedEmptyRange(count: seq<Datum>, start: int, end: int)
    requires start > end
    ensures Padded(count, start, end) == SortByDate(count)
  {
    assert count + Gap(Dates(count), start, end + 1) == count;
  }

  /** A sequence with at most one point on day `d`, containing `x` on that day, has
      exactly `[x]` as its points of that day. */
  lemma {:induction false} OneOfDate(s: seq<Datum>, d: int, x: Datum)
    requires x in s && x.date == d && |OfDate(s, d)| <= 1
    ensures OfDate(s, d) == [x]
  {
    if s[0] == x {
      assert s == [s[0]] + s[1..];
    } else {
      assert x in s[1..];
      assert s == [s[0]] + s[1..];
      OneOfDate(s[1..], d, x);
    }
  }

  /** Every day of [start, end] has a point in the padded series. */
  lemma PaddedCovers(count: seq<Datum>, start: int, end: int, d: int)
    requires start <= d <= end
    ensures exists x :: x in Padded(count, start, end) && x.date == d
  {
    var r := Padded(count, start, end);
    if i :| 0 <= i < |count| && count[i].date == d {
      PaddedKeepsPresentDays(count, start, end, i);
      OfDateNone(count, d);
      assert count[i] in count;
      OfDateNone(r, d);
    } else {
      PaddedFillsMissingDays(count, start, end, d);
      OfDateNone(r, d);
    }
  }
}
