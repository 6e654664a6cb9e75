/** The aggregator (extractDataset): groups build records by day, lists the
    distinct days in sorted order, and for each day counts the passed and the
    failed builds and sums the durations; then hands the counts to the
    anomaly detector. */
module Aggregator {
  import opened DayKeys
  import opened AnomalyDetector

  /** What is tallied over a day's records: how many carry a given
      `summary_status`, or the sum of their durations. */
  datatype Measure = StatusCount(status: string) | TotalDuration

  const PassedCount := StatusCount("passed")
  const FailedCount := StatusCount("failed")

  function Weight(r: BuildRecord, m: Measure): int
  {
    match m
    case StatusCount(s) => if r.summaryStatus == s then 1 else 0
    case TotalDuration => r.duration
  }

  /** `_.countBy(...)[status] || 0` for a status count, `_.sum(..., 'duration')`
      for the duration. A status count is between 0 and the number of records. */
  function Tally(rs: seq<BuildRecord>, m: Measure): (t: int)
    ensures m.StatusCount? ==> 0 <= t <= |rs|
  {
    if rs == [] then 0 else Weight(rs[0], m) + Tally(rs[1..], m)
  }

  /** A status count is 0 exactly when no record has that status (the
      `|| 0` of a missing `countBy` key), and equals the number of records
      exactly when every record has it. */
  lemma {:induction false} StatusCountExtremes(rs: seq<BuildRecord>, status: string)
    ensures Tally(rs, StatusCount(status)) == 0 <==> forall r :: r in rs ==> r.summaryStatus != status
    ensures Tally(rs, StatusCount(status)) == |rs| <==> forall r :: r in rs ==> r.summaryStatus == status
  {
    if rs != [] {
      StatusCountExtremes(rs[1..], status);
      assert forall r :: r in rs <==> r == rs[0] || r in rs[1..];
    }
  }

  /** The records of one day, in input order (one bucket of `groupBy`). */
  function Group(rs: seq<BuildRecord>, k: string): (g: seq<BuildRecord>)
    ensures forall r :: r in g <==> r in rs && DayKey(r) == k
    ensures |g| <= |rs|
  {
    if rs == [] then []
    else if DayKey(rs[0]) == k then [rs[0]] + Group(rs[1..], k)
    else Group(rs[1..], k)
  }

  /** A day's bucket keeps every copy of each of its records: a record of that
      day occurs in the bucket as often as in the input, and a record of any
      other day not at all. */
  lemma {:induction false} GroupKeepsCopies(rs: seq<BuildRecord>, k: string)
    ensures forall r :: multiset(Group(rs, k))[r] == if DayKey(r) == k then multiset(rs)[r] else 0
  {
    if rs != [] {
      GroupKeepsCopies(rs[1..], k);
      assert rs == [rs[0]] + rs[1..];
    }
  }

  /** The records of every other day, in input order. */
  function Without(rs: seq<BuildRecord>, k: string): (w: seq<BuildRecord>)
    ensures forall r :: r in w <==> r in rs && DayKey(r) != k
    ensures |w| <= |rs|
  {
    if rs == [] then []
    else if DayKey(rs[0]) != k then [rs[0]] + Without(rs[1..], k)
    else Without(rs[1..], k)
  }

  /** `groupBy(...).keys().sort()`: the distinct day keys, ascending. A key is
      listed exactly when some record falls on that day. */
  function OrderedDays(rs: seq<BuildRecord>): (days: seq<string>)
    ensures StrictlyAscending(days)
    ensures forall k :: k in days <==> Group(rs, k) != []
  {
    if rs == [] then []
    else
      var days := InsertKey(DayKey(rs[0]), OrderedDays(rs[1..]));
      assert forall k :: Group(rs, k) != [] <==> k == DayKey(rs[0]) || Group(rs[1..], k) != [];
      days
  }

  /** The series of one measure over the given days: entry i is the tally of
      the records on day i. */
  function PerDay(rs: seq<BuildRecord>, days: seq<string>, m: Measure): (xs: seq<int>)
    ensures |xs| == |days|
    ensures forall i :: 0 <= i < |xs| ==> xs[i] == Tally(Group(rs, days[i]), m)
    ensures m.StatusCount? ==> forall i :: 0 <= i < |xs| ==> 0 <= xs[i] <= |Group(rs, days[i])|
  {
    seq(|days|, i requires 0 <= i < |days| => Tally(Group(rs, days[i]), m))
  }

  /** The per-day series, index-aligned with the ordered days. */
  datatype Datasets = Datasets(duration: seq<int>, passed: seq<nat>, failed: seq<nat>)

  /** What extractDataset returns. */
  datatype ChartData = ChartData(labels: seq<string>, datasets: Datasets, abnormal: seq<nat>)

  /** One label per day; the formatting of a day (the host's date rendering)
      is the parameter `format`. */
  function Labels(days: seq<string>, format: string -> string): (labels: seq<string>)
    ensures |labels| == |days|
    ensures forall i :: 0 <= i < |days| ==> labels[i] == format(days[i])
  {
    seq(|days|, i requires 0 <= i < |days| => format(days[i]))
  }

  /** The `orderedDates.each` loop of extractDataset: for each day in order,
      push that day's passed count, failed count and total duration. */
  method DailySeries(records: seq<BuildRecord>, days: seq<string>) returns (ds: Datasets)
    ensures ds.passed == PerDay(records, days, PassedCount)
    ensures ds.failed == PerDay(records, days, FailedCount)
    ensures ds.duration == PerDay(records, days, TotalDuration)
  {
    var duration: seq<int> := [];
    var passed: seq<nat> := [];
    var failed: seq<nat> := [];
    var i := 0;
    while i < |days|
      invariant 0 <= i <= |days|
      invariant |passed| == i && |failed| == i && |duration| == i
      invariant passed == PerDay(records, days[..i], PassedCount)
      invariant failed == PerDay(records, days[..i], FailedCount)
      invariant duration == PerDay(records, days[..i], TotalDuration)
    {
      var group := Group(records, days[i]);
      passed := passed + [Tally(group, PassedCount)];
      failed := failed + [Tally(group, FailedCount)];
      duration := duration + [Tally(group, TotalDuration)];
      i := i + 1;
    }
    assert days[..i] == days;
    ds := Datasets(duration, passed, failed);
  }

  /** extractDataset: the ordered days, their series, one label per day, and
      the abnormal days of the series. */
  method ExtractDataset(records: seq<BuildRecord>, format: string -> string) returns (out: ChartData)
    ensures var days := OrderedDays(records);
      && |out.labels| == |days|
      && (forall i :: 0 <= i < |days| ==> out.labels[i] == format(days[i]))
      && out.datasets.passed == PerDay(records, days, PassedCount)
      && out.datasets.failed == PerDay(records, days, FailedCount)
      && out.datasets.duration == PerDay(records, days, TotalDuration)
    ensures records == [] ==>
      out.labels == [] && out.datasets == Datasets([], [], []) && out.abnormal == []
    ensures |out.datasets.passed| == |out.datasets.failed|
    ensures AbnormalDays(Coefficients(out.datasets.passed, out.datasets.failed), out.abnormal)
  {
    var days := OrderedDays(records);
    var ds := DailySeries(records, days);
    var labels := Labels(days, format);
    var abnormal := FindAbnormal(ds.passed, ds.failed);
    out := ChartData(labels, ds, abnormal);
  }

  /** A day's passed and failed counts never exceed its number of records,
      and add up to it when every status is `passed` or `failed`. */
  lemma {:induction false} CountsWithinDay(g: seq<BuildRecord>)
    ensures Tally(g, PassedCount) + Tally(g, FailedCount) <= |g|
    ensures (forall r :: r in g ==> r.summaryStatus in {"passed", "failed"}) ==>
              Tally(g, PassedCount) + Tally(g, FailedCount) == |g|
  {
    if g != [] {
      CountsWithinDay(g[1..]);
      assert forall r :: r in g[1..] ==> r in g;
    }
  }

  /** Splitting off one day leaves the totals unchanged. */
  lemma {:induction false} TallySplit(rs: seq<BuildRecord>, k: string, m: Measure)
    ensures Tally(rs, m) == Tally(Group(rs, k), m) + Tally(Without(rs, k), m)
  {
    if rs != [] {
      TallySplit(rs[1..], k, m);
      if DayKey(rs[0]) == k {
        assert ([rs[0]] + Group(rs[1..], k))[1..] == Group(rs[1..], k);
      } else {
        assert ([rs[0]] + Without(rs[1..], k))[1..] == Without(rs[1..], k);
      }
    }
  }

  /** Removing one day's records does not change any other day's group. */
  lemma {:induction false} GroupWithout(rs: seq<BuildRecord>, k: string, k': string)
    requires k != k'
    ensures Group(Without(rs, k), k') == Group(rs, k')
  {
    if rs != [] {
      GroupWithout(rs[1..], k, k');
      if DayKey(rs[0]) != k {
        assert ([rs[0]] + Without(rs[1..], k))[1..] == Without(rs[1..], k);
      }
    }
  }

  function SumInts(xs: seq<int>): int
  {
    if xs == [] then 0 else xs[0] + SumInts(xs[1..])
  }

  /** Summing the per-day totals over a sorted list of distinct days that
      covers every record's day gives the total over all the records. */
  lemma {:induction false} PerDayTotalsSum(rs: seq<BuildRecord>, ks: seq<string>, xs: seq<int>, m: Measure)
    requires StrictlyAscending(ks)
    requires forall r :: r in rs ==> DayKey(r) in ks
    requires |xs| == |ks|
    requires forall i :: 0 <= i < |ks| ==> xs[i] == Tally(Group(rs, ks[i]), m)
    ensures SumInts(xs) == Tally(rs, m)
    decreases |ks|
  {
    assert rs != [] ==> rs[0] in rs && DayKey(rs[0]) in ks;
    if ks != [] {
      var rest := Without(rs, ks[0]);
      forall i | 0 <= i < |ks[1..]| ensures xs[1..][i] == Tally(Group(rest, ks[1..][i]), m) {
        assert LexLess(ks[0], ks[i + 1]);
        GroupWithout(rs, ks[0], ks[i + 1]);
      }
      forall r | r in rest ensures DayKey(r) in ks[1..] {
        var j :| 0 <= j < |ks| && ks[j] == DayKey(r);
        assert j != 0 && ks[1..][j - 1] == DayKey(r);
      }
      PerDayTotalsSum(rest, ks[1..], xs[1..], m);
      TallySplit(rs, ks[0], m);
    }
  }

  /** Summing a series over the ordered days gives the total over the input:
      the passed series sums to the number of `passed` records, the failed
      series to the number of `failed` records, the duration series to the
      total duration. */
  lemma SeriesConserveTotals(rs: seq<BuildRecord>, m: Measure)
    ensures SumInts(PerDay(rs, OrderedDays(rs), m)) == Tally(rs, m)
  {
    var days := OrderedDays(rs);
    forall r | r in rs ensures DayKey(r) in days {
      assert r in Group(rs, DayKey(r));
    }
    PerDayTotalsSum(rs, days, PerDay(rs, days, m), m);
  }

  /** The ordered days are the only sorted duplicate-free listing of the days
      that have records, whichever sort produced it. */
  lemma OrderedDaysIsTheSort(rs: seq<BuildRecord>, ks: seq<string>)
    requires StrictlyAscending(ks)
    requires forall k :: k in ks <==> Group(rs, k) != []
    ensures ks == OrderedDays(rs)
  {
    AscendingUnique(ks, OrderedDays(rs));
  }
}
