/**
 * The aggregator `getStats`: one ResponseStat (count, min, mean, max) per
 * path, singletons below one second dropped, the rest ordered by mean,
 * largest first. Latencies are reals; float rounding is not modelled.
 */
module Stats {

  /** The per-path summary the report prints. */
  datatype ResponseStat = ResponseStat(request: string, count: int, min: real, avg: real, max: real)

  /** Sum of the samples, accumulated from the front as the loop does. */
  function Sum(s: seq<real>): real {
    if |s| == 0 then 0.0 else Sum(s[..|s| - 1]) + s[|s| - 1]
  }

  /** The running minimum of the loop: the last sample that is below all before it. */
  function Min(s: seq<real>): real
    requires |s| > 0
  {
    if |s| == 1 then s[0]
    else
      var m := Min(s[..|s| - 1]);
      if s[|s| - 1] < m then s[|s| - 1] else m
  }

  /** The running maximum of the loop: the last sample that is above all before it. */
  function Max(s: seq<real>): real
    requires |s| > 0
  {
    if |s| == 1 then s[0]
    else
      var m := Max(s[..|s| - 1]);
      if s[|s| - 1] > m then s[|s| - 1] else m
  }

  /** `sum / float64(len(times))`. */
  function Mean(s: seq<real>): real
    requires |s| > 0
  {
    Sum(s) / (|s| as real)
  }

  /** The summary of one non-empty group. */
  function StatOf(request: string, times: seq<real>): ResponseStat
    requires |times| > 0
  {
    ResponseStat(request, |times|, Min(times), Mean(times), Max(times))
  }

  /** The filter rule: a group is reported unless it is empty or a single sample below 1.0. */
  predicate Kept(times: seq<real>) {
    |times| > 0 && !(Mean(times) < 1.0 && |times| == 1)
  }

  /** Non-increasing by mean. */
  predicate SortedByAvgDesc(stats: seq<ResponseStat>) {
    forall i, j :: 0 <= i < j < |stats| ==> stats[i].avg >= stats[j].avg
  }

  /** No path is reported twice. */
  predicate DistinctRequests(stats: seq<ResponseStat>) {
    forall i, j :: 0 <= i < j < |stats| ==> stats[i].request != stats[j].request
  }

  /** Every entry is the true summary of a kept group of `times`. */
  predicate AllSummaries(times: map<string, seq<real>>, stats: seq<ResponseStat>) {
    forall i :: 0 <= i < |stats| ==>
      stats[i].request in times && Kept(times[stats[i].request]) &&
      stats[i] == StatOf(stats[i].request, times[stats[i].request])
  }

  /** Every kept group is reported. */
  predicate CoversKept(times: map<string, seq<real>>, stats: seq<ResponseStat>) {
    forall k :: k in times && Kept(times[k]) ==> exists i :: 0 <= i < |stats| && stats[i].request == k
  }

  /**
   * What getStats promises: each kept group exactly once, its true summary,
   * nothing else, ordered by mean, largest first (ties in any order).
   */
  predicate IsReport(times: map<string, seq<real>>, stats: seq<ResponseStat>) {
    && AllSummaries(times, stats)
    && CoversKept(times, stats)
    && DistinctRequests(stats)
    && SortedByAvgDesc(stats)
  }

  // ---------------------------------------------------------------------
  // The aggregator as the source writes it.
  // ---------------------------------------------------------------------

  /** The inner loop: sum, minimum and maximum in one pass, then the mean. */
  method Summarize(request: string, times: seq<real>) returns (stat: ResponseStat)
    requires |times| > 0
    ensures stat == StatOf(request, times)
    ensures stat.count == |times| && stat.min <= stat.avg <= stat.max
  {
    var sum := 0.0;
    var minTime := times[0];
    var maxTime := times[0];
    for i := 0 to |times|
      invariant sum == Sum(times[..i])
      invariant i == 0 ==> minTime == times[0] && maxTime == times[0]
      invariant i > 0 ==> minTime == Min(times[..i]) && maxTime == Max(times[..i])
    {
      assert times[..i + 1][..i] == times[..i];
      var t := times[i];
      sum := sum + t;
      if t < minTime {
        minTime := t;
      }
      if t > maxTime {
        maxTime := t;
      }
    }
    assert times[..|times|] == times;
    var avgTime := sum / (|times| as real);
    stat := ResponseStat(request, |times|, minTime, avgTime, maxTime);
    MeanBetween(times);
  }

  /** getStats: summarise every group in map order, filter, then sort by mean. */
  method GetStats(requestTimes: map<string, seq<real>>) returns (stats: seq<ResponseStat>)
    ensures IsReport(requestTimes, stats)
  {
    var collected := CollectStats(requestTimes);
    var a := new ResponseStat[|collected|](i requires 0 <= i < |collected| => collected[i]);
    assert a[..] == collected;
    SortByAvgDesc(a);
    stats := a[..];
    PermutationKeepsReport(requestTimes, collected, stats);
  }

  /**
   * The loop of getStats over the map, in an order the model leaves open:
   * every kept group summarised once, nothing else.
   */
  method CollectStats(requestTimes: map<string, seq<real>>) returns (collected: seq<ResponseStat>)
    ensures AllSummaries(requestTimes, collected)
    ensures CoversKept(requestTimes, collected)
    ensures DistinctRequests(collected)
  {
    collected := [];
    var remaining := requestTimes.Keys;
    while remaining != {}
      invariant remaining <= requestTimes.Keys
      invariant AllSummaries(requestTimes, collected)
      invariant DistinctRequests(collected)
      invariant forall i :: 0 <= i < |collected| ==> collected[i].request !in remaining
      invariant forall k :: k in requestTimes && k !in remaining && Kept(requestTimes[k]) ==>
                  exists i :: 0 <= i < |collected| && collected[i].request == k
      decreases remaining
    {
      var request :| request in remaining;
      remaining := remaining - {request};
      var times := requestTimes[request];
      if |times| == 0 {
        continue;
      }
      var stat := Summarize(request, times);
      if stat.avg < 1.0 && stat.count == 1 {
        continue;
      }
      ghost var before := collected;
      collected := collected + [stat];
      assert forall i :: 0 <= i < |before| ==> collected[i] == before[i];
      assert collected[|before|].request == request;
    }
  }

  /** `sort.Slice(stats, avg greater)`: sorts in place, largest mean first. */
  method SortByAvgDesc(a: array<ResponseStat>)
    modifies a
    ensures SortedByAvgDesc(a[..])
    ensures multiset(a[..]) == old(multiset(a[..]))
  {
    if a.Length == 0 {
      return;
    }
    var i := 1;
    while i < a.Length
      invariant 1 <= i <= a.Length
      invariant SortedByAvgDesc(a[..i])
      invariant multiset(a[..]) == old(multiset(a[..]))
    {
      InsertDown(a, i);
      i := i + 1;
    }
    assert a[..a.Length] == a[..];
  }

  /** One insertion step: moves a[i] down into the sorted prefix a[..i]. */
  method InsertDown(a: array<ResponseStat>, i: int)
    requires 1 <= i < a.Length
    requires SortedByAvgDesc(a[..i])
    modifies a
    ensures SortedByAvgDesc(a[..i + 1])
    ensures multiset(a[..]) == old(multiset(a[..]))
    ensures a[i + 1..] == old(a[i + 1..])
  {
    var j := i;
    while j > 0 && a[j - 1].avg < a[j].avg
      invariant 0 <= j <= i
      invariant forall p, q :: 0 <= p < q <= i && p != j && q != j ==> a[p].avg >= a[q].avg
      invariant forall q :: j < q <= i ==> a[j].avg >= a[q].avg
      invariant multiset(a[..]) == old(multiset(a[..]))
      invariant a[i + 1..] == old(a[i + 1..])
    {
      Swap(a, j - 1, j);
      j := j - 1;
    }
  }

  /** Exchanges the entries at two positions; the sort uses it on neighbours. */
  method Swap(a: array<ResponseStat>, i: int, j: int)
    requires 0 <= i < j < a.Length
    modifies a
    ensures a[i] == old(a[j]) && a[j] == old(a[i])
    ensures forall k :: 0 <= k < a.Length && k != i && k != j ==> a[k] == old(a[k])
    ensures multiset(a[..]) == old(multiset(a[..]))
  {
    a[i], a[j] := a[j], a[i];
  }

  // ---------------------------------------------------------------------
  // Lemmas
  // ---------------------------------------------------------------------

  /** The running minimum is a sample and is below every sample. */
  lemma {:induction false} MinIsLeast(s: seq<real>)
    requires |s| > 0
    ensures Min(s) in s
    ensures forall i :: 0 <= i < |s| ==> Min(s) <= s[i]
  {
    if |s| > 1 {
      var init := s[..|s| - 1];
      MinIsLeast(init);
      assert forall i :: 0 <= i < |init| ==> init[i] == s[i];
      assert s == init + [s[|s| - 1]];
    }
  }

  /** The running maximum is a sample and is above every sample. */
  lemma {:induction false} MaxIsGreatest(s: seq<real>)
    requires |s| > 0
    ensures Max(s) in s
    ensures forall i :: 0 <= i < |s| ==> s[i] <= Max(s)
  {
    if |s| > 1 {
      var init := s[..|s| - 1];
      MaxIsGreatest(init);
      assert forall i :: 0 <= i < |init| ==> init[i] == s[i];
      assert s == init + [s[|s| - 1]];
    }
  }

  /** Multiplying by a non-negative factor keeps the order. */
  lemma ScaleMonotone(n: real, x: real, y: real)
    requires 0.0 <= n && x <= y
    ensures n * x <= n * y
  {
  }

  /** One more sample between the bounds keeps `count * lo <= total <= count * hi`. */
  lemma StepBounds(n: real, total: real, t: real, lo: real, hi: real, lo0: real, hi0: real)
    requires 0.0 <= n && n * lo0 <= total <= n * hi0
    requires lo <= lo0 && lo <= t && hi0 <= hi && t <= hi
    ensures (n + 1.0) * lo <= total + t <= (n + 1.0) * hi
  {
    ScaleMonotone(n, lo, lo0);
    ScaleMonotone(n, hi0, hi);
    assert (n + 1.0) * lo == n * lo + lo;
    assert (n + 1.0) * hi == n * hi + hi;
  }

  /** Dividing bounds on a total by a positive count bounds the quotient. */
  lemma DivideBounds(total: real, n: real, lo: real, hi: real)
    requires n > 0.0 && n * lo <= total <= n * hi
    ensures lo <= total / n <= hi
    ensures (total / n) * n == total
  {
    var q := total / n;
    assert q * n == total;
    if q < lo {
      ScaleMonotone(n, q, lo);
      assert false;
    }
    if q > hi {
      ScaleMonotone(n, hi, q);
      assert false;
    }
  }

  /** `n * min <= sum <= n * max` for n samples. */
  lemma {:induction false} SumBetween(s: seq<real>)
    requires |s| > 0
    ensures (|s| as real) * Min(s) <= Sum(s) <= (|s| as real) * Max(s)
  {
    if |s| > 1 {
      var init := s[..|s| - 1];
      var t := s[|s| - 1];
      SumBetween(init);
      StepBounds(|init| as real, Sum(init), t, Min(s), Max(s), Min(init), Max(init));
      assert |s| as real == (|init| as real) + 1.0;
    }
  }

  /** The mean lies between the minimum and the maximum, and times the count it is the sum. */
  lemma MeanBetween(s: seq<real>)
    requires |s| > 0
    ensures Min(s) <= Mean(s) <= Max(s)
    ensures Mean(s) * (|s| as real) == Sum(s)
  {
    SumBetween(s);
    MeanBounds(Sum(s), |s| as real, Min(s), Max(s), s);
  }

  /** MeanBetween on named quantities, so that the solver does not unfold the functions. */
  lemma MeanBounds(total: real, n: real, lo: real, hi: real, s: seq<real>)
    requires |s| > 0
    requires total == Sum(s) && n == |s| as real
    requires n * lo <= total <= n * hi
    ensures lo <= Mean(s) <= hi
    ensures Mean(s) * n == total
  {
    DivideBounds(total, n, lo, hi);
  }

  /**
   * Per-stat invariants: count is the number of samples and at least one,
   * min and max are samples, bounding all of them and the mean, and the mean
   * times the count is the sum.
   */
  lemma StatInvariants(request: string, times: seq<real>)
    requires |times| > 0
    ensures var st := StatOf(request, times);
            && st.request == request && st.count == |times| >= 1
            && st.min <= st.avg <= st.max
            && st.min in times && st.max in times
            && (forall i :: 0 <= i < |times| ==> st.min <= times[i] <= st.max)
            && st.avg * (st.count as real) == Sum(times)
  {
    var st := StatOf(request, times);
    assert st.min == Min(times) && st.avg == Mean(times) && st.max == Max(times);
    assert (st.count as real) == (|times| as real);
    MeanBetween(times);
    MinIsLeast(times);
    MaxIsGreatest(times);
  }

  /** The filter rule, stated directly on the samples: a singleton is kept only from 1.0 up. */
  lemma KeptIff(times: seq<real>)
    ensures Kept(times) <==> |times| >= 2 || (|times| == 1 && times[0] >= 1.0)
  {
    if |times| == 1 {
      assert times[..0] == [];
      assert Sum(times) == times[0];
    }
  }

  /** A single 0.5 sample is dropped; a single 1.5 sample is kept. */
  lemma FilterExamples()
    ensures !Kept([0.5])
    ensures Kept([1.5])
  {
    KeptIff([0.5]);
    KeptIff([1.5]);
  }

  /** In a sequence without duplicates each element occurs once. */
  lemma {:induction false} DistinctCountOne(s: seq<ResponseStat>, x: ResponseStat)
    requires forall i, j :: 0 <= i < j < |s| ==> s[i] != s[j]
    ensures multiset(s)[x] <= 1
  {
    if |s| > 0 {
      var init := s[..|s| - 1];
      DistinctCountOne(init, x);
      assert s == init + [s[|s| - 1]];
      if s[|s| - 1] == x {
        assert x !in init;
      }
    }
  }

  /** An element at two positions occurs at least twice. */
  lemma TwiceCountTwo(s: seq<ResponseStat>, i: int, j: int)
    requires 0 <= i < j < |s| && s[i] == s[j]
    ensures multiset(s)[s[i]] >= 2
  {
    assert s == s[..j] + s[j..];
    assert s[i] in s[..j];
    assert s[j..][0] == s[j];
  }

  /** Reordering a report's entries keeps all of it but the order. */
  lemma PermutationKeepsReport(times: map<string, seq<real>>, before: seq<ResponseStat>, after: seq<ResponseStat>)
    requires AllSummaries(times, before) && DistinctRequests(before)
    requires forall k :: k in times && Kept(times[k]) ==>
               exists i :: 0 <= i < |before| && before[i].request == k
    requires multiset(after) == multiset(before)
    requires SortedByAvgDesc(after)
    ensures IsReport(times, after)
  {
    forall i | 0 <= i < |after|
      ensures after[i].request in times && Kept(times[after[i].request])
      ensures after[i] == StatOf(after[i].request, times[after[i].request])
    {
      assert after[i] in multiset(before);
    }
    forall k | k in times && Kept(times[k])
      ensures exists i :: 0 <= i < |after| && after[i].request == k
    {
      var i :| 0 <= i < |before| && before[i].request == k;
      assert before[i] in multiset(after);
      var j :| 0 <= j < |after| && after[j] == before[i];
    }
    forall i, j | 0 <= i < j < |after|
      ensures after[i].request != after[j].request
    {
      if after[i].request == after[j].request {
        assert after[i] == after[j];
        TwiceCountTwo(after, i, j);
        DistinctCountOne(before, after[i]);
        assert false;
      }
    }
  }

  /** A report with distinct paths drawn from `keys` has at most |keys| entries. */
  lemma {:induction false} ReportSize(stats: seq<ResponseStat>, keys: set<string>)
    requires forall i :: 0 <= i < |stats| ==> stats[i].request in keys
    requires DistinctRequests(stats)
    ensures |stats| <= |keys|
  {
    if |stats| > 0 {
      var last := stats[|stats| - 1].request;
      var init := stats[..|stats| - 1];
      ReportSize(init, keys - {last});
    }
  }

  /**
   * The ordering example: for {"/a": [1, 3, 2], "/b": [10]} every report
   * lists /b (mean 10) before /a (mean 2).
   */
  lemma OrderingExample(times: map<string, seq<real>>, stats: seq<ResponseStat>)
    requires times == map["/a" := [1.0, 3.0, 2.0], "/b" := [10.0]]
    requires IsReport(times, stats)
    ensures |stats| == 2
    ensures stats[0].request == "/b" && stats[0].avg == 10.0
    ensures stats[1].request == "/a" && stats[1].avg == 2.0
  {
    var a := [1.0, 3.0, 2.0];
    assert Sum(a) == 6.0 by {
      assert [1.0][..0] == [];
      assert Sum([1.0]) == 1.0;
      assert [1.0, 3.0][..1] == [1.0];
      assert Sum([1.0, 3.0]) == 4.0;
      assert a[..2] == [1.0, 3.0];
    }
    assert Mean(a) == 2.0;
    KeptIff(a);
    KeptIff([10.0]);
    assert Mean([10.0]) == 10.0 by {
      assert [10.0][..0] == [];
    }
    assert "/a" in times && times["/a"] == a;
    assert "/b" in times && times["/b"] == [10.0];
    var i :| 0 <= i < |stats| && stats[i].request == "/a";
    var j :| 0 <= j < |stats| && stats[j].request == "/b";
    assert stats[i].avg == 2.0 && stats[j].avg == 10.0;
    assert forall k :: 0 <= k < |stats| ==> stats[k].request == "/a" || stats[k].request == "/b";
    ReportSize(stats, times.Keys);
    assert times.Keys == {"/a", "/b"};
    assert |stats| == 2;
    assert stats[0].avg >= stats[1].avg;
    assert i == 1 && j == 0;
  }
}
