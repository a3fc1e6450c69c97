/** The summary (`GET /analytics/summary`): one pass over the store counting
    issues by category and by status and collecting the resolution times
    that are positive, then their mean. */
module Analytics {

  import opened Wrappers
  import opened Issues
  import opened IssueStore
  import Listing

  const MicrosPerSecond: real := 1_000_000.0

  /** `(updated_at - created_at).total_seconds()`. */
  function ResolutionSeconds(issue: Issue): real
  {
    (issue.updatedAt - issue.createdAt) as real / MicrosPerSecond
  }

  /** A resolved issue whose resolution took a positive time; only these
      enter the average. */
  predicate CountsTowardAverage(issue: Issue)
  {
    issue.status == Resolved && ResolutionSeconds(issue) > 0.0
  }

  /** Reference counts, one issue at a time from the front of the store. */
  function CountCategory(store: Store, category: Category): nat
  {
    if |store| == 0 then 0
    else CountCategory(store[..|store| - 1], category) + (if store[|store| - 1].category == category then 1 else 0)
  }

  function CountStatus(store: Store, status: Status): nat
  {
    if |store| == 0 then 0
    else CountStatus(store[..|store| - 1], status) + (if store[|store| - 1].status == status then 1 else 0)
  }

  /** The resolution times the average is taken over, in store order. */
  function ResolutionTimes(store: Store): seq<real>
  {
    if |store| == 0 then []
    else
      var last := store[|store| - 1];
      ResolutionTimes(store[..|store| - 1]) + (if CountsTowardAverage(last) then [ResolutionSeconds(last)] else [])
  }

  function Sum(xs: seq<real>): real
  {
    if |xs| == 0 then 0.0 else Sum(xs[..|xs| - 1]) + xs[|xs| - 1]
  }

  /** `sum(xs) / len(xs) if xs else None`. */
  function Mean(xs: seq<real>): Option<real>
  {
    if |xs| == 0 then None else Some(Sum(xs) / |xs| as real)
  }

  /** The count under a key, zero when the key is absent. */
  function CountOf<K>(m: map<K, nat>, key: K): nat
  {
    if key in m then m[key] else 0
  }

  function CategoryTotal(m: map<Category, nat>): nat
  {
    CountOf(m, Pothole) + CountOf(m, Streetlight) + CountOf(m, Garbage) + CountOf(m, Water) + CountOf(m, Others)
  }

  function StatusTotal(m: map<Status, nat>): nat
  {
    CountOf(m, Reported) + CountOf(m, Acknowledged) + CountOf(m, InProgress) + CountOf(m, Resolved)
  }

  /** The four fields of the summary response. */
  datatype Summary = Summary(
    totalIssues: nat,
    byCategory: map<Category, nat>,
    byStatus: map<Status, nat>,
    averageResolutionSeconds: Option<real>)

  /** A category is counted at all exactly when some issue has it. */
  lemma {:induction false} CategoryCountPositive(store: Store, category: Category)
    ensures CountCategory(store, category) > 0 <==> exists i :: 0 <= i < |store| && store[i].category == category
  {
    if |store| > 0 {
      var prefix := store[..|store| - 1];
      CategoryCountPositive(prefix, category);
      assert forall i :: 0 <= i < |prefix| ==> prefix[i] == store[i];
    }
  }

  lemma {:induction false} StatusCountPositive(store: Store, status: Status)
    ensures CountStatus(store, status) > 0 <==> exists i :: 0 <= i < |store| && store[i].status == status
  {
    if |store| > 0 {
      var prefix := store[..|store| - 1];
      StatusCountPositive(prefix, status);
      assert forall i :: 0 <= i < |prefix| ==> prefix[i] == store[i];
    }
  }

  /** Every issue has exactly one category, so the per-category counts add
      up to the number of issues. */
  lemma {:induction false} CategoryCountsSum(store: Store)
    ensures CountCategory(store, Pothole) + CountCategory(store, Streetlight) + CountCategory(store, Garbage)
          + CountCategory(store, Water) + CountCategory(store, Others) == |store|
  {
    if |store| > 0 {
      CategoryCountsSum(store[..|store| - 1]);
    }
  }

  lemma {:induction false} StatusCountsSum(store: Store)
    ensures CountStatus(store, Reported) + CountStatus(store, Acknowledged)
          + CountStatus(store, InProgress) + CountStatus(store, Resolved) == |store|
  {
    if |store| > 0 {
      StatusCountsSum(store[..|store| - 1]);
    }
  }

  /** The times averaged are all positive, and there are none exactly when
      no resolved issue took a positive time. */
  lemma {:induction false} ResolutionTimesFacts(store: Store)
    ensures forall k :: 0 <= k < |ResolutionTimes(store)| ==> ResolutionTimes(store)[k] > 0.0
    ensures |ResolutionTimes(store)| == 0 <==> forall i :: 0 <= i < |store| ==> !CountsTowardAverage(store[i])
  {
    if |store| > 0 {
      var prefix := store[..|store| - 1];
      ResolutionTimesFacts(prefix);
      assert forall i :: 0 <= i < |prefix| ==> prefix[i] == store[i];
    }
  }

  lemma {:induction false} SumPositive(xs: seq<real>)
    requires |xs| > 0
    requires forall k :: 0 <= k < |xs| ==> xs[k] > 0.0
    ensures Sum(xs) > 0.0
  {
    if |xs| > 1 {
      SumPositive(xs[..|xs| - 1]);
    }
  }

  /** The mean of positive terms is positive. */
  lemma MeanPositive(xs: seq<real>)
    requires forall k :: 0 <= k < |xs| ==> xs[k] > 0.0
    ensures Mean(xs).Some? ==> Mean(xs).value > 0.0
  {
    if |xs| > 0 {
      SumPositive(xs);
      var n := |xs| as real;
      assert Sum(xs) / n * n == Sum(xs);
    }
  }

  /** A mean exists exactly for a non-empty list, and times the length it
      gives back the sum. */
  lemma MeanTimesLength(xs: seq<real>)
    ensures Mean(xs).None? <==> |xs| == 0
    ensures Mean(xs).Some? ==> Mean(xs).value * |xs| as real == Sum(xs)
  {
  }

  /** Counting one more issue adds one to its category and its status and
      appends its time when it counts toward the average. */
  lemma PrefixStep(store: Store, i: nat)
    requires i < |store|
    ensures forall c :: CountCategory(store[..i + 1], c)
                          == CountCategory(store[..i], c) + (if store[i].category == c then 1 else 0)
    ensures forall s :: CountStatus(store[..i + 1], s)
                          == CountStatus(store[..i], s) + (if store[i].status == s then 1 else 0)
    ensures ResolutionTimes(store[..i + 1])
         == ResolutionTimes(store[..i]) + (if CountsTowardAverage(store[i]) then [ResolutionSeconds(store[i])] else [])
  {
    assert store[..i + 1][..i] == store[..i];
  }

  /** Maps that hold exactly the present keys with their counts, as the
      summary's do, add up to the number of issues. */
  lemma CountsAddUp(store: Store, byCategory: map<Category, nat>, byStatus: map<Status, nat>)
    requires forall c :: c in byCategory <==> CountCategory(store, c) > 0
    requires forall c :: c in byCategory ==> byCategory[c] == CountCategory(store, c)
    requires forall s :: s in byStatus <==> CountStatus(store, s) > 0
    requires forall s :: s in byStatus ==> byStatus[s] == CountStatus(store, s)
    ensures CategoryTotal(byCategory) == |store|
    ensures StatusTotal(byStatus) == |store|
  {
    CategoryCountsSum(store);
    StatusCountsSum(store);
  }

  /** The loop of `analytics_summary`: the two counters and the list of
      resolution times after visiting every issue once, in store order. */
  method CountPass(store: Store) returns (byCategory: map<Category, nat>, byStatus: map<Status, nat>, times: seq<real>)
    ensures forall c :: c in byCategory <==> CountCategory(store, c) > 0
    ensures forall c :: c in byCategory ==> byCategory[c] == CountCategory(store, c)
    ensures forall s :: s in byStatus <==> CountStatus(store, s) > 0
    ensures forall s :: s in byStatus ==> byStatus[s] == CountStatus(store, s)
    ensures times == ResolutionTimes(store)
  {
    byCategory, byStatus, times := map[], map[], [];
    var i := 0;
    while i < |store|
      invariant 0 <= i <= |store|
      invariant forall c :: c in byCategory <==> CountCategory(store[..i], c) > 0
      invariant forall c :: c in byCategory ==> byCategory[c] == CountCategory(store[..i], c)
      invariant forall s :: s in byStatus <==> CountStatus(store[..i], s) > 0
      invariant forall s :: s in byStatus ==> byStatus[s] == CountStatus(store[..i], s)
      invariant times == ResolutionTimes(store[..i])
    {
      var issue := store[i];
      PrefixStep(store, i);
      byCategory := byCategory[issue.category := CountOf(byCategory, issue.category) + 1];
      byStatus := byStatus[issue.status := CountOf(byStatus, issue.status) + 1];
      if issue.status == Resolved {
        var delta := ResolutionSeconds(issue);
        if delta > 0.0 {
          times := times + [delta];
        }
      }
      i := i + 1;
    }
    assert store[..|store|] == store;
  }

  /** `analytics_summary`: a category or status is a key exactly when its
      count is positive, that is when some issue has it
      (`CategoryCountPositive`); each key maps to its count, so the counts
      of either map add up to the total (`CountsAddUp`); the average is
      the mean of the positive resolution times, absent when there are
      none. */
  method AnalyticsSummary(store: Store) returns (summary: Summary)
    ensures summary.totalIssues == |store|
    ensures forall c :: c in summary.byCategory <==> CountCategory(store, c) > 0
    ensures forall c :: c in summary.byCategory ==> summary.byCategory[c] == CountCategory(store, c)
    ensures forall s :: s in summary.byStatus <==> CountStatus(store, s) > 0
    ensures forall s :: s in summary.byStatus ==> summary.byStatus[s] == CountStatus(store, s)
    ensures summary.averageResolutionSeconds.None? <==> |ResolutionTimes(store)| == 0
    ensures summary.averageResolutionSeconds.Some? ==>
              summary.averageResolutionSeconds.value * |ResolutionTimes(store)| as real == Sum(ResolutionTimes(store))
    ensures summary.averageResolutionSeconds.Some? ==> summary.averageResolutionSeconds.value > 0.0
  {
    var byCategory, byStatus, times := CountPass(store);
    var average := if |times| > 0 then Some(Sum(times) / |times| as real) else None;
    assert average == Mean(times);
    MeanTimesLength(times);
    ResolutionTimesFacts(store);
    MeanPositive(times);
    summary := Summary(|store|, byCategory, byStatus, average);
  }

  /** The count reported for a category is the length of the listing
      filtered by that category, and likewise for a status. */
  lemma {:induction false} CountsAgreeWithListing(store: Store, category: Category, status: Status)
    ensures CountCategory(store, category) == |Listing.ListIssues(store, None, Some(category))|
    ensures CountStatus(store, status) == |Listing.ListIssues(store, Some(status), None)|
  {
    if |store| > 0 {
      var prefix, last := store[..|store| - 1], store[|store| - 1];
      CountsAgreeWithListing(prefix, category, status);
      assert store == prefix + [last];
      FilterSnoc(prefix, last, Listing.HasCategory(category));
      FilterSnoc(prefix, last, Listing.HasStatus(status));
    }
  }

  /** Two resolved issues taking 10 s and 0 s average to 10 s: the
      zero-length one is left out, not counted as zero. */
  lemma AverageSkipsZeroScenario(a: Issue, b: Issue)
    requires a.status == Resolved && a.updatedAt == a.createdAt + 10_000_000
    requires b.status == Resolved && b.updatedAt == b.createdAt
    ensures Mean(ResolutionTimes([a, b])) == Some(10.0)
  {
    assert ResolutionSeconds(a) == 10.0;
    assert !CountsTowardAverage(b);
    assert [a, b][..1] == [a];
    assert [a][..0] == [];
    assert ResolutionTimes([a]) == [10.0];
    assert ResolutionTimes([a, b]) == [10.0];
    assert Sum([10.0]) == 10.0 by {
      assert [10.0][..0] == [];
    }
  }
}
