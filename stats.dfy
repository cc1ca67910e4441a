/** The figures derived from the task list: per-status counts, the total and
    the completion percentage, as computed both by the statistics tab of
    src/pages/Index.tsx and by src/components/StatsCards.tsx. */
module Stats {
  import opened Tasks

  /** `tasks.filter(t => t.status === s)`: the tasks with status `s`.
      `FilterMultiplicity` shows each is kept as often as in `ts` and
      `FilterAppend` that the list order is kept. */
  function FilterStatus(ts: seq<Task>, s: Status): (r: seq<Task>)
    ensures |r| <= |ts|
    ensures forall k :: 0 <= k < |r| ==> r[k].status == s && r[k] in ts
    ensures forall t :: t in ts && t.status == s ==> t in r
  {
    if ts == [] then []
    else if ts[0].status == s then [ts[0]] + FilterStatus(ts[1..], s)
    else FilterStatus(ts[1..], s)
  }

  /** Every task with status `s` occurs in the filtered list exactly as many
      times as in `ts`, and no other task occurs in it. */
  lemma {:induction false} FilterMultiplicity(ts: seq<Task>, s: Status)
    ensures forall t :: multiset(FilterStatus(ts, s))[t] == if t.status == s then multiset(ts)[t] else 0
  {
    if ts != [] {
      FilterMultiplicity(ts[1..], s);
      assert ts == [ts[0]] + ts[1..];
      assert multiset(ts) == multiset([ts[0]]) + multiset(ts[1..]);
      if ts[0].status == s {
        var r := FilterStatus(ts, s);
        assert r == [ts[0]] + FilterStatus(ts[1..], s);
        assert multiset(r) == multiset([ts[0]]) + multiset(FilterStatus(ts[1..], s));
      }
    }
  }

  /** Filtering a concatenation filters each part and keeps them in order,
      so the filter keeps the tasks in list order. */
  lemma {:induction false} FilterAppend(a: seq<Task>, b: seq<Task>, s: Status)
    ensures FilterStatus(a + b, s) == FilterStatus(a, s) + FilterStatus(b, s)
  {
    if a == [] {
      assert a + b == b;
    } else {
      assert (a + b)[1..] == a[1..] + b;
      FilterAppend(a[1..], b, s);
    }
  }

  /** `tasks.filter(t => t.status === s).length`. */
  function CountStatus(ts: seq<Task>, s: Status): (c: nat)
    ensures c <= |ts|
    ensures (exists k :: 0 <= k < |ts| && ts[k].status == s) ==> c > 0
  {
    |FilterStatus(ts, s)|
  }

  /** The completion percentage: completed / total * 100 for a non-empty
      list and 0 for an empty one, as an exact real (display rounding is
      not part of it). */
  function CompletionPercentage(ts: seq<Task>): (p: real)
    ensures 0.0 <= p <= 100.0
    ensures ts == [] ==> p == 0.0
  {
    var completed := CountStatus(ts, Completed);
    var total := |ts|;
    if total > 0 then
      PercentageBounded(completed, total);
      (completed as real / total as real) * 100.0
    else 0.0
  }

  /** A ratio of at most one, scaled to a percentage, lies in [0, 100];
      stated apart so the real arithmetic is proved on its own. */
  lemma PercentageBounded(c: nat, t: nat)
    requires 0 < t && c <= t
    ensures 0.0 <= (c as real / t as real) * 100.0 <= 100.0
  {
  }

  /** The figures shown on the dashboard cards and the statistics tab. */
  datatype Summary = Summary(
    total: nat,
    completed: nat,
    inProgress: nat,
    pending: nat,
    percentage: real)

  /** All derived figures of a task list at once. */
  function ComputeStats(ts: seq<Task>): (r: Summary)
    ensures r.total == |ts|
    ensures r.completed + r.inProgress + r.pending == r.total
    ensures r.completed <= r.total && r.completed + r.inProgress <= r.total
    ensures 0.0 <= r.percentage <= 100.0
    ensures r.total == 0 ==> r.percentage == 0.0
    ensures r.completed == CountStatus(ts, Completed) && r.inProgress == CountStatus(ts, InProgress)
    ensures r.pending == CountStatus(ts, Pending) && r.percentage == CompletionPercentage(ts)
  {
    CountsPartition(ts);
    Summary(|ts|, CountStatus(ts, Completed), CountStatus(ts, InProgress),
            CountStatus(ts, Pending), CompletionPercentage(ts))
  }

  /** The "overdue" card always shows zero, whatever the tasks are. */
  function OverdueCount(ts: seq<Task>): (c: nat)
    ensures c == 0
  {
    0
  }

  /** Every task has exactly one of the three statuses, so the three counts
      add up to the length of the list. */
  lemma {:induction false} CountsPartition(ts: seq<Task>)
    ensures CountStatus(ts, Completed) + CountStatus(ts, InProgress) + CountStatus(ts, Pending) == |ts|
  {
    if ts != [] {
      CountsPartition(ts[1..]);
    }
  }

  /** Counting distributes over concatenation. */
  lemma CountAppend(a: seq<Task>, b: seq<Task>, s: Status)
    ensures CountStatus(a + b, s) == CountStatus(a, s) + CountStatus(b, s)
  {
    FilterAppend(a, b, s);
  }

  /** The count of status `s` is the full length exactly when every task has
      status `s`. */
  lemma {:induction false} CountFullIff(ts: seq<Task>, s: Status)
    ensures CountStatus(ts, s) == |ts| <==> forall k :: 0 <= k < |ts| ==> ts[k].status == s
  {
    if ts != [] {
      CountFullIff(ts[1..], s);
      if CountStatus(ts, s) == |ts| {
        assert ts[0].status == s;
        forall k | 0 < k < |ts| ensures ts[k].status == s {
          assert ts[1..][k - 1] == ts[k];
        }
      } else {
        assert ts[0].status != s || exists k :: 0 <= k < |ts| - 1 && ts[1..][k].status != s;
      }
    }
  }

  /** The count of status `s` is zero exactly when no task has status `s`. */
  lemma {:induction false} CountZeroIff(ts: seq<Task>, s: Status)
    ensures CountStatus(ts, s) == 0 <==> forall k :: 0 <= k < |ts| ==> ts[k].status != s
  {
    if ts != [] {
      CountZeroIff(ts[1..], s);
      if CountStatus(ts, s) == 0 {
        forall k | 0 < k < |ts| ensures ts[k].status != s {
          assert ts[1..][k - 1] == ts[k];
        }
      } else if ts[0].status != s {
        var k :| 0 <= k < |ts| - 1 && ts[1..][k].status == s;
        assert ts[k + 1].status == s;
      }
    }
  }

  /** The percentage is 100 exactly when the list is non-empty and every task
      is completed. */
  lemma PercentageFullIff(ts: seq<Task>)
    ensures CompletionPercentage(ts) == 100.0
        <==> ts != [] && forall k :: 0 <= k < |ts| ==> ts[k].status == Completed
  {
    CountFullIff(ts, Completed);
    if ts != [] {
      RatioHundredIff(CountStatus(ts, Completed), |ts|);
    }
  }

  /** c / t * 100 reaches 100 only when c is all of t. */
  lemma RatioHundredIff(c: nat, t: nat)
    requires 0 < t
    ensures (c as real / t as real) * 100.0 == 100.0 <==> c == t
  {
  }

  /** The percentage is 0 exactly when no task is completed (in particular
      for the empty list). */
  lemma PercentageZeroIff(ts: seq<Task>)
    ensures CompletionPercentage(ts) == 0.0
        <==> forall k :: 0 <= k < |ts| ==> ts[k].status != Completed
  {
    CountZeroIff(ts, Completed);
    var c := CountStatus(ts, Completed);
    if ts != [] && c != 0 {
      var q := c as real / |ts| as real;
      assert q * (|ts| as real) == c as real;
      assert q > 0.0;
    }
  }

  /** The percentage is the ratio of completed tasks to all tasks. */
  lemma PercentageIsRatio(ts: seq<Task>)
    ensures CompletionPercentage(ts) * (|ts| as real) == 100.0 * (CountStatus(ts, Completed) as real)
  {
    if ts != [] {
      var c, t := CountStatus(ts, Completed) as real, |ts| as real;
      assert (c / t) * t == c;
    }
  }

  /** The figures of the initial list: one task in each status, a third done. */
  lemma InitialStats()
    ensures ComputeStats(InitialTasks()) == Summary(3, 1, 1, 1, 100.0 / 3.0)
  {
  }
}
