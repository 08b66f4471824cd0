/** The tier scheduler: when is an endpoint due, and how often is it really read? */
module Scheduling {
  import opened Wrappers

  datatype Tier = Realtime | Fast | Operative | Static

  /** The configured interval of every tier, in seconds. */
  datatype Intervals = Intervals(realtime: int, fast: int, operative: int, static_: int) {
    function Of(tier: Tier): int {
      match tier
      case Realtime => realtime
      case Fast => fast
      case Operative => operative
      case Static => static_
    }

    /** Half a base interval; the base is the realtime interval. */
    function Tolerance(): real {
      realtime as real / 2.0
    }
  }

  /** Due when never fetched, or when the interval minus the tolerance has passed. */
  predicate Due(last: Option<real>, interval: real, tolerance: real, now: real) {
    last.None? || now - last.value >= interval - tolerance
  }

  class TierScheduler {
    const intervals: Intervals
    var last: map<string, real>

    constructor (intervals: Intervals)
      ensures this.intervals == intervals && last == map[]
    {
      this.intervals := intervals;
      last := map[];
    }

    predicate IsDue(key: string, tier: Tier, now: real)
      reads this
    {
      Due(Lookup(last, key), intervals.Of(tier) as real, intervals.Tolerance(), now)
    }

    method MarkFetched(key: string, when: real)
      modifies this
      ensures last == old(last)[key := when]
    {
      last := last[key := when];
    }

    method Invalidate(key: string)
      modifies this
      ensures last == old(last) - {key}
      ensures forall tier, now :: IsDue(key, tier, now)
    {
      last := last - {key};
    }
  }

  // ── How often an endpoint that never fails is read ──────────────────────────

  /** One run of the coordinator: when it looked at the clock first and last. */
  datatype Run = Run(start: real, done: real)

  /** Runs never overlap and the clock never goes back. */
  ghost predicate Serial(runs: seq<Run>) {
    && (forall i :: 0 <= i < |runs| ==> runs[i].start <= runs[i].done)
    && (forall i, j :: 0 <= i < j < |runs| ==> runs[i].done <= runs[j].start)
  }

  /** The scheduler's entry for the endpoint after the first n runs. */
  function LastAfter(runs: seq<Run>, n: nat, interval: real, tolerance: real): Option<real>
    requires n <= |runs|
  {
    if n == 0 then None
    else
      var last := LastAfter(runs, n - 1, interval, tolerance);
      if Due(last, interval, tolerance, runs[n - 1].start) then Some(runs[n - 1].done) else last
  }

  /** Run i reads the endpoint. */
  predicate Reads(runs: seq<Run>, i: nat, interval: real, tolerance: real)
    requires i < |runs|
  {
    Due(LastAfter(runs, i, interval, tolerance), interval, tolerance, runs[i].start)
  }

  lemma {:induction false} LastIsLatestRead(runs: seq<Run>, i: nat, j: nat, interval: real, tolerance: real)
    requires i < j <= |runs|
    requires Reads(runs, i, interval, tolerance)
    requires forall k :: i < k < j ==> !Reads(runs, k, interval, tolerance)
    ensures LastAfter(runs, j, interval, tolerance) == Some(runs[i].done)
  {
    if j > i + 1 {
      LastIsLatestRead(runs, i, j - 1, interval, tolerance);
      assert !Reads(runs, j - 1, interval, tolerance);
    }
  }

  /** Two successive reads are never closer than the interval minus the tolerance, and
      never further apart than that plus the longest gap between two runs. */
  lemma SuccessiveReads(runs: seq<Run>, i: nat, j: nat, interval: real, tolerance: real, gap: real)
    requires Serial(runs) && i < j < |runs|
    requires Reads(runs, i, interval, tolerance) && Reads(runs, j, interval, tolerance)
    requires forall k :: i < k < j ==> !Reads(runs, k, interval, tolerance)
    ensures runs[j].start - runs[i].done >= interval - tolerance
    ensures interval >= tolerance && (forall k :: 0 < k < |runs| ==> runs[k].start - runs[k - 1].start <= gap)
            ==> runs[j].start - runs[i].done <= interval - tolerance + gap
  {
    LastIsLatestRead(runs, i, j, interval, tolerance);
    if j > i + 1 {
      LastIsLatestRead(runs, i, j - 1, interval, tolerance);
      assert !Reads(runs, j - 1, interval, tolerance);
    }
  }

  /** No run is skipped once the interval has passed: some run up to it reads the endpoint. */
  lemma OverdueIsRead(runs: seq<Run>, i: nat, j: nat, interval: real, tolerance: real)
    requires i < j < |runs|
    requires Reads(runs, i, interval, tolerance)
    requires runs[j].start - runs[i].done >= interval - tolerance
    ensures exists k :: i < k <= j && Reads(runs, k, interval, tolerance)
  {
    if forall k :: i < k < j ==> !Reads(runs, k, interval, tolerance) {
      LastIsLatestRead(runs, i, j, interval, tolerance);
      assert Reads(runs, j, interval, tolerance);
    }
  }

  /** The realtime tier is read on every run that starts at least half a base interval after
      the previous one ended, however the runs jitter. */
  lemma {:induction false} RealtimeReadsEveryRun(runs: seq<Run>, intervals: Intervals, i: nat)
    requires i < |runs|
    requires forall k :: 0 < k < |runs| ==> runs[k].start - runs[k - 1].done >= intervals.Tolerance()
    ensures Reads(runs, i, intervals.Of(Realtime) as real, intervals.Tolerance())
  {
    if i > 0 {
      RealtimeReadsEveryRun(runs, intervals, i - 1);
      LastIsLatestRead(runs, i - 1, i, intervals.Of(Realtime) as real, intervals.Tolerance());
    }
  }

  /** Once due, an endpoint stays due until it is read. */
  lemma DueIsMonotone(last: Option<real>, interval: real, tolerance: real, now: real, later: real)
    requires Due(last, interval, tolerance, now) && now <= later
    ensures Due(last, interval, tolerance, later)
  {
  }
}
