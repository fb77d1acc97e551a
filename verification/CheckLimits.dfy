/** A check's time limits (packages/agents/src/check-timeout.ts, lines 9-50). */
module CheckLimits {
  import opened Basics

  const MINUTE := 60_000
  const DEFAULT_CHECK_TIMEOUT_MS := 30 * MINUTE
  const LAUNCHER_GRACE_MS := 5 * MINUTE

  datatype Limit = Limit(timeoutMs: int, stepLimited: bool)

  /** How long one check may run: its declared minutes, cut at its step's deadline, or the run's limit. */
  function CheckTimeLimit(manifest: Option<int>, minutes: Option<int>, deadline: Option<int>, now: int): Limit {
    if minutes.None? then Limit(if manifest.Some? then manifest.value else DEFAULT_CHECK_TIMEOUT_MS, false)
    else
      var own := minutes.value * MINUTE;
      if deadline.None? || deadline.value - now >= own then Limit(own, false)
      else Limit(if deadline.value - now > 0 then deadline.value - now else 0, true)
  }

  function Longest(least: int, checks: seq<Option<int>>): int
    decreases |checks|
  {
    if checks == [] then least
    else
      var own := (if checks[0].Some? then checks[0].value else 0) * MINUTE;
      Longest(if own > least then own else least, checks[1..])
  }

  /** How long a launcher waits once its check has started: past every limit its run's checks may have. */
  function SpoolLimitMs(manifest: Option<int>, checks: seq<Option<int>>): int {
    Longest(if manifest.Some? then manifest.value else DEFAULT_CHECK_TIMEOUT_MS, checks) + LAUNCHER_GRACE_MS
  }

  lemma {:induction false} LongestCovers(least: int, checks: seq<Option<int>>)
    ensures Longest(least, checks) >= least
    ensures forall k | 0 <= k < |checks| && checks[k].Some? :: Longest(least, checks) >= checks[k].value * MINUTE
    decreases |checks|
  {
    if checks != [] {
      var own := (if checks[0].Some? then checks[0].value else 0) * MINUTE;
      LongestCovers(if own > least then own else least, checks[1..]);
      forall k | 0 <= k < |checks| && checks[k].Some?
        ensures Longest(least, checks) >= checks[k].value * MINUTE
      {
        if k > 0 { assert checks[k] == checks[1..][k - 1]; }
      }
    }
  }

  /** It is one of those limits itself. */
  lemma {:induction false} LongestIsOne(least: int, checks: seq<Option<int>>)
    requires least >= 0
    ensures Longest(least, checks) == least ||
      exists k :: 0 <= k < |checks| && checks[k].Some? && Longest(least, checks) == checks[k].value * 60_000
    decreases |checks|
  {
    if checks != [] {
      var own := (if checks[0].Some? then checks[0].value else 0) * MINUTE;
      var more := if own > least then own else least;
      LongestIsOne(more, checks[1..]);
      if Longest(more, checks[1..]) != more {
        var k :| 0 <= k < |checks[1..]| && checks[1..][k].Some? &&
          Longest(more, checks[1..]) == checks[1..][k].value * 60_000;
        assert checks[k + 1] == checks[1..][k];
      }
    }
  }

  predicate Allowed(time: int, own: int, deadline: Option<int>, now: int) {
    0 <= time <= own && (deadline.Some? ==> now + time <= deadline.value)
  }

  /** A check without minutes of its own may run for the run's limit, half an hour if there is none; one with
      minutes may run for them, but not past its step's deadline, and for as long as both allow. */
  lemma CheckTimeLimitExactly(manifest: Option<int>, minutes: Option<int>, deadline: Option<int>, now: int)
    requires minutes.Some? ==> minutes.value >= 0
    ensures var limit := CheckTimeLimit(manifest, minutes, deadline, now);
      && (minutes.None? ==>
            limit == Limit(if manifest.Some? then manifest.value else 1_800_000, false))
      && (minutes.Some? ==>
            var own := minutes.value * 60_000;
            && (Allowed(limit.timeoutMs, own, deadline, now) || limit.timeoutMs == 0)
            && (forall t | Allowed(t, own, deadline, now) :: t <= limit.timeoutMs)
            && (limit.stepLimited <==> deadline.Some? && now + own > deadline.value))
  {}

  /** A launcher waits five minutes longer than the longest of them, and no longer. */
  lemma SpoolLimitExactly(manifest: Option<int>, checks: seq<Option<int>>)
    requires manifest.Some? ==> manifest.value >= 0
    ensures var longest := SpoolLimitMs(manifest, checks) - 300_000;
      && (forall k | 0 <= k < |checks| && checks[k].Some? :: longest >= checks[k].value * 60_000)
      && longest >= (if manifest.Some? then manifest.value else 1_800_000)
      && (longest == (if manifest.Some? then manifest.value else 1_800_000) ||
          exists k :: 0 <= k < |checks| && checks[k].Some? && longest == checks[k].value * 60_000)
  {
    var least := if manifest.Some? then manifest.value else DEFAULT_CHECK_TIMEOUT_MS;
    LongestCovers(least, checks);
    LongestIsOne(least, checks);
  }

  /** The launcher's limit passes the limit of every check of the manifest by five minutes, whatever
      the check declares and whatever its step has left.  (Limits are not negative in a manifest.) */
  lemma SpoolLimitCovers(manifest: Option<int>, checks: seq<Option<int>>, minutes: Option<int>,
                         deadline: Option<int>, now: int)
    requires manifest.Some? ==> manifest.value >= 0
    requires minutes.Some? ==> minutes in checks
    ensures SpoolLimitMs(manifest, checks) >=
      CheckTimeLimit(manifest, minutes, deadline, now).timeoutMs + LAUNCHER_GRACE_MS
  {
    var least := if manifest.Some? then manifest.value else DEFAULT_CHECK_TIMEOUT_MS;
    LongestCovers(least, checks);
    if minutes.Some? {
      var k :| 0 <= k < |checks| && checks[k] == minutes;
    }
  }
}
