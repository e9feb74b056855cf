/** The arguments a status check hands to its own re-queue (poll_cloud_backup and
    poll_cloud_restore use the same ones), and the bound they put on a chain of checks. */
module PollChain {
  import opened Common

  /** A queued check. `due` is the time before which the broker does not deliver it (the
      countdown); `checks` counts the status checks already made in this chain and is the
      one part the tasks do not carry themselves. */
  datatype Poll = Poll(node: int, target: int, startedAt: Option<int>,
                       interval: int, timeout: int, due: int, checks: nat)

  const DEFAULT_INTERVAL := 120
  const DEFAULT_TIMEOUT := 86400
  const FIRST_COUNTDOWN := 60

  /** What apply_async(args=[node, target], countdown=60) puts on the queue. */
  function FirstPoll(node: int, target: int, now: int): Poll {
    Poll(node, target, None, DEFAULT_INTERVAL, DEFAULT_TIMEOUT, now + FIRST_COUNTDOWN, 0)
  }

  predicate GivesUp(p: Poll, started: int, now: int) {
    now - started > p.timeout
  }

  function Requeue(p: Poll, started: int, now: int): Poll {
    p.(startedAt := Some(started), due := now + p.interval, checks := p.checks + 1)
  }

  /** Every queued poll of a chain: check number n was due no earlier than n intervals after
      the first, and the one before it fell within the timeout. */
  predicate OnSchedule(p: Poll) {
    && 0 < p.interval
    && 0 <= p.timeout
    && match p.startedAt
       case None => p.checks == 0
       case Some(s) =>
         && 1 <= p.checks
         && s + p.checks * p.interval <= p.due
         && (p.checks - 1) * p.interval <= p.timeout
  }

  lemma RequeueStaysOnSchedule(p: Poll, begin: int, end: int)
    requires OnSchedule(p) && p.due <= begin <= end
    requires !GivesUp(p, p.startedAt.GetOr(begin), end)
    ensures OnSchedule(Requeue(p, p.startedAt.GetOr(begin), end))
  {
    var s := p.startedAt.GetOr(begin);
    assert p.checks * p.interval <= end - s;
    assert (p.checks + 1) * p.interval == p.checks * p.interval + p.interval;
  }

  function MaxChecks(interval: int, timeout: int): int
    requires 0 < interval
  {
    timeout / interval + 2
  }

  /** The check a queued poll stands for is at most number floor(timeout / interval) + 2. */
  lemma CheckNumberBounded(p: Poll)
    requires OnSchedule(p)
    ensures p.checks + 1 <= MaxChecks(p.interval, p.timeout)
  {
    DivBound(p.checks - 1, p.timeout, p.interval);
    DivBound(0, p.timeout, p.interval);
  }

  /** The poll after `n` checks made exactly one interval apart, the first at time `s`. */
  function PunctualPoll(p: Poll, s: int, n: nat): Poll
    decreases n
  {
    if n == 0 then p
    else Requeue(PunctualPoll(p, s, n - 1), s, s + (n - 1) * p.interval)
  }

  lemma {:induction false} PunctualPollFields(p: Poll, s: int, n: nat)
    requires p.startedAt == None && p.checks == 0 && p.due <= s
    ensures var q := PunctualPoll(p, s, n);
            && q.interval == p.interval && q.timeout == p.timeout && q.checks == n
            && q.startedAt.GetOr(s) == s
            && q.due <= s + n * p.interval
  {
    if n > 0 {
      PunctualPollFields(p, s, n - 1);
    }
  }

  /** The bound is reached: with punctual checks and a provider that never answers, the check
      that gives up is exactly number floor(timeout / interval) + 2, and no earlier one does. */
  lemma BoundIsReached(p: Poll, s: int, n: nat)
    requires p.startedAt == None && p.checks == 0 && p.due <= s
    requires 0 < p.interval && 0 <= p.timeout
    requires n < MaxChecks(p.interval, p.timeout)
    ensures var q := PunctualPoll(p, s, n);
            && q.due <= s + n * p.interval
            && (GivesUp(q, q.startedAt.GetOr(s), s + n * p.interval) <==>
                q.checks + 1 == MaxChecks(p.interval, p.timeout))
  {
    PunctualPollFields(p, s, n);
    DivBound(n, p.timeout, p.interval);
  }

  /** A chain started with the defaults: the first check is due after a minute, the others two minutes
      apart, and for a day. */
  lemma DefaultBound(node: int, target: int, now: int)
    ensures var p := FirstPoll(node, target, now);
            && p.node == node && p.target == target && p.startedAt == None && p.checks == 0
            && p.due == now + 60 && p.interval == 120 && p.timeout == 86400
            && MaxChecks(p.interval, p.timeout) == 722
  {
  }
}
