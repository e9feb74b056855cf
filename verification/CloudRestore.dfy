/** Cloud restores: the task that starts one, the checks that follow it, and what any
    interleaving of them keeps. */
module CloudRestore {
  import opened Common
  import opened PollChain

  datatype Status = Pending | InProgress | Complete | Failed

  datatype Restore = Restore(node: int, status: Status, error: string)

  /** A queued task. `Begin` is restore_cloud_backup, `Check` is poll_cloud_restore. */
  datatype Message = Begin(node: int, target: int) | Check(poll: Poll) {
    function Target(): int {
      if Begin? then target else poll.target
    }
    function Node(): int {
      if Begin? then node else poll.node
    }
  }

  /** Notifications sent. The last two are the final ones. */
  datatype Event = NotifyStarted(id: int) | NotifyCompleted(id: int) | NotifyFailed(id: int)

  /** What restore.poll_status() did. */
  datatype Answer = Says(status: Status) | Raises

  const TIMED_OUT := "Timed out waiting for the restored resource to become ready."

  datatype State = State(nodes: set<int>, restores: map<int, Restore>, nextId: int,
                         queue: seq<Message>, events: seq<Event>)

  predicate Final(s: Status) {
    s.Complete? || s.Failed?
  }

  // -----------------------------------------------------------------------------------
  // The two tasks as functions of the state
  // -----------------------------------------------------------------------------------

  function Finish(s: State, id: int, status: Status, error: string): State
    requires id in s.restores
  {
    s.(restores := s.restores[id := s.restores[id].(status := status, error := error)],
       events := s.events + [if status.Complete? then NotifyCompleted(id) else NotifyFailed(id)])
  }

  /** restore_cloud_backup; `refused` carries the text of what restore_snapshot() raised. */
  function BeginTask(s: State, node: int, id: int, refused: Option<string>, now: int): State {
    if node !in s.nodes || id !in s.restores || s.restores[id].node != node then s
    else
      var started := s.(events := s.events + [NotifyStarted(id)]);
      match refused
      case Some(error) => Finish(started, id, Failed, error)
      case None => started.(queue := started.queue + [Check(FirstPoll(node, id, now))])
  }

  /** What one check decides. */
  datatype Verdict = Ignore | Settle(status: Status, error: string) | Again(poll: Poll)

  function Decide(row: Option<Restore>, p: Poll, begin: int, answer: Answer, end: int): Verdict {
    if row.None? || Final(row.value.status) then Ignore
    else
      var started := p.startedAt.GetOr(begin);
      if answer == Says(Complete) || answer == Says(Failed) then Settle(answer.status, row.value.error)
      else if GivesUp(p, started, end) then Settle(Failed, TIMED_OUT)
      else Again(Requeue(p, started, end))
  }

  function Lookup(s: State, p: Poll): Option<Restore> {
    if p.node in s.nodes && p.target in s.restores && s.restores[p.target].node == p.node
    then Some(s.restores[p.target]) else None
  }

  /** poll_cloud_restore. */
  function CheckTask(s: State, p: Poll, begin: int, answer: Answer, end: int): State {
    match Decide(Lookup(s, p), p, begin, answer, end)
    case Ignore => s
    case Settle(status, error) => Finish(s, p.target, status, error)
    case Again(q) => s.(queue := s.queue + [Check(q)])
  }

  /** The tasks as the worker runs them, assigning to the rows step by step. */
  class Worker {
    var nodes: set<int>
    var restores: map<int, Restore>
    var nextId: int
    var queue: seq<Message>
    var events: seq<Event>

    function Snapshot(): State
      reads this
    {
      State(nodes, restores, nextId, queue, events)
    }

    method RestoreCloudBackup(node: int, id: int, refused: Option<string>, now: int)
      modifies this
      ensures Snapshot() == BeginTask(old(Snapshot()), node, id, refused, now)
    {
      if node !in nodes || id !in restores || restores[id].node != node {
        return;
      }
      var restore := restores[id];
      events := events + [NotifyStarted(id)];
      if refused.Some? {
        restore := restore.(status := Failed);
        restore := restore.(error := refused.value);
        restores := restores[id := restore];
        events := events + [NotifyFailed(id)];
        return;
      }
      queue := queue + [Check(FirstPoll(node, id, now))];
    }

    method PollCloudRestore(p: Poll, begin: int, answer: Answer, end: int)
      modifies this
      ensures Snapshot() == CheckTask(old(Snapshot()), p, begin, answer, end)
    {
      if p.node !in nodes {
        return;
      }
      if p.target !in restores || restores[p.target].node != p.node {
        return;
      }
      var restore := restores[p.target];
      if restore.status == Complete || restore.status == Failed {
        return;
      }
      var startedAt := match p.startedAt case None => begin case Some(t) => t;
      var status := match answer case Says(st) => st case Raises => InProgress;
      if status == Complete {
        restore := restore.(status := Complete);
        restores := restores[p.target := restore];
        events := events + [NotifyCompleted(p.target)];
        return;
      }
      if status == Failed {
        restore := restore.(status := Failed);
        restores := restores[p.target := restore];
        events := events + [NotifyFailed(p.target)];
        return;
      }
      if end - startedAt > p.timeout {
        restore := restore.(status := Failed);
        restore := restore.(error := TIMED_OUT);
        restores := restores[p.target := restore];
        events := events + [NotifyFailed(p.target)];
        return;
      }
      queue := queue + [Check(Poll(p.node, p.target, Some(startedAt), p.interval, p.timeout,
                                   end + p.interval, p.checks + 1))];
    }
  }

  // -----------------------------------------------------------------------------------
  // Runs
  // -----------------------------------------------------------------------------------

  /** One step of the whole system. A delivery takes the i-th queued message, whichever it
      is, so every interleaving is a run. */
  datatype Step =
    | Request(node: int)
    | Deliver(i: nat, begin: int, refused: Option<string>, answer: Answer, end: int)
    | DeleteNode(node: int)

  /** The broker never delivers a message before its countdown has passed, and a task ends
      no earlier than it begins. */
  predicate Enabled(s: State, step: Step) {
    match step
    case Request(node) => node in s.nodes
    case Deliver(i, begin, _, _, end) =>
      && i < |s.queue| && begin <= end
      && (s.queue[i].Check? ==> s.queue[i].poll.due <= begin)
    case DeleteNode(node) => node in s.nodes
  }

  function After(s: State, step: Step): State
    requires Enabled(s, step)
  {
    match step
    case Request(node) =>
      s.(restores := s.restores[s.nextId := Restore(node, Pending, "")], nextId := s.nextId + 1,
         queue := s.queue + [Begin(node, s.nextId)])
    case Deliver(i, begin, refused, answer, end) =>
      var rest := s.(queue := Without(s.queue, i));
      (match s.queue[i]
       case Begin(node, id) => BeginTask(rest, node, id, refused, end)
       case Check(p) => CheckTask(rest, p, begin, answer, end))
    case DeleteNode(node) =>
      s.(nodes := s.nodes - {node},
         restores := map id | id in s.restores && s.restores[id].node != node :: s.restores[id])
  }

  ghost predicate IsRun(states: seq<State>, steps: seq<Step>) {
    && |states| == |steps| + 1
    && forall i :: 0 <= i < |steps| ==> Enabled(states[i], steps[i]) && states[i + 1] == After(states[i], steps[i])
  }

  // -----------------------------------------------------------------------------------
  // What every step keeps
  // -----------------------------------------------------------------------------------

  function IsFinalEvent(e: Event, id: int): nat {
    if e == NotifyCompleted(id) || e == NotifyFailed(id) then 1 else 0
  }

  /** How many final notifications were sent for a restore. */
  function Finals(events: seq<Event>, id: int): nat {
    if events == [] then 0 else Finals(events[..|events| - 1], id) + IsFinalEvent(events[|events| - 1], id)
  }

  function IsFor(m: Message, id: int): nat {
    if m.Target() == id then 1 else 0
  }

  /** How many queued messages are for a restore. */
  function Outstanding(queue: seq<Message>, id: int): nat {
    if queue == [] then 0 else Outstanding(queue[..|queue| - 1], id) + IsFor(queue[|queue| - 1], id)
  }

  lemma OutstandingPush(queue: seq<Message>, m: Message, id: int)
    ensures Outstanding(queue + [m], id) == Outstanding(queue, id) + IsFor(m, id)
  {
    assert (queue + [m])[..|queue|] == queue;
  }

  lemma FinalsPush(events: seq<Event>, e: Event, id: int)
    ensures Finals(events + [e], id) == Finals(events, id) + IsFinalEvent(e, id)
  {
    assert (events + [e])[..|events|] == events;
  }

  lemma {:induction false} OutstandingPop(queue: seq<Message>, i: nat, id: int)
    requires i < |queue|
    ensures Outstanding(queue, id) == Outstanding(Without(queue, i), id) + IsFor(queue[i], id)
    decreases |queue|
  {
    var n := |queue| - 1;
    if i == n {
      assert Without(queue, i) == queue[..n];
    } else {
      OutstandingPop(queue[..n], i, id);
      assert Without(queue, i) == Without(queue[..n], i) + [queue[n]];
      OutstandingPush(Without(queue[..n], i), queue[n], id);
    }
  }

  predicate IsOutcome(e: Event, id: int, status: Status) {
    (status.Complete? && e == NotifyCompleted(id)) || (status.Failed? && e == NotifyFailed(id))
  }

  /** A restore is owed exactly one thing: while it is open, one queued task; once it is
      closed, the one final notification it has had, of the kind its status says. */
  ghost predicate Settled(s: State, id: int)
    requires id in s.restores
  {
    && s.restores[id].node in s.nodes
    && Finals(s.events, id) == (if Final(s.restores[id].status) then 1 else 0)
    && Outstanding(s.queue, id) == (if Final(s.restores[id].status) then 0 else 1)
    && (Final(s.restores[id].status) ==>
          exists i :: 0 <= i < |s.events| && IsOutcome(s.events[i], id, s.restores[id].status))
  }

  ghost predicate Untouched(s: State, id: int) {
    id !in s.restores && Finals(s.events, id) == 0 && Outstanding(s.queue, id) == 0
  }

  ghost predicate Inv(s: State) {
    && (forall id | id in s.restores :: id < s.nextId && Settled(s, id))
    && (forall id | s.nextId <= id :: Untouched(s, id))
    && (forall i | 0 <= i < |s.queue| ::
          && (s.queue[i].Target() in s.restores ==>
                s.queue[i].Node() == s.restores[s.queue[i].Target()].node)
          && (s.queue[i].Check? ==> OnSchedule(s.queue[i].poll)))
  }

  /** Sending a final notification for `id` while closing it, with nothing queued for it. */
  lemma FinishKeepsInv(s: State, rest: State, i: nat, id: int, status: Status, error: string)
    requires Inv(s) && i < |s.queue| && s.queue[i].Target() == id
    requires rest.restores == s.restores && rest.nodes == s.nodes && rest.nextId == s.nextId
    requires rest.queue == Without(s.queue, i)
    requires forall x :: Finals(rest.events, x) == Finals(s.events, x)
    requires s.events <= rest.events
    requires id in s.restores && Final(status)
    requires !Final(s.restores[id].status)
    ensures Inv(Finish(rest, id, status, error))
  {
    var t := Finish(rest, id, status, error);
    var e := t.events[|rest.events|];
    forall x
      ensures Finals(t.events, x) == Finals(s.events, x) + IsFinalEvent(e, x)
      ensures Outstanding(s.queue, x) == Outstanding(t.queue, x) + IsFor(s.queue[i], x)
    {
      FinalsPush(rest.events, e, x);
      OutstandingPop(s.queue, i, x);
    }
    forall x | t.nextId <= x ensures Untouched(t, x) {
      assert Untouched(s, x);
    }
    forall x | x in t.restores
      ensures Settled(t, x)
    {
      assert Settled(s, x);
      if x == id {
        assert IsOutcome(t.events[|rest.events|], id, status);
      } else if Final(s.restores[x].status) {
        var k :| 0 <= k < |s.events| && IsOutcome(s.events[k], x, s.restores[x].status);
        assert t.events[k] == s.events[k];
      }
    }
  }

  /** Consuming a message for `id` and queueing another one for it. */
  lemma RelayKeepsInv(s: State, t: State, i: nat, m: Message)
    requires Inv(s) && i < |s.queue|
    requires m.Target() == s.queue[i].Target() && m.Node() == s.queue[i].Node()
    requires m.Check? ==> OnSchedule(m.poll)
    requires t == s.(queue := Without(s.queue, i) + [m], events := t.events)
    requires forall x :: Finals(t.events, x) == Finals(s.events, x)
    requires s.events <= t.events
    ensures Inv(t)
  {
    forall x
      ensures Outstanding(t.queue, x) == Outstanding(s.queue, x)
    {
      OutstandingPop(s.queue, i, x);
      OutstandingPush(Without(s.queue, i), m, x);
    }
    forall x | t.nextId <= x ensures Untouched(t, x) {
      assert Untouched(s, x);
    }
    forall x | x in t.restores
      ensures Settled(t, x)
    {
      assert Settled(s, x);
      if Final(s.restores[x].status) {
        var k :| 0 <= k < |s.events| && IsOutcome(s.events[k], x, s.restores[x].status);
        assert t.events[k] == s.events[k];
      }
    }
  }

  /** A message for a restore that is gone is dropped. */
  lemma DropKeepsInv(s: State, i: nat)
    requires Inv(s) && i < |s.queue| && s.queue[i].Target() !in s.restores
    ensures Inv(s.(queue := Without(s.queue, i)))
  {
    forall x
      ensures Outstanding(s.queue, x) == Outstanding(Without(s.queue, i), x) + IsFor(s.queue[i], x)
    {
      OutstandingPop(s.queue, i, x);
    }
    var t := s.(queue := Without(s.queue, i));
    forall x | t.nextId <= x ensures Untouched(t, x) {
      assert Untouched(s, x);
    }
    forall x | x in t.restores
      ensures Settled(t, x)
    {
      assert Settled(s, x);
    }
  }

  /** Under the invariant no queued message is for a closed restore. */
  lemma NothingQueuedForClosed(s: State, i: nat)
    requires Inv(s) && i < |s.queue| && s.queue[i].Target() in s.restores
    ensures !Final(s.restores[s.queue[i].Target()].status)
  {
    var id := s.queue[i].Target();
    OutstandingPop(s.queue, i, id);
    assert Settled(s, id);
  }

  lemma DeliverKeepsInv(s: State, step: Step)
    requires Inv(s) && step.Deliver? && Enabled(s, step)
    ensures Inv(After(s, step))
  {
    var m := s.queue[step.i];
    var id := m.Target();
    var rest := s.(queue := Without(s.queue, step.i));
    if id !in s.restores {
      DropKeepsInv(s, step.i);
    } else {
      NothingQueuedForClosed(s, step.i);
      assert Settled(s, id);
      if m.Begin? {
        var started := rest.(events := s.events + [NotifyStarted(id)]);
        forall x ensures Finals(started.events, x) == Finals(s.events, x) {
          FinalsPush(s.events, NotifyStarted(id), x);
        }
        if step.refused.Some? {
          FinishKeepsInv(s, started, step.i, id, Failed, step.refused.value);
        } else {
          RelayKeepsInv(s, After(s, step), step.i, Check(FirstPoll(m.node, id, step.end)));
        }
      } else {
        match Decide(Lookup(rest, m.poll), m.poll, step.begin, step.answer, step.end) {
          case Settle(status, error) =>
            FinishKeepsInv(s, rest, step.i, id, status, error);
          case Again(q) =>
            RequeueStaysOnSchedule(m.poll, step.begin, step.end);
            RelayKeepsInv(s, After(s, step), step.i, Check(q));
          case Ignore =>
        }
      }
    }
  }

  lemma StepKeepsInv(s: State, step: Step)
    requires Inv(s) && Enabled(s, step)
    ensures Inv(After(s, step))
  {
    var t := After(s, step);
    match step {
      case Deliver(_, _, _, _, _) =>
        DeliverKeepsInv(s, step);
      case Request(node) =>
        forall x ensures Outstanding(t.queue, x) == Outstanding(s.queue, x) + IsFor(Begin(node, s.nextId), x) {
          OutstandingPush(s.queue, Begin(node, s.nextId), x);
        }
        assert Untouched(s, s.nextId);
        forall x | t.nextId <= x ensures Untouched(t, x) {
          assert Untouched(s, x);
        }
        forall i | 0 <= i < |s.queue| ensures s.queue[i].Target() != s.nextId {
          OutstandingPop(s.queue, i, s.nextId);
        }
        forall x | x in t.restores ensures Settled(t, x) {
          if x != s.nextId { assert Settled(s, x); }
        }
      case DeleteNode(node) =>
        forall x | t.nextId <= x ensures Untouched(t, x) {
          assert Untouched(s, x);
        }
        forall x | x in t.restores ensures Settled(t, x) {
          assert Settled(s, x);
        }
    }
  }

  /** Every reachable state: an open restore has exactly one task queued for it, a closed one
      has had exactly one final notification, and its kind is the row's status. */
  lemma {:induction false} OneFinalOutcome(states: seq<State>, steps: seq<Step>, n: nat)
    requires IsRun(states, steps) && Inv(states[0]) && n <= |steps|
    ensures Inv(states[n])
    ensures forall id | id in states[n].restores ::
              var closed := Final(states[n].restores[id].status);
              && Finals(states[n].events, id) == (if closed then 1 else 0)
              && Outstanding(states[n].queue, id) == (if closed then 0 else 1)
  {
    if n > 0 {
      OneFinalOutcome(states, steps, n - 1);
      StepKeepsInv(states[n - 1], steps[n - 1]);
    }
    forall id | id in states[n].restores ensures Settled(states[n], id) {
    }
  }

  lemma EmptySystemHolds(nodes: set<int>, nextId: int)
    ensures Inv(State(nodes, map[], nextId, [], []))
  {
  }

  /** In every run from a system without restores: an open restore has one queued task and no final
      notification, and a closed one has none queued and exactly one, of the kind its status says. */
  lemma OneOutcomeFromTheStart(states: seq<State>, steps: seq<Step>, nodes: set<int>, nextId: int, n: nat, id: int)
    requires IsRun(states, steps) && states[0] == State(nodes, map[], nextId, [], [])
    requires n <= |steps| && id in states[n].restores
    ensures var s, status := states[n], states[n].restores[id].status;
            if status == Complete || status == Failed then
              && Outstanding(s.queue, id) == 0 && Finals(s.events, id) == 1
              && exists i :: 0 <= i < |s.events|
                               && s.events[i] == (if status == Complete then NotifyCompleted(id) else NotifyFailed(id))
            else
              && (status == Pending || status == InProgress)
              && Outstanding(s.queue, id) == 1 && Finals(s.events, id) == 0
  {
    EmptySystemHolds(nodes, nextId);
    OneFinalOutcome(states, steps, n);
    assert Settled(states[n], id);
    if Final(states[n].restores[id].status) {
      var i :| 0 <= i < |states[n].events| && IsOutcome(states[n].events[i], id, states[n].restores[id].status);
      assert states[n].events[i]
          == if states[n].restores[id].status == Complete then NotifyCompleted(id) else NotifyFailed(id);
    }
  }

  /** COMPLETE and FAILED are never left, and nothing is ever said again about a restore that
      reached them: the row is the same for as long as its node exists. */
  lemma FinalIsAbsorbing(states: seq<State>, steps: seq<Step>, m: nat, n: nat, id: int)
    requires IsRun(states, steps) && Inv(states[0]) && m <= n <= |steps|
    requires id in states[m].restores && Final(states[m].restores[id].status)
    ensures id in states[n].restores ==>
              && states[n].restores[id] == states[m].restores[id]
              && Finals(states[n].events, id) == Finals(states[m].events, id) == 1
  {
    OneFinalOutcome(states, steps, m);
    OneFinalOutcome(states, steps, n);
    OwedOnce(states[m], id);
    ClosedForGood(states, steps, m, n, id);
    if id in states[n].restores {
      OwedOnce(states[n], id);
    }
  }

  lemma OwedOnce(s: State, id: int)
    requires Inv(s) && id in s.restores
    ensures id < s.nextId && (Final(s.restores[id].status) ==> Finals(s.events, id) == 1)
  {
    assert Settled(s, id);
  }

  /** `id` was given out, and its row, if it is still there, is `row`. */
  predicate KeepsRow(s: State, id: int, row: Restore) {
    id < s.nextId && (id in s.restores ==> s.restores[id] == row)
  }

  lemma {:induction false} ClosedForGood(states: seq<State>, steps: seq<Step>, m: nat, n: nat, id: int)
    requires IsRun(states, steps) && Inv(states[0]) && m <= n <= |steps|
    requires id < states[m].nextId
    requires id in states[m].restores && Final(states[m].restores[id].status)
    ensures KeepsRow(states[n], id, states[m].restores[id])
    decreases n
  {
    if m < n {
      ClosedForGood(states, steps, m, n - 1, id);
      OneFinalOutcome(states, steps, n - 1);
      ClosedRowKept(states[n - 1], steps[n - 1], id, states[m].restores[id]);
    }
  }

  lemma ClosedRowKept(s: State, step: Step, id: int, row: Restore)
    requires Inv(s) && Enabled(s, step) && Final(row.status) && KeepsRow(s, id, row)
    ensures KeepsRow(After(s, step), id, row)
  {
    if step.Deliver? && s.queue[step.i].Target() in s.restores {
      NothingQueuedForClosed(s, step.i);
    }
  }

  /** In every reachable state every queued check is at most number
      floor(timeout / interval) + 2 of its chain. */
  lemma ChecksAreBounded(states: seq<State>, steps: seq<Step>, n: nat, i: nat)
    requires IsRun(states, steps) && Inv(states[0]) && n <= |steps|
    requires i < |states[n].queue| && states[n].queue[i].Check?
    ensures var p := states[n].queue[i].poll;
            0 < p.interval && p.checks + 1 <= MaxChecks(p.interval, p.timeout)
  {
    OneFinalOutcome(states, steps, n);
    CheckNumberBounded(states[n].queue[i].poll);
  }

  /** What the provider says decides: a check of an open restore closes it as COMPLETE exactly on that
      answer, as FAILED exactly on that answer or, with neither, past the timeout; and otherwise leaves the
      row alone and queues one successor, one interval later, that carries the first check's time. */
  lemma AnswerDecides(s: State, p: Poll, begin: int, answer: Answer, end: int)
    requires Lookup(s, p).Some? && !Final(s.restores[p.target].status)
    ensures var t := CheckTask(s, p, begin, answer, end);
            var late := end - p.startedAt.GetOr(begin) > p.timeout;
            && p.target in t.restores
            && (t.restores[p.target].status == Complete <==> answer == Says(Complete))
            && (t.restores[p.target].status == Failed <==>
                  answer == Says(Failed) || (answer != Says(Complete) && late))
            && (t.queue == s.queue <==> Final(t.restores[p.target].status))
            && t.restores[p.target].error ==
                 (if answer != Says(Complete) && answer != Says(Failed) && late
                  then "Timed out waiting for the restored resource to become ready." else s.restores[p.target].error)
            && (t.queue != s.queue ==>
                  && t.restores == s.restores && t.events == s.events
                  && |t.queue| == |s.queue| + 1 && t.queue[..|s.queue|] == s.queue
                  && var q := t.queue[|s.queue|];
                  q.Check? && q.poll.due == end + p.interval
                  && q.poll.startedAt == Some(p.startedAt.GetOr(begin))
                  && q.poll.node == p.node && q.poll.target == p.target
                  && q.poll.interval == p.interval && q.poll.timeout == p.timeout)
  {
    var t := CheckTask(s, p, begin, answer, end);
    if !Final(t.restores[p.target].status) {
      assert |t.queue| == |s.queue| + 1;
    }
  }

  /** A start that is refused queues nothing; one that is accepted queues the first check and
      leaves the row as it was. */
  lemma RefusedStartQueuesNothing(s: State, node: int, id: int, refused: Option<string>, now: int)
    requires node in s.nodes && id in s.restores && s.restores[id].node == node
    ensures var t := BeginTask(s, node, id, refused, now);
            && (t.queue == s.queue <==> refused.Some?)
            && (t.restores[id].status == Failed && t.restores[id].error == refused.GetOr("")
                && Finals(t.events, id) == Finals(s.events, id) + 1 <== refused.Some?)
            && (refused.None? ==> t.restores == s.restores && Finals(t.events, id) == Finals(s.events, id))
  {
    FinalsPush(s.events, NotifyStarted(id), id);
    FinalsPush(s.events + [NotifyStarted(id)], NotifyFailed(id), id);
    assert |s.queue + [Check(FirstPoll(node, id, now))]| != |s.queue|;
  }

  /** A start tells that it began, and then either that it failed, or nothing more while the first check is
      queued. */
  lemma StartSays(s: State, node: int, id: int, refused: Option<string>, now: int)
    requires node in s.nodes && id in s.restores && s.restores[id].node == node
    ensures var t := BeginTask(s, node, id, refused, now);
            if refused.Some? then t.events == s.events + [NotifyStarted(id)] + [NotifyFailed(id)] && t.queue == s.queue
            else t.events == s.events + [NotifyStarted(id)] && t.queue == s.queue + [Check(FirstPoll(node, id, now))]
  {
  }

  /** The start task does not look at the status, so "runs once" is needed: delivered again
      for a closed restore, it sends a second final notification exactly when the provider
      refuses it, and otherwise leaves a check for a closed row on the queue. */
  lemma StartDeliveredTwice(s: State, id: int, refused: Option<string>, now: int)
    requires Inv(s) && id in s.restores && Final(s.restores[id].status)
    ensures var t := BeginTask(s, s.restores[id].node, id, refused, now);
            && !Inv(t)
            && (Finals(t.events, id) == 2 <==> refused.Some?)
            && (t.restores[id] != s.restores[id] ==> refused.Some?)
  {
    assert Settled(s, id);
    var node := s.restores[id].node;
    var t := BeginTask(s, node, id, refused, now);
    FinalsPush(s.events, NotifyStarted(id), id);
    FinalsPush(s.events + [NotifyStarted(id)], NotifyFailed(id), id);
    OutstandingPush(s.queue, Check(FirstPoll(node, id, now)), id);
    assert !Settled(t, id);
  }
}
