/** The local-disk backup tasks: one attempt, the handlers around it, and the bounded chain of
    retries they make. */
module RetryProtocol {
  import opened Common

  datatype Task = Website | Database

  datatype Error =
    | ConnectionValidationFailed | IntegrationValidation | SoftTimeLimit | BackupTimeout | Other

  /** What an attempt comes to: the node or schedule is not eligible; another backup is in flight
      (backup_initiate returned None); everything went through; or something raised, before or after
      the backup row existed. */
  datatype Outcome = Ineligible | InFlight | Completes | Raises(error: Error, initiated: bool)

  const MAX_RETRIES := 4
  const MAX_ATTEMPTS := 5

  datatype Event =
    | NodeActive | NotifyFail | RetryingReset | TimeoutReset | MaxRetriesReached
    | DeleteDir | DeleteZip

  /** The status of the backup row of this chain, if it exists. */
  datatype BackupStatus = NoRow | InProgress | Retrying | TimedOut | MaxRetryFailed

  datatype State = State(backup: BackupStatus, events: seq<Event>)

  /** Which handler takes an error. */
  datatype Handler = OnValidation | OnTimeout | OnOther

  function HandlerOf(task: Task, error: Error): Handler {
    match task
    case Website =>
      if error.ConnectionValidationFailed? then OnValidation
      else if error.SoftTimeLimit? || error.BackupTimeout? then OnTimeout
      else OnOther
    case Database =>
      if error.IntegrationValidation? then OnValidation
      else if error.SoftTimeLimit? then OnTimeout
      else OnOther
  }

  /** The reset methods find the row by its task id. */
  function WithRow(b: BackupStatus, status: BackupStatus): BackupStatus {
    if b.NoRow? then NoRow else status
  }

  /** One attempt: the added state, and whether it was re-queued. `retries` counts the retries so far. */
  function Attempt(task: Task, s: State, retries: nat, o: Outcome): (State, bool) {
    match o
    case Ineligible => (s, false)
    case InFlight => (s, false)
    case Completes => (State(InProgress, s.events + [NodeActive]), false)
    case Raises(error, initiated) =>
      var begun := if initiated then InProgress else s.backup;
      if HandlerOf(task, error).OnTimeout? then
        (State(WithRow(begun, TimedOut),
               s.events + [NotifyFail, TimeoutReset] + (if initiated then [DeleteDir, DeleteZip] else [])), false)
      else if retries + 1 > MAX_RETRIES then
        (State(WithRow(begun, MaxRetryFailed), s.events + [NotifyFail, RetryingReset, MaxRetriesReached]), false)
      else (State(WithRow(begun, Retrying), s.events + [NotifyFail, RetryingReset]), true)
  }

  /** A chain of attempts with the given outcomes: the final state, the number of attempts made, and
      whether it has stopped. */
  function Chain(task: Task, s: State, retries: nat, outcomes: seq<Outcome>): (State, nat, bool)
    decreases |outcomes|
  {
    if outcomes == [] then (s, 0, false)
    else
      var (next, again) := Attempt(task, s, retries, outcomes[0]);
      if !again then (next, 1, true)
      else
        var (last, n, stopped) := Chain(task, next, retries + 1, outcomes[1..]);
        (last, n + 1, stopped)
  }

  class Worker {
    var backup: BackupStatus
    var events: seq<Event>

    function Snapshot(): State
      reads this
    {
      State(backup, events)
    }

    method Emit(e: Event)
      modifies this`events
      ensures events == old(events) + [e]
    {
      events := events + [e];
    }

    method BackupRetryingReset()
      modifies this
      ensures events == old(events) + [RetryingReset] && backup == WithRow(old(backup), Retrying)
    {
      if backup != NoRow {
        backup := Retrying;
      }
      Emit(RetryingReset);
    }

    /** self.retry(): false is MaxRetriesExceededError, handled by backup_max_retries_reached. */
    method Retry(retries: nat) returns (again: bool)
      modifies this
      ensures again <==> retries + 1 <= MAX_RETRIES
      ensures again ==> events == old(events) && backup == old(backup)
      ensures !again ==> events == old(events) + [MaxRetriesReached] && backup == WithRow(old(backup), MaxRetryFailed)
    {
      again := retries + 1 <= MAX_RETRIES;
      if !again {
        if backup != NoRow {
          backup := MaxRetryFailed;
        }
        Emit(MaxRetriesReached);
      }
    }

    /** backup_website and backup_database, which differ in the errors their handlers name. */
    method Backup(task: Task, retries: nat, o: Outcome) returns (again: bool)
      modifies this
      ensures (Snapshot(), again) == Attempt(task, old(Snapshot()), retries, o)
    {
      if o.Ineligible? || o.InFlight? {
        return false;
      }
      if o.Completes? {
        backup := InProgress;
        Emit(NodeActive);
        return false;
      }
      if o.initiated {
        backup := InProgress;
      }
      match HandlerOf(task, o.error) {
        case OnTimeout =>
          Emit(NotifyFail);
          if backup != NoRow {
            backup := TimedOut;
          }
          Emit(TimeoutReset);
          if o.initiated {
            Emit(DeleteDir);
            Emit(DeleteZip);
          }
          again := false;
        case _ =>
          Emit(NotifyFail);
          BackupRetryingReset();
          again := Retry(retries);
      }
      assert events == Attempt(task, old(Snapshot()), retries, o).0.events;
    }
  }

  // -----------------------------------------------------------------------------------
  // Chains
  // -----------------------------------------------------------------------------------

  predicate IsNodeEvent(e: Event) {
    e.NodeActive? || e.RetryingReset? || e.TimeoutReset? || e.MaxRetriesReached?
  }

  predicate IsClosing(e: Event) {
    e.NodeActive? || e.TimeoutReset? || e.MaxRetriesReached?
  }

  function Count(es: seq<Event>, e: Event): nat {
    if es == [] then 0 else Count(es[..|es| - 1], e) + (if es[|es| - 1] == e then 1 else 0)
  }

  function Closings(es: seq<Event>): nat {
    Count(es, NodeActive) + Count(es, TimeoutReset) + Count(es, MaxRetriesReached)
  }

  /** The last thing that happened to the node. */
  function LastNodeEvent(es: seq<Event>): Option<Event> {
    if es == [] then None
    else if IsNodeEvent(es[|es| - 1]) then Some(es[|es| - 1])
    else LastNodeEvent(es[..|es| - 1])
  }

  lemma Pushed(es: seq<Event>, e: Event, x: Event)
    ensures Count(es + [e], x) == Count(es, x) + (if e == x then 1 else 0)
    ensures LastNodeEvent(es + [e]) == if IsNodeEvent(e) then Some(e) else LastNodeEvent(es)
  {
    assert (es + [e])[..|es|] == es;
  }

  lemma PushedAll(es: seq<Event>, e: Event)
    ensures Closings(es + [e]) == Closings(es) + (if IsClosing(e) then 1 else 0)
    ensures Count(es + [e], NotifyFail) == Count(es, NotifyFail) + (if e.NotifyFail? then 1 else 0)
    ensures LastNodeEvent(es + [e]) == if IsNodeEvent(e) then Some(e) else LastNodeEvent(es)
  {
    Pushed(es, e, NodeActive);
    Pushed(es, e, TimeoutReset);
    Pushed(es, e, MaxRetriesReached);
    Pushed(es, e, NotifyFail);
  }

  /** What one attempt that did something adds to the trace. */
  predicate Added(es: seq<Event>, ts: seq<Event>, failures: nat, closings: nat, last: Event) {
    && Count(ts, NotifyFail) == Count(es, NotifyFail) + failures
    && Closings(ts) == Closings(es) + closings
    && LastNodeEvent(ts) == Some(last)
  }

  lemma SuccessAdds(es: seq<Event>)
    ensures Added(es, es + [NodeActive], 0, 1, NodeActive)
  {
    PushedAll(es, NodeActive);
  }

  lemma TimeoutAdds(es: seq<Event>)
    ensures Added(es, es + [NotifyFail, TimeoutReset], 1, 1, TimeoutReset)
  {
    PushedAll(es, NotifyFail);
    PushedAll(es + [NotifyFail], TimeoutReset);
    assert es + [NotifyFail, TimeoutReset] == es + [NotifyFail] + [TimeoutReset];
  }

  lemma FilesAdd(es: seq<Event>, ts: seq<Event>)
    requires Added(es, ts, 1, 1, TimeoutReset)
    ensures Added(es, ts + [DeleteDir, DeleteZip], 1, 1, TimeoutReset)
  {
    PushedAll(ts, DeleteDir);
    PushedAll(ts + [DeleteDir], DeleteZip);
    assert ts + [DeleteDir, DeleteZip] == ts + [DeleteDir] + [DeleteZip];
  }

  lemma RetryAdds(es: seq<Event>)
    ensures Added(es, es + [NotifyFail, RetryingReset], 1, 0, RetryingReset)
  {
    PushedAll(es, NotifyFail);
    PushedAll(es + [NotifyFail], RetryingReset);
    assert es + [NotifyFail, RetryingReset] == es + [NotifyFail] + [RetryingReset];
  }

  lemma LastRetryAdds(es: seq<Event>)
    ensures Added(es, es + [NotifyFail, RetryingReset, MaxRetriesReached], 1, 1, MaxRetriesReached)
  {
    RetryAdds(es);
    PushedAll(es + [NotifyFail, RetryingReset], MaxRetriesReached);
    assert es + [NotifyFail, RetryingReset, MaxRetriesReached]
        == es + [NotifyFail, RetryingReset] + [MaxRetriesReached];
  }

  /** An attempt that is not turned away is re-queued exactly when it failed with neither a timeout nor the
      last retry behind it. It then leaves the retrying reset as the node's last event; otherwise it closes
      the chain, once. */
  lemma AttemptEffect(task: Task, s: State, retries: nat, o: Outcome)
    requires !TurnedAway(o)
    ensures var (t, again) := Attempt(task, s, retries, o);
            && (again <==> o.Raises? && !IsTimeout(task, o.error) && retries < 4)
            && (again ==> Added(s.events, t.events, 1, 0, RetryingReset) && t.backup in {NoRow, Retrying})
            && (!again ==>
                  && t.backup != Retrying
                  && Added(s.events, t.events, if o.Raises? then 1 else 0, 1, ClosingOf(task, o)))
  {
    var es := s.events;
    if o.Completes? {
      SuccessAdds(es);
    } else if HandlerOf(task, o.error).OnTimeout? {
      TimeoutAdds(es);
      FilesAdd(es, es + [NotifyFail, TimeoutReset]);
      assert es + [NotifyFail, TimeoutReset] + [] == es + [NotifyFail, TimeoutReset];
    } else if retries + 1 > MAX_RETRIES {
      LastRetryAdds(es);
    } else {
      RetryAdds(es);
    }
  }

  /** The errors that end a task at once, as a timeout. */
  predicate IsTimeout(task: Task, error: Error) {
    || (task == Website && (error == SoftTimeLimit || error == BackupTimeout))
    || (task == Database && error == SoftTimeLimit)
  }

  /** The node event and the status of the row a failed attempt ends in. Exactly the timeouts are a timeout
      reset; any other error is retried below the limit of four retries and given up at it. */
  lemma FailedAttemptEnds(task: Task, s: State, retries: nat, error: Error, initiated: bool)
    ensures var (t, again) := Attempt(task, s, retries, Raises(error, initiated));
            var hasRow := initiated || s.backup != NoRow;
            var timeout := || (task == Website && (error == SoftTimeLimit || error == BackupTimeout))
                           || (task == Database && error == SoftTimeLimit);
            if timeout then
              && !again && LastNodeEvent(t.events) == Some(TimeoutReset)
              && t.backup == if hasRow then TimedOut else NoRow
            else if retries < 4 then
              && again && LastNodeEvent(t.events) == Some(RetryingReset)
              && t.backup == if hasRow then Retrying else NoRow
            else
              && !again && LastNodeEvent(t.events) == Some(MaxRetriesReached)
              && t.backup == if hasRow then MaxRetryFailed else NoRow
  {
    var es := s.events;
    if IsTimeout(task, error) {
      TimeoutAdds(es);
      FilesAdd(es, es + [NotifyFail, TimeoutReset]);
      assert es + [NotifyFail, TimeoutReset] + [] == es + [NotifyFail, TimeoutReset];
    } else if retries < 4 {
      RetryAdds(es);
    } else {
      LastRetryAdds(es);
    }
  }

  /** The downloaded files are removed exactly by an attempt that times out with a backup begun. */
  lemma TimedOutFilesGo(task: Task, s: State, retries: nat, o: Outcome)
    ensures var t := Attempt(task, s, retries, o).0;
            var gone := o.Raises? && IsTimeout(task, o.error) && o.initiated;
            && Count(t.events, DeleteDir) == Count(s.events, DeleteDir) + (if gone then 1 else 0)
            && Count(t.events, DeleteZip) == Count(s.events, DeleteZip) + (if gone then 1 else 0)
  {
    var es := s.events;
    forall e | e == DeleteDir || e == DeleteZip
      ensures Count(Attempt(task, s, retries, o).0.events, e)
           == Count(es, e) + (if o.Raises? && HandlerOf(task, o.error).OnTimeout? && o.initiated then 1 else 0)
    {
      if o.Completes? {
        Pushed(es, NodeActive, e);
      } else if o.Raises? {
        if HandlerOf(task, o.error).OnTimeout? {
          PushedPair(es, NotifyFail, TimeoutReset, e);
          PushedPair(es + [NotifyFail, TimeoutReset], DeleteDir, DeleteZip, e);
          assert es + [NotifyFail, TimeoutReset] + [] == es + [NotifyFail, TimeoutReset];
        } else {
          PushedPair(es, NotifyFail, RetryingReset, e);
          Pushed(es + [NotifyFail, RetryingReset], MaxRetriesReached, e);
          assert es + [NotifyFail, RetryingReset, MaxRetriesReached]
              == es + [NotifyFail, RetryingReset] + [MaxRetriesReached];
        }
      }
    }
  }

  lemma PushedPair(es: seq<Event>, a: Event, b: Event, e: Event)
    ensures Count(es + [a, b], e) == Count(es, e) + (if a == e then 1 else 0) + (if b == e then 1 else 0)
  {
    Pushed(es, a, e);
    Pushed(es + [a], b, e);
    assert es + [a, b] == es + [a] + [b];
  }

  function Failures(outcomes: seq<Outcome>): nat {
    if outcomes == [] then 0 else (if outcomes[0].Raises? then 1 else 0) + Failures(outcomes[1..])
  }

  predicate TurnedAway(o: Outcome) {
    o.Ineligible? || o.InFlight?
  }

  /** An outcome that is tried again while attempts are left. */
  predicate IsRetried(task: Task, o: Outcome) {
    o.Raises? && !IsTimeout(task, o.error)
  }

  /** The whole chain, from any point of it, stops within the attempts that are left: at the first outcome
      that is not retried, or when they are used up. */
  lemma {:induction false} ChainIsBounded(task: Task, s: State, retries: nat, outcomes: seq<Outcome>)
    requires retries <= MAX_RETRIES
    ensures var (t, n, stopped) := Chain(task, s, retries, outcomes);
            && n <= |outcomes| && n <= MAX_ATTEMPTS - retries
            && (|outcomes| >= MAX_ATTEMPTS - retries ==> stopped)
            && (stopped ==> n > 0)
            && (forall i | 0 <= i < n - 1 :: IsRetried(task, outcomes[i]))
            && (stopped ==> !IsRetried(task, outcomes[n - 1]) || n == MAX_ATTEMPTS - retries)
    decreases |outcomes|
  {
    if outcomes != [] {
      var (next, again) := Attempt(task, s, retries, outcomes[0]);
      if again {
        var rest := outcomes[1..];
        ChainIsBounded(task, next, retries + 1, rest);
        assert forall i | 1 <= i < |outcomes| :: outcomes[i] == rest[i - 1];
      }
    }
  }

  /** It tells about every failed attempt. */
  lemma {:induction false} ChainNotifies(task: Task, s: State, retries: nat, outcomes: seq<Outcome>)
    requires retries <= MAX_RETRIES
    ensures var (t, n, stopped) := Chain(task, s, retries, outcomes);
            n <= |outcomes| && Count(t.events, NotifyFail) == Count(s.events, NotifyFail) + Failures(outcomes[..n])
    decreases |outcomes|
  {
    ChainIsBounded(task, s, retries, outcomes);
    if outcomes != [] {
      var o := outcomes[0];
      if !TurnedAway(o) {
        AttemptEffect(task, s, retries, o);
      }
      var (next, again) := Attempt(task, s, retries, o);
      if again {
        var rest := outcomes[1..];
        ChainNotifies(task, next, retries + 1, rest);
        var m := Chain(task, next, retries + 1, rest).1;
        assert outcomes[..m + 1][1..] == rest[..m];
      } else {
        assert outcomes[..1][1..] == [];
      }
    }
  }

  /** How a stopped chain leaves the node, given its last outcome: closed once, by success exactly when the
      last attempt succeeded; or, when that attempt was turned away, not closed at all. */
  predicate Ends(task: Task, s: State, t: State, n: nat, last: Outcome) {
    if TurnedAway(last) then
      && Closings(t.events) == Closings(s.events)
      && (if n == 1 then t == s
          else LastNodeEvent(t.events) == Some(RetryingReset) && t.backup in {NoRow, Retrying})
    else
      && Closings(t.events) == Closings(s.events) + 1
      && LastNodeEvent(t.events) == Some(ClosingOf(task, last))
      && t.backup != Retrying
  }

  /** What closes a chain, given its last outcome. */
  function ClosingOf(task: Task, last: Outcome): Event
    requires !TurnedAway(last)
  {
    if last.Completes? then NodeActive else if IsTimeout(task, last.error) then TimeoutReset else MaxRetriesReached
  }

  lemma {:induction false} ChainEnds(task: Task, s: State, retries: nat, outcomes: seq<Outcome>)
    requires retries <= MAX_RETRIES
    ensures var (t, n, stopped) := Chain(task, s, retries, outcomes);
            stopped ==> 1 <= n <= |outcomes| && Ends(task, s, t, n, outcomes[n - 1])
    decreases |outcomes|
  {
    ChainIsBounded(task, s, retries, outcomes);
    if outcomes != [] {
      var o := outcomes[0];
      if !TurnedAway(o) {
        AttemptEffect(task, s, retries, o);
      }
      var (next, again) := Attempt(task, s, retries, o);
      if again {
        var rest := outcomes[1..];
        ChainEnds(task, next, retries + 1, rest);
        var (t, m, stopped) := Chain(task, next, retries + 1, rest);
        if stopped {
          EndsAfterRetry(task, s, next, t, m, rest[m - 1]);
        }
      }
    }
  }

  lemma EndsAfterRetry(task: Task, s: State, next: State, t: State, m: nat, last: Outcome)
    requires Added(s.events, next.events, 1, 0, RetryingReset) && next.backup in {NoRow, Retrying}
    requires m >= 1 && Ends(task, next, t, m, last)
    ensures Ends(task, s, t, m + 1, last)
  {
  }

  /** For every sequence of outcomes of at least five attempts, the chain stops within five; while the node
      and schedule stay eligible and no other backup is in flight, it closes exactly once, never on a
      retrying reset: with success when its last attempt succeeded, with a timeout reset when that was a
      timeout, and otherwise, after five attempts, with max-retries reached. All attempts before the last
      failed without a timeout, and one failure notification was sent for each failed attempt. */
  lemma ChainEndsCleanly(task: Task, outcomes: seq<Outcome>)
    requires |outcomes| >= 5
    requires forall o | o in outcomes :: !TurnedAway(o)
    ensures var (t, n, stopped) := Chain(task, State(NoRow, []), 0, outcomes);
            && stopped && 1 <= n <= 5
            && (forall i | 0 <= i < n - 1 :: outcomes[i].Raises? && !IsTimeout(task, outcomes[i].error))
            && Closings(t.events) == 1
            && var last := outcomes[n - 1];
            && (last.Raises? || last.Completes?)
            && (last.Completes? ==> LastNodeEvent(t.events) == Some(NodeActive))
            && (last.Raises? && IsTimeout(task, last.error) ==> LastNodeEvent(t.events) == Some(TimeoutReset))
            && (last.Raises? && !IsTimeout(task, last.error) ==>
                  LastNodeEvent(t.events) == Some(MaxRetriesReached) && n == 5)
            && Count(t.events, NotifyFail) == Failures(outcomes[..n])
            && t.backup != Retrying
  {
    ChainIsBounded(task, State(NoRow, []), 0, outcomes);
    ChainNotifies(task, State(NoRow, []), 0, outcomes);
    ChainEnds(task, State(NoRow, []), 0, outcomes);
    var n := Chain(task, State(NoRow, []), 0, outcomes).1;
    assert outcomes[n - 1] in outcomes;
  }

  /** And exactly when a retry finds the node ineligible, or another backup in flight, the chain that stops
      leaves the node's last event a retrying reset (and its row RETRYING, a status that counts as in
      flight). */
  lemma ChainIsCutShortExactly(task: Task, outcomes: seq<Outcome>)
    requires |outcomes| >= MAX_ATTEMPTS
    ensures var (t, n, stopped) := Chain(task, State(NoRow, []), 0, outcomes);
            && stopped && 1 <= n <= |outcomes|
            && (LastNodeEvent(t.events) == Some(RetryingReset) <==>
                  n > 1 && TurnedAway(outcomes[n - 1]))
  {
    ChainIsBounded(task, State(NoRow, []), 0, outcomes);
    ChainEnds(task, State(NoRow, []), 0, outcomes);
  }
}
