/** Waiting for cloud snapshots: the re-queued status check, the state it leaves the backup
    in, and the keep-last retention that runs when a snapshot completes. */
module SnapshotPolling {
  import opened Common
  import opened PollChain

  datatype Status =
    | Pending | InProgress | Complete | Failed | Retrying | Started | MaxRetryFailed
    | UploadReady | UploadInProgress | UploadComplete | UploadValidation | UploadFailed
    | DeleteRequested | DeleteInProgress | DeleteCompleted | DeleteFailed
    | DeleteFailedNotFound | DeleteMaxRetryFailed
    | DownloadInProgress | DownloadComplete | Cancelled | Timeout | StorageValidationFailed

  /** A snapshot row. An empty `taskId` stands for a null or empty celery_task_id. */
  datatype Backup = Backup(node: int, schedule: Option<int>, taskId: string, created: int, status: Status)

  type Table = map<int, Backup>

  datatype Event =
    | NodeActive(node: int)
    | NotifySuccess(id: int)
    | NotifyErrored(id: int)
    | NotifyTimedOut(id: int)

  /** keepLast holds the schedules' keep_last; a schedule without one is absent or 0. */
  datatype State = State(nodes: set<int>, keepLast: map<int, nat>, backups: Table,
                         queue: seq<Poll>, events: seq<Event>)

  /** What poll_status() did: the status it returned, and whether it saved COMPLETE on the row
      (a provider branch can return COMPLETE without saving it, or save it and then fail). */
  datatype Answer = Says(reported: Status, saved: bool) | Raises(saved: bool)

  /** What one soft_delete() did to its row: it returned with the row in some status, or it raised, before
      or after it saved one. */
  datatype Deletion = EndsIn(status: Status) | Fails(saved: Option<Status>) {
    function Left(): Option<Status> {
      if EndsIn? then Some(status) else saved
    }
    predicate TakesOut() {
      Left().Some? && Left().value != Complete
    }
  }

  /** The outcome of each deletion; a row not listed is deleted normally. */
  type Deletions = map<int, Deletion>

  function Outcome(d: Deletions, id: int): Deletion {
    if id in d then d[id] else EndsIn(DeleteCompleted)
  }

  /** What the world outside does during one check: the clock before and after, the provider's
      answer, the row order the retention query returns, and the outcome of each deletion. */
  datatype World = World(begin: int, answer: Answer, end: int, order: seq<int>, deletion: Deletions)

  predicate Terminal(s: Status) {
    s in {Complete, Failed, Timeout, Cancelled, DeleteRequested, DeleteInProgress, DeleteCompleted}
  }

  function WithStatus(t: Table, id: int, status: Status): Table
    requires id in t
  {
    t[id := t[id].(status := status)]
  }

  function CompleteOf(t: Table, schedule: int): set<int> {
    set id | id in t && t[id].schedule == Some(schedule) && t[id].status == Complete
  }

  /** `order` is a possible answer to filter(schedule=..., status=COMPLETE).order_by("created"):
      each matching row once, oldest first, rows created together in any order. */
  ghost predicate IsQueryResult(t: Table, schedule: int, order: seq<int>) {
    && Distinct(order)
    && (forall id | id in order :: id in t)
    && (forall id :: id in order <==> id in CompleteOf(t, schedule))
    && forall i, j :: 0 <= i < j < |order| ==> t[order[i]].created <= t[order[j]].created
  }

  /** Python's completed[:-keep] for keep > 0. */
  function AllButLast(order: seq<int>, keep: nat): seq<int> {
    if |order| <= keep then [] else order[..|order| - keep]
  }

  function Newest(order: seq<int>, keep: nat): seq<int> {
    if |order| <= keep then order else order[|order| - keep..]
  }

  predicate SharesTask(t: Table, id: int)
    requires id in t
  {
    exists x | x in t :: x != id && t[x].node == t[id].node && t[x].taskId == t[id].taskId
  }

  function WithTask(t: Table, node: int, taskId: string): set<int> {
    set x | x in t && t[x].node == node && t[x].taskId == taskId
  }

  lemma TaskLookup(t: Table, id: int)
    requires id in t
    ensures |WithTask(t, t[id].node, t[id].taskId)| > 1 <==> SharesTask(t, id)
  {
    var found := WithTask(t, t[id].node, t[id].taskId);
    if SharesTask(t, id) {
      var x :| x in t && x != id && t[x].node == t[id].node && t[x].taskId == t[id].taskId;
      SubsetSize({x, id}, found);
    } else {
      assert forall x | x in found :: x in t && t[x].node == t[id].node && x == id;
      assert found == {id};
    }
  }

  /** backup_complete_reset(celery_task_id) and backup_timeout_reset(celery_task_id) find the row
      by its task id; two rows with the same one make the lookup raise. */
  function MarkByTask(t: Table, id: int, status: Status): Option<Table>
    requires id in t
  {
    if t[id].taskId == "" then Some(t)
    else if SharesTask(t, id) then None
    else Some(WithStatus(t, id, status))
  }

  function DeleteOne(t: Table, id: int, d: Deletion): Table {
    if id in t && d.Left().Some? then WithStatus(t, id, d.Left().value) else t
  }

  /** Deletes rows in turn; a deletion that raises ends the loop. */
  function DeleteAll(t: Table, ids: seq<int>, deletion: Deletions): (Table, bool) {
    if ids == [] then (t, true)
    else
      var d := Outcome(deletion, ids[0]);
      var next := DeleteOne(t, ids[0], d);
      if d.EndsIn? then DeleteAll(next, ids[1..], deletion) else (next, false)
  }

  /** The retention rule of the backup's schedule, if it has one. */
  function Keep(s: State, id: int): nat
    requires id in s.backups
  {
    var b := s.backups[id];
    if b.schedule.Some? && b.schedule.value in s.keepLast then s.keepLast[b.schedule.value] else 0
  }

  function Retain(s: State, id: int, w: World): (Table, bool)
    requires id in s.backups
  {
    var keep := Keep(s, id);
    if keep > 0 then DeleteAll(s.backups, AllButLast(w.order, keep), w.deletion) else (s.backups, true)
  }

  function Log(s: State, e: Event): State {
    s.(events := s.events + [e])
  }

  /** The COMPLETE branch. */
  function CompleteTask(s: State, node: int, id: int, w: World): State
    requires id in s.backups
  {
    var active := Log(s, NodeActive(node));
    match MarkByTask(s.backups, id, Complete)
    case None => active
    case Some(marked) =>
      var (kept, finished) := Retain(active.(backups := marked), id, w);
      var t := active.(backups := kept);
      if finished then Log(t, NotifySuccess(id)) else t
  }

  function FailTask(s: State, node: int, id: int): State
    requires id in s.backups
  {
    Log(Log(s.(backups := WithStatus(s.backups, id, Failed)), NodeActive(node)), NotifyErrored(id))
  }

  function TimeoutTask(s: State, node: int, id: int): State
    requires id in s.backups
  {
    var active := Log(s, NodeActive(node));
    match MarkByTask(s.backups, id, Timeout)
    case None => active
    case Some(marked) => Log(active.(backups := marked), NotifyTimedOut(id))
  }

  /** The row a poll is about, if it is still there and still waiting. */
  predicate Waiting(s: State, p: Poll) {
    && p.node in s.nodes && p.target in s.backups && s.backups[p.target].node == p.node
    && !Terminal(s.backups[p.target].status)
  }

  /** What poll_status() itself leaves in the table. */
  function Seen(s: State, id: int, answer: Answer): State
    requires id in s.backups
  {
    if answer.saved then s.(backups := WithStatus(s.backups, id, Complete)) else s
  }

  function Reported(answer: Answer): Status {
    match answer case Says(st, _) => st case Raises(_) => InProgress
  }

  /** poll_cloud_backup. */
  function PollTask(s: State, p: Poll, w: World): State {
    if !Waiting(s, p) then s
    else
      var started := p.startedAt.GetOr(w.begin);
      var seen := Seen(s, p.target, w.answer);
      if Reported(w.answer) == Complete then CompleteTask(seen, p.node, p.target, w)
      else if Reported(w.answer) == Failed then FailTask(seen, p.node, p.target)
      else if GivesUp(p, started, w.end) then TimeoutTask(seen, p.node, p.target)
      else seen.(queue := seen.queue + [Requeue(p, started, w.end)])
  }

  // -----------------------------------------------------------------------------------
  // The task as the worker runs it
  // -----------------------------------------------------------------------------------

  class Worker {
    var nodes: set<int>
    var keepLast: map<int, nat>
    var backups: Table
    var queue: seq<Poll>
    var events: seq<Event>

    function Snapshot(): State
      reads this
    {
      State(nodes, keepLast, backups, queue, events)
    }

    /** The part backup_complete_reset and backup_timeout_reset share; `raised` is the lookup
        finding more than one row. */
    method ResetNode(node: int, id: int, status: Status) returns (raised: bool)
      requires id in backups && backups[id].node == node
      modifies this`backups, this`events
      ensures events == old(events) + [NodeActive(node)]
      ensures raised <==> MarkByTask(old(backups), id, status).None?
      ensures raised ==> backups == old(backups)
      ensures !raised ==> Some(backups) == MarkByTask(old(backups), id, status)
    {
      events := events + [NodeActive(node)];
      raised := false;
      var taskId := backups[id].taskId;
      if taskId != "" {
        var found := WithTask(backups, node, taskId);
        TaskLookup(backups, id);
        if |found| > 1 {
          raised := true;
          return;
        }
        backups := backups[id := backups[id].(status := status)];
      }
    }

    /** The loop `for old_backup in completed[:-keep_last]: old_backup.soft_delete()`. */
    method ApplyRetention(keep: nat, order: seq<int>, deletion: Deletions) returns (raised: bool)
      requires 0 < keep
      modifies this`backups
      ensures (backups, !raised) == DeleteAll(old(backups), AllButLast(order, keep), deletion)
    {
      var oldBackups := AllButLast(order, keep);
      var i := 0;
      while i < |oldBackups|
        invariant 0 <= i <= |oldBackups|
        invariant DeleteAll(backups, oldBackups[i..], deletion) == DeleteAll(old(backups), oldBackups, deletion)
      {
        var outcome := Outcome(deletion, oldBackups[i]);
        assert oldBackups[i..][0] == oldBackups[i] && oldBackups[i..][1..] == oldBackups[i + 1..];
        if oldBackups[i] in backups && outcome.Left().Some? {
          backups := backups[oldBackups[i] := backups[oldBackups[i]].(status := outcome.Left().value)];
        }
        if outcome.Fails? {
          return true;
        }
        i := i + 1;
      }
      raised := false;
    }

    /** The COMPLETE branch. */
    method FinishComplete(node: int, id: int, w: World)
      requires id in backups && backups[id].node == node
      modifies this`backups, this`events
      ensures Snapshot() == CompleteTask(old(Snapshot()), node, id, w)
    {
      var raised := ResetNode(node, id, Complete);
      if raised {
        return;
      }
      var schedule := backups[id].schedule;
      if schedule.Some? && schedule.value in keepLast && keepLast[schedule.value] > 0 {
        raised := ApplyRetention(keepLast[schedule.value], w.order, w.deletion);
        if raised {
          return;
        }
      }
      events := events + [NotifySuccess(id)];
    }

    method PollCloudBackup(p: Poll, w: World)
      modifies this
      ensures Snapshot() == PollTask(old(Snapshot()), p, w)
    {
      if p.node !in nodes {
        return;
      }
      if p.target !in backups || backups[p.target].node != p.node {
        return;
      }
      if Terminal(backups[p.target].status) {
        return;
      }
      var startedAt := match p.startedAt case None => w.begin case Some(t) => t;
      var status := match w.answer case Says(st, _) => st case Raises(_) => InProgress;
      if w.answer.saved {
        backups := backups[p.target := backups[p.target].(status := Complete)];
      }
      if status == Complete {
        FinishComplete(p.node, p.target, w);
        return;
      }
      if status == Failed {
        backups := backups[p.target := backups[p.target].(status := Failed)];
        events := events + [NodeActive(p.node)];
        events := events + [NotifyErrored(p.target)];
        return;
      }
      if w.end - startedAt > p.timeout {
        var raised := ResetNode(p.node, p.target, Timeout);
        if raised {
          return;
        }
        events := events + [NotifyTimedOut(p.target)];
        return;
      }
      queue := queue + [Poll(p.node, p.target, Some(startedAt), p.interval, p.timeout,
                             w.end + p.interval, p.checks + 1)];
    }
  }

  // -----------------------------------------------------------------------------------
  // One check
  // -----------------------------------------------------------------------------------

  /** A check of a row of an existing node changes nothing exactly when it finds it in one of seven statuses;
      of any other row it changes nothing at all. */
  lemma TerminalIsQuiet(s: State, p: Poll, w: World)
    ensures var found := p.node in s.nodes && p.target in s.backups && s.backups[p.target].node == p.node;
            var settled := {Complete, Failed, Timeout, Cancelled, DeleteRequested, DeleteInProgress, DeleteCompleted};
            PollTask(s, p, w) == s <==> !found || s.backups[p.target].status in settled
  {
    if Waiting(s, p) {
      ContinuesOrSettles(s, p, w);
      var t := PollTask(s, p, w);
      if Settles(p, w) {
        SettlingSays(s, p, w);
      } else {
        assert |t.queue| == |s.queue| + 1;
      }
    }
  }

  /** A check that settles its row at least tells the node. */
  lemma SettlingSays(s: State, p: Poll, w: World)
    requires Waiting(s, p) && Settles(p, w)
    ensures |PollTask(s, p, w).events| > |s.events|
  {
    if Reported(w.answer) == Complete {
      CompleteEvents(s, p, w);
    }
  }

  /** An exception of the status check counts as IN_PROGRESS. */
  lemma RaisingMeansInProgress(s: State, p: Poll, w: World, saved: bool)
    ensures PollTask(s, p, w.(answer := Raises(saved))) == PollTask(s, p, w.(answer := Says(InProgress, saved)))
  {
    var a, b := w.(answer := Raises(saved)), w.(answer := Says(InProgress, saved));
    if Waiting(s, p) {
      assert Seen(s, p.target, a.answer) == Seen(s, p.target, b.answer);
    }
  }

  /** The table the retention query sees in the COMPLETE branch. */
  function AtQuery(s: State, p: Poll, w: World): Table
    requires Waiting(s, p)
  {
    MarkByTask(Seen(s, p.target, w.answer).backups, p.target, Complete).GetOr(Seen(s, p.target, w.answer).backups)
  }

  /** Every deletion takes its row out of COMPLETE, and none but the last raises. */
  predicate AllLeave(ids: seq<int>, deletion: Deletions) {
    forall i | 0 <= i < |ids| ::
      Outcome(deletion, ids[i]).TakesOut() && (i < |ids| - 1 ==> Outcome(deletion, ids[i]).EndsIn?)
  }

  /** Deleting rows changes only their statuses and leaves every other row alone. */
  lemma {:induction false} DeleteAllFrame(t: Table, ids: seq<int>, deletion: Deletions)
    ensures var r := DeleteAll(t, ids, deletion).0;
            && r.Keys == t.Keys
            && (forall id | id in t :: r[id] == t[id].(status := r[id].status))
            && (forall id | id in t && id !in ids :: r[id] == t[id])
  {
    if ids != [] {
      var next := DeleteOne(t, ids[0], Outcome(deletion, ids[0]));
      DeleteAllFrame(next, ids[1..], deletion);
      assert forall id | id in ids[1..] :: id in ids;
    }
  }

  /** It takes all of them out of COMPLETE exactly when every deletion moves its row out of COMPLETE. */
  lemma {:induction false} DeleteAllEffect(t: Table, ids: seq<int>, deletion: Deletions)
    requires Distinct(ids) && forall id | id in ids :: id in t && t[id].status == Complete
    ensures var r := DeleteAll(t, ids, deletion).0;
            && r.Keys == t.Keys
            && (AllLeave(ids, deletion) ==> forall id | id in ids :: r[id].status != Complete)
            && (!AllLeave(ids, deletion) ==> exists id | id in ids :: r[id].status == Complete)
  {
    DeleteAllFrame(t, ids, deletion);
    if ids != [] {
      var id, rest := ids[0], ids[1..];
      var next := DeleteOne(t, id, Outcome(deletion, id));
      AllLeaveRest(ids, deletion);
      assert forall x :: x in ids <==> x == id || x in rest;
      if Outcome(deletion, id).EndsIn? {
        DeleteAllEffect(next, rest, deletion);
        DeleteAllFrame(next, rest, deletion);
      } else if rest != [] {
        assert rest[0] in rest && next[rest[0]].status == Complete;
      }
    }
  }

  lemma AllLeaveRest(ids: seq<int>, deletion: Deletions)
    requires Distinct(ids) && ids != []
    ensures Distinct(ids[1..]) && ids[0] !in ids[1..]
    ensures AllLeave(ids, deletion) <==>
              && Outcome(deletion, ids[0]).TakesOut() && (ids[1..] != [] ==> Outcome(deletion, ids[0]).EndsIn?)
              && AllLeave(ids[1..], deletion)
  {
    assert forall i | 0 <= i < |ids[1..]| :: ids[1..][i] == ids[i + 1];
    assert forall i | 1 <= i < |ids| :: ids[i] == ids[1..][i - 1];
  }

  lemma {:induction false} DistinctSetSize(s: seq<int>)
    requires Distinct(s)
    ensures |set x | x in s| == |s|
  {
    if s != [] {
      var init := s[..|s| - 1];
      var last := s[|s| - 1];
      DistinctSetSize(init);
      assert (set x | x in s) == (set x | x in init) + {last};
      assert last !in init;
    }
  }

  lemma SplitOrder(order: seq<int>, keep: nat)
    ensures order == AllButLast(order, keep) + Newest(order, keep)
    ensures |Newest(order, keep)| == Min(|order|, keep)
    ensures Distinct(order) ==>
              && Distinct(AllButLast(order, keep)) && Distinct(Newest(order, keep))
              && forall x | x in Newest(order, keep) :: x !in AllButLast(order, keep)
    ensures forall x :: x in order <==> x in AllButLast(order, keep) || x in Newest(order, keep)
  {
    var a, b := AllButLast(order, keep), Newest(order, keep);
    assert order == a + b;
    if Distinct(order) {
      forall i, j | 0 <= i < |a| && 0 <= j < |b| ensures a[i] != b[j] {
        assert order[i] == a[i] && order[|a| + j] == b[j];
      }
      assert forall i | 0 <= i < |b| :: b[i] == order[|a| + i];
    }
  }

  /** Whether this check runs the retention rule of a schedule. */
  predicate Retains(s: State, p: Poll, w: World) {
    && Waiting(s, p) && Reported(w.answer) == Complete && Keep(s, p.target) > 0
    && MarkByTask(Seen(s, p.target, w.answer).backups, p.target, Complete).Some?
  }

  /** A COMPLETE check on a schedule with keep_last = k: its COMPLETE rows end up being exactly
      the k newest of those the query saw (all of them when there are fewer) if and only if every
      deletion moved its row out of COMPLETE; otherwise more than k are left. No row that is not
      one of the older ones is touched by the retention. */
  lemma RetentionKeepsNewest(s: State, p: Poll, w: World)
    requires Retains(s, p, w)
    requires IsQueryResult(AtQuery(s, p, w), s.backups[p.target].schedule.value, w.order)
    ensures var sched := s.backups[p.target].schedule.value;
            var keep := Keep(s, p.target);
            var t := PollTask(s, p, w).backups;
            var gone := AllButLast(w.order, keep);
            && (AllLeave(gone, w.deletion) <==> |CompleteOf(t, sched)| <= keep)
            && (AllLeave(gone, w.deletion) ==>
                  && (forall x :: x in CompleteOf(t, sched) <==> x in Newest(w.order, keep))
                  && |CompleteOf(t, sched)| == Min(keep, |w.order|)
                  && (forall x, y | x in gone && y in Newest(w.order, keep) ::
                        s.backups[x].created <= s.backups[y].created))
            && (forall x | x in s.backups && x !in gone :: x in t && t[x] == AtQuery(s, p, w)[x])
  {
    RetainTable(s, p, w);
    RetentionOnTable(AtQuery(s, p, w), s.backups[p.target].schedule.value, w.order, Keep(s, p.target), w.deletion);
  }

  lemma RetentionOnTable(b: Table, sched: int, order: seq<int>, keep: nat, deletion: Deletions)
    requires IsQueryResult(b, sched, order)
    ensures var t := DeleteAll(b, AllButLast(order, keep), deletion).0;
            var gone := AllButLast(order, keep);
            && (AllLeave(gone, deletion) ==>
                  && (forall x :: x in CompleteOf(t, sched) <==> x in Newest(order, keep))
                  && |CompleteOf(t, sched)| == Min(keep, |order|)
                  && (forall x, y | x in gone && y in Newest(order, keep) :: b[x].created <= b[y].created))
            && (!AllLeave(gone, deletion) ==> keep < |CompleteOf(t, sched)|)
            && (forall x | x in b && x !in gone :: x in t && t[x] == b[x])
  {
    KeptStayComplete(b, sched, order, keep, deletion);
    OlderThanKept(b, sched, order, keep);
    CompleteSize(CompleteOf(DeleteAll(b, AllButLast(order, keep), deletion).0, sched),
                 AllButLast(order, keep), Newest(order, keep));
  }

  /** `complete` holds all of `kept` and possibly some of `gone`. */
  lemma CompleteSize(complete: set<int>, gone: seq<int>, kept: seq<int>)
    requires forall x | x in complete :: x in gone || x in kept
    requires forall x | x in kept :: x in complete && x !in gone
    ensures (forall x | x in gone :: x !in complete) ==> complete == (set x | x in kept)
    ensures (exists x :: x in gone && x in complete) ==> |set x | x in kept| < |complete|
  {
    var keptSet := set x | x in kept;
    if x :| x in gone && x in complete {
      forall y | y in keptSet + {x} ensures y in complete {
      }
      SubsetSize(keptSet + {x}, complete);
    } else {
      forall y ensures y in complete <==> y in keptSet {
      }
      assert complete == keptSet;
    }
  }

  lemma KeptStayComplete(b: Table, sched: int, order: seq<int>, keep: nat, deletion: Deletions)
    requires IsQueryResult(b, sched, order)
    ensures var t := DeleteAll(b, AllButLast(order, keep), deletion).0;
            var gone, kept := AllButLast(order, keep), Newest(order, keep);
            && (forall x | x in b && x !in gone :: x in t && t[x] == b[x])
            && (forall x | x in CompleteOf(t, sched) :: x in gone || x in kept)
            && (forall x | x in kept :: x in CompleteOf(t, sched) && x !in gone)
            && |set x | x in kept| == Min(keep, |order|)
            && (AllLeave(gone, deletion) ==> forall x | x in gone :: x !in CompleteOf(t, sched))
            && (!AllLeave(gone, deletion) ==> keep < |order| && exists x :: x in gone && x in CompleteOf(t, sched))
  {
    var gone, kept := AllButLast(order, keep), Newest(order, keep);
    SplitOrder(order, keep);
    forall x | x in order ensures x in b && x in CompleteOf(b, sched) {
    }
    DeleteAllEffect(b, gone, deletion);
    DeleteAllFrame(b, gone, deletion);
    var t := DeleteAll(b, gone, deletion).0;
    DistinctSetSize(kept);
    forall x | x in CompleteOf(t, sched) && x !in gone ensures x in kept {
      assert t[x] == b[x] && x in CompleteOf(b, sched);
    }
    if !AllLeave(gone, deletion) {
      var stuck :| stuck in gone && t[stuck].status == Complete;
      assert stuck in order && stuck in CompleteOf(t, sched);
    }
  }

  lemma OlderThanKept(b: Table, sched: int, order: seq<int>, keep: nat)
    requires IsQueryResult(b, sched, order)
    ensures forall x, y | x in AllButLast(order, keep) && y in Newest(order, keep) ::
              x in b && y in b && b[x].created <= b[y].created
  {
    var gone, kept := AllButLast(order, keep), Newest(order, keep);
    forall x, y | x in gone && y in kept ensures x in b && y in b && b[x].created <= b[y].created {
      var i :| 0 <= i < |gone| && gone[i] == x;
      var j :| 0 <= j < |kept| && kept[j] == y;
      OlderThanKeptAt(b, sched, order, keep, i, j);
    }
  }

  lemma OlderThanKeptAt(b: Table, sched: int, order: seq<int>, keep: nat, i: nat, j: nat)
    requires IsQueryResult(b, sched, order)
    requires i < |AllButLast(order, keep)| && j < |Newest(order, keep)|
    ensures var x, y := AllButLast(order, keep)[i], Newest(order, keep)[j];
            x in b && y in b && b[x].created <= b[y].created
  {
    var k := |order| - keep + j;
    assert AllButLast(order, keep)[i] == order[i] && Newest(order, keep)[j] == order[k];
    assert order[i] in order && order[k] in order;
  }

  lemma SubsetSize(a: set<int>, b: set<int>)
    requires a <= b
    ensures |a| <= |b|
  {
    assert b == a + (b - a);
  }

  /** The lookup by task id finds the row and another one, and raises. */
  predicate Ambiguous(t: Table, id: int)
    requires id in t
  {
    t[id].taskId != "" && SharesTask(t, id)
  }

  /** A reset does not reach the row: it has no task id, or an ambiguous one. */
  predicate Unmarked(t: Table, id: int)
    requires id in t
  {
    t[id].taskId == "" || Ambiguous(t, id)
  }

  predicate IsLate(p: Poll, w: World) {
    w.end - p.startedAt.GetOr(w.begin) > p.timeout
  }

  /** poll_status saved COMPLETE on the row, and nothing after it ran retention or marked the row again. */
  predicate Slips(s: State, p: Poll, w: World) {
    && Waiting(s, p) && w.answer.saved && Reported(w.answer) != Failed
    && if Reported(w.answer) == Complete then Ambiguous(s.backups, p.target)
       else IsLate(p, w) ==> Unmarked(s.backups, p.target)
  }

  /** A check that runs no retention changes at most the status of its own row; on a schedule with a
      retention rule it leaves its row COMPLETE exactly when it slips. */
  lemma QuietTable(s: State, p: Poll, w: World)
    requires !Retains(s, p, w)
    ensures var t := PollTask(s, p, w).backups;
            if Waiting(s, p) then
              && p.target in t && t == WithStatus(s.backups, p.target, t[p.target].status)
              && (Keep(s, p.target) > 0 ==> (t[p.target].status == Complete <==> Slips(s, p, w)))
            else t == s.backups
  {
    if Waiting(s, p) {
      var seen := Seen(s, p.target, w.answer);
      SeenSharesTask(s, p.target, w.answer);
      assert seen.backups == WithStatus(s.backups, p.target, seen.backups[p.target].status);
      if Reported(w.answer) == Complete {
        assert Keep(seen, p.target) == Keep(s, p.target);
      }
    }
  }

  /** What poll_status saves does not change which rows share a task id. */
  lemma SeenSharesTask(s: State, id: int, answer: Answer)
    requires id in s.backups
    ensures SharesTask(Seen(s, id, answer).backups, id) <==> SharesTask(s.backups, id)
    ensures Seen(s, id, answer).backups[id] == s.backups[id].(status := Seen(s, id, answer).backups[id].status)
  {
    var b := Seen(s, id, answer).backups;
    assert forall x | x in b :: b[x].node == s.backups[x].node && b[x].taskId == s.backups[x].taskId;
  }

  /** A check touches its own row and rows of its own schedule, nothing else; and a row already in
      a listed terminal status only ever leaves it by being deleted from COMPLETE. */
  lemma CheckIsLocal(s: State, p: Poll, w: World, id: int)
    requires id in s.backups
    requires Retains(s, p, w) ==>
      IsQueryResult(AtQuery(s, p, w), s.backups[p.target].schedule.value, w.order)
    ensures var t := PollTask(s, p, w).backups;
            && id in t
            && t[id] == s.backups[id].(status := t[id].status)
            && (t[id] != s.backups[id] ==>
                  && Waiting(s, p)
                  && (id == p.target ||
                        (s.backups[id].schedule == s.backups[p.target].schedule && s.backups[id].status == Complete)))
  {
    if Retains(s, p, w) {
      var b := AtQuery(s, p, w);
      var gone := AllButLast(w.order, Keep(s, p.target));
      SplitOrder(w.order, Keep(s, p.target));
      forall x | x in gone ensures x in b && b[x].status == Complete {
        assert x in CompleteOf(b, s.backups[p.target].schedule.value);
      }
      DeleteAllFrame(b, gone, w.deletion);
      if id in gone {
        assert id in w.order;
        assert id in CompleteOf(b, s.backups[p.target].schedule.value);
      }
      RetainTable(s, p, w);
    } else {
      QuietTable(s, p, w);
    }
  }

  lemma RetainTable(s: State, p: Poll, w: World)
    requires Retains(s, p, w)
    ensures PollTask(s, p, w).backups
         == DeleteAll(AtQuery(s, p, w), AllButLast(w.order, Keep(s, p.target)), w.deletion).0
    ensures AtQuery(s, p, w) == s.backups[p.target := s.backups[p.target].(status := AtQuery(s, p, w)[p.target].status)]
    ensures s.backups[p.target].schedule.Some?
  {
    assert Keep(Seen(s, p.target, w.answer), p.target) == Keep(s, p.target);
  }

  function IsAbout(e: Event, id: int): nat {
    if e == NotifySuccess(id) || e == NotifyErrored(id) || e == NotifyTimedOut(id) then 1 else 0
  }

  function Notices(events: seq<Event>, id: int): nat {
    if events == [] then 0 else Notices(events[..|events| - 1], id) + IsAbout(events[|events| - 1], id)
  }

  lemma NoticesPush(events: seq<Event>, e: Event, id: int)
    ensures Notices(events + [e], id) == Notices(events, id) + IsAbout(e, id)
  {
    assert (events + [e])[..|events|] == events;
  }

  // -----------------------------------------------------------------------------------
  // How a check ends
  // -----------------------------------------------------------------------------------

  /** The rows the retention rule of this check gives up. */
  function Gone(s: State, id: int, w: World): seq<int>
    requires id in s.backups
  {
    if Keep(s, id) > 0 then AllButLast(w.order, Keep(s, id)) else []
  }

  predicate NoneRaises(ids: seq<int>, deletion: Deletions) {
    forall i | 0 <= i < |ids| :: Outcome(deletion, ids[i]).EndsIn?
  }

  /** The loop over `ids` comes to `id` and changes its status. */
  predicate Reaches(ids: seq<int>, deletion: Deletions, id: int) {
    && Outcome(deletion, id).Left().Some?
    && exists i | 0 <= i < |ids| :: ids[i] == id && forall j | 0 <= j < i :: Outcome(deletion, ids[j]).EndsIn?
  }

  predicate Settles(p: Poll, w: World) {
    Reported(w.answer) == Complete || Reported(w.answer) == Failed || IsLate(p, w)
  }

  /** Nothing raises before the notification: on a FAILED answer nothing can; otherwise the lookup by task
      id is not ambiguous and, on a COMPLETE one, no deletion raises. */
  predicate Told(s: State, p: Poll, w: World)
    requires Waiting(s, p)
  {
    || Reported(w.answer) == Failed
    || (&& !Ambiguous(s.backups, p.target)
        && (Reported(w.answer) == Complete ==> NoneRaises(Gone(s, p.target, w), w.deletion)))
  }

  /** The check deletes its own row. */
  predicate DeletesItself(s: State, p: Poll, w: World)
    requires Waiting(s, p)
  {
    && Reported(w.answer) == Complete && !Ambiguous(s.backups, p.target)
    && Reaches(Gone(s, p.target, w), w.deletion, p.target)
  }

  /** The row a settling check leaves open: deleted into a status that is not terminal, or neither
      reached by a reset nor saved by poll_status. */
  predicate LeftOpen(s: State, p: Poll, w: World)
    requires Waiting(s, p)
  {
    && Reported(w.answer) != Failed
    && if DeletesItself(s, p, w) then !Terminal(Outcome(w.deletion, p.target).Left().value)
       else Unmarked(s.backups, p.target) && !w.answer.saved
  }

  /** Every check of a waiting row either queues exactly one successor and says nothing, or queues
      none. It then says one thing about its row exactly when nothing raised before that, and nothing
      otherwise; and the row, for which no check is queued any more, is still open exactly in the cases
      LeftOpen names. */
  lemma ContinuesOrSettles(s: State, p: Poll, w: World)
    requires Waiting(s, p)
    ensures var t := PollTask(s, p, w);
            && p.target in t.backups
            && (t.queue == s.queue <==> Settles(p, w))
            && (!Settles(p, w) ==>
                  t.queue == s.queue + [Requeue(p, p.startedAt.GetOr(w.begin), w.end)] && t.events == s.events)
            && Notices(t.events, p.target) == Notices(s.events, p.target)
                 + (if Settles(p, w) && Told(s, p, w) then 1 else 0)
            && (Settles(p, w) ==> (!Terminal(t.backups[p.target].status) <==> LeftOpen(s, p, w)))
  {
    var seen := Seen(s, p.target, w.answer);
    SeenSharesTask(s, p.target, w.answer);
    if Reported(w.answer) == Complete {
      CompleteSettles(s, p, w);
    } else if Reported(w.answer) == Failed {
      FailureSettles(seen, p.node, p.target);
    } else if IsLate(p, w) {
      TimeoutSettles(seen, p.node, p.target);
    } else {
      assert |PollTask(s, p, w).queue| == |s.queue| + 1;
    }
  }

  /** How a check that is not cut short by an exception settles its row is decided by what was reported
      and, for an unfinished snapshot, by the time. */
  lemma AnswerDecides(s: State, p: Poll, w: World)
    requires Waiting(s, p) && Settles(p, w) && Told(s, p, w)
    ensures var t := PollTask(s, p, w);
            && p.target in t.backups && t.events != []
            && var last, status := t.events[|t.events| - 1], t.backups[p.target].status;
            if Reported(w.answer) == Complete then
              && last == NotifySuccess(p.target)
              && (DeletesItself(s, p, w) ==> status == Outcome(w.deletion, p.target).Left().value)
              && (!DeletesItself(s, p, w) && !Unmarked(s.backups, p.target) ==> status == Complete)
            else if Reported(w.answer) == Failed then last == NotifyErrored(p.target) && status == Failed
            else last == NotifyTimedOut(p.target) && (!Unmarked(s.backups, p.target) ==> status == Timeout)
  {
    SeenSharesTask(s, p.target, w.answer);
    if Reported(w.answer) == Complete {
      CompleteSettles(s, p, w);
    }
  }

  lemma FailureSettles(s: State, node: int, id: int)
    requires id in s.backups
    ensures var t := FailTask(s, node, id);
            && t.queue == s.queue && id in t.backups && t.backups[id].status == Failed
            && Notices(t.events, id) == Notices(s.events, id) + 1
  {
    NoticesPush(s.events, NodeActive(node), id);
    NoticesPush(s.events + [NodeActive(node)], NotifyErrored(id), id);
  }

  lemma TimeoutSettles(s: State, node: int, id: int)
    requires id in s.backups
    ensures var t := TimeoutTask(s, node, id);
            && t.queue == s.queue && id in t.backups
            && t.backups[id].status == (if Unmarked(s.backups, id) then s.backups[id].status else Timeout)
            && Notices(t.events, id) == Notices(s.events, id) + (if Ambiguous(s.backups, id) then 0 else 1)
  {
    NoticesPush(s.events, NodeActive(node), id);
    NoticesPush(s.events + [NodeActive(node)], NotifyTimedOut(id), id);
  }

  lemma CompleteSettles(s: State, p: Poll, w: World)
    requires Waiting(s, p) && Reported(w.answer) == Complete
    ensures var t := PollTask(s, p, w);
            && t.queue == s.queue && p.target in t.backups
            && Notices(t.events, p.target) == Notices(s.events, p.target) + (if Told(s, p, w) then 1 else 0)
            && (Told(s, p, w) ==> t.events != [] && t.events[|t.events| - 1] == NotifySuccess(p.target))
            && t.backups[p.target].status ==
                 (if DeletesItself(s, p, w) then Outcome(w.deletion, p.target).Left().value
                  else if Unmarked(s.backups, p.target) && !w.answer.saved then s.backups[p.target].status
                  else Complete)
  {
    CompleteEvents(s, p, w);
    NoticesPush(s.events, NodeActive(p.node), p.target);
    NoticesPush(s.events + [NodeActive(p.node)], NotifySuccess(p.target), p.target);
  }

  lemma CompleteEvents(s: State, p: Poll, w: World)
    requires Waiting(s, p) && Reported(w.answer) == Complete
    ensures var t, active := PollTask(s, p, w), s.events + [NodeActive(p.node)];
            && t.queue == s.queue && p.target in t.backups
            && t.events == (if Told(s, p, w) then active + [NotifySuccess(p.target)] else active)
            && t.backups[p.target].status ==
                 (if DeletesItself(s, p, w) then Outcome(w.deletion, p.target).Left().value
                  else if Unmarked(s.backups, p.target) && !w.answer.saved then s.backups[p.target].status
                  else Complete)
  {
    var seen := Seen(s, p.target, w.answer);
    SeenSharesTask(s, p.target, w.answer);
    CompleteTaskEnds(seen, p.node, p.target, w);
    assert Gone(seen, p.target, w) == Gone(s, p.target, w);
  }

  lemma CompleteTaskEnds(s: State, node: int, id: int, w: World)
    requires id in s.backups
    ensures var t := CompleteTask(s, node, id, w);
            var active := s.events + [NodeActive(node)];
            && t.queue == s.queue && id in t.backups
            && t.events == (if Ambiguous(s.backups, id) || !NoneRaises(Gone(s, id, w), w.deletion) then active
                            else active + [NotifySuccess(id)])
            && t.backups[id].status ==
                 (if Ambiguous(s.backups, id) then s.backups[id].status
                  else if Reaches(Gone(s, id, w), w.deletion, id) then Outcome(w.deletion, id).Left().value
                  else if s.backups[id].taskId == "" then s.backups[id].status
                  else Complete)
  {
    if !Ambiguous(s.backups, id) {
      var marked := Log(s, NodeActive(node)).(backups := MarkByTask(s.backups, id, Complete).value);
      RetainReaches(marked, id, w);
      assert Gone(marked, id, w) == Gone(s, id, w);
    }
  }

  lemma RetainReaches(s: State, id: int, w: World)
    requires id in s.backups
    ensures var (r, finished) := Retain(s, id, w);
            && (finished <==> NoneRaises(Gone(s, id, w), w.deletion))
            && id in r
            && r[id].status == (if Reaches(Gone(s, id, w), w.deletion, id) then Outcome(w.deletion, id).Left().value
                                else s.backups[id].status)
  {
    DeletionsReach(s.backups, Gone(s, id, w), w.deletion, id);
  }

  lemma {:induction false} DeletionsReach(t: Table, ids: seq<int>, deletion: Deletions, id: int)
    requires id in t
    ensures var (r, finished) := DeleteAll(t, ids, deletion);
            && (finished <==> NoneRaises(ids, deletion))
            && id in r
            && r[id].status == (if Reaches(ids, deletion, id) then Outcome(deletion, id).Left().value else t[id].status)
  {
    if ids != [] {
      if Outcome(deletion, ids[0]).EndsIn? {
        DeletionsReach(DeleteOne(t, ids[0], Outcome(deletion, ids[0])), ids[1..], deletion, id);
      }
      ReachesRest(ids, deletion, id);
    }
  }

  /** A row that is deleted ends in the status its deletion says: the listed one, or the one saved before it
      raised; a row whose deletion is not listed is deleted normally. */
  lemma DeletedAsSaid(t: Table, id: int, deletion: Deletions, status: Status)
    requires id in t
    ensures var r := DeleteAll(t, [id], deletion).0;
            && id in r
            && (id in deletion && deletion[id] == EndsIn(status) ==> r[id].status == status)
            && (id in deletion && deletion[id] == Fails(Some(status)) ==> r[id].status == status)
            && (id in deletion && deletion[id] == Fails(None) ==> r == t)
            && (id !in deletion ==> r[id].status == DeleteCompleted)
  {
    assert [id][1..] == [];
    assert DeleteAll(t, [id], deletion).0 == DeleteOne(t, id, Outcome(deletion, id));
  }

  lemma ReachesRest(ids: seq<int>, deletion: Deletions, id: int)
    requires ids != []
    ensures var d := Outcome(deletion, ids[0]);
            && (Reaches(ids, deletion, id) <==>
                  || (ids[0] == id && d.Left().Some?)
                  || (d.EndsIn? && Reaches(ids[1..], deletion, id)))
            && (NoneRaises(ids, deletion) <==> d.EndsIn? && NoneRaises(ids[1..], deletion))
  {
    var d, rest := Outcome(deletion, ids[0]), ids[1..];
    assert forall i | 0 <= i < |rest| :: rest[i] == ids[i + 1];
    assert forall i | 1 <= i < |ids| :: ids[i] == rest[i - 1];
    if d.EndsIn? && Reaches(rest, deletion, id) {
      var i :| 0 <= i < |rest| && rest[i] == id && forall j | 0 <= j < i :: Outcome(deletion, rest[j]).EndsIn?;
      assert ids[i + 1] == id && forall j | 0 <= j < i + 1 :: Outcome(deletion, ids[j]).EndsIn?;
    }
    if Reaches(ids, deletion, id) && ids[0] != id {
      var i :| 0 <= i < |ids| && ids[i] == id && forall j | 0 <= j < i :: Outcome(deletion, ids[j]).EndsIn?;
      assert rest[i - 1] == id && forall j | 0 <= j < i - 1 :: Outcome(deletion, rest[j]).EndsIn?;
    }
  }

  // -----------------------------------------------------------------------------------
  // Runs
  // -----------------------------------------------------------------------------------

  /** `Launch` is a provider task creating a row and queueing its first check (a retried launch
      queues another one for the same row); `Move` is any other change of a row's status (a
      cancellation, a delete request, a retry reset, ...). Deliveries take any queued check. */
  datatype Step =
    | Launch(id: int, backup: Backup, now: int)
    | Relaunch(id: int, now: int)
    | Deliver(i: nat, world: World)
    | Move(id: int, status: Status)

  ghost predicate Enabled(s: State, step: Step) {
    match step
    case Launch(id, b, _) => id !in s.backups && b.status == InProgress
    case Relaunch(id, _) => id in s.backups
    case Deliver(i, w) =>
      && i < |s.queue| && s.queue[i].due <= w.begin <= w.end
      && AnswersQuery(s, s.queue[i], w)
    case Move(id, status) => id in s.backups && status != Complete
  }

  /** The retention query, if the check makes it, returns what it asks for. */
  ghost predicate AnswersQuery(s: State, p: Poll, w: World) {
    Retains(s, p, w) ==> IsQueryResult(AtQuery(s, p, w), s.backups[p.target].schedule.value, w.order)
  }

  function After(s: State, step: Step): State {
    match step
    case Launch(id, b, now) =>
      s.(backups := s.backups[id := b], queue := s.queue + [FirstPoll(b.node, id, now)])
    case Relaunch(id, now) =>
      if id in s.backups then s.(queue := s.queue + [FirstPoll(s.backups[id].node, id, now)]) else s
    case Deliver(i, w) =>
      if i < |s.queue| then PollTask(s.(queue := Without(s.queue, i)), s.queue[i], w) else s
    case Move(id, status) =>
      if id in s.backups then s.(backups := WithStatus(s.backups, id, status)) else s
  }

  /** A launched snapshot is there, in progress, and its first check is queued for a minute later. */
  lemma LaunchQueuesFirstCheck(s: State, id: int, b: Backup, now: int)
    requires Enabled(s, Launch(id, b, now))
    ensures var t := After(s, Launch(id, b, now));
            && t.backups == s.backups[id := b] && b.status == InProgress
            && |t.queue| == |s.queue| + 1 && t.queue[..|s.queue|] == s.queue
            && var q := t.queue[|s.queue|];
            q.node == b.node && q.target == id && q.startedAt == None && q.due == now + 60
    ensures After(After(s, Launch(id, b, now)), Relaunch(id, now)).queue
         == After(s, Launch(id, b, now)).queue + [After(s, Launch(id, b, now)).queue[|s.queue|]]
  {
  }

  ghost predicate IsRun(states: seq<State>, steps: seq<Step>) {
    && |states| == |steps| + 1
    && forall i :: 0 <= i < |steps| ==> Enabled(states[i], steps[i]) && states[i + 1] == After(states[i], steps[i])
  }

  /** No schedule with a retention rule holds more COMPLETE backups than the rule keeps. */
  ghost predicate WithinLimits(s: State) {
    forall sched | sched in s.keepLast && s.keepLast[sched] > 0 ::
      |CompleteOf(s.backups, sched)| <= s.keepLast[sched]
  }

  /** What takes a schedule over its limit: a row that slips past retention when the schedule is full, or
      a deletion of an older row that does not take it out of COMPLETE. */
  predicate Overfills(s: State, p: Poll, w: World) {
    || (&& Slips(s, p, w) && Keep(s, p.target) > 0
        && |CompleteOf(s.backups, s.backups[p.target].schedule.value)| == Keep(s, p.target))
    || (Retains(s, p, w) && !AllLeave(AllButLast(w.order, Keep(s, p.target)), w.deletion))
  }

  /** A row that slips is COMPLETE, no retention has run, and none will: nobody is told, and the successor
      that may be queued finds a terminal row. */
  lemma LateFailureSkipsRetention(s: State, p: Poll, w: World, later: World)
    requires Slips(s, p, w) && Keep(s, p.target) > 0
    ensures var t := PollTask(s, p, w);
            var sched := s.backups[p.target].schedule.value;
            && CompleteOf(t.backups, sched) == CompleteOf(s.backups, sched) + {p.target}
            && |CompleteOf(t.backups, sched)| == |CompleteOf(s.backups, sched)| + 1
            && (!Settles(p, w) ==>
                  && Notices(t.events, p.target) == Notices(s.events, p.target)
                  && PollTask(t, t.queue[|t.queue| - 1], later) == t)
  {
    var sched := s.backups[p.target].schedule.value;
    var t := PollTask(s, p, w);
    SlipsDoNotRetain(s, p, w);
    QuietTable(s, p, w);
    forall x ensures x in CompleteOf(t.backups, sched) <==> x in CompleteOf(s.backups, sched) || x == p.target {
    }
    assert CompleteOf(t.backups, sched) == CompleteOf(s.backups, sched) + {p.target};
    assert p.target !in CompleteOf(s.backups, sched);
  }

  lemma SlipsDoNotRetain(s: State, p: Poll, w: World)
    requires Slips(s, p, w)
    ensures !Retains(s, p, w)
  {
    SeenSharesTask(s, p.target, w.answer);
  }

  /** A check completes no row of a limited schedule unless it runs that schedule's retention or its row
      slips. */
  lemma CompletesNothing(s: State, p: Poll, w: World, sched: int)
    requires AnswersQuery(s, p, w) && sched in s.keepLast && s.keepLast[sched] > 0
    requires Retains(s, p, w) || Slips(s, p, w) ==> s.backups[p.target].schedule != Some(sched)
    ensures |CompleteOf(PollTask(s, p, w).backups, sched)| <= |CompleteOf(s.backups, sched)|
  {
    var t := PollTask(s, p, w).backups;
    forall id | id in CompleteOf(t, sched)
      ensures id in CompleteOf(s.backups, sched)
    {
      TableKeysKept(s, p, w);
      CheckIsLocal(s, p, w, id);
      if !Retains(s, p, w) {
        QuietTable(s, p, w);
      }
    }
    SubsetSize(CompleteOf(t, sched), CompleteOf(s.backups, sched));
  }

  lemma TableKeysKept(s: State, p: Poll, w: World)
    ensures PollTask(s, p, w).backups.Keys == s.backups.Keys
  {
    if Retains(s, p, w) {
      RetainTable(s, p, w);
      DeleteAllFrame(AtQuery(s, p, w), AllButLast(w.order, Keep(s, p.target)), w.deletion);
    } else {
      QuietTable(s, p, w);
    }
  }

  /** A check keeps every schedule within its limit if and only if it does not overfill its own. */
  lemma CheckKeepsLimitsExactly(s: State, p: Poll, w: World)
    requires WithinLimits(s) && AnswersQuery(s, p, w)
    ensures WithinLimits(PollTask(s, p, w)) <==> !Overfills(s, p, w)
  {
    var t := PollTask(s, p, w);
    KeepLastKept(s, p, w);
    if Retains(s, p, w) {
      RetentionKeepsNewest(s, p, w);
      assert !Slips(s, p, w) by { if Slips(s, p, w) { SlipsDoNotRetain(s, p, w); } }
    } else if Slips(s, p, w) && Keep(s, p.target) > 0 {
      LateFailureSkipsRetention(s, p, w, w);
    }
    forall sched | sched in s.keepLast && s.keepLast[sched] > 0 && !OwnRule(s, p, sched)
      ensures |CompleteOf(t.backups, sched)| <= s.keepLast[sched]
    {
      CompletesNothing(s, p, w, sched);
    }
    if Waiting(s, p) && Keep(s, p.target) > 0 && !Retains(s, p, w) && !Slips(s, p, w) {
      CompletesNothing(s, p, w, s.backups[p.target].schedule.value);
    }
  }

  predicate OwnRule(s: State, p: Poll, sched: int) {
    Waiting(s, p) && s.backups[p.target].schedule == Some(sched)
  }

  lemma KeepLastKept(s: State, p: Poll, w: World)
    ensures PollTask(s, p, w).keepLast == s.keepLast
  {
  }

  predicate StepOverfills(s: State, step: Step) {
    step.Deliver? && step.i < |s.queue| && Overfills(s.(queue := Without(s.queue, step.i)), s.queue[step.i], step.world)
  }

  /** The same for every step: only a check that overfills its schedule breaks a limit. */
  lemma StepKeepsLimitsExactly(s: State, step: Step)
    requires WithinLimits(s) && Enabled(s, step)
    ensures WithinLimits(After(s, step)) <==> !StepOverfills(s, step)
  {
    if step.Deliver? {
      CheckKeepsLimitsExactly(s.(queue := Without(s.queue, step.i)), s.queue[step.i], step.world);
    } else {
      var t := After(s, step);
      forall sched | sched in t.keepLast && t.keepLast[sched] > 0
        ensures |CompleteOf(t.backups, sched)| <= t.keepLast[sched]
      {
        OtherStepsCompleteNothing(s, step, sched);
        assert sched in s.keepLast && s.keepLast[sched] > 0;
      }
    }
  }

  lemma OtherStepsCompleteNothing(s: State, step: Step, sched: int)
    requires !step.Deliver? && Enabled(s, step)
    ensures |CompleteOf(After(s, step).backups, sched)| <= |CompleteOf(s.backups, sched)|
  {
    var t := After(s, step);
    forall id | id in CompleteOf(t.backups, sched) ensures id in CompleteOf(s.backups, sched) {
      assert t.backups[id].status == Complete;
    }
    SubsetSize(CompleteOf(t.backups, sched), CompleteOf(s.backups, sched));
  }

  ghost predicate AlwaysWithinLimits(states: seq<State>) {
    forall k | 0 <= k < |states| :: WithinLimits(states[k])
  }

  ghost predicate NeverOverfills(states: seq<State>, steps: seq<Step>)
    requires |states| == |steps| + 1
  {
    forall k | 0 <= k < |steps| :: !StepOverfills(states[k], steps[k])
  }

  /** Every interleaving of launches, checks and other status changes that starts within the limits stays
      within them throughout if and only if no check of it overfills its schedule. */
  lemma {:induction false} RetentionHoldsOverRuns(states: seq<State>, steps: seq<Step>)
    requires IsRun(states, steps) && WithinLimits(states[0])
    ensures AlwaysWithinLimits(states) <==> NeverOverfills(states, steps)
    decreases |steps|
  {
    if steps != [] {
      var n := |steps| - 1;
      var before, earlier := states[..n + 1], steps[..n];
      assert forall k | 0 <= k <= n :: before[k] == states[k];
      assert forall k | 0 <= k < n :: earlier[k] == steps[k];
      RetentionHoldsOverRuns(before, earlier);
      if AlwaysWithinLimits(before) {
        assert WithinLimits(before[n]);
        StepKeepsLimitsExactly(states[n], steps[n]);
        RunWithinLimits(states, before);
      } else {
        var k :| 0 <= k < |before| && !WithinLimits(before[k]);
        assert !WithinLimits(states[k]);
      }
      RunOverfills(states, steps);
    }
  }

  lemma RunWithinLimits(states: seq<State>, before: seq<State>)
    requires states != [] && before == states[..|states| - 1] && AlwaysWithinLimits(before)
    ensures AlwaysWithinLimits(states) <==> WithinLimits(states[|states| - 1])
  {
    assert forall k | 0 <= k < |before| :: before[k] == states[k];
  }

  lemma RunOverfills(states: seq<State>, steps: seq<Step>)
    requires |states| == |steps| + 1 && steps != []
    ensures var n := |steps| - 1;
            NeverOverfills(states, steps) <==>
              NeverOverfills(states[..n + 1], steps[..n]) && !StepOverfills(states[n], steps[n])
  {
    var n := |steps| - 1;
    assert forall k | 0 <= k < n :: states[..n + 1][k] == states[k] && steps[..n][k] == steps[k];
  }

  // -----------------------------------------------------------------------------------
  // Notices over runs
  // -----------------------------------------------------------------------------------

  predicate IsNoticeOf(e: Event, id: int) {
    e == NotifySuccess(id) || e == NotifyErrored(id) || e == NotifyTimedOut(id)
  }

  /** All a check can say: that the node is active, and then one thing about its row. */
  lemma CheckSays(s: State, p: Poll, w: World)
    ensures var es, active := PollTask(s, p, w).events, s.events + [NodeActive(p.node)];
            || es == s.events || es == active
            || (|es| == |active| + 1 && es == active + [es[|active|]] && IsNoticeOf(es[|active|], p.target))
  {
    if Waiting(s, p) && Reported(w.answer) == Complete {
      CompleteEvents(s, p, w);
    }
  }

  /** A check says nothing about any row but its own. */
  lemma OthersUnheard(s: State, p: Poll, w: World, id: int)
    requires id != p.target
    ensures Notices(PollTask(s, p, w).events, id) == Notices(s.events, id)
  {
    var es, active := PollTask(s, p, w).events, s.events + [NodeActive(p.node)];
    CheckSays(s, p, w);
    NoticesPush(s.events, NodeActive(p.node), id);
    if |es| == |active| + 1 {
      NoticesPush(active, es[|active|], id);
    }
  }

  /** No row in a terminal status goes back to an open one. */
  ghost predicate StaysTerminal(s: Table, t: Table) {
    forall x | x in s && Terminal(s[x].status) :: x in t && Terminal(t[x].status)
  }

  /** The check of this step, if it settles its row, leaves it terminal. */
  predicate ClosesItsRow(s: State, step: Step) {
    step.Deliver? && step.i < |s.queue| && Waiting(s, s.queue[step.i]) && Settles(s.queue[step.i], step.world) ==>
      !LeftOpen(s, s.queue[step.i], step.world)
  }

  ghost predicate Orderly(s: State, step: Step) {
    ClosesItsRow(s, step) && StaysTerminal(s.backups, After(s, step).backups)
  }

  /** Nothing was said about a row, or one thing, and it is settled. */
  predicate SaidOnce(s: State, id: int) {
    || Notices(s.events, id) == 0
    || (Notices(s.events, id) == 1 && id in s.backups && Terminal(s.backups[id].status))
  }

  lemma OrderlyCheckSaysOnce(s: State, p: Poll, w: World, id: int)
    requires SaidOnce(s, id) && StaysTerminal(s.backups, PollTask(s, p, w).backups)
    requires Waiting(s, p) && Settles(p, w) ==> !LeftOpen(s, p, w)
    ensures SaidOnce(PollTask(s, p, w), id)
  {
    if id != p.target {
      OthersUnheard(s, p, w, id);
    } else if Waiting(s, p) {
      ContinuesOrSettles(s, p, w);
    }
  }

  lemma LeftOpenIgnoresQueue(s: State, queue: seq<Poll>, p: Poll, w: World)
    requires Waiting(s, p)
    ensures Waiting(s.(queue := queue), p) && (LeftOpen(s.(queue := queue), p, w) <==> LeftOpen(s, p, w))
  {
    assert Gone(s.(queue := queue), p.target, w) == Gone(s, p.target, w);
  }

  lemma OrderlyStepSaysOnce(s: State, step: Step, id: int)
    requires Enabled(s, step) && Orderly(s, step) && SaidOnce(s, id)
    ensures SaidOnce(After(s, step), id)
  {
    if step.Deliver? {
      var p, rest := s.queue[step.i], s.(queue := Without(s.queue, step.i));
      if Waiting(s, p) {
        LeftOpenIgnoresQueue(s, rest.queue, p, step.world);
      }
      OrderlyCheckSaysOnce(rest, p, step.world, id);
    }
  }

  /** A row gets at most one notice in every run in which no settling check leaves its row open and nothing,
      no deletion and no other change, takes a terminal row back to an open status. */
  lemma {:induction false} OneNoticeOverRuns(states: seq<State>, steps: seq<Step>, n: nat, id: int)
    requires IsRun(states, steps) && n <= |steps| && SaidOnce(states[0], id)
    requires forall k | 0 <= k < |steps| :: Orderly(states[k], steps[k])
    ensures SaidOnce(states[n], id) && Notices(states[n].events, id) <= 1
  {
    if n > 0 {
      OneNoticeOverRuns(states, steps, n - 1, id);
      OrderlyStepSaysOnce(states[n - 1], steps[n - 1], id);
    }
  }

  /** A row in a terminal status other than COMPLETE stays exactly as it is, whatever checks are delivered,
      and nothing is said about it, until something other than a check changes it. */
  lemma SettledRowKept(s: State, step: Step, id: int)
    requires Enabled(s, step) && id in s.backups && !(step.Move? && step.id == id)
    requires s.backups[id].status in {Failed, Timeout, Cancelled, DeleteRequested, DeleteInProgress, DeleteCompleted}
    ensures var t := After(s, step);
            id in t.backups && t.backups[id] == s.backups[id] && Notices(t.events, id) == Notices(s.events, id)
  {
    if step.Deliver? {
      var p, w, rest := s.queue[step.i], step.world, s.(queue := Without(s.queue, step.i));
      CheckIsLocal(rest, p, w, id);
      if id != p.target {
        OthersUnheard(rest, p, w, id);
      }
    }
  }

  /** In every run a row seen CANCELLED, or in another of those statuses, is never completed by a check and
      never gets a notice, as long as nothing else changes its status. */
  lemma {:induction false} CancelledStays(states: seq<State>, steps: seq<Step>, m: nat, n: nat, id: int)
    requires IsRun(states, steps) && m <= n <= |steps| && id in states[m].backups
    requires states[m].backups[id].status in
               {Failed, Timeout, Cancelled, DeleteRequested, DeleteInProgress, DeleteCompleted}
    requires forall k | m <= k < n :: !(steps[k].Move? && steps[k].id == id)
    ensures id in states[n].backups && states[n].backups[id] == states[m].backups[id]
    ensures Notices(states[n].events, id) == Notices(states[m].events, id)
    decreases n
  {
    if m < n {
      CancelledStays(states, steps, m, n - 1, id);
      SettledRowKept(states[n - 1], steps[n - 1], id);
    }
  }

  // -----------------------------------------------------------------------------------
  // The queue
  // -----------------------------------------------------------------------------------

  predicate Timely(s: State) {
    forall i | 0 <= i < |s.queue| :: OnSchedule(s.queue[i])
  }

  /** A check adds to the queue at most its own successor. */
  lemma CheckQueues(s: State, p: Poll, w: World)
    ensures var t := PollTask(s, p, w);
            || t.queue == s.queue
            || (Waiting(s, p) && !GivesUp(p, p.startedAt.GetOr(w.begin), w.end)
                && t.queue == s.queue + [Requeue(p, p.startedAt.GetOr(w.begin), w.end)])
  {
  }

  lemma StepStaysTimely(s: State, step: Step)
    requires Timely(s) && Enabled(s, step)
    ensures Timely(After(s, step))
  {
    if step.Deliver? {
      var p, w := s.queue[step.i], step.world;
      var rest := s.(queue := Without(s.queue, step.i));
      if Waiting(rest, p) && !GivesUp(p, p.startedAt.GetOr(w.begin), w.end) {
        RequeueStaysOnSchedule(p, w.begin, w.end);
      }
      CheckQueues(rest, p, w);
    }
  }

  /** Every queued check of every reachable state is at most number
      floor(timeout / interval) + 2 of its chain, whatever the provider answered. */
  lemma {:induction false} ChecksAreBounded(states: seq<State>, steps: seq<Step>, n: nat)
    requires IsRun(states, steps) && Timely(states[0]) && n <= |steps|
    ensures Timely(states[n])
    ensures forall p | p in states[n].queue :: 0 < p.interval && p.checks + 1 <= MaxChecks(p.interval, p.timeout)
  {
    if n > 0 {
      ChecksAreBounded(states, steps, n - 1);
      StepStaysTimely(states[n - 1], steps[n - 1]);
    }
    forall p | p in states[n].queue ensures 0 < p.interval && p.checks + 1 <= MaxChecks(p.interval, p.timeout) {
      CheckNumberBounded(p);
    }
  }
}
