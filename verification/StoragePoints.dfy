/** The storage-point rows of a backup under their uniqueness constraint, and the loops that
    cancel them. */
module StoragePoints {
  import opened Common

  /** A row of a storage-points table; the constraint is unique (backup, storage, status). */
  datatype Row = Row(backup: int, storage: int, status: int)

  type Table = map<int, Row>

  ghost predicate Unique(t: Table) {
    forall x, y | x in t && y in t && t[x] == t[y] :: x == y
  }

  /** Saving a row checks the constraint against the other rows. */
  predicate Conflicts(t: Table, id: int, row: Row) {
    exists x | x in t :: x != id && t[x] == row
  }

  function RowsOf(t: Table, backup: int): set<int> {
    set id | id in t && t[id].backup == backup
  }

  /** `order` lists the backup's rows, in whatever order the query returned them. */
  ghost predicate Lists(t: Table, backup: int, order: seq<int>) {
    Distinct(order) && (forall id | id in order :: id in t) && forall id :: id in order <==> id in RowsOf(t, backup)
  }

  function Cancelled(t: Table, id: int, cancelled: int): Row
    requires id in t
  {
    t[id].(status := cancelled)
  }

  /** A row whose save violates the constraint is deleted. */
  function CancelOne(t: Table, id: int, cancelled: int): Table
    requires id in t
  {
    if Conflicts(t, id, Cancelled(t, id, cancelled)) then t - {id} else t[id := Cancelled(t, id, cancelled)]
  }

  /** CoreWebsiteBackup.cancel */
  function CancelEach(t: Table, order: seq<int>, cancelled: int): Table {
    if order == [] then t
    else if order[0] !in t then CancelEach(t, order[1..], cancelled)
    else CancelEach(CancelOne(t, order[0], cancelled), order[1..], cancelled)
  }

  /** The cancel() of the WordPress, Basecamp and database backups: the same loop without the guard;
      a violated constraint ends it. */
  function CancelEachUnguarded(t: Table, order: seq<int>, cancelled: int): (Table, bool) {
    if order == [] then (t, true)
    else
      var id := order[0];
      if id !in t then CancelEachUnguarded(t, order[1..], cancelled)
      else if Conflicts(t, id, Cancelled(t, id, cancelled)) then (t, false)
      else CancelEachUnguarded(t[id := Cancelled(t, id, cancelled)], order[1..], cancelled)
  }

  class StoredBackups {
    var rows: Table
    /** What follows the loop: the backup set to CANCELLED, its files removed, its node made active. */
    var settled: set<int>

    /** save() and its IntegrityError. */
    method Save(id: int, row: Row) returns (ok: bool)
      modifies this`rows
      ensures ok <==> !Conflicts(old(rows), id, row)
      ensures rows == if ok then old(rows)[id := row] else old(rows)
    {
      ok := !Conflicts(rows, id, row);
      if ok {
        rows := rows[id := row];
      }
    }

    method CancelWebsiteBackup(backup: int, order: seq<int>, cancelled: int)
      requires Lists(rows, backup, order)
      modifies this
      ensures rows == CancelEach(old(rows), order, cancelled)
      ensures settled == old(settled) + {backup}
    {
      var i := 0;
      while i < |order|
        invariant 0 <= i <= |order|
        invariant CancelEach(rows, order[i..], cancelled) == CancelEach(old(rows), order, cancelled)
        invariant settled == old(settled)
      {
        assert order[i..][0] == order[i] && order[i..][1..] == order[i + 1..];
        if order[i] in rows {
          var ok := Save(order[i], rows[order[i]].(status := cancelled));
          if !ok {
            rows := rows - {order[i]};
          }
        }
        i := i + 1;
      }
      settled := settled + {backup};
    }

    /** The result is false when a save raised, which leaves the backup uncancelled. */
    method CancelUnguarded(backup: int, order: seq<int>, cancelled: int) returns (done: bool)
      requires Lists(rows, backup, order)
      modifies this
      ensures (rows, done) == CancelEachUnguarded(old(rows), order, cancelled)
      ensures settled == if done then old(settled) + {backup} else old(settled)
    {
      var i := 0;
      while i < |order|
        invariant 0 <= i <= |order|
        invariant CancelEachUnguarded(rows, order[i..], cancelled) == CancelEachUnguarded(old(rows), order, cancelled)
        invariant settled == old(settled)
      {
        assert order[i..][0] == order[i] && order[i..][1..] == order[i + 1..];
        if order[i] in rows {
          var ok := Save(order[i], rows[order[i]].(status := cancelled));
          if !ok {
            return false;
          }
        }
        i := i + 1;
      }
      settled := settled + {backup};
      done := true;
    }
  }

  // -----------------------------------------------------------------------------------
  // The guarded loop
  // -----------------------------------------------------------------------------------

  /** Some row of the backup stands for the storage, cancelled. */
  ghost predicate Stands(t: Table, backup: int, storage: int, cancelled: int) {
    exists x :: x in t && t[x] == Row(backup, storage, cancelled)
  }

  /** What the loop has done to `t0` when the rows `left` are still to come. */
  ghost predicate Along(t0: Table, t: Table, backup: int, left: seq<int>, cancelled: int) {
    && Unique(t)
    && (forall x | x in t :: x in t0 && t0[x].backup == t[x].backup && t0[x].storage == t[x].storage)
    && (forall x | x in t0 && (t0[x].backup != backup || x in left) :: x in t && t[x] == t0[x])
    && (forall x | x in t && t0[x].backup == backup && x !in left :: t[x].status == cancelled)
    && (forall x | x in t0 && t0[x].backup == backup && x !in left :: Stands(t, backup, t0[x].storage, cancelled))
  }

  lemma StepAlong(t0: Table, t: Table, backup: int, left: seq<int>, cancelled: int)
    requires Along(t0, t, backup, left, cancelled)
    requires left != [] && Distinct(left) && forall x | x in left :: x in t0 && t0[x].backup == backup
    ensures left[0] in left && left[0] in t
    ensures var id := left[0];
            var next := CancelOne(t, id, cancelled);
            Along(t0, next, backup, left[1..], cancelled)
  {
    var id := left[0];
    assert id in left;
    var row := Cancelled(t, id, cancelled);
    var next := if Conflicts(t, id, row) then t - {id} else t[id := row];
    assert forall x :: x in left <==> x == id || x in left[1..];
    assert id !in left[1..];
    if Conflicts(t, id, row) {
      var x :| x in t && x != id && t[x] == row;
      assert t[id] != row;
      assert x in next && next[x] == row;
    } else {
      assert next[id] == row;
    }
    forall y | y in t0 && t0[y].backup == backup && y !in left[1..]
      ensures Stands(next, backup, t0[y].storage, cancelled)
    {
      if y != id {
        assert Stands(t, backup, t0[y].storage, cancelled);
        var z :| z in t && t[z] == Row(backup, t0[y].storage, cancelled);
        assert z in next && next[z] == t[z];
      }
    }
  }

  lemma {:induction false} CancelEachAlong(t0: Table, t: Table, backup: int, left: seq<int>, cancelled: int)
    requires Along(t0, t, backup, left, cancelled)
    requires Distinct(left) && forall x | x in left :: x in t0 && t0[x].backup == backup
    ensures Along(t0, CancelEach(t, left, cancelled), backup, [], cancelled)
    decreases |left|
  {
    if left != [] {
      StepAlong(t0, t, backup, left, cancelled);
      var id := left[0];
      var next := CancelOne(t, id, cancelled);
      assert forall x | x in left[1..] :: x in left;
      CancelEachAlong(t0, next, backup, left[1..], cancelled);
    }
  }

  /** From any rows satisfying the constraint, in any order of the rows: the constraint holds after the
      loop and at every point of it; every storage that had a row of the backup has exactly one, which
      is CANCELLED; no row is invented or moved, and other backups' rows are untouched. */
  lemma CancelKeepsOneRowPerStorage(t: Table, backup: int, order: seq<int>, cancelled: int)
    requires Unique(t) && Lists(t, backup, order)
    ensures var r := CancelEach(t, order, cancelled);
            && Unique(r)
            && (forall x | x in t && t[x].backup != backup :: x in r && r[x] == t[x])
            && (forall x | x in r :: x in t && r[x] == t[x].(status := r[x].status))
            && (forall x | x in RowsOf(r, backup) :: r[x].status == cancelled)
            && (forall x | x in RowsOf(t, backup) ::
                  && Stands(r, backup, t[x].storage, cancelled)
                  && forall y, z | y in RowsOf(r, backup) && z in RowsOf(r, backup)
                                   && r[y].storage == r[z].storage == t[x].storage :: y == z)
  {
    CancelEachAlong(t, t, backup, order, cancelled);
  }

  /** The constraint holds after every iteration, over whatever rows the loop goes. */
  lemma ConstraintHoldsThroughout(t: Table, order: seq<int>, cancelled: int, n: nat)
    requires Unique(t) && n <= |order|
    ensures Unique(CancelEach(t, order[..n], cancelled))
  {
    CancelEachKeepsUnique(t, order[..n], cancelled);
  }

  lemma {:induction false} CancelEachKeepsUnique(t: Table, order: seq<int>, cancelled: int)
    requires Unique(t)
    ensures Unique(CancelEach(t, order, cancelled))
    decreases |order|
  {
    if order != [] {
      if order[0] in t {
        CancelOneKeepsUnique(t, order[0], cancelled);
        CancelEachKeepsUnique(CancelOne(t, order[0], cancelled), order[1..], cancelled);
      } else {
        CancelEachKeepsUnique(t, order[1..], cancelled);
      }
    }
  }

  lemma CancelOneKeepsUnique(t: Table, id: int, cancelled: int)
    requires Unique(t) && id in t
    ensures Unique(CancelOne(t, id, cancelled))
  {
  }

  // -----------------------------------------------------------------------------------
  // The unguarded loops
  // -----------------------------------------------------------------------------------

  /** The backup has at most one row for each storage. */
  ghost predicate OneRowPerStorage(t: Table, backup: int) {
    forall x, y | x in RowsOf(t, backup) && y in RowsOf(t, backup) && t[x].storage == t[y].storage :: x == y
  }

  lemma {:induction false} UnguardedEffect(t: Table, backup: int, left: seq<int>, cancelled: int)
    requires Unique(t) && Distinct(left) && forall x | x in left :: x in t && t[x].backup == backup
    ensures var (r, done) := CancelEachUnguarded(t, left, cancelled);
            && Unique(r) && r.Keys == t.Keys
            && (forall x | x in t :: r[x] == t[x] || (x in left && r[x] == Cancelled(t, x, cancelled)))
            && (done ==> forall x | x in left :: r[x] == Cancelled(t, x, cancelled))
            && (OneRowPerStorage(t, backup) ==> done)
    decreases |left|
  {
    if left != [] {
      var id := left[0];
      assert id in left;
      assert forall x :: x in left <==> x == id || x in left[1..];
      if !Conflicts(t, id, Cancelled(t, id, cancelled)) {
        var next := t[id := Cancelled(t, id, cancelled)];
        assert id !in left[1..];
        UnguardedEffect(next, backup, left[1..], cancelled);
      } else {
        var x :| x in t && x != id && t[x] == Cancelled(t, id, cancelled);
        assert x in RowsOf(t, backup) && id in RowsOf(t, backup);
      }
    }
  }

  /** Without the guard, cancelling goes through (and cancels every row) exactly when the backup has no
      two rows for one storage; otherwise it raises and the backup stays uncancelled. */
  lemma UnguardedCancelSucceedsExactly(t: Table, backup: int, order: seq<int>, cancelled: int)
    requires Unique(t) && Lists(t, backup, order)
    ensures CancelEachUnguarded(t, order, cancelled).1 <==> OneRowPerStorage(t, backup)
    ensures OneRowPerStorage(t, backup) ==>
              CancelEachUnguarded(t, order, cancelled).0 == CancelEach(t, order, cancelled)
  {
    UnguardedEffect(t, backup, order, cancelled);
    var (r, done) := CancelEachUnguarded(t, order, cancelled);
    if done {
      forall x, y | x in RowsOf(t, backup) && y in RowsOf(t, backup) && t[x].storage == t[y].storage
        ensures x == y
      {
        assert x in order && y in order;
        assert r[x] == r[y];
      }
      LoopsAgree(t, order, cancelled);
    }
  }

  lemma {:induction false} LoopsAgree(t: Table, order: seq<int>, cancelled: int)
    requires CancelEachUnguarded(t, order, cancelled).1
    ensures CancelEachUnguarded(t, order, cancelled).0 == CancelEach(t, order, cancelled)
    decreases |order|
  {
    if order != [] {
      var id := order[0];
      LoopsAgree(if id in t then t[id := Cancelled(t, id, cancelled)] else t, order[1..], cancelled);
    }
  }

  // -----------------------------------------------------------------------------------
  // Upload tallies
  // -----------------------------------------------------------------------------------

  function UploadedRows(t: Table, backup: int, complete: int): set<int> {
    set id | id in RowsOf(t, backup) && t[id].status == complete
  }

  /** all_storage_points_uploaded and partial_storage_points_uploaded count rows. */
  predicate AllUploaded(t: Table, backup: int, complete: int) {
    |RowsOf(t, backup)| == |UploadedRows(t, backup, complete)|
  }

  predicate PartiallyUploaded(t: Table, backup: int, complete: int) {
    |UploadedRows(t, backup, complete)| > 0
  }

  /** Counting the uploaded rows against all rows asks whether every row is uploaded. */
  lemma AllUploadedMeansEvery(t: Table, backup: int, complete: int)
    ensures AllUploaded(t, backup, complete) <==> forall x | x in RowsOf(t, backup) :: t[x].status == complete
  {
    var rows, up := RowsOf(t, backup), UploadedRows(t, backup, complete);
    assert rows == up + (rows - up);
    if forall x | x in rows :: t[x].status == complete {
      forall x ensures x in up <==> x in rows {
      }
      assert up == rows;
    } else {
      var x :| x in rows && t[x].status != complete;
      assert x in rows - up;
      assert rows - up == {x} + (rows - up - {x});
    }
  }

  /** Counting the uploaded rows against zero asks whether some row is uploaded; the only backups that
      are all uploaded without being partially uploaded are those with no rows at all. */
  lemma PartiallyUploadedMeansSome(t: Table, backup: int, complete: int)
    ensures PartiallyUploaded(t, backup, complete) <==> exists x :: x in RowsOf(t, backup) && t[x].status == complete
    ensures AllUploaded(t, backup, complete) && !PartiallyUploaded(t, backup, complete) <==> RowsOf(t, backup) == {}
  {
    var up := UploadedRows(t, backup, complete);
    if x :| x in RowsOf(t, backup) && t[x].status == complete {
      assert x in up;
      assert up == {x} + (up - {x});
    } else {
      forall x ensures x !in up {
      }
      assert up == {};
    }
  }
}
