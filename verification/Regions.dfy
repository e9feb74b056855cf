/** Migration 0014: bringing the provider regions up to date on an existing install, with upserts
    by code and one rename in place. */
module Regions {
  import opened Common

  /** Column values other than the code; None is a null. */
  type Columns = map<string, Option<string>>

  datatype Region = Region(code: string, columns: Columns)

  /** A region table: rows by primary key, and the next key its sequence gives out. The code column
      is unique. */
  datatype Table = Table(rows: map<int, Region>, nextId: int)

  ghost predicate Valid(t: Table) {
    && (forall id | id in t.rows :: id < t.nextId)
    && (forall x, y | x in t.rows && y in t.rows && t.rows[x].code == t.rows[y].code :: x == y)
  }

  predicate HasCode(t: Table, code: string) {
    exists id | id in t.rows :: t.rows[id].code == code
  }

  /** A row of the delta: its code and the columns it sets. */
  datatype Entry = Entry(code: string, defaults: Columns)

  function SetColumns(r: Region, e: Entry): Region {
    if r.code == e.code then r.(columns := r.columns + e.defaults) else r
  }

  /** objects.update_or_create(code=e.code, defaults=e.defaults) */
  function UpdateOrCreate(t: Table, e: Entry): Table {
    if HasCode(t, e.code) then t.(rows := map id | id in t.rows :: SetColumns(t.rows[id], e))
    else Table(t.rows[t.nextId := Region(e.code, e.defaults)], t.nextId + 1)
  }

  function UpsertAll(t: Table, delta: seq<Entry>): Table
    decreases |delta|
  {
    if delta == [] then t else UpsertAll(UpdateOrCreate(t, delta[0]), delta[1..])
  }

  /** filter(code=old).update(code=new), unless a row with the new code exists. */
  function RenameInPlace(t: Table, from: string, to: string): Table {
    if HasCode(t, to) then t
    else t.(rows := map id | id in t.rows ::
              if t.rows[id].code == from then t.rows[id].(code := to) else t.rows[id])
  }

  const FILEBASE_MODEL := "CoreFilebaseRegion"
  const FILEBASE := Entry("auto", map["name" := Some("Decentralized"), "endpoint" := Some("s3.filebase.io")])

  function UpdateFilebase(t: Table): Table {
    UpdateOrCreate(RenameInPlace(t, "us-east-1", "auto"), FILEBASE)
  }

  /** The models of the delta with their rows, in the order they are written down. */
  type Delta = seq<(string, seq<Entry>)>

  type Catalog = map<string, Table>

  function UpsertTables(tables: Catalog, rows: Delta): Catalog
    requires forall r | r in rows :: r.0 in tables
  {
    if rows == [] then tables
    else
      assert rows[0] in rows && forall r | r in rows[1..] :: r in rows;
      UpsertTables(tables[rows[0].0 := UpsertAll(tables[rows[0].0], rows[0].1)], rows[1..])
  }

  ghost predicate Covers(tables: Catalog, rows: Delta) {
    FILEBASE_MODEL in tables && forall r | r in rows :: r.0 in tables
  }

  ghost function AfterUpdate(tables: Catalog, rows: Delta): Catalog
    requires Covers(tables, rows)
  {
    UpsertTables(tables[FILEBASE_MODEL := UpdateFilebase(tables[FILEBASE_MODEL])], rows)
  }

  ghost predicate AllValid(tables: Catalog) {
    forall m | m in tables :: Valid(tables[m])
  }

  // -----------------------------------------------------------------------------------
  // The migration as it runs
  // -----------------------------------------------------------------------------------

  class Database {
    var tables: Catalog

    method RunUpdateOrCreate(model: string, e: Entry)
      requires model in tables && Valid(tables[model])
      modifies this
      ensures tables == old(tables)[model := UpdateOrCreate(old(tables)[model], e)]
    {
      var t := tables[model];
      if HasCode(t, e.code) {
        var id :| id in t.rows && t.rows[id].code == e.code;
        var row := t.rows[id].(columns := t.rows[id].columns + e.defaults);
        assert forall x | x in t.rows :: SetColumns(t.rows[x], e) == if x == id then row else t.rows[x];
        assert t.rows[id := row] == UpdateOrCreate(t, e).rows;
        tables := tables[model := t.(rows := t.rows[id := row])];
      } else {
        tables := tables[model := Table(t.rows[t.nextId := Region(e.code, e.defaults)], t.nextId + 1)];
      }
    }

    method RunUpserts(model: string, delta: seq<Entry>)
      requires model in tables && Valid(tables[model])
      modifies this
      ensures tables == old(tables)[model := UpsertAll(old(tables)[model], delta)]
    {
      var i := 0;
      assert tables == tables[model := tables[model]];
      while i < |delta|
        invariant 0 <= i <= |delta|
        invariant model in tables && Valid(tables[model]) && tables == old(tables)[model := tables[model]]
        invariant UpsertAll(tables[model], delta[i..]) == UpsertAll(old(tables)[model], delta)
      {
        assert delta[i..][0] == delta[i] && delta[i..][1..] == delta[i + 1..];
        UpsertEffect(tables[model], delta[i]);
        RunUpdateOrCreate(model, delta[i]);
        i := i + 1;
      }
    }

    method RunFilebase()
      requires AllValid(tables) && FILEBASE_MODEL in tables
      modifies this
      ensures AllValid(tables)
      ensures tables == old(tables)[FILEBASE_MODEL := UpdateFilebase(old(tables)[FILEBASE_MODEL])]
    {
      var t := tables[FILEBASE_MODEL];
      RenameKeepsValid(t, "us-east-1", "auto");
      if !HasCode(t, "auto") {
        tables := tables[FILEBASE_MODEL := t.(rows := map id | id in t.rows ::
          if t.rows[id].code == "us-east-1" then t.rows[id].(code := "auto") else t.rows[id])];
      }
      assert tables == old(tables)[FILEBASE_MODEL := RenameInPlace(t, "us-east-1", "auto")];
      RunUpdateOrCreate(FILEBASE_MODEL, FILEBASE);
      UpsertEffect(RenameInPlace(t, "us-east-1", "auto"), FILEBASE);
      assert tables == old(tables)[FILEBASE_MODEL := UpdateFilebase(t)];
    }

    /** update_region_reference_data */
    method UpdateRegionReferenceData(rows: Delta)
      requires AllValid(tables) && Covers(tables, rows)
      modifies this
      ensures tables == AfterUpdate(old(tables), rows)
    {
      assert rows[0..] == rows;
      RunFilebase();
      ghost var start := tables;
      var i := 0;
      while i < |rows|
        invariant 0 <= i <= |rows| && start.Keys == tables.Keys && AllValid(tables)
        invariant (forall r | r in rows :: r.0 in tables) && (forall r | r in rows[i..] :: r in rows)
        invariant UpsertTables(tables, rows[i..]) == UpsertTables(start, rows)
      {
        assert rows[i..][0] == rows[i] && rows[i..][1..] == rows[i + 1..] && rows[i] in rows;
        UpsertAllKeepsValid(tables[rows[i].0], rows[i].1);
        RunUpserts(rows[i].0, rows[i].1);
        i := i + 1;
      }
    }
  }

  // -----------------------------------------------------------------------------------
  // One table
  // -----------------------------------------------------------------------------------

  lemma UpsertEffect(t: Table, e: Entry)
    requires Valid(t)
    ensures var r := UpdateOrCreate(t, e);
            && Valid(r) && HasCode(r, e.code)
            && (forall id | id in t.rows :: id in r.rows && r.rows[id] == SetColumns(t.rows[id], e))
            && (HasCode(t, e.code) ==> r.rows.Keys == t.rows.Keys && r.nextId == t.nextId)
            && (forall c | HasCode(t, c) :: HasCode(r, c))
  {
    var r := UpdateOrCreate(t, e);
    if HasCode(t, e.code) {
      var id :| id in t.rows && t.rows[id].code == e.code;
      assert r.rows[id].code == e.code;
    } else {
      assert r.rows[t.nextId].code == e.code;
    }
    forall c | HasCode(t, c) ensures HasCode(r, c) {
      var id :| id in t.rows && t.rows[id].code == c;
      assert r.rows[id].code == c;
    }
  }

  lemma {:induction false} UpsertAllKeepsValid(t: Table, delta: seq<Entry>)
    requires Valid(t)
    ensures Valid(UpsertAll(t, delta))
    decreases |delta|
  {
    if delta != [] {
      UpsertEffect(t, delta[0]);
      UpsertAllKeepsValid(UpdateOrCreate(t, delta[0]), delta[1..]);
    }
  }

  /** Everything the delta sets on one code, later entries over earlier ones. */
  function Merged(delta: seq<Entry>, code: string): Columns {
    if delta == [] then map[]
    else (if delta[0].code == code then delta[0].defaults else map[]) + Merged(delta[1..], code)
  }

  predicate Mentions(delta: seq<Entry>, code: string) {
    exists e | e in delta :: e.code == code
  }

  /** A row as the delta leaves it. */
  function Updated(r: Region, delta: seq<Entry>): Region {
    r.(columns := r.columns + Merged(delta, r.code))
  }

  lemma UpdatedInTurn(r: Region, delta: seq<Entry>)
    requires delta != []
    ensures Updated(SetColumns(r, delta[0]), delta[1..]) == Updated(r, delta)
  {
    var first := if delta[0].code == r.code then delta[0].defaults else map[];
    var rest := Merged(delta[1..], r.code);
    assert SetColumns(r, delta[0]).columns == r.columns + first;
    assert (r.columns + first) + rest == r.columns + (first + rest);
  }

  /** Every row stays, under its own id and with its code, and gets exactly what the delta sets on that
      code. */
  lemma {:induction false} UpsertsKeepRows(t: Table, delta: seq<Entry>, id: int)
    requires Valid(t) && id in t.rows
    ensures id in UpsertAll(t, delta).rows && UpsertAll(t, delta).rows[id] == Updated(t.rows[id], delta)
    decreases |delta|
  {
    if delta == [] {
      assert t.rows[id].columns + map[] == t.rows[id].columns;
    } else {
      UpsertEffect(t, delta[0]);
      UpsertsKeepRows(UpdateOrCreate(t, delta[0]), delta[1..], id);
      UpdatedInTurn(t.rows[id], delta);
    }
  }

  /** A code that appears only after the first entry. */
  lemma LaterCode(t: Table, delta: seq<Entry>, code: string)
    requires Valid(t) && delta != [] && !HasCode(UpdateOrCreate(t, delta[0]), code) && Mentions(delta[1..], code)
    ensures !HasCode(t, code) && Mentions(delta, code) && Merged(delta, code) == Merged(delta[1..], code)
  {
    if code == delta[0].code || HasCode(t, code) {
      CodesStay(t, delta[0], code);
      assert false;
    }
    MergedLater(delta, code);
    var e :| e in delta[1..] && e.code == code;
    assert e in delta;
  }

  /** After an entry its own code is there, and every code there was. */
  lemma CodesStay(t: Table, e: Entry, code: string)
    requires Valid(t) && (code == e.code || HasCode(t, code))
    ensures HasCode(UpdateOrCreate(t, e), code)
  {
    UpsertEffect(t, e);
  }

  lemma MergedLater(delta: seq<Entry>, code: string)
    requires delta != [] && delta[0].code != code
    ensures Merged(delta, code) == Merged(delta[1..], code)
  {
    assert map[] + Merged(delta[1..], code) == Merged(delta[1..], code);
  }

  /** The row the first entry adds, if any. */
  lemma FirstRow(t: Table, delta: seq<Entry>, id: int)
    requires Valid(t) && delta != [] && id in UpdateOrCreate(t, delta[0]).rows && id !in t.rows
    ensures id == t.nextId && !HasCode(t, delta[0].code)
  {
  }

  /** A new row has a code of the delta that no row had, and the columns the delta sets on it. */
  lemma {:induction false} UpsertsAddOnlyMissing(t: Table, delta: seq<Entry>, id: int)
    requires Valid(t) && id in UpsertAll(t, delta).rows && id !in t.rows
    ensures var r := UpsertAll(t, delta).rows[id];
            t.nextId <= id && Mentions(delta, r.code) && !HasCode(t, r.code) && r.columns == Merged(delta, r.code)
    decreases |delta|
  {
    var next := UpdateOrCreate(t, delta[0]);
    if id in next.rows {
      FirstRow(t, delta, id);
      CreatedRow(t, delta);
    } else {
      NextStaysValid(t, delta[0]);
      UpsertsAddOnlyMissing(next, delta[1..], id);
      LaterCode(t, delta, UpsertAll(next, delta[1..]).rows[id].code);
    }
  }

  lemma NextStaysValid(t: Table, e: Entry)
    requires Valid(t)
    ensures Valid(UpdateOrCreate(t, e)) && t.nextId <= UpdateOrCreate(t, e).nextId
  {
    UpsertEffect(t, e);
  }

  /** The row an entry creates, as the rest of the delta leaves it. */
  lemma CreatedRow(t: Table, delta: seq<Entry>)
    requires Valid(t) && delta != [] && !HasCode(t, delta[0].code)
    ensures var all := UpsertAll(t, delta);
            && t.nextId in all.rows && Mentions(delta, delta[0].code)
            && all.rows[t.nextId] == Region(delta[0].code, Merged(delta, delta[0].code))
  {
    UpsertEffect(t, delta[0]);
    UpsertsKeepRows(UpdateOrCreate(t, delta[0]), delta[1..], t.nextId);
    assert delta[0] in delta;
  }

  lemma {:induction false} UpsertsReachEveryCode(t: Table, delta: seq<Entry>, code: string)
    requires Valid(t) && (HasCode(t, code) || Mentions(delta, code))
    ensures HasCode(UpsertAll(t, delta), code)
    decreases |delta|
  {
    if delta != [] {
      UpsertEffect(t, delta[0]);
      if delta[0].code != code && !HasCode(t, code) {
        var e :| e in delta && e.code == code;
        assert e in delta[1..];
      }
      UpsertsReachEveryCode(UpdateOrCreate(t, delta[0]), delta[1..], code);
    }
  }

  lemma {:induction false} NothingMissing(t: Table, delta: seq<Entry>)
    requires Valid(t) && forall e | e in delta :: HasCode(t, e.code)
    ensures UpsertAll(t, delta).rows.Keys == t.rows.Keys && UpsertAll(t, delta).nextId == t.nextId
    decreases |delta|
  {
    if delta != [] {
      assert delta[0] in delta && forall e | e in delta[1..] :: e in delta;
      UpsertEffect(t, delta[0]);
      NothingMissing(UpdateOrCreate(t, delta[0]), delta[1..]);
    }
  }

  lemma RowIsSettled(t: Table, delta: seq<Entry>, id: int)
    requires Valid(t) && id in UpsertAll(t, delta).rows
    ensures Updated(UpsertAll(t, delta).rows[id], delta) == UpsertAll(t, delta).rows[id]
  {
    var r := UpsertAll(t, delta).rows[id];
    var m := Merged(delta, r.code);
    if id in t.rows {
      UpsertsKeepRows(t, delta, id);
      var c := t.rows[id].columns;
      assert (c + m) + m == c + m;
    } else {
      UpsertsAddOnlyMissing(t, delta, id);
      assert m + m == m;
    }
  }

  /** Running a delta a second time changes nothing: no column, no key, not the sequence either. */
  lemma UpsertAllIsIdempotent(t: Table, delta: seq<Entry>)
    requires Valid(t)
    ensures UpsertAll(UpsertAll(t, delta), delta) == UpsertAll(t, delta)
  {
    var r := UpsertAll(t, delta);
    UpsertAllKeepsValid(t, delta);
    forall e | e in delta ensures HasCode(r, e.code) {
      UpsertsReachEveryCode(t, delta, e.code);
    }
    NothingMissing(r, delta);
    forall id | id in r.rows ensures UpsertAll(r, delta).rows[id] == r.rows[id] {
      UpsertsKeepRows(r, delta, id);
      RowIsSettled(t, delta, id);
    }
    assert UpsertAll(r, delta).rows == r.rows;
  }

  lemma {:induction false} MergedOfOthers(delta: seq<Entry>, code: string)
    requires !Mentions(delta, code)
    ensures Merged(delta, code) == map[]
  {
    if delta != [] {
      assert delta[0] in delta;
      assert !Mentions(delta[1..], code) by {
        assert forall e | e in delta[1..] :: e in delta;
      }
      MergedOfOthers(delta[1..], code);
    }
  }

  /** A row whose code the delta does not mention is left exactly as it was. */
  lemma OutsideTheDeltaNothingChanges(t: Table, delta: seq<Entry>, id: int)
    requires Valid(t) && id in t.rows && !Mentions(delta, t.rows[id].code)
    ensures id in UpsertAll(t, delta).rows && UpsertAll(t, delta).rows[id] == t.rows[id]
  {
    UpsertsKeepRows(t, delta, id);
    MergedOfOthers(delta, t.rows[id].code);
    assert t.rows[id].columns + map[] == t.rows[id].columns;
  }

  // -----------------------------------------------------------------------------------
  // The Filebase step
  // -----------------------------------------------------------------------------------

  lemma RenameKeepsValid(t: Table, from: string, to: string)
    requires Valid(t)
    ensures Valid(RenameInPlace(t, from, to))
  {
    if !HasCode(t, to) {
      var r := RenameInPlace(t, from, to);
      forall x, y | x in r.rows && y in r.rows && r.rows[x].code == r.rows[y].code
        ensures x == y
      {
        assert t.rows[x].code != to && t.rows[y].code != to;
      }
    }
  }

  /** The us-east-1 row becomes the auto row under its own id exactly when there was no auto row; codes
      stay unique, every id survives, and a second run changes nothing. */
  lemma FilebaseKeepsIdentity(t: Table)
    requires Valid(t)
    ensures var r := UpdateFilebase(t);
            && Valid(r) && HasCode(r, "auto")
            && (forall id | id in t.rows :: id in r.rows &&
                  r.rows[id] ==
                    if t.rows[id].code == "auto" || (t.rows[id].code == "us-east-1" && !HasCode(t, "auto"))
                    then Region("auto", t.rows[id].columns + map["name" := Some("Decentralized"),
                                                                 "endpoint" := Some("s3.filebase.io")])
                    else t.rows[id])
            && UpdateFilebase(r) == r
  {
    var renamed := RenameInPlace(t, "us-east-1", "auto");
    RenameKeepsValid(t, "us-east-1", "auto");
    UpsertEffect(renamed, FILEBASE);
    var r := UpdateFilebase(t);
    assert renamed.rows.Keys == t.rows.Keys;
    forall id | id in r.rows ensures SetColumns(r.rows[id], FILEBASE) == r.rows[id] {
      if id in renamed.rows {
        var c := renamed.rows[id].columns;
        assert (c + FILEBASE.defaults) + FILEBASE.defaults == c + FILEBASE.defaults;
      } else {
        assert FILEBASE.defaults + FILEBASE.defaults == FILEBASE.defaults;
      }
    }
    assert UpdateFilebase(r).rows == r.rows;
  }

  // -----------------------------------------------------------------------------------
  // The whole migration
  // -----------------------------------------------------------------------------------

  /** The delta names each model once (it is a dictionary), none of them Filebase. */
  ghost predicate OncePerModel(rows: Delta) {
    && (forall i, j :: 0 <= i < j < |rows| ==> rows[i].0 != rows[j].0)
    && (forall i :: 0 <= i < |rows| ==> rows[i].0 != FILEBASE_MODEL)
  }

  function DeltaOf(rows: Delta, model: string): seq<Entry> {
    if rows == [] then []
    else if rows[0].0 == model then rows[0].1
    else DeltaOf(rows[1..], model)
  }

  /** A row that is neither there nor renamed is created with the same columns. */
  lemma FilebaseIsCreated(t: Table, id: int)
    requires id in UpdateFilebase(t).rows && id !in t.rows
    ensures UpdateFilebase(t).rows[id]
         == Region("auto", map["name" := Some("Decentralized"), "endpoint" := Some("s3.filebase.io")])
  {
  }

  lemma {:induction false} NoDelta(rows: Delta, m: string)
    requires forall i | 0 <= i < |rows| :: rows[i].0 != m
    ensures DeltaOf(rows, m) == []
  {
    if rows != [] {
      NoDelta(rows[1..], m);
    }
  }

  lemma {:induction false} EachTableOnce(tables: Catalog, rows: Delta, m: string)
    requires (forall i, j :: 0 <= i < j < |rows| ==> rows[i].0 != rows[j].0) && forall r | r in rows :: r.0 in tables
    requires m in tables
    ensures UpsertTables(tables, rows).Keys == tables.Keys
    ensures UpsertTables(tables, rows)[m] == UpsertAll(tables[m], DeltaOf(rows, m))
  {
    if rows != [] {
      var name := rows[0].0;
      assert rows[0] in rows && forall r | r in rows[1..] :: r in rows;
      assert forall i | 0 <= i < |rows[1..]| :: rows[1..][i] == rows[i + 1];
      var next := tables[name := UpsertAll(tables[name], rows[0].1)];
      EachTableOnce(next, rows[1..], m);
      if m == name {
        NoDelta(rows[1..], m);
      }
    }
  }

  lemma TableAfterUpdate(tables: Catalog, rows: Delta, m: string)
    requires Covers(tables, rows) && OncePerModel(rows) && m in tables
    ensures AfterUpdate(tables, rows).Keys == tables.Keys
    ensures AfterUpdate(tables, rows)[m]
         == if m == FILEBASE_MODEL then UpdateFilebase(tables[m]) else UpsertAll(tables[m], DeltaOf(rows, m))
  {
    EachTableOnce(tables[FILEBASE_MODEL := UpdateFilebase(tables[FILEBASE_MODEL])], rows, m);
    if m == FILEBASE_MODEL {
      NoDelta(rows, m);
    }
  }

  /** Migration 0014, for every catalog with unique codes and every delta: it keeps every table's codes
      unique and every row's id, and running it twice is running it once. */
  lemma RegionUpdateIsIdempotent(tables: Catalog, rows: Delta)
    requires AllValid(tables) && Covers(tables, rows) && OncePerModel(rows)
    ensures var r := AfterUpdate(tables, rows);
            && AllValid(r) && r.Keys == tables.Keys && Covers(r, rows)
            && (forall m, id | m in tables && id in tables[m].rows :: id in r[m].rows)
            && AfterUpdate(r, rows) == r
  {
    var r := AfterUpdate(tables, rows);
    TableAfterUpdate(tables, rows, FILEBASE_MODEL);
    forall m | m in tables
      ensures Valid(r[m]) && AfterUpdate(r, rows).Keys == r.Keys && AfterUpdate(r, rows)[m] == r[m]
      ensures forall id | id in tables[m].rows :: id in r[m].rows
    {
      TableAfterUpdate(tables, rows, m);
      TableAfterUpdate(r, rows, m);
      if m == FILEBASE_MODEL {
        FilebaseKeepsIdentity(tables[m]);
      } else {
        var delta := DeltaOf(rows, m);
        UpsertAllKeepsValid(tables[m], delta);
        UpsertAllIsIdempotent(tables[m], delta);
        forall id | id in tables[m].rows ensures id in r[m].rows {
          UpsertsKeepRows(tables[m], delta, id);
        }
      }
    }
    assert AfterUpdate(r, rows) == r;
  }
}
