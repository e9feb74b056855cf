/** Migration 0007: seeding reference data with get_or_create, and linking every location to every
    integration. */
module Seeding {
  import opened Common

  /** Column values of a row; None is a null. */
  type Fields = map<string, Option<string>>

  datatype Table = Table(rows: map<int, Fields>, nextId: int)

  /** What a table is looked up by: the id, or the values of some of its columns. */
  datatype Key = ById(id: int) | ByColumns(columns: Fields)

  predicate Fits(id: int, row: Fields, key: Key) {
    match key
    case ById(i) => id == i
    case ByColumns(columns) => forall f | f in columns :: f in row && row[f] == columns[f]
  }

  predicate Exists(t: Table, key: Key) {
    exists id | id in t.rows :: Fits(id, t.rows[id], key)
  }

  /** get() finds more than one row. */
  predicate Several(t: Table, key: Key) {
    exists x | x in t.rows :: Fits(x, t.rows[x], key) && exists y | y in t.rows :: y != x && Fits(y, t.rows[y], key)
  }

  /** A seed row: what it is looked up by, and its other columns. */
  datatype Seed = Seed(key: Key, defaults: Fields) {
    function Row(): Fields {
      if key.ById? then defaults else key.columns + defaults
    }
    /** The columns a row is looked up by are not among its others. */
    predicate Proper() {
      key.ByColumns? ==> key.columns.Keys !! defaults.Keys
    }
  }

  /** The id of a new row: the one looked up, or the next of the sequence, which an id given explicitly
      does not advance. */
  function NewId(t: Table, key: Key): int {
    if key.ById? then key.id else t.nextId
  }

  function Insert(t: Table, s: Seed): Table {
    Table(t.rows[NewId(t, s.key) := s.Row()], if s.key.ById? then t.nextId else t.nextId + 1)
  }

  /** objects.get_or_create(**key, defaults=defaults): the table and the row's id; None when the lookup
      finds several rows, or the new row's id is taken, either of which raises. */
  function GetOrCreate(t: Table, s: Seed): Option<(Table, int)> {
    if Several(t, s.key) then None
    else if Exists(t, s.key) then
      var id :| id in t.rows && Fits(id, t.rows[id], s.key);
      Some((t, id))
    else if NewId(t, s.key) in t.rows then None
    else Some((Insert(t, s), NewId(t, s.key)))
  }

  datatype Link = Link(location: int, integration: int)

  /** The link table, which has no uniqueness constraint. */
  datatype Links = Links(rows: map<int, Link>, nextId: int)

  predicate Linked(t: Links, l: Link) {
    exists id | id in t.rows :: t.rows[id] == l
  }

  predicate LinkedTwice(t: Links, l: Link) {
    exists x | x in t.rows :: t.rows[x] == l && exists y | y in t.rows :: y != x && t.rows[y] == l
  }

  function AddLink(t: Links, l: Link): Links {
    if Linked(t, l) then t else Links(t.rows[t.nextId := l], t.nextId + 1)
  }

  /** One get_or_create for each integration, in query order. */
  function LinkAll(t: Links, location: int, integrations: seq<int>): (Links, bool)
    decreases |integrations|
  {
    if integrations == [] then (t, true)
    else
      var l := Link(location, integrations[0]);
      if LinkedTwice(t, l) then (t, false) else LinkAll(AddLink(t, l), location, integrations[1..])
  }

  const INTEGRATIONS := "CoreIntegration"
  const LOCATIONS := "CoreConnectionLocation"

  datatype Catalog = Catalog(tables: map<string, Table>, links: Links)

  /** One iteration of the migration's loops: a row of some table, or a location together with the
      links to the integrations, which the query returns in `order`. */
  datatype Item = Row(model: string, seed: Seed) | Place(seed: Seed, order: seq<int>) {
    function Model(): string {
      if Row? then model else LOCATIONS
    }
  }

  function Apply(c: Catalog, item: Item): (r: (Catalog, bool))
    requires item.Model() in c.tables
    ensures r.0.tables.Keys == c.tables.Keys
  {
    match GetOrCreate(c.tables[item.Model()], item.seed)
    case None => (c, false)
    case Some((t, id)) =>
      var made := c.(tables := c.tables[item.Model() := t]);
      if item.Row? then (made, true)
      else
        var (links, ok) := LinkAll(c.links, id, item.order);
        (made.(links := links), ok)
  }

  ghost predicate Covers(c: Catalog, items: seq<Item>) {
    forall i | i in items :: i.Model() in c.tables
  }

  /** The items in turn; the first one that raises ends the run. */
  function Run(c: Catalog, items: seq<Item>): (r: (Catalog, bool))
    requires Covers(c, items)
    ensures r.0.tables.Keys == c.tables.Keys
    decreases |items|
  {
    if items == [] then (c, true)
    else
      var (next, ok) := Apply(c, items[0]);
      if ok then Run(next, items[1..]) else (next, false)
  }

  // -----------------------------------------------------------------------------------
  // The migration as it runs
  // -----------------------------------------------------------------------------------

  function RowItems(model: string, seeds: seq<Seed>): seq<Item> {
    seq(|seeds|, i requires 0 <= i < |seeds| => Row(model, seeds[i]))
  }

  function AllRowItems(parts: seq<(string, seq<Seed>)>): seq<Item> {
    if parts == [] then [] else RowItems(parts[0].0, parts[0].1) + AllRowItems(parts[1..])
  }

  function PlaceItems(locations: seq<Seed>, orders: seq<seq<int>>): seq<Item>
    requires |orders| == |locations|
  {
    seq(|locations|, i requires 0 <= i < |locations| => Place(locations[i], orders[i]))
  }

  /** The run continues: what the items so far made of the catalog, and what the others make of that. */
  lemma {:induction false} RunConcat(c: Catalog, a: seq<Item>, b: seq<Item>)
    requires Covers(c, a + b)
    ensures Covers(c, a) && Covers(Run(c, a).0, b)
    ensures Run(c, a + b) == if Run(c, a).1 then Run(Run(c, a).0, b) else Run(c, a)
    decreases |a|
  {
    assert forall i :: i in a + b <==> i in a || i in b;
    if a == [] {
      assert a + b == b;
    } else {
      var next := Apply(c, a[0]).0;
      assert (a + b)[0] == a[0] && (a + b)[1..] == a[1..] + b;
      assert forall i | i in a[1..] + b :: i in a + b;
      RunConcat(next, a[1..], b);
    }
  }

  lemma RunSnoc(c: Catalog, items: seq<Item>, n: nat)
    requires n < |items| && Covers(c, items)
    ensures Covers(c, items[..n]) && Covers(c, items[..n + 1]) && items[n].Model() in c.tables
    ensures Run(c, items[..n]).1 ==> Run(c, items[..n + 1]) == Apply(Run(c, items[..n]).0, items[n])
    ensures !Run(c, items[..n]).1 ==> Run(c, items) == Run(c, items[..n])
    ensures !Run(c, items[..n + 1]).1 ==> Run(c, items) == Run(c, items[..n + 1])
  {
    assert items[n] in items;
    assert items[..n + 1] == items[..n] + [items[n]];
    assert items == items[..n] + items[n..] && items == items[..n + 1] + items[n + 1..];
    RunConcat(c, items[..n], [items[n]]);
    RunConcat(c, items[..n], items[n..]);
    RunConcat(c, items[..n + 1], items[n + 1..]);
  }

  class Database {
    var tables: map<string, Table>
    var links: Links

    function Snapshot(): Catalog
      reads this
    {
      Catalog(tables, links)
    }

    method GetOrCreateRow(model: string, seed: Seed) returns (id: int, ok: bool)
      requires model in tables
      modifies this`tables
      ensures tables.Keys == old(tables).Keys
      ensures ok <==> GetOrCreate(old(tables)[model], seed).Some?
      ensures ok ==> Some((tables[model], id)) == GetOrCreate(old(tables)[model], seed)
                     && tables == old(tables)[model := tables[model]]
      ensures !ok ==> tables == old(tables)
    {
      var t := tables[model];
      if Several(t, seed.key) {
        return 0, false;
      }
      if Exists(t, seed.key) {
        var (_, found) := GetOrCreate(t, seed).value;
        assert tables == tables[model := t];
        return found, true;
      }
      if NewId(t, seed.key) in t.rows {
        return 0, false;
      }
      tables := tables[model := Insert(t, seed)];
      return NewId(t, seed.key), true;
    }

    method SeedTable(model: string, seeds: seq<Seed>) returns (ok: bool)
      requires model in tables
      modifies this`tables
      ensures Covers(old(Snapshot()), RowItems(model, seeds))
      ensures (Snapshot(), ok) == Run(old(Snapshot()), RowItems(model, seeds))
    {
      ghost var items := RowItems(model, seeds);
      var i := 0;
      assert items[..0] == [];
      while i < |seeds|
        invariant 0 <= i <= |seeds| && Covers(old(Snapshot()), items)
        invariant tables.Keys == old(tables).Keys
        invariant Covers(old(Snapshot()), items[..i]) && Run(old(Snapshot()), items[..i]) == (Snapshot(), true)
      {
        RunSnoc(old(Snapshot()), items, i);
        var id, made := GetOrCreateRow(model, seeds[i]);
        if !made {
          return false;
        }
        i := i + 1;
      }
      assert items[..|seeds|] == items;
      ok := true;
    }

    method SeedTables(parts: seq<(string, seq<Seed>)>) returns (ok: bool)
      requires forall p | p in parts :: p.0 in tables
      modifies this`tables
      ensures Covers(old(Snapshot()), AllRowItems(parts))
      ensures (Snapshot(), ok) == Run(old(Snapshot()), AllRowItems(parts))
    {
      PartsCovered(Snapshot(), parts);
      var i := 0;
      while i < |parts|
        invariant 0 <= i <= |parts|
        invariant tables.Keys == old(tables).Keys
        invariant Covers(Snapshot(), AllRowItems(parts[i..]))
        invariant Run(Snapshot(), AllRowItems(parts[i..])) == Run(old(Snapshot()), AllRowItems(parts))
      {
        assert parts[i] in parts && parts[i..][0] == parts[i] && parts[i..][1..] == parts[i + 1..];
        RunConcat(Snapshot(), RowItems(parts[i].0, parts[i].1), AllRowItems(parts[i + 1..]));
        var seeded := SeedTable(parts[i].0, parts[i].1);
        if !seeded {
          return false;
        }
        i := i + 1;
      }
      ok := true;
    }

    method LinkLocation(location: int, integrations: seq<int>) returns (ok: bool)
      modifies this`links
      ensures (links, ok) == LinkAll(old(links), location, integrations)
    {
      var i := 0;
      while i < |integrations|
        invariant 0 <= i <= |integrations|
        invariant LinkAll(links, location, integrations[i..]) == LinkAll(old(links), location, integrations)
      {
        assert integrations[i..][0] == integrations[i] && integrations[i..][1..] == integrations[i + 1..];
        var l := Link(location, integrations[i]);
        if LinkedTwice(links, l) {
          return false;
        }
        if !Linked(links, l) {
          links := Links(links.rows[links.nextId := l], links.nextId + 1);
        }
        i := i + 1;
      }
      ok := true;
    }

    method SeedLocations(locations: seq<Seed>, orders: seq<seq<int>>) returns (ok: bool)
      requires LOCATIONS in tables && |orders| == |locations|
      modifies this
      ensures Covers(old(Snapshot()), PlaceItems(locations, orders))
      ensures (Snapshot(), ok) == Run(old(Snapshot()), PlaceItems(locations, orders))
    {
      ghost var items := PlaceItems(locations, orders);
      var i := 0;
      assert items[..0] == [];
      while i < |locations|
        invariant 0 <= i <= |locations| && Covers(old(Snapshot()), items)
        invariant tables.Keys == old(tables).Keys
        invariant Covers(old(Snapshot()), items[..i]) && Run(old(Snapshot()), items[..i]) == (Snapshot(), true)
      {
        RunSnoc(old(Snapshot()), items, i);
        var id, made := GetOrCreateRow(LOCATIONS, locations[i]);
        if !made {
          return false;
        }
        var linked := LinkLocation(id, orders[i]);
        if !linked {
          return false;
        }
        i := i + 1;
      }
      assert items[..|locations|] == items;
      ok := true;
    }

    /** seed_reference_data: the integrations, storage types and lookups, then the locations with their
        links, then the regions. */
    method SeedReferenceData(before: seq<(string, seq<Seed>)>, locations: seq<Seed>, orders: seq<seq<int>>,
                             regions: seq<(string, seq<Seed>)>) returns (ok: bool)
      requires LOCATIONS in tables && |orders| == |locations|
      requires forall p | p in before + regions :: p.0 in tables
      modifies this
      ensures Covers(old(Snapshot()), Migration(before, locations, orders, regions))
      ensures (Snapshot(), ok) == Run(old(Snapshot()), Migration(before, locations, orders, regions))
    {
      assert forall p :: p in before + regions <==> p in before || p in regions;
      PartsCovered(Snapshot(), before);
      PartsCovered(Snapshot(), regions);
      var a, b, c := AllRowItems(before), PlaceItems(locations, orders), AllRowItems(regions);
      assert forall i | i in a + b + c :: i in a || i in b || i in c;
      RunConcat(Snapshot(), a + b, c);
      RunConcat(Snapshot(), a, b);
      ok := SeedTables(before);
      if !ok {
        return;
      }
      ok := SeedLocations(locations, orders);
      if !ok {
        return;
      }
      ok := SeedTables(regions);
    }
  }

  function Migration(before: seq<(string, seq<Seed>)>, locations: seq<Seed>, orders: seq<seq<int>>,
                     regions: seq<(string, seq<Seed>)>): seq<Item>
    requires |orders| == |locations|
  {
    AllRowItems(before) + PlaceItems(locations, orders) + AllRowItems(regions)
  }

  lemma {:induction false} PartsCovered(c: Catalog, parts: seq<(string, seq<Seed>)>)
    requires forall p | p in parts :: p.0 in c.tables
    ensures Covers(c, AllRowItems(parts))
  {
    if parts != [] {
      assert parts[0] in parts && forall p | p in parts[1..] :: p in parts;
      PartsCovered(c, parts[1..]);
    }
  }

  // -----------------------------------------------------------------------------------
  // What a run keeps
  // -----------------------------------------------------------------------------------

  /** Ids are below their sequence, except in the tables that are looked up by id, and every link refers to
      an existing location and integration. */
  ghost predicate Consistent(c: Catalog, byId: set<string>) {
    && LOCATIONS in c.tables && INTEGRATIONS in c.tables
    && (forall m, id | m in c.tables && m !in byId && id in c.tables[m].rows :: id < c.tables[m].nextId)
    && (forall id | id in c.links.rows ::
          && id < c.links.nextId
          && c.links.rows[id].location in c.tables[LOCATIONS].rows
          && c.links.rows[id].integration in c.tables[INTEGRATIONS].rows)
  }

  /** The tables looked up by id are exactly those, and a seed's columns are disjoint. */
  predicate WellFormed(i: Item, byId: set<string>) {
    i.seed.Proper() && (i.seed.key.ById? <==> i.Model() in byId)
  }

  ghost predicate Extends(c: Catalog, r: Catalog) {
    && r.tables.Keys == c.tables.Keys
    && (forall m, id | m in c.tables && id in c.tables[m].rows ::
          id in r.tables[m].rows && r.tables[m].rows[id] == c.tables[m].rows[id])
    && (forall id | id in c.links.rows :: id in r.links.rows && r.links.rows[id] == c.links.rows[id])
  }

  /** None is a lookup by id. */
  type Lookup = Option<set<string>>

  function LookupOf(key: Key): Lookup {
    if key.ById? then None else Some(key.columns.Keys)
  }

  function IdTables(lookups: map<string, Lookup>): set<string> {
    set m | m in lookups && lookups[m] == None
  }

  /** Each table is looked up in the same way throughout. */
  ghost predicate Uniform(items: seq<Item>, lookups: map<string, Lookup>) {
    forall i | i in items :: LooksUpBy(i, lookups)
  }

  predicate LooksUpBy(i: Item, lookups: map<string, Lookup>) {
    i.Model() in lookups && LookupOf(i.seed.key) == lookups[i.Model()] && i.seed.Proper()
  }

  /** `order` is an answer to CoreIntegration.objects.all(). */
  ghost predicate Lists(c: Catalog, order: seq<int>) {
    && INTEGRATIONS in c.tables && Distinct(order)
    && forall i :: i in order <==> i in c.tables[INTEGRATIONS].rows
  }

  ghost predicate Answers(c: Catalog, item: Item) {
    item.Place? ==> Lists(c, item.order)
  }

  /** Every query of the run returns the integrations there are when it is made. */
  ghost predicate AllAnswer(c: Catalog, items: seq<Item>)
    requires Covers(c, items)
    decreases |items|
  {
    items == [] ||
    (Answers(c, items[0]) && (Apply(c, items[0]).1 ==> AllAnswer(Apply(c, items[0]).0, items[1..])))
  }

  lemma {:induction false} LinkAllEffect(t: Links, location: int, integrations: seq<int>)
    requires Distinct(integrations) && forall id | id in t.rows :: id < t.nextId
    ensures var (r, ok) := LinkAll(t, location, integrations);
            && t.nextId <= r.nextId
            && (forall x | x in t.rows :: x in r.rows && r.rows[x] == t.rows[x])
            && (forall x | x in r.rows && x !in t.rows ::
                  x < r.nextId && r.rows[x].location == location && r.rows[x].integration in integrations)
            && (forall m: Link | m.location != location || m.integration !in integrations ::
                  LinkedTwice(t, m) <==> LinkedTwice(r, m))
            && (ok <==> forall i | i in integrations :: !LinkedTwice(t, Link(location, i)))
            && (ok ==> forall i | i in integrations ::
                  Linked(r, Link(location, i)) && !LinkedTwice(r, Link(location, i)))
    decreases |integrations|
  {
    if integrations != [] {
      var l := Link(location, integrations[0]);
      var rest := integrations[1..];
      assert forall i :: i in integrations <==> i == integrations[0] || i in rest;
      assert integrations[0] !in rest;
      if !LinkedTwice(t, l) {
        LinkOne(t, l);
        LinkAllEffect(AddLink(t, l), location, rest);
        var r := LinkAll(AddLink(t, l), location, rest).0;
        var x :| x in AddLink(t, l).rows && AddLink(t, l).rows[x] == l;
        assert r.rows[x] == l;
      }
    }
  }

  /** What the first link of the list does, if its lookup does not raise. */
  lemma LinkOne(t: Links, l: Link)
    requires (forall id | id in t.rows :: id < t.nextId) && !LinkedTwice(t, l)
    ensures var next := AddLink(t, l);
            && (forall id | id in next.rows :: id < next.nextId) && t.nextId <= next.nextId
            && Linked(next, l) && !LinkedTwice(next, l)
            && (forall x | x in t.rows :: x in next.rows && next.rows[x] == t.rows[x])
            && (forall x | x in next.rows && x !in t.rows :: next.rows[x] == l)
            && (forall m: Link | m != l :: LinkedTwice(t, m) <==> LinkedTwice(next, m))
  {
    var next := AddLink(t, l);
    if !Linked(t, l) {
      assert next.rows[t.nextId] == l;
      forall m: Link | m != l ensures LinkedTwice(t, m) <==> LinkedTwice(next, m) {
        assert forall x :: x in next.rows && next.rows[x] == m <==> x in t.rows && t.rows[x] == m;
      }
    }
  }

  /** The row get_or_create returns: the only one that fits the key, new or as it was. */
  lemma RowIsThere(t: Table, s: Seed)
    requires GetOrCreate(t, s).Some? && s.Proper()
    requires s.key.ByColumns? ==> forall id | id in t.rows :: id < t.nextId
    ensures var (r, id) := GetOrCreate(t, s).value;
            && id in r.rows && Fits(id, r.rows[id], s.key) && !Several(r, s.key)
            && (forall x | x in r.rows && Fits(x, r.rows[x], s.key) :: x == id)
            && (forall x | x in t.rows :: x in r.rows && r.rows[x] == t.rows[x])
            && (forall x | x in r.rows ::
                  && (s.key.ByColumns? ==> x < r.nextId)
                  && (x !in t.rows ==> x == NewId(t, s.key) == id && r.rows[x] == s.Row()))
  {
    var (r, id) := GetOrCreate(t, s).value;
    forall x | x in r.rows && Fits(x, r.rows[x], s.key) ensures x == id {
    }
  }

  /** Looking a table up in the same way, nothing becomes ambiguous by adding a row for another key. */
  lemma OtherKeysKept(t: Table, s: Seed, key: Key)
    requires GetOrCreate(t, s).Some? && s.Proper() && LookupOf(key) == LookupOf(s.key)
    requires s.key.ByColumns? ==> forall id | id in t.rows :: id < t.nextId
    ensures var (r, id) := GetOrCreate(t, s).value;
            && (Several(t, key) <==> Several(r, key))
            && (key != s.key ==> forall x | x in r.rows && Fits(x, r.rows[x], key) :: x in t.rows)
  {
    var (r, id) := GetOrCreate(t, s).value;
    RowIsThere(t, s);
    if key != s.key {
      if key.ByColumns? {
        var f :| f in key.columns && key.columns[f] != s.key.columns[f];
        forall x | x in r.rows && Fits(x, r.rows[x], key) ensures x in t.rows {
        }
      }
      assert forall x | x in t.rows :: Fits(x, t.rows[x], key) <==> Fits(x, r.rows[x], key);
    } else {
      assert key == s.key;
    }
  }

  /** Nothing in the way of an item: its key matches at most one row, and a location that matches is not
      linked twice to anything. */
  ghost predicate Clear(c: Catalog, item: Item)
    requires item.Model() in c.tables
  {
    && !Several(c.tables[item.Model()], item.seed.key)
    && (item.Place? ==>
          forall x, l: Link | x in c.tables[LOCATIONS].rows && l.location == x
                              && Fits(x, c.tables[LOCATIONS].rows[x], item.seed.key) ::
            !LinkedTwice(c.links, l))
  }

  lemma ApplyKeeps(c: Catalog, item: Item, byId: set<string>)
    requires Consistent(c, byId) && item.Model() in c.tables && Answers(c, item)
    requires WellFormed(item, byId)
    ensures var (r, ok) := Apply(c, item);
            && Consistent(r, byId) && Extends(c, r)
            && (ok <==> Clear(c, item))
  {
    var t := c.tables[item.Model()];
    if GetOrCreate(t, item.seed).Some? {
      var (_, id) := GetOrCreate(t, item.seed).value;
      RowIsThere(t, item.seed);
      if item.Place? {
        LinkAllEffect(c.links, id, item.order);
        PlaceIsClear(c, item, id, byId);
      }
    }
  }

  /** By referential integrity, a location linked twice to anything is linked twice to a listed
      integration; a new location is not linked at all. */
  lemma PlaceIsClear(c: Catalog, item: Item, id: int, byId: set<string>)
    requires Consistent(c, byId) && item.Place? && Lists(c, item.order)
    requires WellFormed(item, byId)
    requires GetOrCreate(c.tables[LOCATIONS], item.seed).Some?
    requires id == GetOrCreate(c.tables[LOCATIONS], item.seed).value.1
    ensures Clear(c, item) <==> forall i | i in item.order :: !LinkedTwice(c.links, Link(id, i))
  {
    var t := c.tables[LOCATIONS];
    RowIsThere(t, item.seed);
    if Clear(c, item) {
      forall i | i in item.order ensures !LinkedTwice(c.links, Link(id, i)) {
        assert Link(id, i).location == id;
      }
    }
    if forall i | i in item.order :: !LinkedTwice(c.links, Link(id, i)) {
      forall x, l: Link | x in t.rows && Fits(x, t.rows[x], item.seed.key) && l.location == x
        ensures !LinkedTwice(c.links, l)
      {
        assert l == Link(id, l.integration);
      }
    }
  }

  /** Migration 0007 never changes or removes an existing row or link, wherever it stops. */
  lemma {:induction false} SeedingOnlyAdds(c: Catalog, items: seq<Item>, byId: set<string>)
    requires Consistent(c, byId) && Covers(c, items) && AllAnswer(c, items)
    requires forall i | i in items :: WellFormed(i, byId)
    ensures Consistent(Run(c, items).0, byId) && Extends(c, Run(c, items).0)
    decreases |items|
  {
    if items != [] {
      assert items[0] in items && forall i | i in items[1..] :: i in items;
      ApplyKeeps(c, items[0], byId);
      if Apply(c, items[0]).1 {
        SeedingOnlyAdds(Apply(c, items[0]).0, items[1..], byId);
      }
    }
  }

  /** One item neither clears nor blocks the way of another. */
  lemma ClearIsKept(c: Catalog, item: Item, other: Item, lookups: map<string, Lookup>)
    requires Consistent(c, IdTables(lookups)) && Answers(c, item)
    requires item.Model() in c.tables && other.Model() in c.tables
    requires LooksUpBy(item, lookups) && LooksUpBy(other, lookups) && Apply(c, item).1
    ensures Clear(c, other) <==> Clear(Apply(c, item).0, other)
  {
    var r := Apply(c, item).0;
    var t := c.tables[item.Model()];
    var (made, id) := GetOrCreate(t, item.seed).value;
    ApplyKeeps(c, item, IdTables(lookups));
    RowIsThere(t, item.seed);
    if item.Model() == other.Model() {
      OtherKeysKept(t, item.seed, other.seed.key);
    }
    if other.Place? {
      forall l: Link
        ensures LinkedTwice(c.links, l) <==> LinkedTwice(r.links, l)
      {
        LinksKept(c, item, l, IdTables(lookups));
      }
      forall x, l: Link | x in r.tables[LOCATIONS].rows && x !in c.tables[LOCATIONS].rows && l.location == x
        ensures !LinkedTwice(c.links, l)
      {
      }
    }
  }

  /** A successful item leaves every link as ambiguous as it was. */
  lemma LinksKept(c: Catalog, item: Item, l: Link, byId: set<string>)
    requires Consistent(c, byId) && item.Model() in c.tables && Answers(c, item) && Apply(c, item).1
    ensures LinkedTwice(c.links, l) <==> LinkedTwice(Apply(c, item).0.links, l)
  {
    if item.Place? {
      LinkAllEffect(c.links, GetOrCreate(c.tables[LOCATIONS], item.seed).value.1, item.order);
    }
  }

  /** The migration completes exactly when, in the catalog it starts from, no seed's key matches two rows
      and no seeded location is linked twice to one integration. */
  lemma {:induction false} SeedingSucceedsExactly(c: Catalog, items: seq<Item>, lookups: map<string, Lookup>)
    requires Consistent(c, IdTables(lookups)) && Covers(c, items) && AllAnswer(c, items) && Uniform(items, lookups)
    ensures Run(c, items).1 <==> forall i | i in items :: Clear(c, i)
    decreases |items|
  {
    if items != [] {
      var item, rest := items[0], items[1..];
      assert forall i :: i in items <==> i == item || i in rest;
      assert LooksUpBy(item, lookups);
      ApplyKeeps(c, item, IdTables(lookups));
      if Apply(c, item).1 {
        var next := Apply(c, item).0;
        SeedingSucceedsExactly(next, rest, lookups);
        forall i | i in rest ensures Clear(c, i) <==> Clear(next, i) {
          ClearIsKept(c, item, i, lookups);
        }
      }
    }
  }

  // -----------------------------------------------------------------------------------
  // A second run
  // -----------------------------------------------------------------------------------

  /** The item has its row, and if it is a location its links, once each. */
  ghost predicate Done(c: Catalog, item: Item)
    requires item.Model() in c.tables && INTEGRATIONS in c.tables
  {
    && Exists(c.tables[item.Model()], item.seed.key) && Clear(c, item)
    && (item.Place? ==>
          forall x, i | x in c.tables[LOCATIONS].rows && Fits(x, c.tables[LOCATIONS].rows[x], item.seed.key)
                        && i in c.tables[INTEGRATIONS].rows ::
            Linked(c.links, Link(x, i)))
  }

  lemma ItemIsDone(c: Catalog, item: Item, lookups: map<string, Lookup>)
    requires Consistent(c, IdTables(lookups)) && item.Model() in c.tables && Answers(c, item)
    requires LooksUpBy(item, lookups) && Apply(c, item).1
    ensures Done(Apply(c, item).0, item)
  {
    var r := Apply(c, item).0;
    ApplyKeeps(c, item, IdTables(lookups));
    ClearIsKept(c, item, item, lookups);
    RowIsThere(c.tables[item.Model()], item.seed);
    if item.Place? {
      LinkAllEffect(c.links, GetOrCreate(c.tables[LOCATIONS], item.seed).value.1, item.order);
    }
  }

  /** What is done stays done, as long as no integration is added after a location was linked. */
  lemma DoneIsKept(c: Catalog, item: Item, other: Item, lookups: map<string, Lookup>)
    requires Consistent(c, IdTables(lookups)) && Answers(c, item)
    requires item.Model() in c.tables && other.Model() in c.tables
    requires LooksUpBy(item, lookups) && LooksUpBy(other, lookups) && Apply(c, item).1
    requires Done(c, other) && (other.Place? ==> item.Model() != INTEGRATIONS)
    ensures Done(Apply(c, item).0, other)
  {
    var r := Apply(c, item).0;
    ApplyKeeps(c, item, IdTables(lookups));
    ClearIsKept(c, item, other, lookups);
    var t, key := c.tables[other.Model()], other.seed.key;
    var x :| x in t.rows && Fits(x, t.rows[x], key);
    assert Fits(x, r.tables[other.Model()].rows[x], key);
    if other.Place? {
      forall y, i | y in r.tables[LOCATIONS].rows && Fits(y, r.tables[LOCATIONS].rows[y], key)
                    && i in r.tables[INTEGRATIONS].rows
        ensures Linked(r.links, Link(y, i))
      {
        OnlyFit(r.tables[LOCATIONS], key, x, y);
        var k :| k in c.links.rows && c.links.rows[k] == Link(x, i);
        assert r.links.rows[k] == Link(x, i);
      }
    }
  }

  lemma OnlyFit(t: Table, key: Key, x: int, y: int)
    requires !Several(t, key) && x in t.rows && y in t.rows && Fits(x, t.rows[x], key) && Fits(y, t.rows[y], key)
    ensures x == y
  {
  }

  /** The migration adds its integrations before it links its locations. */
  ghost predicate IntegrationsFirst(items: seq<Item>) {
    forall i, j :: 0 <= i < j < |items| && items[i].Place? ==> items[j].Model() != INTEGRATIONS
  }

  lemma {:induction false} RowItemsOf(parts: seq<(string, seq<Seed>)>, item: Item)
    requires item in AllRowItems(parts)
    ensures item.Row? && exists p :: p in parts && p.0 == item.model
  {
    if item in RowItems(parts[0].0, parts[0].1) {
      assert parts[0] in parts;
    } else {
      RowItemsOf(parts[1..], item);
    }
  }

  lemma MigrationAddsIntegrationsFirst(before: seq<(string, seq<Seed>)>, locations: seq<Seed>, orders: seq<seq<int>>,
                                       regions: seq<(string, seq<Seed>)>)
    requires |orders| == |locations| && forall p | p in regions :: p.0 != INTEGRATIONS
    ensures IntegrationsFirst(Migration(before, locations, orders, regions))
  {
    var a, b, c := AllRowItems(before), PlaceItems(locations, orders), AllRowItems(regions);
    var items := Migration(before, locations, orders, regions);
    forall i, j | 0 <= i < j < |items| && items[i].Place? ensures items[j].Model() != INTEGRATIONS {
      if i < |a| {
        assert items[i] == a[i];
        RowItemsOf(before, a[i]);
      } else if j < |a| + |b| {
        assert items[j] == b[j - |a|];
      } else {
        assert items[j] == c[j - |a| - |b|];
        RowItemsOf(regions, items[j]);
      }
    }
  }

  lemma {:induction false} StaysDone(c: Catalog, items: seq<Item>, other: Item, lookups: map<string, Lookup>)
    requires Consistent(c, IdTables(lookups)) && Covers(c, items) && AllAnswer(c, items) && Uniform(items, lookups)
    requires other.Model() in c.tables && LooksUpBy(other, lookups) && Done(c, other) && Run(c, items).1
    requires other.Place? ==> forall i | i in items :: i.Model() != INTEGRATIONS
    ensures Done(Run(c, items).0, other)
    decreases |items|
  {
    if items != [] {
      assert items[0] in items && forall i | i in items[1..] :: i in items;
      assert LooksUpBy(items[0], lookups);
      ApplyKeeps(c, items[0], IdTables(lookups));
      DoneIsKept(c, items[0], other, lookups);
      StaysDone(Apply(c, items[0]).0, items[1..], other, lookups);
    }
  }

  lemma {:induction false} AllDone(c: Catalog, items: seq<Item>, lookups: map<string, Lookup>)
    requires Consistent(c, IdTables(lookups)) && Covers(c, items) && AllAnswer(c, items) && Uniform(items, lookups)
    requires IntegrationsFirst(items) && Run(c, items).1
    ensures Consistent(Run(c, items).0, IdTables(lookups)) && forall i | i in items :: Done(Run(c, items).0, i)
    decreases |items|
  {
    if items != [] {
      var item, rest := items[0], items[1..];
      assert forall i :: i in items <==> i == item || i in rest;
      assert forall k | 0 <= k < |rest| :: rest[k] == items[k + 1];
      var next := Apply(c, item).0;
      assert LooksUpBy(item, lookups);
      ApplyKeeps(c, item, IdTables(lookups));
      ItemIsDone(c, item, lookups);
      StaysDone(next, rest, item, lookups);
      AllDone(next, rest, lookups);
    }
  }

  lemma {:induction false} NothingToDo(c: Catalog, items: seq<Item>, byId: set<string>)
    requires Consistent(c, byId) && Covers(c, items) && AllAnswer(c, items)
    requires forall i | i in items :: Done(c, i)
    ensures Run(c, items) == (c, true)
    decreases |items|
  {
    if items != [] {
      var item := items[0];
      assert item in items && forall i | i in items[1..] :: i in items;
      DoneItemIsQuiet(c, item, byId);
      NothingToDo(c, items[1..], byId);
    }
  }

  lemma DoneItemIsQuiet(c: Catalog, item: Item, byId: set<string>)
    requires Consistent(c, byId) && item.Model() in c.tables && Answers(c, item) && Done(c, item)
    ensures Apply(c, item) == (c, true)
  {
    var t := c.tables[item.Model()];
    assert c.tables[item.Model() := t] == c.tables;
    if item.Place? {
      AllLinked(c.links, GetOrCreate(t, item.seed).value.1, item.order);
    }
  }

  lemma {:induction false} AllLinked(t: Links, location: int, integrations: seq<int>)
    requires forall i | i in integrations :: Linked(t, Link(location, i)) && !LinkedTwice(t, Link(location, i))
    ensures LinkAll(t, location, integrations) == (t, true)
    decreases |integrations|
  {
    if integrations != [] {
      assert integrations[0] in integrations && forall i | i in integrations[1..] :: i in integrations;
      AllLinked(t, location, integrations[1..]);
    }
  }

  ghost predicate SameSeeds(items: seq<Item>, again: seq<Item>) {
    && |items| == |again|
    && forall k | 0 <= k < |items| :: items[k].Model() == again[k].Model() && items[k].seed == again[k].seed
                                      && items[k].Place? == again[k].Place?
  }

  /** Running migration 0007 again after it completed completes, and changes nothing: no row, no link, no
      id sequence, in whatever order the database returns the integrations the second time. */
  lemma ReseedingIsNoOp(c: Catalog, items: seq<Item>, again: seq<Item>, lookups: map<string, Lookup>)
    requires Consistent(c, IdTables(lookups)) && Covers(c, items) && AllAnswer(c, items) && Uniform(items, lookups)
    requires IntegrationsFirst(items) && Run(c, items).1 && SameSeeds(items, again)
    requires Covers(Run(c, items).0, again) && AllAnswer(Run(c, items).0, again)
    ensures Run(Run(c, items).0, again) == (Run(c, items).0, true)
  {
    var r := Run(c, items).0;
    AllDone(c, items, lookups);
    forall i | i in again ensures Done(r, i) {
      var k :| 0 <= k < |again| && again[k] == i;
      assert items[k] in items;
    }
    NothingToDo(r, again, IdTables(lookups));
  }
}
