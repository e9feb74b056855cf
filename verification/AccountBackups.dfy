/** The account's newest backups across all backup models: slicing every model before the
    merge must give what merging everything would. */
module AccountBackups {
  import opened Common

  datatype Backup = Backup(id: int, account: int, node: int, status: int, modified: int)

  const COMPLETE := 3

  /** The queryset's filters; None means the filter is not applied. */
  datatype Filter = Filter(account: int, nodeIds: Option<set<int>>, statuses: Option<set<int>>) {
    predicate Admits(b: Backup) {
      && b.account == account
      && (nodeIds.Some? ==> b.node in nodeIds.value)
      && (statuses.Some? ==> b.status in statuses.value)
    }
  }

  function Take<T>(s: seq<T>, k: nat): seq<T> {
    if |s| <= k then s else s[..k]
  }

  ghost predicate NewestFirst(s: seq<Backup>) {
    forall i, j :: 0 <= i < j < |s| ==> s[i].modified >= s[j].modified
  }

  function Select(rows: seq<Backup>, f: Filter): seq<Backup> {
    if rows == [] then []
    else if f.Admits(rows[0]) then [rows[0]] + Select(rows[1..], f)
    else Select(rows[1..], f)
  }

  /** Every model's matching rows, one model after the other, each cut to `per` rows if given. */
  function Chain(tables: seq<seq<Backup>>, f: Filter, per: Option<nat>): seq<Backup> {
    if tables == [] then []
    else
      var rows := Select(tables[0], f);
      (if per.Some? then Take(rows, per.value) else rows) + Chain(tables[1..], f, per)
  }

  // -----------------------------------------------------------------------------------
  // Stable sorting
  // -----------------------------------------------------------------------------------

  /** Takes the newer head; on a tie, the one on the left. */
  function Merge(a: seq<Backup>, b: seq<Backup>): seq<Backup>
    decreases |a| + |b|
  {
    if a == [] then b
    else if b == [] then a
    else if a[0].modified >= b[0].modified then [a[0]] + Merge(a[1..], b)
    else [b[0]] + Merge(a, b[1..])
  }

  /** sorted(..., key=modified, reverse=True). */
  function Sorted(s: seq<Backup>): seq<Backup> {
    if s == [] then [] else Merge([s[0]], Sorted(s[1..]))
  }

  /** The rows modified at one moment, in order. */
  function At(s: seq<Backup>, time: int): seq<Backup> {
    if s == [] then []
    else if s[0].modified == time then [s[0]] + At(s[1..], time)
    else At(s[1..], time)
  }

  /** What a stable newest-first sort promises: newest first, and rows modified together keep
      their order (so nothing is lost or repeated either). */
  ghost predicate IsStableSort(sorted: seq<Backup>, s: seq<Backup>) {
    NewestFirst(sorted) && forall time :: At(sorted, time) == At(s, time)
  }

  lemma {:induction false} InsertKeeps(x: Backup, s: seq<Backup>, time: int)
    requires NewestFirst(s)
    ensures var r := Merge([x], s);
            && NewestFirst(r)
            && At(r, time) == At([x] + s, time)
            && (forall y | y in r :: y == x || y in s)
  {
    assert ([x] + s)[1..] == s && [x][1..] == [];
    if s != [] && x.modified < s[0].modified {
      InsertKeeps(x, s[1..], time);
      var tail := Merge([x], s[1..]);
      assert Merge([x], s) == [s[0]] + tail;
      assert ([s[0]] + tail)[1..] == tail;
      assert ([x] + s[1..])[1..] == s[1..];
      forall k | 0 <= k < |tail| ensures s[0].modified >= tail[k].modified {
        assert tail[k] in tail;
      }
    } else {
      assert Merge([x], s) == [x] + s;
    }
  }

  lemma {:induction false} SortedIsStableSort(s: seq<Backup>)
    ensures IsStableSort(Sorted(s), s)
  {
    if s != [] {
      SortedIsStableSort(s[1..]);
      forall time ensures At(Sorted(s), time) == At(s, time) {
        InsertKeeps(s[0], Sorted(s[1..]), time);
        assert ([s[0]] + Sorted(s[1..]))[1..] == Sorted(s[1..]);
      }
      InsertKeeps(s[0], Sorted(s[1..]), 0);
    }
  }

  lemma {:induction false} AtMember(s: seq<Backup>, i: nat)
    requires i < |s|
    ensures At(s, s[i].modified) != []
  {
    if i > 0 && s[0].modified != s[i].modified {
      AtMember(s[1..], i - 1);
    }
  }

  lemma {:induction false} AtEmpty(s: seq<Backup>, time: int)
    requires NewestFirst(s) && (s != [] ==> s[0].modified < time)
    ensures At(s, time) == []
  {
    if s != [] {
      AtEmpty(s[1..], time);
    }
  }

  /** There is only one stable sort of a list. */
  lemma {:induction false} StableSortIsUnique(a: seq<Backup>, b: seq<Backup>)
    requires NewestFirst(a) && NewestFirst(b) && forall time :: At(a, time) == At(b, time)
    ensures a == b
  {
    if b != [] {
      assert At(a, b[0].modified) == At(b, b[0].modified) != [];
    }
    if a != [] {
      AtMember(a, 0);
      assert At(b, a[0].modified) != [];
      if a[0].modified > b[0].modified {
        AtEmpty(b, a[0].modified);
      } else if a[0].modified < b[0].modified {
        AtMember(b, 0);
        AtEmpty(a, b[0].modified);
      }
      assert At(a, a[0].modified)[0] == a[0] && At(b, a[0].modified)[0] == b[0];
      forall time ensures At(a[1..], time) == At(b[1..], time) {
        assert At(a, time) == At(b, time);
        if a[0].modified == time {
          assert At(a, time)[1..] == At(a[1..], time) && At(b, time)[1..] == At(b[1..], time);
        }
      }
      StableSortIsUnique(a[1..], b[1..]);
      assert a == [a[0]] + a[1..] && b == [b[0]] + b[1..];
    }
  }

  // -----------------------------------------------------------------------------------
  // Merging and slicing
  // -----------------------------------------------------------------------------------

  lemma {:induction false} MergeAssociative(a: seq<Backup>, b: seq<Backup>, c: seq<Backup>)
    ensures Merge(Merge(a, b), c) == Merge(a, Merge(b, c))
    decreases |a| + |b| + |c|
  {
    if a != [] && b != [] && c != [] {
      var ab, bc := Merge(a, b), Merge(b, c);
      if a[0].modified >= b[0].modified && a[0].modified >= c[0].modified {
        assert ab[1..] == Merge(a[1..], b);
        MergeAssociative(a[1..], b, c);
      } else if b[0].modified >= c[0].modified {
        assert ab[1..] == Merge(a, b[1..]) && bc[1..] == Merge(b[1..], c);
        MergeAssociative(a, b[1..], c);
      } else {
        assert bc[1..] == Merge(b, c[1..]);
        MergeAssociative(a, b, c[1..]);
      }
    }
  }

  /** Sorting a concatenation is merging the sorted parts. */
  lemma {:induction false} SortedConcat(a: seq<Backup>, b: seq<Backup>)
    ensures Sorted(a + b) == Merge(Sorted(a), Sorted(b))
  {
    if a == [] {
      assert a + b == b;
    } else {
      assert (a + b)[0] == a[0] && (a + b)[1..] == a[1..] + b;
      SortedConcat(a[1..], b);
      MergeAssociative([a[0]], Sorted(a[1..]), Sorted(b));
    }
  }

  lemma {:induction false} SortedOfNewestFirst(s: seq<Backup>)
    requires NewestFirst(s)
    ensures Sorted(s) == s
  {
    if s != [] {
      SortedOfNewestFirst(s[1..]);
      assert [s[0]][1..] == [];
      if |s| > 1 {
        assert s[1..][0] == s[1];
        assert Merge([s[0]], s[1..]) == [s[0]] + Merge([], s[1..]);
      }
      assert s == [s[0]] + s[1..];
    }
  }

  /** The first k rows of a merge depend only on the first k rows of each side. */
  lemma {:induction false} MergeHeads(k: nat, a: seq<Backup>, b: seq<Backup>, a': seq<Backup>, b': seq<Backup>)
    requires Take(a, k) == Take(a', k) && Take(b, k) == Take(b', k)
    ensures Take(Merge(a, b), k) == Take(Merge(a', b'), k)
    decreases k
  {
    if k > 0 {
      TakeParts(a, a', k);
      TakeParts(b, b', k);
      if a != [] && b != [] {
        if a[0].modified >= b[0].modified {
          MergeHeads(k - 1, a[1..], b, a'[1..], b');
          TakeCons(a[0], Merge(a[1..], b), k);
          TakeCons(a[0], Merge(a'[1..], b'), k);
        } else {
          MergeHeads(k - 1, a, b[1..], a', b'[1..]);
          TakeCons(b[0], Merge(a, b[1..]), k);
          TakeCons(b[0], Merge(a', b'[1..]), k);
        }
      }
    }
  }

  lemma TakeCons(x: Backup, s: seq<Backup>, k: nat)
    requires k > 0
    ensures Take([x] + s, k) == [x] + Take(s, k - 1)
  {
  }

  lemma TakeParts(a: seq<Backup>, b: seq<Backup>, k: nat)
    requires k > 0 && Take(a, k) == Take(b, k)
    ensures a == [] <==> b == []
    ensures Take(a, k - 1) == Take(b, k - 1)
    ensures a != [] ==> a[0] == b[0] && Take(a[1..], k - 1) == Take(b[1..], k - 1)
  {
    assert Take(a, k - 1) == Take(Take(a, k), k - 1) && Take(b, k - 1) == Take(Take(b, k), k - 1);
    if a != [] {
      assert Take(a, k)[0] == a[0] && Take(b, k)[0] == b[0];
      assert Take(a[1..], k - 1) == Take(a, k)[1..] && Take(b[1..], k - 1) == Take(b, k)[1..];
    }
  }

  lemma {:induction false} SelectKeepsOrder(rows: seq<Backup>, f: Filter)
    requires NewestFirst(rows)
    ensures NewestFirst(Select(rows, f))
    ensures forall b :: b in Select(rows, f) <==> b in rows && f.Admits(b)
  {
    if rows != [] {
      SelectKeepsOrder(rows[1..], f);
      var tail := Select(rows[1..], f);
      forall k | 0 <= k < |tail| ensures rows[0].modified >= tail[k].modified {
        assert tail[k] in rows[1..];
      }
      assert forall b :: b in rows <==> b == rows[0] || b in rows[1..];
    }
  }

  /** Slicing every model to k rows before the merge does not change the first k of the result,
      ties included. */
  lemma {:induction false} SlicedMergeEqualsFullMerge(tables: seq<seq<Backup>>, f: Filter, k: nat)
    requires forall t | t in tables :: NewestFirst(t)
    ensures Take(Sorted(Chain(tables, f, Some(k))), k) == Take(Sorted(Chain(tables, f, None)), k)
  {
    if tables != [] {
      assert forall t | t in tables[1..] :: t in tables;
      SlicedMergeEqualsFullMerge(tables[1..], f, k);
      var rows := Select(tables[0], f);
      SelectKeepsOrder(tables[0], f);
      OneMoreModel(rows, Chain(tables[1..], f, Some(k)), Chain(tables[1..], f, None), k);
    }
  }

  /** One more model in front, sliced or not. */
  lemma OneMoreModel(rows: seq<Backup>, sliced: seq<Backup>, full: seq<Backup>, k: nat)
    requires NewestFirst(rows) && Take(Sorted(sliced), k) == Take(Sorted(full), k)
    ensures Take(Sorted(Take(rows, k) + sliced), k) == Take(Sorted(rows + full), k)
  {
    SortedConcat(Take(rows, k), sliced);
    SortedConcat(rows, full);
    SortedOfNewestFirst(rows);
    SortedOfNewestFirst(Take(rows, k));
    assert Take(Take(rows, k), k) == Take(rows, k);
    MergeHeads(k, Take(rows, k), Sorted(sliced), rows, Sorted(full));
  }

  lemma ChainSnoc(tables: seq<seq<Backup>>, f: Filter, per: Option<nat>, i: nat)
    requires i < |tables|
    ensures Chain(tables[..i + 1], f, per) == Chain(tables[..i], f, per)
              + (if per.Some? then Take(Select(tables[i], f), per.value) else Select(tables[i], f))
    decreases i
  {
    if i > 0 {
      ChainSnoc(tables[1..], f, per, i - 1);
      assert tables[..i + 1][1..] == tables[1..][..i] && tables[..i][1..] == tables[1..][..i - 1];
    }
  }

  /** get_all_backups. Each table is given in the order the database returns it for
      order_by("-modified"), rows modified together in the database's own order. `statuses` is what
      the caller passes; None means every status, and leaving the argument out means {COMPLETE}. */
  method GetAllBackups(tables: seq<seq<Backup>>, account: int, lastBackupCount: nat := 3,
                       statuses: Option<set<int>> := Some({COMPLETE}), limit: Option<nat> := None,
                       nodeIds: Option<set<int>> := None)
    returns (backups: seq<Backup>)
    requires forall t | t in tables :: NewestFirst(t)
    ensures var f := Filter(account, nodeIds, statuses);
            && (limit.Some? ==>
                  forall all | IsStableSort(all, Chain(tables, f, None)) :: backups == Take(all, limit.value))
            && (limit.None? ==> IsStableSort(backups, Chain(tables, f, Some(lastBackupCount))))
  {
    var f := Filter(account, nodeIds, statuses);
    var perModelCount := if limit.Some? then limit.value else lastBackupCount;
    var querysets: seq<Backup> := [];
    var i := 0;
    while i < |tables|
      invariant 0 <= i <= |tables|
      invariant querysets == Chain(tables[..i], f, Some(perModelCount))
    {
      var queryset := Select(tables[i], f);
      ChainSnoc(tables, f, Some(perModelCount), i);
      querysets := querysets + Take(queryset, perModelCount);
      i := i + 1;
    }
    assert tables[..|tables|] == tables;
    backups := Sorted(querysets);
    SortedIsStableSort(querysets);
    if limit.Some? {
      backups := Take(backups, limit.value);
      SlicedMergeEqualsFullMerge(tables, f, limit.value);
      forall all | IsStableSort(all, Chain(tables, f, None)) ensures all == Sorted(Chain(tables, f, None)) {
        SortedIsStableSort(Chain(tables, f, None));
        assert forall time ::
          At(all, time) == At(Chain(tables, f, None), time) == At(Sorted(Chain(tables, f, None)), time);
        StableSortIsUnique(all, Sorted(Chain(tables, f, None)));
      }
    }
  }

  /** Without a limit the list is not cut, and still begins with the newest rows of the account. */
  lemma UnlimitedStartsWithNewest(tables: seq<seq<Backup>>, f: Filter, count: nat, backups: seq<Backup>)
    requires forall t | t in tables :: NewestFirst(t)
    requires IsStableSort(backups, Chain(tables, f, Some(count)))
    ensures Take(backups, count) == Take(Sorted(Chain(tables, f, None)), count)
  {
    var chain := Chain(tables, f, Some(count));
    SortedIsStableSort(chain);
    assert forall time :: At(backups, time) == At(chain, time) == At(Sorted(chain), time);
    StableSortIsUnique(backups, Sorted(chain));
    SlicedMergeEqualsFullMerge(tables, f, count);
  }

  /** The limited list holds only admitted rows of the account's tables. */
  lemma {:induction false} ChainHoldsAdmittedRows(tables: seq<seq<Backup>>, f: Filter, b: Backup)
    requires forall t | t in tables :: NewestFirst(t)
    ensures b in Chain(tables, f, None) <==>
              && (exists t :: t in tables && b in t)
              && b.account == f.account
              && (f.nodeIds.None? || b.node in f.nodeIds.value)
              && (f.statuses.None? || b.status in f.statuses.value)
  {
    if tables != [] {
      assert forall t :: t in tables <==> t == tables[0] || t in tables[1..];
      ChainHoldsAdmittedRows(tables[1..], f, b);
      SelectKeepsOrder(tables[0], f);
    }
  }

  /** Each model gives its newest admitted rows, in order and at most `count` of them. */
  lemma EachModelIsSliced(rows: seq<Backup>, f: Filter, count: nat)
    ensures Chain([rows], f, Some(count)) == Take(Select(rows, f), count)
    ensures Chain([rows], f, None) == Select(rows, f)
    ensures |Take(Select(rows, f), count)| <= count && Take(Select(rows, f), count) <= Select(rows, f)
    ensures |Select(rows, f)| <= count ==> Take(Select(rows, f), count) == Select(rows, f)
  {
    assert [rows][1..] == [];
  }

  /** Called without a limit, a node restriction or a status, it gives completed backups only. */
  method RecentBackups(tables: seq<seq<Backup>>, account: int) returns (backups: seq<Backup>)
    requires forall t | t in tables :: NewestFirst(t)
    ensures IsStableSort(backups, Chain(tables, Filter(account, None, Some({3})), Some(3)))
  {
    backups := GetAllBackups(tables, account);
  }
}
