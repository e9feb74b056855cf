/** Collecting a provider's whole list page by page. */
module Paging {
  import opened Common
  import SnapshotPolling

  const PER_PAGE := 200

  /** A snapshot as the provider lists it. */
  datatype Item = Item(id: string, name: string)

  /** Page `p` (from 1) of a fixed list served in pages of PER_PAGE. */
  function Page(items: seq<Item>, p: nat): seq<Item>
    requires p >= 1
  {
    items[Min((p - 1) * PER_PAGE, |items|)..Min(p * PER_PAGE, |items|)]
  }

  /** The first `n` items, and all of the list past its end. */
  function FirstPages(items: seq<Item>, p: nat): seq<Item> {
    items[..Min(p * PER_PAGE, |items|)]
  }

  lemma OneMorePage(items: seq<Item>, p: nat)
    ensures FirstPages(items, p) + Page(items, p + 1) == FirstPages(items, p + 1)
  {
  }

  /** ceil(total / 200), and 1 for an empty list. */
  function Requests(total: nat): nat {
    if total == 0 then 1 else (total + PER_PAGE - 1) / PER_PAGE
  }

  /** It is the least number of pages of 200, and at least one, that holds the list. */
  lemma RequestsExactly(total: nat)
    ensures var n := Requests(total); n >= 1 && total <= n * 200 && (n > 1 ==> (n - 1) * 200 < total)
    ensures PER_PAGE == 200
  {
  }

  /** Page p holds the items from (p - 1) * 200 up to p * 200, as far as there are any. */
  lemma PageExactly(items: seq<Item>, p: nat, i: nat)
    requires p >= 1 && i < |items| && (p - 1) * 200 <= i < p * 200
    ensures i - (p - 1) * 200 < |Page(items, p)| <= 200 && Page(items, p)[i - (p - 1) * 200] == items[i]
  {
  }

  lemma LastPage(total: nat, p: nat)
    requires p >= 1 && p * PER_PAGE >= total && (p == 1 || (p - 1) * PER_PAGE < total)
    ensures p == Requests(total)
  {
  }

  lemma PagesLeft(total: nat, p: nat)
    requires p >= 1 && p * PER_PAGE < total
    ensures p < Requests(total)
  {
  }

  /** One of the first `n` items has the name. */
  predicate NamedBefore(items: seq<Item>, uuid: string, n: nat)
    requires n <= |items|
  {
    exists i | 0 <= i < n :: items[i].name == uuid
  }

  /** s in name, for strings. */
  predicate Contains(name: string, s: string) {
    exists i | 0 <= i <= |name| - |s| :: OccursAt(name, s, i)
  }

  predicate OccursAt(name: string, s: string, i: int)
    requires 0 <= i <= |name| - |s|
  {
    name[i..i + |s|] == s
  }

  /** A name contains a text exactly when it is that text with something before and after it. */
  lemma ContainsExactly(name: string, s: string)
    ensures Contains(name, s) <==> exists a, b :: name == a + s + b
  {
    if Contains(name, s) {
      var i :| 0 <= i <= |name| - |s| && OccursAt(name, s, i);
      assert name == name[..i] + s + name[i + |s|..];
    }
    if a, b :| name == a + s + b {
      assert name[|a|..|a| + |s|] == s;
      assert OccursAt(name, s, |a|);
    }
  }

  /** The listing loop of CoreDigitalOceanBackup.poll_status: asks for page after page until it has as many
      items as the first answer said there are. `failing` holds the requests whose status is not 200.
      Without a failure it ends after max(1, ceil(total / 200)) requests with exactly the list, in
      order; the first failure ends it with nothing. */
  method CollectByFirstTotal(items: seq<Item>, failing: set<nat>) returns (r: Option<seq<Item>>, requests: nat)
    ensures r.Some? ==> r.value == items && requests == Requests(|items|)
    ensures r.Some? <==> forall q | 1 <= q <= Requests(|items|) :: q !in failing
    ensures r.None? ==> 1 <= requests <= Requests(|items|) && requests in failing
                        && forall q | 1 <= q < requests :: q !in failing
  {
    requests := 1;
    var page := 1;
    if 1 in failing {
      return None, requests;
    }
    var snapshots := Page(items, 1);
    var total := |items|;
    while |snapshots| < total
      invariant page >= 1 && requests == page
      invariant snapshots == FirstPages(items, page)
      invariant page == 1 || (page - 1) * PER_PAGE < total
      invariant forall q | 1 <= q <= page :: q !in failing
      decreases total - |snapshots|
    {
      PagesLeft(total, page);
      page := page + 1;
      requests := requests + 1;
      if page in failing {
        return None, requests;
      }
      OneMorePage(items, page - 1);
      snapshots := snapshots + Page(items, page);
    }
    LastPage(total, page);
    r := Some(snapshots);
  }

  /** The listing loop of CoreDigitalOceanBackup.soft_delete: it reads the total anew from each answer, and a
      failed request ends it with what it has so far. */
  method CollectByEachTotal(items: seq<Item>, failing: set<nat>) returns (snapshots: seq<Item>, requests: nat)
    ensures 1 <= requests <= Requests(|items|)
    ensures forall q | 1 <= q < requests :: q !in failing
    ensures if requests in failing then snapshots == FirstPages(items, requests - 1)
            else snapshots == items && requests == Requests(|items|)
  {
    snapshots := [];
    requests := 0;
    var nextPage: Option<nat> := Some(1);
    while nextPage.Some?
      invariant requests <= Requests(|items|)
      invariant nextPage.Some? ==>
                  && nextPage.value == requests + 1 && requests < Requests(|items|)
                  && snapshots == FirstPages(items, requests) && forall q | 1 <= q <= requests :: q !in failing
      invariant nextPage.None? ==> requests >= 1 && forall q | 1 <= q < requests :: q !in failing
      invariant nextPage.None? && requests in failing ==> snapshots == FirstPages(items, requests - 1)
      invariant nextPage.None? && requests !in failing ==> snapshots == items && requests == Requests(|items|)
      decreases Requests(|items|) - requests, if nextPage.Some? then 1 else 0
    {
      var page := nextPage.value;
      requests := requests + 1;
      if page in failing {
        nextPage := None;
      } else {
        OneMorePage(items, requests - 1);
        snapshots := snapshots + Page(items, page);
        if |snapshots| >= |items| {
          if page > 1 {
            EarlierPagesWereShort(items, page - 1);
          }
          LastPage(|items|, page);
          nextPage := None;
        } else {
          PagesLeft(|items|, page);
          nextPage := Some(page + 1);
        }
      }
    }
  }

  lemma EarlierPagesWereShort(items: seq<Item>, p: nat)
    requires p < Requests(|items|) && p >= 1
    ensures p * PER_PAGE < |items|
  {
  }

  /** What poll_status does with the list of a finished action: it saves the row as COMPLETE at every
      snapshot of that name. The loop raises, before any save, at the item `raisesAt` (a field it reads is
      missing, or the save itself fails). */
  method MatchByName(snapshots: seq<Item>, uuid: string, raisesAt: Option<nat>)
    returns (raised: bool, saved: bool, uniqueId: string)
    ensures raised <==> raisesAt.Some? && raisesAt.value < |snapshots|
    ensures var n := if raised then raisesAt.value else |snapshots|;
            && (saved <==> exists i :: 0 <= i < n && snapshots[i].name == uuid)
            && (saved ==> exists i :: 0 <= i < n && snapshots[i] == Item(uniqueId, uuid)
                            && forall j | i < j < n :: snapshots[j].name != uuid)
  {
    raised, saved, uniqueId := false, false, "";
    var i := 0;
    while i < |snapshots|
      invariant 0 <= i <= |snapshots| && !raised
      invariant raisesAt.Some? ==> i <= raisesAt.value || |snapshots| <= raisesAt.value
      invariant saved <==> NamedBefore(snapshots, uuid, i)
      invariant saved ==> exists k :: 0 <= k < i && snapshots[k] == Item(uniqueId, uuid)
                            && forall j | k < j < i :: snapshots[j].name != uuid
    {
      if raisesAt == Some(i) {
        raised := true;
        return;
      }
      if snapshots[i].name == uuid {
        saved, uniqueId := true, snapshots[i].id;
        assert snapshots[i] == Item(uniqueId, uuid);
      }
      i := i + 1;
    }
  }

  /** The provider's answer to the request for the action. */
  datatype Action = NoAnswer | Pending | Errored | Completed

  datatype NodeType = Cloud | Volume | Neither

  /** CoreDigitalOceanBackup.poll_status. Its answer is the one SnapshotPolling starts from: of a droplet it
      reports COMPLETE whether or not a name matched; and it saves COMPLETE and then reports IN_PROGRESS
      exactly when a snapshot of that name comes before one at which the loop raises. */
  method PollStatus(node: NodeType, action: Action, items: seq<Item>, failing: set<nat>, uuid: string,
                    raisesAt: Option<nat>)
    returns (a: SnapshotPolling.Answer)
    ensures a.Says?
    ensures node.Volume? ==> a.reported == SnapshotPolling.Complete && a.saved
    ensures node.Neither? ==> a.reported == SnapshotPolling.InProgress && !a.saved
    ensures node.Cloud? ==>
              var arrives := forall q | 1 <= q <= Requests(|items|) :: q !in failing;
              var raises := raisesAt.Some? && raisesAt.value < |items|;
              var n := if raises then raisesAt.value else |items|;
              var named := exists i :: 0 <= i < n && items[i].name == uuid;
              && (a.reported == SnapshotPolling.Failed <==> action == Errored)
              && (a.reported == SnapshotPolling.Complete <==> action == Completed && arrives && !raises)
              && (a.reported != SnapshotPolling.Failed && a.reported != SnapshotPolling.Complete ==>
                    a.reported == SnapshotPolling.InProgress)
              && (a.saved <==> action == Completed && arrives && named)
              && (a == SnapshotPolling.Says(SnapshotPolling.InProgress, true) <==>
                    action == Completed && arrives && raises && named)
  {
    match node {
      case Volume =>
        return SnapshotPolling.Says(SnapshotPolling.Complete, true);
      case Neither =>
        return SnapshotPolling.Says(SnapshotPolling.InProgress, false);
      case Cloud =>
    }
    match action {
      case NoAnswer | Pending =>
        return SnapshotPolling.Says(SnapshotPolling.InProgress, false);
      case Errored =>
        return SnapshotPolling.Says(SnapshotPolling.Failed, false);
      case Completed =>
    }
    var snapshots, _ := CollectByFirstTotal(items, failing);
    if snapshots.None? {
      return SnapshotPolling.Says(SnapshotPolling.InProgress, false);
    }
    var raised, saved, _ := MatchByName(snapshots.value, uuid, raisesAt);
    a := SnapshotPolling.Says(if raised then SnapshotPolling.InProgress else SnapshotPolling.Complete, saved);
  }

  /** The volume branch of soft_delete: the first snapshot whose name contains the uuid is the one deleted. */
  method SelectForDeletion(snapshots: seq<Item>, uuid: string) returns (r: Option<Item>)
    ensures r.None? <==> forall i | 0 <= i < |snapshots| :: !Contains(snapshots[i].name, uuid)
    ensures r.Some? ==> exists i :: 0 <= i < |snapshots| && snapshots[i] == r.value && Contains(r.value.name, uuid)
                          && forall j | 0 <= j < i :: !Contains(snapshots[j].name, uuid)
  {
    var i := 0;
    while i < |snapshots|
      invariant 0 <= i <= |snapshots|
      invariant forall j | 0 <= j < i :: !Contains(snapshots[j].name, uuid)
    {
      if Contains(snapshots[i].name, uuid) {
        return Some(snapshots[i]);
      }
      i := i + 1;
    }
    r := None;
  }

  // -----------------------------------------------------------------------------------
  // Cursors
  // -----------------------------------------------------------------------------------

  function Concat(pages: seq<seq<Item>>): seq<Item> {
    if pages == [] then [] else Concat(pages[..|pages| - 1]) + pages[|pages| - 1]
  }

  lemma ConcatPush(pages: seq<seq<Item>>, page: seq<Item>)
    ensures Concat(pages + [page]) == Concat(pages) + page
  {
    assert (pages + [page])[..|pages|] == pages;
  }

  /** The cursor loops of get_eligible_objects: each answer carries the cursor of the next page, the last one
      none. `failing` holds the pages whose request fails, which ends the listing; Lightsail raises there
      (`raising`), Vultr's object listings keep what they have. */
  method CollectByCursor(pages: seq<seq<Item>>, failing: set<nat>, raising: bool)
    returns (r: Option<seq<Item>>, requests: nat)
    requires pages != []
    ensures 1 <= requests <= |pages|
    ensures forall q | 0 <= q < requests - 1 :: q !in failing
    ensures if requests - 1 in failing then
              r == if raising then None else Some(Concat(pages[..requests - 1]))
            else requests == |pages| && r == Some(Concat(pages))
  {
    var eligible: seq<Item> := [];
    var cursor := 0;
    var more := true;
    requests := 0;
    assert pages[..0] == [];
    while more
      invariant 0 <= requests <= |pages|
      invariant more ==> cursor == requests < |pages| && eligible == Concat(pages[..requests])
                         && forall q | 0 <= q < requests :: q !in failing
      invariant !more ==> requests >= 1 && forall q | 0 <= q < requests - 1 :: q !in failing
      invariant !more ==> if requests - 1 in failing then !raising && eligible == Concat(pages[..requests - 1])
                          else requests == |pages| && eligible == Concat(pages)
      decreases |pages| - requests, if more then 1 else 0
    {
      requests := requests + 1;
      if cursor in failing {
        if raising {
          return None, requests;
        }
        more := false;
      } else {
        ConcatPush(pages[..cursor], pages[cursor]);
        assert pages[..cursor + 1] == pages[..cursor] + [pages[cursor]];
        eligible := eligible + pages[cursor];
        if cursor + 1 == |pages| {
          assert pages[..|pages|] == pages;
          more := false;
        } else {
          cursor := cursor + 1;
        }
      }
    }
    r := Some(eligible);
  }
}
