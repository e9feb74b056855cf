/** Memberships with their current and primary markers, and the invites that create them. */
module Memberships {
  import opened Common

  datatype Membership = Membership(member: int, account: int, current: bool, primary: bool)

  type Rows = map<int, Membership>

  /** The table's three constraints: unique (member, account), and for each member at most one current
      and at most one primary row. */
  predicate Constraints(rows: Rows) {
    forall x, y | x in rows && y in rows :: x != y && rows[x].member == rows[y].member ==>
      && rows[x].account != rows[y].account
      && !(rows[x].current && rows[y].current)
      && !(rows[x].primary && rows[y].primary)
  }

  /** A save: the new rows, or the old ones and an IntegrityError. */
  function Commit(rows: Rows, changed: Rows): (Rows, bool) {
    if Constraints(changed) then (changed, true) else (rows, false)
  }

  predicate HasAny(rows: Rows, member: int) {
    exists x | x in rows :: rows[x].member == member
  }

  predicate Has(rows: Rows, member: int, account: int) {
    exists x | x in rows :: rows[x].member == member && rows[x].account == account
  }

  /** member.multiple_accounts */
  predicate Multiple(rows: Rows, member: int) {
    exists x | x in rows :: rows[x].member == member && exists y | y in rows :: y != x && rows[y].member == member
  }

  predicate HasCurrent(rows: Rows, member: int) {
    exists x | x in rows :: rows[x].member == member && rows[x].current
  }

  predicate HasPrimary(rows: Rows, member: int) {
    exists x | x in rows :: rows[x].member == member && rows[x].primary
  }

  /** Sets `current` on the member's row for an account, or on all of the member's rows. */
  function MarkCurrent(rows: Rows, member: int, account: Option<int>): Rows {
    map x | x in rows ::
      if rows[x].member == member && (account.None? || rows[x].account == account.value)
      then rows[x].(current := true) else rows[x]
  }

  function MarkPrimary(rows: Rows, member: int): Rows {
    map x | x in rows :: if rows[x].member == member then rows[x].(current := true, primary := true) else rows[x]
  }

  /** memberships.filter(current=True).exclude(account=account).update(current=False) */
  function ClearOthers(rows: Rows, member: int, account: int): Rows {
    map x | x in rows ::
      if rows[x].member == member && rows[x].account != account then rows[x].(current := false) else rows[x]
  }

  /** set_current_account(account=None); false when it raises, for want of a membership or on a
      constraint. */
  function SetCurrent(rows: Rows, member: int, account: Option<int>): (Rows, bool) {
    var (first, ok) :=
      if Multiple(rows, member) then (rows, true)
      else if !HasAny(rows, member) then (rows, false)
      else Commit(rows, MarkCurrent(rows, member, None));
    if ok && account.Some? && Has(first, member, account.value)
    then Commit(first, MarkCurrent(first, member, account)) else (first, ok)
  }

  /** get_current_account: the rows after it, and the account, if there is one. */
  function ReadCurrent(rows: Rows, member: int): (Rows, bool) {
    if HasCurrent(rows, member) || Multiple(rows, member) || !HasAny(rows, member) then (rows, true)
    else Commit(rows, MarkCurrent(rows, member, None))
  }

  function ReadPrimary(rows: Rows, member: int): (Rows, bool) {
    if HasPrimary(rows, member) || Multiple(rows, member) || !HasAny(rows, member) then (rows, true)
    else Commit(rows, MarkPrimary(rows, member))
  }

  // -----------------------------------------------------------------------------------
  // Invites
  // -----------------------------------------------------------------------------------

  datatype InviteStatus = Accepted | Expired | Cancelled | Pending

  datatype Invite = Invite(account: int, email: string, status: InviteStatus, expires: Option<int>)

  const INVITE_TTL := 7 * 24 * 60 * 60

  /** members maps each member to its user's email; emails are held in lower case. `accepted` lists the
      invites accepted so far. */
  datatype State = State(rows: Rows, nextRow: int, invites: map<int, Invite>, nextInvite: int,
                         members: map<int, string>, nextMember: int, accepted: seq<int>)

  predicate IsExpired(i: Invite, now: int) {
    i.status.Pending? && i.expires.Some? && now > i.expires.value
  }

  /** expire_if_needed */
  function Expire(s: State, id: int, now: int): State
    requires id in s.invites
  {
    if IsExpired(s.invites[id], now) then s.(invites := s.invites[id := s.invites[id].(status := Expired)]) else s
  }

  /** CoreInvite.accept */
  function Grant(s: State, id: int, member: int): State
    requires id in s.invites
  {
    var account := s.invites[id].account;
    var joined :=
      if Has(s.rows, member, account) then s
      else s.(rows := s.rows[s.nextRow := Membership(member, account, false, false)], nextRow := s.nextRow + 1);
    joined.(invites := s.invites[id := s.invites[id].(status := Accepted)], accepted := s.accepted + [id])
  }

  /** _finish_accept; false when set_current_account raises. */
  function FinishAccept(s: State, id: int, member: int): (State, bool)
    requires id in s.invites
  {
    var granted := Grant(s, id, member);
    var account := s.invites[id].account;
    var (rows, ok) := SetCurrent(ClearOthers(granted.rows, member, account), member, Some(account));
    (granted.(rows := rows), ok)
  }

  /** Who posts to the public page: a logged-in member, or an anonymous visitor whose signup form is
      valid or not. */
  datatype Visitor = LoggedIn(member: int) | Anonymous(formValid: bool)

  predicate EmailTaken(s: State, email: string) {
    exists m | m in s.members :: s.members[m] == email
  }

  /** The member a POST would accept the invite for, if it gets that far. */
  function Accepter(s: State, id: int, v: Visitor): Option<int>
    requires id in s.invites
  {
    var i := s.invites[id];
    if !i.status.Pending? then None
    else
      match v
      case LoggedIn(m) => if m in s.members && s.members[m] == i.email then Some(m) else None
      case Anonymous(valid) => if valid && !EmailTaken(s, i.email) then Some(s.nextMember) else None
  }

  /** The public accept page, on POST. */
  function PublicPost(s: State, id: int, now: int, v: Visitor): (State, bool) {
    if id !in s.invites then (s, true)
    else
      var e := Expire(s, id, now);
      match Accepter(e, id, v)
      case None => (e, true)
      case Some(m) =>
        var signed :=
          if v.Anonymous? then e.(members := e.members[m := e.invites[id].email], nextMember := e.nextMember + 1)
          else e;
        FinishAccept(signed, id, m)
  }

  /** The API's accept action: it grants the membership but leaves the markers alone. */
  function ApiAccept(s: State, id: int, now: int, member: int): State {
    if id !in s.invites || member !in s.members || s.members[member] != s.invites[id].email then s
    else
      var e := Expire(s, id, now);
      if e.invites[id].status.Pending? then Grant(e, id, member) else e
  }

  /** The body of leave_membership: the row goes, then set_current_account() without an account; false
      when that raises. */
  function DropRow(rows: Rows, row: int): (Rows, bool)
    requires row in rows
  {
    SetCurrent(rows - {row}, rows[row].member, None)
  }

  /** leave_membership, which names an account the member owns besides the row to leave: a non-primary row
      of the member's own. */
  function Leave(s: State, member: int, account: int, row: int): (State, bool) {
    if !Owns(s.rows, member, account) || row !in s.rows || s.rows[row].member != member || s.rows[row].primary
    then (s, true)
    else var (rows, ok) := DropRow(s.rows, row); (s.(rows := rows), ok)
  }

  /** The invites of the requester's current account, with those past their window flipped first. */
  function Listed(s: State, requester: int, now: int): (State, bool) {
    var (rows, ok) := ReadCurrent(s.rows, requester);
    (s.(rows := rows, invites := if ok then Flipped(s.invites, rows, requester, now) else s.invites), ok)
  }

  function Flipped(invites: map<int, Invite>, rows: Rows, requester: int, now: int): map<int, Invite> {
    map i | i in invites ::
      if IsCurrent(rows, requester, invites[i].account) && IsExpired(invites[i], now)
      then invites[i].(status := Expired) else invites[i]
  }

  predicate CanChange(s: State, requester: int, id: int) {
    id in s.invites && IsCurrent(s.rows, requester, s.invites[id].account) && s.invites[id].status.Pending?
  }

  /** The resend action. */
  function ResendInvite(s: State, requester: int, id: int, now: int): (State, bool) {
    var (l, ok) := Listed(s, requester, now);
    if ok && CanChange(l, requester, id)
    then (l.(invites := l.invites[id := l.invites[id].(expires := Some(now + INVITE_TTL))]), ok) else (l, ok)
  }

  /** The cancel action. */
  function CancelInvite(s: State, requester: int, id: int, now: int): (State, bool) {
    var (l, ok) := Listed(s, requester, now);
    if ok && CanChange(l, requester, id)
    then (l.(invites := l.invites[id := l.invites[id].(status := Cancelled)]), ok) else (l, ok)
  }

  /** b's current account is one of a's accounts. */
  predicate SharesCurrent(rows: Rows, a: int, b: int) {
    exists x | x in rows :: rows[x].member == b && rows[x].current && Has(rows, a, rows[x].account)
  }

  function Unmark(rows: Rows, member: int): Rows {
    map x | x in rows :: if rows[x].member == member then rows[x].(current := false) else rows[x]
  }

  /** The body of switch_current_account; false when it raises, for want of a current membership or on a
      constraint. */
  function SwitchTo(rows: Rows, member: int, account: int): (Rows, bool) {
    if !Has(rows, member, account) then (rows, true)
    else if !HasCurrent(rows, member) then (rows, false)
    else Commit(Unmark(rows, member), MarkCurrent(Unmark(rows, member), member, Some(account)))
  }

  /** switch_current_account: the request lists the members of the requester's current account, and the
      permission asks for a membership in the listed member's current account. Both questions can mark an
      only membership. */
  function Switch(rows: Rows, requester: int, member: int, account: int): (Rows, bool) {
    var (first, listed) := ReadCurrent(rows, requester);
    if !listed || !SharesCurrent(first, member, requester) then (first, listed)
    else
      var (second, asked) := ReadCurrent(first, member);
      if !asked || !SharesCurrent(second, requester, member) then (second, asked)
      else SwitchTo(second, member, account)
  }

  /** The accounts the request can name: those the requester's own membership of is primary. */
  predicate Owns(rows: Rows, member: int, account: int) {
    exists x | x in rows :: rows[x].member == member && rows[x].account == account && rows[x].primary
  }

  /** member.is_primary_account, once the current account is settled. */
  predicate OwnsCurrent(rows: Rows, member: int) {
    exists x | x in rows :: rows[x].member == member && rows[x].primary && rows[x].current
  }

  /** remove_membership: an account's owner removes one of its memberships. */
  function Remove(rows: Rows, requester: int, account: int, row: int): (Rows, bool) {
    if !Owns(rows, requester, account) || row !in rows || rows[row].account != account then (rows, true)
    else
      var (settled, ok) := ReadCurrent(rows, requester);
      if ok && OwnsCurrent(settled, requester) then (settled - {row}, true) else (settled, ok)
  }

  // -----------------------------------------------------------------------------------
  // The methods, as they are written
  // -----------------------------------------------------------------------------------

  class Directory {
    var s: State

    method SetCurrentAccount(member: int, account: Option<int>) returns (ok: bool)
      modifies this
      ensures s == old(s).(rows := SetCurrent(old(s).rows, member, account).0)
      ensures ok == SetCurrent(old(s).rows, member, account).1
    {
      if !Multiple(s.rows, member) {
        if !HasAny(s.rows, member) {
          return false;
        }
        var id :| id in s.rows && s.rows[id].member == member;
        var saved := s.rows[id := s.rows[id].(current := true)];
        assert forall x | x in s.rows && s.rows[x].member == member :: x == id;
        assert saved == MarkCurrent(s.rows, member, None);
        if !Constraints(saved) {
          return false;
        }
        s := s.(rows := saved);
      }
      if account.Some? && Has(s.rows, member, account.value) {
        var changed := MarkCurrent(s.rows, member, account);
        if !Constraints(changed) {
          return false;
        }
        s := s.(rows := changed);
      }
      ok := true;
    }

    method GetCurrentAccount(member: int) returns (account: Option<int>, ok: bool)
      requires Constraints(s.rows)
      modifies this
      ensures s == old(s).(rows := ReadCurrent(old(s).rows, member).0) && ok == ReadCurrent(old(s).rows, member).1
      ensures account.Some? <==> HasCurrent(s.rows, member)
      ensures account.Some? ==>
                exists x :: x in s.rows && s.rows[x] == Membership(member, account.value, true, s.rows[x].primary)
    {
      ok := true;
      if HasCurrent(s.rows, member) {
        var id :| id in s.rows && s.rows[id].member == member && s.rows[id].current;
        account := Some(s.rows[id].account);
      } else if !Multiple(s.rows, member) && HasAny(s.rows, member) {
        var id :| id in s.rows && s.rows[id].member == member;
        assert forall x | x in s.rows && s.rows[x].member == member :: x == id;
        var saved := s.rows[id := s.rows[id].(current := true)];
        assert saved == MarkCurrent(s.rows, member, None);
        SingleMarksKeepConstraints(s.rows, member);
        s := s.(rows := saved);
        assert s.rows[id].current;
        account := Some(s.rows[id].account);
      } else {
        account := None;
      }
    }

    method GetPrimaryAccount(member: int) returns (account: Option<int>, ok: bool)
      requires Constraints(s.rows)
      modifies this
      ensures s == old(s).(rows := ReadPrimary(old(s).rows, member).0) && ok == ReadPrimary(old(s).rows, member).1
      ensures account.Some? <==> HasPrimary(s.rows, member)
      ensures account.Some? ==>
                exists x :: x in s.rows && s.rows[x] == Membership(member, account.value, s.rows[x].current, true)
    {
      ok := true;
      if HasPrimary(s.rows, member) {
        var id :| id in s.rows && s.rows[id].member == member && s.rows[id].primary;
        account := Some(s.rows[id].account);
      } else if !Multiple(s.rows, member) && HasAny(s.rows, member) {
        var id :| id in s.rows && s.rows[id].member == member;
        assert forall x | x in s.rows && s.rows[x].member == member :: x == id;
        var saved := s.rows[id := s.rows[id].(current := true, primary := true)];
        assert saved == MarkPrimary(s.rows, member);
        SingleMarksKeepConstraints(s.rows, member);
        s := s.(rows := saved);
        assert s.rows[id].primary;
        account := Some(s.rows[id].account);
      } else {
        account := None;
      }
    }

    /** _finish_accept with CoreInvite.accept inlined at its start. */
    method FinishAcceptance(id: int, member: int) returns (ok: bool)
      requires id in s.invites
      modifies this
      ensures (s, ok) == FinishAccept(old(s), id, member)
    {
      var account := s.invites[id].account;
      if !Has(s.rows, member, account) {
        s := s.(rows := s.rows[s.nextRow := Membership(member, account, false, false)], nextRow := s.nextRow + 1);
      }
      s := s.(invites := s.invites[id := s.invites[id].(status := Accepted)], accepted := s.accepted + [id]);
      assert s == Grant(old(s), id, member);
      s := s.(rows := ClearOthers(s.rows, member, account));
      ok := SetCurrentAccount(member, Some(account));
    }

    /** The accept view, on POST. */
    method Accept(id: int, now: int, v: Visitor) returns (ok: bool)
      modifies this
      ensures (s, ok) == PublicPost(old(s), id, now, v)
    {
      ok := true;
      if id !in s.invites {
        return;
      }
      if IsExpired(s.invites[id], now) {
        s := s.(invites := s.invites[id := s.invites[id].(status := Expired)]);
      }
      if s.invites[id].status != Pending {
        return;
      }
      match v {
        case LoggedIn(m) =>
          if m !in s.members || s.members[m] != s.invites[id].email {
            return;
          }
          ok := FinishAcceptance(id, m);
        case Anonymous(formValid) =>
          if EmailTaken(s, s.invites[id].email) || !formValid {
            return;
          }
          var m := s.nextMember;
          s := s.(members := s.members[m := s.invites[id].email], nextMember := s.nextMember + 1);
          ok := FinishAcceptance(id, m);
      }
    }

    /** The invite actions of the API. */
    method AcceptByApi(id: int, now: int, member: int)
      modifies this
      ensures s == ApiAccept(old(s), id, now, member)
    {
      if id !in s.invites || member !in s.members || s.members[member] != s.invites[id].email {
        return;
      }
      if IsExpired(s.invites[id], now) {
        s := s.(invites := s.invites[id := s.invites[id].(status := Expired)]);
      }
      if s.invites[id].status == Pending {
        var account := s.invites[id].account;
        if !Has(s.rows, member, account) {
          s := s.(rows := s.rows[s.nextRow := Membership(member, account, false, false)], nextRow := s.nextRow + 1);
        }
        s := s.(invites := s.invites[id := s.invites[id].(status := Accepted)], accepted := s.accepted + [id]);
      }
    }

    method LeaveMembership(member: int, account: int, row: int) returns (ok: bool)
      modifies this
      ensures (s, ok) == Leave(old(s), member, account, row)
    {
      if !Owns(s.rows, member, account) {
        return true;
      }
      if row !in s.rows || s.rows[row].member != member || s.rows[row].primary {
        return true;
      }
      s := s.(rows := s.rows - {row});
      ok := SetCurrentAccount(member, None);
    }

    /** The queryset of the invite actions. */
    method ListInvites(requester: int, now: int) returns (ok: bool)
      requires Constraints(s.rows)
      modifies this
      ensures (s, ok) == Listed(old(s), requester, now) && ok
    {
      ReadingKeeps(s.rows, requester);
      var _, _ := GetCurrentAccount(requester);
      s := s.(invites := Flipped(s.invites, s.rows, requester, now));
      ok := true;
    }

    method Resend(requester: int, id: int, now: int) returns (ok: bool)
      requires Constraints(s.rows)
      modifies this
      ensures (s, ok) == ResendInvite(old(s), requester, id, now)
    {
      ok := ListInvites(requester, now);
      if id !in s.invites || !IsCurrent(s.rows, requester, s.invites[id].account) {
        return;
      }
      if s.invites[id].status != Pending {
        return;
      }
      s := s.(invites := s.invites[id := s.invites[id].(expires := Some(now + INVITE_TTL))]);
    }

    method Cancel(requester: int, id: int, now: int) returns (ok: bool)
      requires Constraints(s.rows)
      modifies this
      ensures (s, ok) == CancelInvite(old(s), requester, id, now)
    {
      ok := ListInvites(requester, now);
      if id !in s.invites || !IsCurrent(s.rows, requester, s.invites[id].account) {
        return;
      }
      if s.invites[id].status != Pending {
        return;
      }
      s := s.(invites := s.invites[id := s.invites[id].(status := Cancelled)]);
    }

    method SwitchCurrentAccount(requester: int, member: int, account: int) returns (ok: bool)
      requires Constraints(s.rows)
      modifies this
      ensures s == old(s).(rows := Switch(old(s).rows, requester, member, account).0)
      ensures ok == Switch(old(s).rows, requester, member, account).1
    {
      ReadingKeeps(s.rows, requester);
      var _, _ := GetCurrentAccount(requester);
      if !SharesCurrent(s.rows, member, requester) {
        return true;
      }
      ReadingKeeps(s.rows, member);
      var _, _ := GetCurrentAccount(member);
      if !SharesCurrent(s.rows, requester, member) {
        return true;
      }
      ok := MoveMarker(member, account);
    }

    /** The body of the view. */
    method MoveMarker(member: int, account: int) returns (ok: bool)
      requires Constraints(s.rows)
      modifies this
      ensures s == old(s).(rows := SwitchTo(old(s).rows, member, account).0)
      ensures ok == SwitchTo(old(s).rows, member, account).1
    {
      if !Has(s.rows, member, account) {
        return true;
      }
      if !HasCurrent(s.rows, member) {
        return false;
      }
      SwitchKeeps(s.rows, member, account);
      var before: int :| before in s.rows && s.rows[before].member == member && s.rows[before].current;
      OnlyOneToUnmark(s.rows, member, before);
      s := s.(rows := s.rows[before := s.rows[before].(current := false)]);
      s := s.(rows := MarkCurrent(s.rows, member, Some(account)));
      ok := true;
    }

    method RemoveMembership(requester: int, account: int, row: int) returns (ok: bool)
      requires Constraints(s.rows)
      modifies this
      ensures s == old(s).(rows := Remove(old(s).rows, requester, account, row).0)
      ensures ok == Remove(old(s).rows, requester, account, row).1
    {
      ok := true;
      if !Owns(s.rows, requester, account) {
        return;
      }
      if row !in s.rows || s.rows[row].account != account {
        return;
      }
      ReadingKeeps(s.rows, requester);
      var _, _ := GetCurrentAccount(requester);
      if OwnsCurrent(s.rows, requester) {
        s := s.(rows := s.rows - {row});
      }
    }
  }

  // -----------------------------------------------------------------------------------
  // One operation
  // -----------------------------------------------------------------------------------

  lemma SingleMarksKeepConstraints(rows: Rows, member: int)
    requires Constraints(rows) && !Multiple(rows, member)
    ensures Constraints(MarkCurrent(rows, member, None)) && Constraints(MarkPrimary(rows, member))
  {
    forall x, y | x in rows && y in rows && x != y && rows[x].member == rows[y].member
      ensures rows[x].member != member
    {
    }
  }

  /** Every row of another member is what it was. */
  ghost predicate OthersKept(a: Rows, b: Rows, member: int) {
    && (forall x | x in a && a[x].member != member :: x in b && b[x] == a[x])
    && (forall x | x in b && b[x].member != member :: x in a)
  }

  lemma OnlyOneToUnmark(rows: Rows, member: int, x: int)
    requires Constraints(rows) && x in rows && rows[x].member == member && rows[x].current
    ensures rows[x := rows[x].(current := false)] == Unmark(rows, member)
  {
    forall y | y in rows && y != x && rows[y].member == member ensures rows[y] == rows[y].(current := false) {
      assert !rows[y].current;
    }
  }

  /** Only `current` markers differ, and only those of the members named. */
  ghost predicate MovesMarkers(a: Rows, b: Rows, who: set<int>) {
    && b.Keys == a.Keys
    && (forall x | x in a :: b[x] == a[x].(current := b[x].current))
    && (forall x | x in a && a[x].member !in who :: b[x] == a[x])
  }

  lemma MovesCompose(a: Rows, b: Rows, c: Rows, who: set<int>, others: set<int>)
    requires MovesMarkers(a, b, who) && MovesMarkers(b, c, others)
    ensures MovesMarkers(a, c, who + others)
  {
    forall x | x in a ensures c[x] == a[x].(current := c[x].current) && b[x].member == a[x].member {
      assert b[x] == a[x].(current := b[x].current) && c[x] == b[x].(current := c[x].current);
    }
  }

  /** Reading the current account raises for nobody, changes at most the marker of an only membership, and
      leaves the member without a current account exactly when there are several and none was current. */
  lemma ReadingKeeps(rows: Rows, member: int)
    requires Constraints(rows)
    ensures var (r, ok) := ReadCurrent(rows, member);
            && ok && Constraints(r) && MovesMarkers(rows, r, {member})
            && (HasCurrent(r, member) <==>
                  HasCurrent(rows, member) || (HasAny(rows, member) && !Multiple(rows, member)))
            && (HasCurrent(rows, member) ==> r == rows)
  {
    if !HasCurrent(rows, member) && !Multiple(rows, member) && HasAny(rows, member) {
      SingleMarksKeepConstraints(rows, member);
      var x :| x in rows && rows[x].member == member;
      assert MarkCurrent(rows, member, None)[x].current;
    }
  }

  /** The body of a switch raises exactly when the member belongs to the account and has no current one;
      when it does not and the member belongs to the account, that one is the only current one. */
  lemma SwitchKeeps(rows: Rows, member: int, account: int)
    requires Constraints(rows)
    ensures var (r, ok) := SwitchTo(rows, member, account);
            && Constraints(r) && MovesMarkers(rows, r, {member})
            && (ok <==> Has(rows, member, account) ==> HasCurrent(rows, member))
            && (ok && Has(rows, member, account) ==>
                  forall x | x in r && r[x].member == member :: r[x].current <==> r[x].account == account)
            && (!(ok && Has(rows, member, account)) ==> r == rows)
  {
    var cleared := Unmark(rows, member);
    assert forall x | x in rows :: cleared[x] == rows[x].(current := cleared[x].current);
    assert Constraints(MarkCurrent(cleared, member, Some(account)));
  }

  /** Through the view a switch never raises: a member without a current account is turned away before.
      A member's own request ends with the account current exactly for a member of it with a current
      account or a single membership: one who lost the current account with several left cannot switch to
      any. */
  lemma SwitchSucceedsExactly(rows: Rows, member: int, account: int)
    requires Constraints(rows)
    ensures var (r, ok) := Switch(rows, member, member, account);
            && ok && Constraints(r) && MovesMarkers(rows, r, {member})
            && (IsCurrent(r, member, account) <==>
                  Has(rows, member, account) && (HasCurrent(rows, member) || !Multiple(rows, member)))
            && (!HasCurrent(rows, member) && Multiple(rows, member) ==> r == rows)
  {
    SwitchKeepsConstraints(rows, member, member, account);
    assert {member, member} == {member};
    ReadingKeeps(rows, member);
    var first := ReadCurrent(rows, member).0;
    assert ReadCurrent(first, member) == (first, true);
    assert Has(first, member, account) <==> Has(rows, member, account) by {
      SameMemberships(rows, first, member, account);
    }
    if HasCurrent(first, member) {
      var x :| x in first && first[x].member == member && first[x].current;
      assert Has(first, member, first[x].account);
      assert SharesCurrent(first, member, member);
      SwitchKeeps(first, member, account);
      var r := SwitchTo(first, member, account).0;
      if Has(first, member, account) {
        var y :| y in first && first[y].member == member && first[y].account == account;
        assert r[y].current;
      }
    }
  }

  predicate IsCurrent(rows: Rows, member: int, account: int) {
    exists x | x in rows :: rows[x].member == member && rows[x].account == account && rows[x].current
  }

  lemma SameMemberships(a: Rows, b: Rows, member: int, account: int)
    requires a.Keys == b.Keys && forall x | x in a :: b[x] == a[x].(current := b[x].current)
    ensures Has(a, member, account) <==> Has(b, member, account)
  {
    if Has(a, member, account) {
      var x :| x in a && a[x].member == member && a[x].account == account;
      assert b[x].member == member;
    }
    if Has(b, member, account) {
      var x :| x in b && b[x].member == member && b[x].account == account;
      assert a[x].member == member;
    }
  }

  /** Whoever asks, a switch never raises and changes no marker but the requester's and the member's. */
  lemma SwitchKeepsConstraints(rows: Rows, requester: int, member: int, account: int)
    requires Constraints(rows)
    ensures var (r, ok) := Switch(rows, requester, member, account);
            ok && Constraints(r) && MovesMarkers(rows, r, {requester, member})
  {
    ReadingKeeps(rows, requester);
    var first := ReadCurrent(rows, requester).0;
    if SharesCurrent(first, member, requester) {
      ReadingKeeps(first, member);
      var second := ReadCurrent(first, member).0;
      MovesCompose(rows, first, second, {requester}, {member});
      assert {requester} + {member} == {requester, member};
      if SharesCurrent(second, requester, member) {
        var r := SwitchTo(second, member, account).0;
        SwitchKeeps(second, member, account);
        MovesCompose(rows, second, r, {requester, member}, {member});
        assert {requester, member} + {member} == {requester, member};
      }
    }
  }

  /** Removing a membership never raises, and takes nobody's membership but the removed one. */
  lemma RemovalKeepsConstraints(rows: Rows, requester: int, account: int, row: int)
    requires Constraints(rows)
    ensures var (r, ok) := Remove(rows, requester, account, row);
            && ok && Constraints(r)
            && (forall x | x in r :: x in rows && r[x] == rows[x].(current := r[x].current))
            && (forall x | x in rows && x !in r :: x == row && rows[x].account == account)
  {
    ReadingKeeps(rows, requester);
  }

  /** set_current_account(account) on its own, without clearing markers first, succeeds exactly when the
      member has a membership and, if one of them is in this account, no other one is current; the
      marker it sets is then the only one. */
  lemma SetCurrentSucceedsExactly(rows: Rows, member: int, account: int)
    requires Constraints(rows)
    ensures var (r, ok) := SetCurrent(rows, member, Some(account));
            && Constraints(r) && OthersKept(rows, r, member)
            && (ok <==> HasAny(rows, member) && (Has(rows, member, account) ==>
                  forall x | x in rows && rows[x].member == member && rows[x].current :: rows[x].account == account))
            && (ok && Has(rows, member, account) ==>
                  forall x | x in r && r[x].member == member :: r[x].current <==> r[x].account == account)
  {
    if !Multiple(rows, member) {
      SingleMarksKeepConstraints(rows, member);
      if HasAny(rows, member) {
        var first := MarkCurrent(rows, member, None);
        assert Has(first, member, account) ==> MarkCurrent(first, member, Some(account)) == first;
        assert Has(first, member, account) <==> Has(rows, member, account) by {
          assert forall x | x in rows :: first[x].member == rows[x].member && first[x].account == rows[x].account;
        }
      }
    } else if Has(rows, member, account) {
      var changed := MarkCurrent(rows, member, Some(account));
      var a :| a in rows && rows[a].member == member && rows[a].account == account;
      if x :| x in rows && rows[x].member == member && rows[x].current && rows[x].account != account {
        assert changed[x].current && changed[a].current;
      }
    }
  }

  lemma ClearingKeeps(rows: Rows, member: int, account: int)
    requires Constraints(rows) && Has(rows, member, account)
    ensures var cleared := ClearOthers(rows, member, account);
            && Constraints(cleared) && Has(cleared, member, account) && MovesMarkers(rows, cleared, {member})
            && (forall x | x in cleared && cleared[x].member == member && cleared[x].current ::
                  cleared[x].account == account)
  {
    var cleared := ClearOthers(rows, member, account);
    assert forall x | x in rows ::
      cleared[x] == rows[x].(current := cleared[x].current) && (cleared[x].current ==> rows[x].current);
    var a :| a in rows && rows[a].member == member && rows[a].account == account;
    assert cleared[a].member == member && cleared[a].account == account;
  }

  /** Setting a current account moves the member's markers and nothing else. */
  lemma SetCurrentMoves(rows: Rows, member: int, account: int)
    ensures MovesMarkers(rows, SetCurrent(rows, member, Some(account)).0, {member})
  {
  }

  /** Making an account current after clearing the others never fails. */
  lemma ClearedThenSet(rows: Rows, member: int, account: int)
    requires Constraints(rows) && Has(rows, member, account)
    ensures var (r, ok) := SetCurrent(ClearOthers(rows, member, account), member, Some(account));
            && ok && Constraints(r) && OthersKept(rows, r, member) && r.Keys == rows.Keys
            && (forall x | x in r :: r[x] == rows[x].(current := r[x].current))
            && (forall x | x in r && r[x].member == member :: r[x].current <==> r[x].account == account)
  {
    var cleared := ClearOthers(rows, member, account);
    ClearingKeeps(rows, member, account);
    SetCurrentSucceedsExactly(cleared, member, account);
    var r := SetCurrent(cleared, member, Some(account)).0;
    SetCurrentMoves(cleared, member, account);
    ClearedMoves(rows, cleared, r, member);
  }

  lemma ClearedMoves(rows: Rows, cleared: Rows, r: Rows, member: int)
    requires MovesMarkers(rows, cleared, {member}) && MovesMarkers(cleared, r, {member})
    ensures MovesMarkers(rows, r, {member}) && OthersKept(rows, r, member)
  {
    MovesCompose(rows, cleared, r, {member}, {member});
    assert {member} + {member} == {member};
  }

  // -----------------------------------------------------------------------------------
  // Runs
  // -----------------------------------------------------------------------------------

  ghost predicate Inv(s: State) {
    && Constraints(s.rows)
    && (forall x | x in s.rows :: x < s.nextRow)
    && (forall i | i in s.invites :: i < s.nextInvite)
    && (forall m | m in s.members :: m < s.nextMember)
    && Distinct(s.accepted)
    && (forall i | i in s.accepted :: i in s.invites && s.invites[i].status == Accepted)
    && (forall i | i in s.invites && s.invites[i].status == Accepted :: i in s.accepted)
  }

  lemma GrantEffect(s: State, id: int, member: int)
    requires Inv(s) && id in s.invites && s.invites[id].status.Pending?
    ensures var g := Grant(s, id, member);
            && Inv(g) && Has(g.rows, member, s.invites[id].account)
            && OthersKept(s.rows, g.rows, member)
            && (forall x | x in s.rows :: x in g.rows && g.rows[x] == s.rows[x])
            && (forall x | x in g.rows && x !in s.rows :: !g.rows[x].current && !g.rows[x].primary)
            && g.members == s.members && g.accepted == s.accepted + [id]
  {
    var g := Grant(s, id, member);
    var account := s.invites[id].account;
    if !Has(s.rows, member, account) {
      assert g.rows[s.nextRow] == Membership(member, account, false, false);
    } else {
      var x :| x in s.rows && s.rows[x].member == member && s.rows[x].account == account;
      assert g.rows[x].account == account;
    }
  }

  /** An acceptance through the public page, seen from before it: what it needs and what it leaves. */
  lemma PublicAcceptance(s: State, id: int, now: int, v: Visitor)
    requires Inv(s)
    ensures var (t, ok) := PublicPost(s, id, now, v);
            && ok && Inv(t)
            && (t.accepted == s.accepted || t.accepted == s.accepted + [id])
            && (t.accepted != s.accepted ==>
                  && id in s.invites && s.invites[id].status.Pending? && !IsExpired(s.invites[id], now)
                  && Accepter(s, id, v).Some?
                  && var m := Accepter(s, id, v).value;
                  && OthersKept(s.rows, t.rows, m)
                  && Has(t.rows, m, s.invites[id].account)
                  && forall x | x in t.rows && t.rows[x].member == m ::
                       t.rows[x].current <==> t.rows[x].account == s.invites[id].account)
            && (t.accepted == s.accepted ==> t.rows == s.rows)
  {
    if id in s.invites {
      var e := Expire(s, id, now);
      if Accepter(e, id, v).Some? {
        var m := Accepter(e, id, v).value;
        assert e == s;
        var signed :=
          if v.Anonymous? then e.(members := e.members[m := e.invites[id].email], nextMember := e.nextMember + 1)
          else e;
        FinishAcceptEffect(signed, id, m);
        assert |s.accepted + [id]| == |s.accepted| + 1;
      }
    }
  }

  lemma FinishAcceptEffect(s: State, id: int, m: int)
    requires Inv(s) && id in s.invites && s.invites[id].status.Pending?
    ensures var (t, ok) := FinishAccept(s, id, m);
            && ok && Inv(t) && t.accepted == s.accepted + [id] && t.members == s.members
            && OthersKept(s.rows, t.rows, m)
            && Has(t.rows, m, s.invites[id].account)
            && forall x | x in t.rows && t.rows[x].member == m ::
                 t.rows[x].current <==> t.rows[x].account == s.invites[id].account
  {
    var account := s.invites[id].account;
    GrantEffect(s, id, m);
    var g := Grant(s, id, m);
    ClearedThenSet(g.rows, m, account);
    var t := FinishAccept(s, id, m).0;
    assert t == g.(rows := t.rows);
    var x :| x in g.rows && g.rows[x].member == m && g.rows[x].account == account;
    assert t.rows[x].account == account;
  }

  /** After an acceptance the member's current account is the invited one, and reading it changes
      nothing. */
  lemma AcceptedAccountIsCurrent(s: State, id: int, now: int, v: Visitor)
    requires Inv(s) && PublicPost(s, id, now, v).0.accepted != s.accepted
    ensures id in s.invites && Accepter(s, id, v).Some?
    ensures var t, m := PublicPost(s, id, now, v).0, Accepter(s, id, v).value;
            && ReadCurrent(t.rows, m) == (t.rows, true)
            && exists x :: x in t.rows && t.rows[x].member == m && t.rows[x].current
                 && t.rows[x].account == s.invites[id].account
  {
    PublicAcceptance(s, id, now, v);
    var t, m := PublicPost(s, id, now, v).0, Accepter(s, id, v).value;
    var x :| x in t.rows && t.rows[x].member == m && t.rows[x].account == s.invites[id].account;
    assert t.rows[x].current;
  }

  /** The API's acceptance gives the membership without moving a marker: whoever had a current account
      keeps it, and a member whose only membership was not marked ends with none. */
  lemma ApiAcceptanceLeavesMarkers(s: State, id: int, now: int, member: int)
    requires Inv(s)
    ensures var t := ApiAccept(s, id, now, member);
            && Inv(t)
            && (forall x | x in s.rows :: x in t.rows && t.rows[x] == s.rows[x])
            && (forall x | x in t.rows && x !in s.rows ::
                  t.rows[x].member == member && !t.rows[x].current && !t.rows[x].primary)
            && (HasCurrent(t.rows, member) <==> HasCurrent(s.rows, member))
            && (t.accepted == s.accepted || t.accepted == s.accepted + [id])
            && (t.accepted != s.accepted ==> s.invites[id].status.Pending? && !IsExpired(s.invites[id], now))
  {
    var t := ApiAccept(s, id, now, member);
    if id in s.invites && member in s.members && s.members[member] == s.invites[id].email {
      var e := Expire(s, id, now);
      if e.invites[id].status.Pending? {
        GrantEffect(e, id, member);
        assert |t.accepted| == |s.accepted| + 1;
      }
    }
    if x :| x in s.rows && s.rows[x].member == member && s.rows[x].current {
      assert t.rows[x].current;
    }
  }

  datatype Step =
    | Post(id: int, now: int, visitor: Visitor)
    | Visit(id: int, now: int)
    | AcceptApi(id: int, now: int, member: int)
    | GetCurrent(member: int)
    | GetPrimary(member: int)
    | LeaveRow(member: int, account: int, row: int)
    | SwitchCurrent(requester: int, member: int, account: int)
    | RemoveRow(requester: int, account: int, row: int)
    | Send(account: int, email: string, now: int)
    | ListAll(requester: int, now: int)
    | Resend(requester: int, id: int, now: int)
    | Cancel(requester: int, id: int, now: int)

  /** The state after a step, and whether the step ended without raising. */
  function After(s: State, step: Step): (State, bool) {
    match step
    case Post(id, now, v) => PublicPost(s, id, now, v)
    case Visit(id, now) => (if id in s.invites then Expire(s, id, now) else s, true)
    case AcceptApi(id, now, m) => (ApiAccept(s, id, now, m), true)
    case GetCurrent(m) => var (rows, ok) := ReadCurrent(s.rows, m); (s.(rows := rows), ok)
    case GetPrimary(m) => var (rows, ok) := ReadPrimary(s.rows, m); (s.(rows := rows), ok)
    case LeaveRow(m, account, row) => Leave(s, m, account, row)
    case SwitchCurrent(r, m, account) => var (rows, ok) := Switch(s.rows, r, m, account); (s.(rows := rows), ok)
    case RemoveRow(r, account, row) => var (rows, ok) := Remove(s.rows, r, account, row); (s.(rows := rows), ok)
    case Send(account, email, now) =>
      (s.(invites := s.invites[s.nextInvite := Invite(account, email, Pending, Some(now + INVITE_TTL))],
          nextInvite := s.nextInvite + 1), true)
    case ListAll(r, now) => Listed(s, r, now)
    case Resend(r, id, now) => ResendInvite(s, r, id, now)
    case Cancel(r, id, now) => CancelInvite(s, r, id, now)
  }

  ghost predicate IsRun(states: seq<State>, steps: seq<Step>) {
    && |states| == |steps| + 1
    && forall i :: 0 <= i < |steps| ==> states[i + 1] == After(states[i], steps[i]).0
  }

  /** The row's member has another membership. */
  predicate HasOther(rows: Rows, row: int)
    requires row in rows
  {
    exists x | x in rows :: x != row && rows[x].member == rows[row].member
  }

  /** The body of leaving raises exactly when no membership is left, and never violates a constraint. */
  lemma DroppingKeeps(rows: Rows, row: int)
    requires Constraints(rows) && row in rows
    ensures var (r, ok) := DropRow(rows, row);
            && Constraints(r) && r.Keys == rows.Keys - {row}
            && (ok <==> HasOther(rows, row))
  {
    var rest := rows - {row};
    var m := rows[row].member;
    assert Constraints(rest);
    if !Multiple(rest, m) {
      SingleMarksKeepConstraints(rest, m);
    }
    assert HasAny(rest, m) <==> HasOther(rows, row) by {
      assert forall x :: x in rest <==> x in rows && x != row;
    }
  }

  /** Leaving never raises: the view asks for an account the member owns, and of that one the primary
      membership, which cannot be the one left, remains. */
  lemma LeavingNeverRaises(s: State, member: int, account: int, row: int)
    requires Inv(s)
    ensures var (t, ok) := Leave(s, member, account, row);
            && ok && Inv(t) && t == s.(rows := t.rows)
            && (t.rows != s.rows ==> HasAny(t.rows, member) && row !in t.rows)
  {
    if Owns(s.rows, member, account) && row in s.rows && s.rows[row].member == member && !s.rows[row].primary {
      var own :| own in s.rows && s.rows[own].member == member && s.rows[own].primary;
      assert HasOther(s.rows, row) by {
        assert own != row;
      }
      DroppingKeeps(s.rows, row);
      var t := Leave(s, member, account, row).0;
      assert t.rows[own].member == member;
    }
  }

  /** Listing raises for nobody and leaves every accepted invite accepted and every other one not. */
  lemma ListingKeepsInv(s: State, requester: int, now: int)
    requires Inv(s)
    ensures var (l, ok) := Listed(s, requester, now); ok && KeepsAccepted(s, l)
  {
    ReadingKeeps(s.rows, requester);
    var l := Listed(s, requester, now).0;
    assert l.invites.Keys == s.invites.Keys;
    forall i | i in s.invites ensures l.invites[i].status == Accepted <==> s.invites[i].status == Accepted {
    }
  }

  lemma ChangeKeepsInv(s: State, id: int, invite: Invite)
    requires Inv(s) && id in s.invites && s.invites[id].status != Accepted && invite.status != Accepted
    ensures KeepsAccepted(s, s.(invites := s.invites[id := invite]))
  {
  }

  /** So do a resend and a cancellation. */
  lemma InviteActionsKeepInv(s: State, requester: int, id: int, now: int)
    requires Inv(s)
    ensures var (t, ok) := ResendInvite(s, requester, id, now); ok && KeepsAccepted(s, t)
    ensures var (t, ok) := CancelInvite(s, requester, id, now); ok && KeepsAccepted(s, t)
  {
    ListingKeepsInv(s, requester, now);
    var l := Listed(s, requester, now).0;
    if CanChange(l, requester, id) {
      ChangeKeepsInv(l, id, l.invites[id].(expires := Some(now + INVITE_TTL)));
      ChangeKeepsInv(l, id, l.invites[id].(status := Cancelled));
    }
  }

  ghost predicate KeepsAccepted(s: State, t: State) {
    && Inv(t) && t.accepted == s.accepted && t.invites.Keys == s.invites.Keys
  }

  /** Every one of these operations keeps the invariant, and none raises. */
  lemma StepKeepsInv(s: State, step: Step)
    requires Inv(s)
    ensures Inv(After(s, step).0) && After(s, step).1
  {
    match step {
      case Post(id, now, v) => PublicAcceptance(s, id, now, v);
      case AcceptApi(id, now, m) => ApiAcceptanceLeavesMarkers(s, id, now, m);
      case GetCurrent(m) => if !Multiple(s.rows, m) { SingleMarksKeepConstraints(s.rows, m); }
      case GetPrimary(m) => if !Multiple(s.rows, m) { SingleMarksKeepConstraints(s.rows, m); }
      case LeaveRow(m, account, row) => LeavingNeverRaises(s, m, account, row);
      case ListAll(r, now) => ListingKeepsInv(s, r, now);
      case Resend(r, id, now) => InviteActionsKeepInv(s, r, id, now);
      case Cancel(r, id, now) => InviteActionsKeepInv(s, r, id, now);
      case SwitchCurrent(r, m, account) => SwitchKeepsConstraints(s.rows, r, m, account);
      case RemoveRow(r, account, row) => RemovalKeepsConstraints(s.rows, r, account, row);
      case _ =>
    }
  }

  /** Over every sequence of operations: the three constraints hold and each invite is accepted at most
      once, exactly when its status says so. */
  lemma {:induction false} MarkersHoldOverRuns(states: seq<State>, steps: seq<Step>, n: nat)
    requires IsRun(states, steps) && Inv(states[0]) && n <= |steps|
    ensures Inv(states[n])
    ensures var rows := states[n].rows;
            forall x, y | x in rows && y in rows && x != y && rows[x].member == rows[y].member ::
              && rows[x].account != rows[y].account
              && !(rows[x].current && rows[y].current)
              && !(rows[x].primary && rows[y].primary)
    ensures Distinct(states[n].accepted)
    ensures forall i | i in states[n].invites :: i in states[n].accepted <==> states[n].invites[i].status == Accepted
  {
    if n > 0 {
      MarkersHoldOverRuns(states, steps, n - 1);
      StepKeepsInv(states[n - 1], steps[n - 1]);
    }
  }

  /** A step that accepts an invite is one of the two accept actions, and finds the invite pending and
      unexpired at its time. */
  lemma AcceptingStep(s: State, step: Step, id: int)
    requires Inv(s) && After(s, step).0.accepted == s.accepted + [id]
    ensures step.Post? || step.AcceptApi?
    ensures id in s.invites && s.invites[id].status.Pending? && !IsExpired(s.invites[id], step.now)
  {
    assert |s.accepted + [id]| == |s.accepted| + 1;
    match step {
      case Post(i, now, v) => PublicAcceptance(s, i, now, v);
      case AcceptApi(i, now, member) => ApiAcceptanceLeavesMarkers(s, i, now, member);
      case LeaveRow(m, account, row) => LeavingNeverRaises(s, m, account, row);
      case _ =>
    }
    var t := After(s, step).0;
    assert t.accepted[|s.accepted|] == id;
  }

  /** In every run, an invite accepted by one step is accepted by no later one. */
  lemma AcceptedAtMostOnce(states: seq<State>, steps: seq<Step>, m: nat, n: nat, id: int)
    requires IsRun(states, steps) && Inv(states[0]) && m < n < |steps|
    requires states[m + 1].accepted == states[m].accepted + [id]
    ensures states[n + 1].accepted != states[n].accepted + [id]
  {
    MarkersHoldOverRuns(states, steps, n + 1);
    AcceptedGrows(states, steps, m + 1, n);
    assert states[m + 1].accepted[|states[m].accepted|] == id;
    NoRepeat(states[n].accepted, |states[m].accepted|);
  }

  lemma NoRepeat(a: seq<int>, k: nat)
    requires k < |a|
    ensures !Distinct(a + [a[k]])
  {
    var b := a + [a[k]];
    assert b[k] == b[|a|];
  }

  lemma {:induction false} AcceptedGrows(states: seq<State>, steps: seq<Step>, m: nat, n: nat)
    requires IsRun(states, steps) && Inv(states[0]) && m <= n <= |steps|
    ensures states[m].accepted <= states[n].accepted
    decreases n
  {
    if m < n {
      AcceptedGrows(states, steps, m, n - 1);
      MarkersHoldOverRuns(states, steps, n - 1);
      var s, step := states[n - 1], steps[n - 1];
      match step {
        case Post(i, now, v) => PublicAcceptance(s, i, now, v);
        case AcceptApi(i, now, member) => ApiAcceptanceLeavesMarkers(s, i, now, member);
        case LeaveRow(m, account, row) => LeavingNeverRaises(s, m, account, row);
        case _ =>
      }
    }
  }

  // -----------------------------------------------------------------------------------
  // The acceptance window
  // -----------------------------------------------------------------------------------

  function TimeOf(step: Step): Option<int> {
    match step
    case Post(_, now, _) => Some(now)
    case Visit(_, now) => Some(now)
    case AcceptApi(_, now, _) => Some(now)
    case Send(_, _, now) => Some(now)
    case ListAll(_, now) => Some(now)
    case Resend(_, _, now) => Some(now)
    case Cancel(_, _, now) => Some(now)
    case _ => None
  }

  /** The steps happen at these times, none before an earlier one. */
  ghost predicate Timed(steps: seq<Step>, times: seq<int>) {
    && |times| == |steps|
    && (forall i, j :: 0 <= i < j < |times| ==> times[i] <= times[j])
    && forall i | 0 <= i < |steps| :: TimeOf(steps[i]).Some? ==> TimeOf(steps[i]).value == times[i]
  }

  /** An invite that was not accepted and, if it is still pending, is past its window at `now`. */
  predicate Stale(s: State, id: int, now: int) {
    && id in s.invites && s.invites[id].status != Accepted
    && (s.invites[id].status.Pending? ==> IsExpired(s.invites[id], now))
  }

  /** No step at `now` or later makes such an invite acceptable again: whoever would restart its window
      flips it first. */
  lemma StaleStays(s: State, step: Step, id: int, now: int)
    requires Inv(s) && Stale(s, id, now)
    requires TimeOf(step).Some? ==> now <= TimeOf(step).value
    ensures Stale(After(s, step).0, id, now)
  {
    match step {
      case Post(i, at, v) => StalePost(s, i, at, v, id, now);
      case AcceptApi(i, at, member) => StaleAccept(s, i, at, member, id, now);
      case LeaveRow(m, account, row) => LeavingNeverRaises(s, m, account, row);
      case ListAll(r, at) => StaleListed(s, r, at, id, now);
      case Resend(r, i, at) => StaleChange(s, r, i, at, id, now);
      case Cancel(r, i, at) => StaleChange(s, r, i, at, id, now);
      case _ =>
    }
  }

  lemma StaleAccept(s: State, i: int, at: int, member: int, id: int, now: int)
    requires Stale(s, id, now) && now <= at
    ensures Stale(ApiAccept(s, i, at, member), id, now)
  {
  }

  lemma StaleListed(s: State, requester: int, at: int, id: int, now: int)
    requires Stale(s, id, now)
    ensures Stale(Listed(s, requester, at).0, id, now)
  {
  }

  /** A stale invite of the listed account is no longer pending when the list is there. */
  lemma StaleChange(s: State, requester: int, i: int, at: int, id: int, now: int)
    requires Stale(s, id, now) && now <= at
    ensures Stale(ResendInvite(s, requester, i, at).0, id, now)
    ensures Stale(CancelInvite(s, requester, i, at).0, id, now)
  {
    StaleListed(s, requester, at, id, now);
    var (l, ok) := Listed(s, requester, at);
    if i == id && ok {
      assert !CanChange(l, requester, id);
    }
  }

  lemma StalePost(s: State, i: int, at: int, v: Visitor, id: int, now: int)
    requires Inv(s) && Stale(s, id, now) && now <= at
    ensures Stale(PublicPost(s, i, at, v).0, id, now)
  {
    if i in s.invites {
      var e := Expire(s, i, at);
      if i == id {
        assert !e.invites[i].status.Pending?;
      }
    }
  }

  /** In every run, an invite whose window has passed is never accepted afterwards, by either way and
      whatever is resent in between. */
  lemma {:induction false} ExpiredIsNeverAccepted(states: seq<State>, steps: seq<Step>, times: seq<int>, m: nat, n: nat,
                                                  id: int, now: int)
    requires IsRun(states, steps) && Timed(steps, times) && Inv(states[0]) && m <= n <= |steps|
    requires Stale(states[m], id, now) && (m < |steps| ==> now <= times[m])
    ensures Stale(states[n], id, now) && id !in states[n].accepted
    decreases n
  {
    if m < n {
      ExpiredIsNeverAccepted(states, steps, times, m, n - 1, id, now);
      MarkersHoldOverRuns(states, steps, n - 1);
      StepComesLater(steps, times, m, n - 1, now);
      StaleStays(states[n - 1], steps[n - 1], id, now);
    }
    MarkersHoldOverRuns(states, steps, n);
  }

  lemma StepComesLater(steps: seq<Step>, times: seq<int>, m: nat, k: nat, now: int)
    requires Timed(steps, times) && m <= k < |steps| && now <= times[m]
    ensures TimeOf(steps[k]).Some? ==> now <= TimeOf(steps[k]).value
  {
    assert m < k ==> times[m] <= times[k];
  }

  // -----------------------------------------------------------------------------------
  // Who gains what
  // -----------------------------------------------------------------------------------

  /** The invite that was asked for is accepted, or expired if it was pending past its window, or as it was;
      the other invites are as they were. */
  predicate InvitesAfter(s: State, t: State, id: int, now: int) {
    && t.invites.Keys == s.invites.Keys
    && forall i | i in s.invites :: t.invites[i] ==
         if i != id then s.invites[i]
         else if t.accepted != s.accepted then s.invites[i].(status := Accepted)
         else if s.invites[i].status == Pending && s.invites[i].expires.Some? && s.invites[i].expires.value < now
         then s.invites[i].(status := Expired)
         else s.invites[i]
  }

  /** The public page accepts an invite exactly when it is there, pending and within its window, and the
      visitor is its invitee: a logged-in member with its email, or an anonymous one whose form is valid
      while nobody holds that email. Only a member who holds the email gains or changes a membership, and
      what is gained is a membership of the invited account. */
  lemma PublicAcceptsExactly(s: State, id: int, now: int, v: Visitor)
    requires Inv(s)
    ensures var t := PublicPost(s, id, now, v).0;
            && (t.accepted != s.accepted <==>
                  && id in s.invites && s.invites[id].status == Pending
                  && (s.invites[id].expires.Some? ==> now <= s.invites[id].expires.value)
                  && match v
                     case LoggedIn(m) => m in s.members && s.members[m] == s.invites[id].email
                     case Anonymous(valid) => valid && forall m | m in s.members :: s.members[m] != s.invites[id].email)
            && (forall x | x in t.rows && (x !in s.rows || t.rows[x] != s.rows[x]) ::
                  && id in s.invites && t.rows[x].member in t.members
                  && t.members[t.rows[x].member] == s.invites[id].email
                  && (x !in s.rows ==> t.rows[x].account == s.invites[id].account))
  {
    PublicAcceptance(s, id, now, v);
    if id in s.invites {
      var e := Expire(s, id, now);
      if Accepter(e, id, v).Some? {
        var m := Accepter(e, id, v).value;
        var signed :=
          if v.Anonymous? then e.(members := e.members[m := e.invites[id].email], nextMember := e.nextMember + 1)
          else e;
        AcceptedRows(signed, id, m);
        assert |s.accepted + [id]| == |s.accepted| + 1;
      }
    }
  }

  /** What the page leaves of the invites. */
  lemma PublicInvitesAfter(s: State, id: int, now: int, v: Visitor)
    requires Inv(s)
    ensures InvitesAfter(s, PublicPost(s, id, now, v).0, id, now)
  {
    PublicAcceptance(s, id, now, v);
    if id in s.invites {
      var e := Expire(s, id, now);
      if Accepter(e, id, v).Some? {
        var m := Accepter(e, id, v).value;
        var signed :=
          if v.Anonymous? then e.(members := e.members[m := e.invites[id].email], nextMember := e.nextMember + 1)
          else e;
        AcceptedRows(signed, id, m);
        assert |s.accepted + [id]| == |s.accepted| + 1;
      }
    }
  }

  /** The rows of an acceptance: of others nothing changes, and what is new is a membership of the account. */
  lemma AcceptedRows(s: State, id: int, m: int)
    requires Inv(s) && id in s.invites && s.invites[id].status.Pending?
    ensures var t := FinishAccept(s, id, m).0;
            && t.members == s.members && t.accepted == s.accepted + [id]
            && t.invites == s.invites[id := s.invites[id].(status := Accepted)]
            && forall x | x in t.rows && (x !in s.rows || t.rows[x] != s.rows[x]) ::
                 t.rows[x].member == m && (x !in s.rows ==> t.rows[x].account == s.invites[id].account)
  {
    FinishAcceptEffect(s, id, m);
    var g, account := Grant(s, id, m), s.invites[id].account;
    GrantEffect(s, id, m);
    ClearedThenSet(g.rows, m, account);
    assert FinishAccept(s, id, m).0 == g.(rows := SetCurrent(ClearOthers(g.rows, m, account), m, Some(account)).0);
  }

  /** So does the API, for the logged-in member with the invite's email; it changes no membership there was. */
  lemma ApiAcceptsExactly(s: State, id: int, now: int, member: int)
    requires Inv(s)
    ensures var t := ApiAccept(s, id, now, member);
            && (t.accepted != s.accepted <==>
                  && id in s.invites && s.invites[id].status == Pending
                  && (s.invites[id].expires.Some? ==> now <= s.invites[id].expires.value)
                  && member in s.members && s.members[member] == s.invites[id].email)
            && (t.accepted != s.accepted ==> Has(t.rows, member, s.invites[id].account))
            && (forall x | x in t.rows && x !in s.rows ::
                  id in s.invites && t.rows[x].member == member && t.rows[x].account == s.invites[id].account)
            && (member in s.members && id in s.invites && s.members[member] == s.invites[id].email ==>
                  InvitesAfter(s, t, id, now))
            && (t.accepted == s.accepted ==> t == s.(invites := t.invites))
  {
    if id in s.invites && member in s.members && s.members[member] == s.invites[id].email {
      var e := Expire(s, id, now);
      if e.invites[id].status.Pending? {
        GrantEffect(e, id, member);
        assert |s.accepted + [id]| == |s.accepted| + 1;
      }
    }
  }

  /** Listing flips exactly the pending invites of the current account that are past their window; a resend
      gives one that is still pending seven days from now, and a cancellation ends it. Nothing else about
      any invite changes. */
  lemma InviteActionsExactly(s: State, requester: int, id: int, now: int, i: int)
    requires Inv(s) && i in s.invites
    ensures var (l, r, c) := (Listed(s, requester, now).0, ResendInvite(s, requester, id, now).0,
                              CancelInvite(s, requester, id, now).0);
            var was := s.invites[i];
            var mine := exists x :: x in l.rows && l.rows[x].member == requester && l.rows[x].current
                                      && l.rows[x].account == was.account;
            var past := was.expires.Some? && was.expires.value < now;
            && l.rows == r.rows == c.rows == ReadCurrent(s.rows, requester).0
            && i in l.invites && i in r.invites && i in c.invites
            && l.invites[i] == (if mine && was.status == Pending && past then was.(status := Expired) else was)
            && r.invites[i] == (if i == id && mine && was.status == Pending && !past
                                then was.(expires := Some(now + 604800)) else l.invites[i])
            && c.invites[i] == (if i == id && mine && was.status == Pending && !past
                                then was.(status := Cancelled) else l.invites[i])
  {
    ReadingKeeps(s.rows, requester);
  }

  /** Reading the primary account marks an only membership as primary and as current, and nothing else. */
  lemma PrimaryReadingKeeps(rows: Rows, member: int)
    requires Constraints(rows)
    ensures var (r, ok) := ReadPrimary(rows, member);
            && ok && Constraints(r) && r.Keys == rows.Keys
            && forall x | x in rows :: r[x] ==
                 if rows[x].member == member && !rows[x].primary
                    && (forall y | y in rows && rows[y].member == member :: y == x)
                 then rows[x].(current := true, primary := true) else rows[x]
  {
    if !Multiple(rows, member) {
      SingleMarksKeepConstraints(rows, member);
    }
  }

  /** Reading the current account marks an only membership as current, and nothing else. */
  lemma CurrentReadingKeeps(rows: Rows, member: int)
    requires Constraints(rows)
    ensures var (r, ok) := ReadCurrent(rows, member);
            && ok && r.Keys == rows.Keys
            && forall x | x in rows :: r[x] ==
                 if rows[x].member == member && (forall y | y in rows && rows[y].member == member :: y == x)
                 then rows[x].(current := true) else rows[x]
  {
    ReadingKeeps(rows, member);
  }

  /** Leaving takes away exactly a non-primary membership of one's own, for a member who owns the account the
      request names; the one membership that may be left is then current, and no other one changes. */
  lemma LeavesExactly(s: State, member: int, account: int, row: int)
    requires Inv(s)
    ensures var t := Leave(s, member, account, row).0;
            var goes := && row in s.rows && s.rows[row].member == member && !s.rows[row].primary
                        && exists x :: x in s.rows && s.rows[x].member == member && s.rows[x].account == account
                                         && s.rows[x].primary;
            && (forall x | x in s.rows :: x in t.rows <==> !(goes && x == row))
            && (forall x | x in t.rows :: x in s.rows && t.rows[x] ==
                  if && goes && s.rows[x].member == member
                     && (forall y | y in t.rows && s.rows[y].member == member :: y == x)
                  then s.rows[x].(current := true) else s.rows[x])
  {
    LeavingNeverRaises(s, member, account, row);
    if Owns(s.rows, member, account) && row in s.rows && s.rows[row].member == member && !s.rows[row].primary {
      DroppingExactly(s.rows, row);
    }
  }

  lemma DroppingExactly(rows: Rows, row: int)
    requires Constraints(rows) && row in rows && HasOther(rows, row)
    ensures var (r, m) := (DropRow(rows, row).0, rows[row].member);
            && r.Keys == rows.Keys - {row}
            && forall x | x in r :: r[x] ==
                 if rows[x].member == m && (forall y | y in r && rows[y].member == m :: y == x)
                 then rows[x].(current := true) else rows[x]
  {
    DroppingKeeps(rows, row);
    var rest := rows - {row};
    assert HasAny(rest, rows[row].member) by {
      var x :| x in rows && x != row && rows[x].member == rows[row].member;
      assert x in rest;
    }
  }

  /** An owner's request removes exactly the named membership of the named account: the requester's own
      membership of it is primary, and so is the requester's current one. */
  lemma RemovesExactly(rows: Rows, requester: int, account: int, row: int)
    requires Constraints(rows)
    ensures var (r, settled) := (Remove(rows, requester, account, row).0, ReadCurrent(rows, requester).0);
            row in rows && row !in r <==>
              && row in rows && rows[row].account == account
              && (exists x :: x in rows && rows[x].member == requester && rows[x].account == account && rows[x].primary)
              && (exists x :: && x in settled && settled[x].member == requester
                              && settled[x].primary && settled[x].current)
  {
    ReadingKeeps(rows, requester);
    if Owns(rows, requester, account) && row in rows && rows[row].account == account {
      assert ReadCurrent(rows, requester).1;
    }
  }

  /** Whoever asks for whomever: the switch is made exactly when the member belongs to the requester's current
      account, the requester to the member's, and the member to the account asked for. The account is then
      the member's only current one; otherwise nothing but the two readings has happened. */
  lemma SwitchesExactly(rows: Rows, requester: int, member: int, account: int)
    requires Constraints(rows)
    ensures var (first, r) := (ReadCurrent(rows, requester).0, Switch(rows, requester, member, account).0);
            var second := ReadCurrent(first, member).0;
            var listed := BelongsToCurrentOf(first, member, requester);
            var allowed := BelongsToCurrentOf(second, requester, member);
            if listed && allowed && Has(second, member, account) then Moved(second, r, member, account)
            else r == if listed then second else first
  {
    var first := ReadCurrent(rows, requester).0;
    ReadingKeeps(rows, requester);
    SharesExactly(first, member, requester);
    if SharesCurrent(first, member, requester) {
      var second := ReadCurrent(first, member).0;
      ReadingKeeps(first, member);
      SharesExactly(second, requester, member);
      if SharesCurrent(second, requester, member) {
        SwitchToExactly(second, member, account);
      }
    }
  }

  /** a has a membership in b's current account. */
  ghost predicate BelongsToCurrentOf(rows: Rows, a: int, b: int) {
    exists x, y :: x in rows && y in rows && rows[x].member == b && rows[x].current
                     && rows[y].member == a && rows[y].account == rows[x].account
  }

  /** The account is the member's only current one, and nothing else has changed. */
  ghost predicate Moved(rows: Rows, r: Rows, member: int, account: int) {
    && r.Keys == rows.Keys
    && forall x | x in rows :: r[x] ==
         if rows[x].member == member then rows[x].(current := rows[x].account == account) else rows[x]
  }

  lemma SwitchToExactly(rows: Rows, member: int, account: int)
    requires Constraints(rows) && HasCurrent(rows, member)
    ensures var r := SwitchTo(rows, member, account).0;
            if Has(rows, member, account) then Moved(rows, r, member, account) else r == rows
  {
    SwitchKeeps(rows, member, account);
  }

  lemma SharesExactly(rows: Rows, a: int, b: int)
    ensures SharesCurrent(rows, a, b) <==> BelongsToCurrentOf(rows, a, b)
    ensures SharesCurrent(rows, a, b) ==> HasCurrent(rows, b)
  {
    if SharesCurrent(rows, a, b) {
      var x :| x in rows && rows[x].member == b && rows[x].current && Has(rows, a, rows[x].account);
      var y :| y in rows && rows[y].member == a && rows[y].account == rows[x].account;
    }
    if x, y :| x in rows && y in rows && rows[x].member == b && rows[x].current
               && rows[y].member == a && rows[y].account == rows[x].account {
      assert Has(rows, a, rows[x].account);
    }
  }

  /** A new invite is pending, for seven days from its time; no other one is touched. */
  lemma SendingExactly(s: State, account: int, email: string, now: int)
    requires Inv(s)
    ensures var t := After(s, Send(account, email, now)).0;
            exists i :: && i !in s.invites
                        && t.invites == s.invites[i := Invite(account, email, Pending, Some(now + 604800))]
  {
    var t := After(s, Send(account, email, now)).0;
    assert s.nextInvite !in s.invites
        && t.invites == s.invites[s.nextInvite := Invite(account, email, Pending, Some(now + 604800))];
  }
}
