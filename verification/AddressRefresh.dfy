/** Looking up the server's public addresses, throttled through one cache key. */
module AddressRefresh {
  import opened Common

  /** The self-hosted location's stored addresses. */
  datatype Location = Location(ip4: Option<string>, ip6: Option<string>)

  const SUCCESS_TTL := 60 * 60 * 24
  const FAILURE_TTL := 60 * 15

  /** A lookup attempt, and whether both lookups parsed and the save went through. */
  datatype Attempt = Attempt(time: int, full: bool)

  /** `expiry` is when the cache key lapses, if it was ever set. */
  datatype State = State(location: Option<Location>, expiry: Option<int>, attempts: seq<Attempt>)

  /** One call: its time, the parsed result of each lookup (None when the request or the parsing
      raised), and whether saving the row would go through. */
  datatype Call = Call(time: int, ip4: Option<string>, ip6: Option<string>, saves: bool)

  /** cache.add() succeeds when the key is absent or has lapsed. */
  predicate Gate(s: State, now: int) {
    s.expiry.None? || s.expiry.value <= now
  }

  predicate Looks(s: State, c: Call) {
    s.location.Some? && Gate(s, c.time)
  }

  /** The addresses the call would store: each its own lookup's result, if that parsed. */
  function Found(l: Location, c: Call): Location {
    Location(if c.ip4.Some? then c.ip4 else l.ip4, if c.ip6.Some? then c.ip6 else l.ip6)
  }

  /** Nothing to save, or a save that goes through. */
  predicate Stores(l: Location, c: Call) {
    Found(l, c) == l || c.saves
  }

  predicate Full(l: Location, c: Call) {
    c.ip4.Some? && c.ip6.Some? && Stores(l, c)
  }

  function Ttl(full: bool): int {
    if full then SUCCESS_TTL else FAILURE_TTL
  }

  function After(s: State, c: Call): State {
    if !Looks(s, c) then s
    else
      var l := s.location.value;
      State(Some(if Stores(l, c) then Found(l, c) else l),
            Some(c.time + Ttl(Full(l, c))),
            s.attempts + [Attempt(c.time, Full(l, c))])
  }

  class Server {
    var location: Option<Location>
    var expiry: Option<int>
    /** The attempts made, for the record. */
    var attempts: seq<Attempt>

    function Snapshot(): State
      reads this
    {
      State(location, expiry, attempts)
    }

    method CacheAdd(now: int, timeout: int) returns (added: bool)
      modifies this`expiry
      ensures added <==> (old(expiry).None? || old(expiry).value <= now)
      ensures expiry == if added then Some(now + timeout) else old(expiry)
    {
      added := expiry.None? || expiry.value <= now;
      if added {
        expiry := Some(now + timeout);
      }
    }

    /** refresh_local_ip_addresses */
    method RefreshLocalIpAddresses(c: Call)
      modifies this
      ensures Snapshot() == After(old(Snapshot()), c)
    {
      if location.None? {
        return;
      }
      var added := CacheAdd(c.time, FAILURE_TTL);
      if !added {
        return;
      }
      var failed := false;
      var changed := false;
      var found := location.value;
      if c.ip4.Some? {
        if found.ip4 != c.ip4 {
          found := found.(ip4 := c.ip4);
          changed := true;
        }
      } else {
        failed := true;
      }
      if c.ip6.Some? {
        if found.ip6 != c.ip6 {
          found := found.(ip6 := c.ip6);
          changed := true;
        }
      } else {
        failed := true;
      }
      if changed {
        if !c.saves {
          attempts := attempts + [Attempt(c.time, false)];
          return;
        }
        location := Some(found);
      }
      attempts := attempts + [Attempt(c.time, !failed)];
      if !failed {
        expiry := Some(c.time + SUCCESS_TTL);
      }
    }
  }

  // -----------------------------------------------------------------------------------
  // Runs of calls by any number of callers
  // -----------------------------------------------------------------------------------

  ghost predicate IsRun(states: seq<State>, calls: seq<Call>) {
    && |states| == |calls| + 1
    && (forall i :: 0 <= i < |calls| ==> states[i + 1] == After(states[i], calls[i]))
  }

  /** Each attempt is at least its predecessor's time to live later: 900 s, or 86400 s after a fully
      successful one. */
  ghost predicate Spaced(a: seq<Attempt>) {
    forall i :: 0 <= i < |a| - 1 ==> a[i].time + Ttl(a[i].full) <= a[i + 1].time
  }

  ghost predicate Inv(s: State) {
    && Spaced(s.attempts)
    && (s.attempts != [] ==>
          var last := s.attempts[|s.attempts| - 1];
          s.expiry == Some(last.time + Ttl(last.full)))
  }

  lemma CallKeepsInv(s: State, c: Call)
    requires Inv(s)
    ensures Inv(After(s, c))
  {
    if Looks(s, c) && s.attempts != [] {
      var t := After(s, c);
      forall i | 0 <= i < |t.attempts| - 1
        ensures t.attempts[i].time + Ttl(t.attempts[i].full) <= t.attempts[i + 1].time
      {
        if i + 1 == |s.attempts| {
          assert t.attempts[i] == s.attempts[i];
        }
      }
    }
  }

  lemma {:induction false} AttemptsAreSpaced(states: seq<State>, calls: seq<Call>, n: nat)
    requires IsRun(states, calls) && Inv(states[0]) && n <= |calls|
    ensures Inv(states[n])
    ensures forall i :: 0 <= i < |states[n].attempts| - 1 ==>
              states[n].attempts[i].time + (if states[n].attempts[i].full then 86400 else 900)
                <= states[n].attempts[i + 1].time
  {
    if n > 0 {
      AttemptsAreSpaced(states, calls, n - 1);
      CallKeepsInv(states[n - 1], calls[n - 1]);
    }
  }

  lemma {:induction false} SpacedOverall(a: seq<Attempt>, i: nat, j: nat)
    requires Spaced(a) && i <= j < |a|
    ensures a[i].time + (j - i) * FAILURE_TTL <= a[j].time
    decreases j
  {
    if i < j {
      SpacedOverall(a, i, j - 1);
      assert a[j - 1].time + Ttl(a[j - 1].full) <= a[j - 1 + 1].time;
      assert (j - i) * FAILURE_TTL == (j - 1 - i) * FAILURE_TTL + FAILURE_TTL;
    }
  }

  /** In every run, any attempts falling within a span of `span` seconds number at most
      floor(span / 900) + 1. */
  lemma AttemptsInSpan(states: seq<State>, calls: seq<Call>, n: nat, i: nat, j: nat, span: int)
    requires IsRun(states, calls) && Inv(states[0]) && n <= |calls|
    requires i <= j < |states[n].attempts|
    requires states[n].attempts[j].time - states[n].attempts[i].time <= span
    ensures j - i + 1 <= span / 900 + 1
  {
    AttemptsAreSpaced(states, calls, n);
    SpacedOverall(states[n].attempts, i, j);
    DivBound(j - i, span, FAILURE_TTL);
  }

  /** A call attempts the lookups exactly when the location is there and no attempt came before it less than
      900 seconds ago, or less than 86400 seconds after a fully successful one. */
  lemma AttemptsExactly(s: State, c: Call)
    requires Inv(s) && (s.attempts == [] ==> s.expiry.None?)
    ensures var t := After(s, c);
            && (|t.attempts| == |s.attempts| + 1 <==>
                  && s.location.Some?
                  && (s.attempts == [] ||
                      var last := s.attempts[|s.attempts| - 1];
                      last.time + (if last.full then 86400 else 900) <= c.time))
            && (|t.attempts| == |s.attempts| + 1 ==>
                  && t.attempts == s.attempts + [Attempt(c.time, t.attempts[|s.attempts|].full)]
                  && (t.attempts[|s.attempts|].full <==>
                        c.ip4.Some? && c.ip6.Some? && t.location == Some(Location(c.ip4, c.ip6))))
            && (|t.attempts| != |s.attempts| + 1 ==> t == s)
  {
  }

  /** No attempt follows a fully successful one within a day. */
  lemma QuietAfterSuccess(states: seq<State>, calls: seq<Call>, n: nat, i: nat, j: nat)
    requires IsRun(states, calls) && Inv(states[0]) && n <= |calls|
    requires i < j < |states[n].attempts| && states[n].attempts[i].full
    ensures states[n].attempts[i].time + 86400 <= states[n].attempts[j].time
  {
    AttemptsAreSpaced(states, calls, n);
    var a := states[n].attempts;
    assert a[i].time + Ttl(a[i].full) <= a[i + 1].time;
    SpacedOverall(a, i + 1, j);
    assert 0 <= (j - (i + 1)) * FAILURE_TTL;
  }

  /** A stored address changes only in a call that looks it up, and only to what that lookup parsed; a
      failed lookup leaves its address alone whatever the other one does. */
  lemma AddressesChangeOnlyToOwnLookup(s: State, c: Call)
    requires s.location.Some?
    ensures var l, t := s.location.value, After(s, c);
            && t.location.Some?
            && (t.location.value.ip4 != l.ip4 ==> Looks(s, c) && c.ip4.Some? && t.location.value.ip4 == c.ip4)
            && (t.location.value.ip6 != l.ip6 ==> Looks(s, c) && c.ip6.Some? && t.location.value.ip6 == c.ip6)
            && (Looks(s, c) && c.saves && c.ip4.Some? ==> t.location.value.ip4 == c.ip4)
            && (Looks(s, c) && c.saves && c.ip6.Some? ==> t.location.value.ip6 == c.ip6)
            && (t.attempts != s.attempts <==> Looks(s, c))
  {
    assert forall a: Attempt :: |s.attempts + [a]| == |s.attempts| + 1;
  }
}
