/** Migration 0015: removing the dead integrations without breaking a reference to them. */
module DeadIntegrations {
  datatype Link = Link(location: int, integration: int)

  /** Integrations by id with their unique code; connections by id with their integration; and the
      location links. Both references are PROTECT. */
  datatype Directory = Directory(integrations: map<int, string>, connections: map<int, int>, links: map<int, Link>)

  const DEAD_INTEGRATION_CODES := ["linode", "intercom"]

  ghost predicate ReferencesHold(d: Directory) {
    && (forall c | c in d.connections :: d.connections[c] in d.integrations)
    && (forall l | l in d.links :: d.links[l].integration in d.integrations)
  }

  ghost predicate CodesUnique(d: Directory) {
    forall x, y | x in d.integrations && y in d.integrations && d.integrations[x] == d.integrations[y] :: x == y
  }

  predicate Used(d: Directory, integration: int) {
    exists c | c in d.connections :: d.connections[c] == integration
  }

  predicate Goes(d: Directory, codes: seq<string>, integration: int) {
    integration in d.integrations && d.integrations[integration] in codes && !Used(d, integration)
  }

  /** The directory without the unused integrations of the given codes, and without the links to them. */
  function Without(d: Directory, codes: seq<string>): Directory {
    d.(integrations := map x | x in d.integrations && !Goes(d, codes, x) :: d.integrations[x],
       links := map l | l in d.links && !Goes(d, codes, d.links[l].integration) :: d.links[l])
  }

  function Unlinked(d: Directory, integration: int): Directory {
    d.(links := map l | l in d.links && d.links[l].integration != integration :: d.links[l])
  }

  class Registry {
    var d: Directory

    /** integration.delete() under PROTECT: refused while a connection or link refers to the row. */
    method Delete(integration: int) returns (ok: bool)
      modifies this
      ensures ok <==> && !Used(old(d), integration)
                      && forall l | l in old(d).links :: old(d).links[l].integration != integration
      ensures d == if ok then old(d).(integrations := old(d).integrations - {integration}) else old(d)
    {
      ok := !Used(d, integration) && forall l | l in d.links :: d.links[l].integration != integration;
      if ok {
        d := d.(integrations := d.integrations - {integration});
      }
    }

    /** remove_dead_integration_rows. It completes, no protected row standing in its way, and removes
        exactly the unused dead integrations and the links to them. */
    method RemoveDeadIntegrationRows() returns (ok: bool)
      requires CodesUnique(d)
      modifies this
      ensures ok && d == Without(old(d), DEAD_INTEGRATION_CODES)
    {
      ok := true;
      var i := 0;
      ghost var before := d;
      NothingGoes(before);
      while i < |DEAD_INTEGRATION_CODES|
        invariant 0 <= i <= |DEAD_INTEGRATION_CODES| && ok
        invariant d == Without(before, DEAD_INTEGRATION_CODES[..i])
      {
        var code := DEAD_INTEGRATION_CODES[i];
        assert DEAD_INTEGRATION_CODES[..i + 1] == DEAD_INTEGRATION_CODES[..i] + [code];
        if exists x | x in d.integrations :: d.integrations[x] == code {
          var integration :| integration in d.integrations && d.integrations[integration] == code;
          if Used(d, integration) {
            KeepsUsed(before, DEAD_INTEGRATION_CODES[..i], code, integration);
          } else {
            TakesOneMore(before, DEAD_INTEGRATION_CODES[..i], code, integration);
            d := d.(links := map l | l in d.links && d.links[l].integration != integration :: d.links[l]);
            ok := Delete(integration);
          }
        } else {
          KeepsAbsent(before, DEAD_INTEGRATION_CODES[..i], code);
        }
        i := i + 1;
      }
      assert DEAD_INTEGRATION_CODES[..|DEAD_INTEGRATION_CODES|] == DEAD_INTEGRATION_CODES;
    }
  }

  lemma NothingGoes(d: Directory)
    ensures Without(d, []) == d
  {
    forall x ensures !Goes(d, [], x) {
    }
    assert Without(d, []).integrations == d.integrations && Without(d, []).links == d.links;
  }

  /** Taking one more code out, when its integration is there and unused. */
  lemma TakesOneMore(d: Directory, codes: seq<string>, code: string, x: int)
    requires CodesUnique(d)
    requires var r := Without(d, codes); x in r.integrations && r.integrations[x] == code && !Used(r, x)
    ensures var r := Without(d, codes);
            Without(d, codes + [code]) == Unlinked(r, x).(integrations := r.integrations - {x})
  {
    var r := Without(d, codes);
    assert Used(r, x) <==> Used(d, x);
    assert forall c :: c in codes + [code] <==> c in codes || c == code;
    forall y ensures Goes(d, codes + [code], y) <==> Goes(d, codes, y) || y == x {
    }
    var s, t := Without(d, codes + [code]), Unlinked(r, x).(integrations := r.integrations - {x});
    assert s.integrations == t.integrations;
    assert s.links == t.links;
  }

  lemma KeepsUsed(d: Directory, codes: seq<string>, code: string, x: int)
    requires CodesUnique(d)
    requires var r := Without(d, codes); x in r.integrations && r.integrations[x] == code && Used(r, x)
    ensures Without(d, codes + [code]) == Without(d, codes)
  {
    assert Used(d, x) by {
      var c :| c in d.connections && d.connections[c] == x;
    }
    assert forall c :: c in codes + [code] <==> c in codes || c == code;
    assert forall y :: Goes(d, codes + [code], y) <==> Goes(d, codes, y);
  }

  lemma KeepsAbsent(d: Directory, codes: seq<string>, code: string)
    requires forall x | x in Without(d, codes).integrations :: Without(d, codes).integrations[x] != code
    ensures Without(d, codes + [code]) == Without(d, codes)
  {
    assert forall c :: c in codes + [code] <==> c in codes || c == code;
    assert forall y | y in d.integrations && !Goes(d, codes, y) :: y in Without(d, codes).integrations;
    assert forall y :: Goes(d, codes + [code], y) <==> Goes(d, codes, y);
  }

  /** Referential integrity: afterwards every connection and every link still refers to an existing
      integration. Gone are exactly the integrations with the codes "linode" and "intercom" that no
      connection uses, and the links to them; every connection and every other row stays as it is; a second
      run changes nothing. */
  lemma RemovalKeepsReferences(d: Directory)
    requires ReferencesHold(d)
    ensures var r := Without(d, DEAD_INTEGRATION_CODES);
            && ReferencesHold(r) && r.connections == d.connections
            && (forall x | x in r.integrations :: x in d.integrations && r.integrations[x] == d.integrations[x])
            && (forall x | x in d.integrations :: x !in r.integrations <==>
                  && (d.integrations[x] == "linode" || d.integrations[x] == "intercom")
                  && forall c | c in d.connections :: d.connections[c] != x)
            && (forall l | l in r.links :: l in d.links && r.links[l] == d.links[l])
            && (forall l | l in d.links :: l in r.links <==> d.links[l].integration in r.integrations)
            && Without(r, DEAD_INTEGRATION_CODES) == r
  {
    var codes := DEAD_INTEGRATION_CODES;
    var r := Without(d, codes);
    assert forall code :: code in codes <==> code == codes[0] || code == codes[1];
    forall x ensures Used(r, x) <==> Used(d, x) {
    }
    forall c | c in r.connections ensures r.connections[c] in r.integrations {
      assert Used(d, d.connections[c]);
    }
    forall x ensures !Goes(r, codes, x) {
    }
    var s := Without(r, codes);
    assert s.integrations == r.integrations && s.links == r.links;
  }
}
