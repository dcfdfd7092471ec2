/** The list of live connections the server keeps (`clients`), and the
    views of it that the server derives: the participant count and the
    recipients of each kind of broadcast. */
module Registry {
  import opened Messages

  /** One entry of `clients`: the connection, its `isHost` flag and whether
      its transport is in the OPEN ready state. */
  datatype Conn = Conn(id: ConnId, isHost: bool, open: bool)

  predicate DistinctIds(cs: seq<Conn>)
  {
    forall i, j :: 0 <= i < j < |cs| ==> cs[i].id != cs[j].id
  }

  /** Every id on the list is below `n`. */
  predicate IdsBelow(cs: seq<Conn>, n: nat)
  {
    forall k :: 0 <= k < |cs| ==> cs[k].id < n
  }

  predicate Registered(cs: seq<Conn>, id: ConnId)
  {
    exists k :: 0 <= k < |cs| && cs[k].id == id
  }

  predicate IsHost(cs: seq<Conn>, id: ConnId)
  {
    exists k :: 0 <= k < |cs| && cs[k].id == id && cs[k].isHost
  }

  /** Number of entries whose `isHost` is false. */
  function CountNonHost(cs: seq<Conn>): (n: nat)
    ensures n <= |cs|
  {
    if cs == [] then 0 else CountNonHost(cs[..|cs| - 1]) + (if cs[|cs| - 1].isHost then 0 else 1)
  }

  /** Ids of the OPEN entries, in list order. */
  function OpenIds(cs: seq<Conn>): seq<ConnId>
  {
    if cs == [] then []
    else OpenIds(cs[..|cs| - 1]) + (if cs[|cs| - 1].open then [cs[|cs| - 1].id] else [])
  }

  /** Ids of the OPEN entries whose `isHost` is false, in list order. */
  function AudienceIds(cs: seq<Conn>): seq<ConnId>
  {
    if cs == [] then []
    else AudienceIds(cs[..|cs| - 1]) + (if !cs[|cs| - 1].isHost && cs[|cs| - 1].open then [cs[|cs| - 1].id] else [])
  }

  /** The list with the entry (or entries) of `id` removed. */
  function Without(cs: seq<Conn>, id: ConnId): seq<Conn>
  {
    if cs == [] then []
    else Without(cs[..|cs| - 1], id) + (if cs[|cs| - 1].id == id then [] else [cs[|cs| - 1]])
  }

  /** The list with the `isHost` flag of `id`'s entry set to `h`. */
  function WithRole(cs: seq<Conn>, id: ConnId, h: bool): (r: seq<Conn>)
  {
    seq(|cs|, i requires 0 <= i < |cs| => if cs[i].id == id then cs[i].(isHost := h) else cs[i])
  }

  /** The list with the ready state of `id`'s entry set to `open`. */
  function WithReadyState(cs: seq<Conn>, id: ConnId, open: bool): (r: seq<Conn>)
  {
    seq(|cs|, i requires 0 <= i < |cs| => if cs[i].id == id then cs[i].(open := open) else cs[i])
  }

  // ---------------------------------------------------------------------
  // Properties of the derived views

  /** The count adds up over a split of the list. */
  lemma {:induction false} CountNonHostAppend(a: seq<Conn>, b: seq<Conn>)
    ensures CountNonHost(a + b) == CountNonHost(a) + CountNonHost(b)
    decreases |b|
  {
    if b == [] {
      assert a + b == a;
    } else {
      assert (a + b)[..|a + b| - 1] == a + b[..|b| - 1];
      CountNonHostAppend(a, b[..|b| - 1]);
    }
  }

  /** Removing one audience entry lowers the count by one; removing a host
      entry leaves it. */
  lemma {:induction false} CountNonHostRemove(cs: seq<Conn>, k: nat)
    requires k < |cs|
    ensures CountNonHost(cs[..k] + cs[k + 1..]) + (if cs[k].isHost then 0 else 1) == CountNonHost(cs)
  {
    var pre, mid, post := cs[..k], [cs[k]], cs[k + 1..];
    assert cs[k..] == mid + post;
    assert cs == pre + cs[k..];
    CountNonHostAppend(pre, mid + post);
    CountNonHostAppend(mid, post);
    CountNonHostAppend(pre, post);
    assert CountNonHost(mid) == if cs[k].isHost then 0 else 1 by {
      assert mid[..0] == [];
    }
  }

  /** Exactly the OPEN entries are on the recipient list. */
  lemma {:induction false} OpenIdsMembers(cs: seq<Conn>, x: ConnId)
    ensures x in OpenIds(cs) <==> exists k :: 0 <= k < |cs| && cs[k].id == x && cs[k].open
    decreases |cs|
  {
    if cs != [] {
      var init := cs[..|cs| - 1];
      OpenIdsMembers(init, x);
      if exists k :: 0 <= k < |init| && init[k].id == x && init[k].open {
        var k :| 0 <= k < |init| && init[k].id == x && init[k].open;
        assert cs[k] == init[k];
      }
      if exists k :: 0 <= k < |cs| && cs[k].id == x && cs[k].open {
        var k :| 0 <= k < |cs| && cs[k].id == x && cs[k].open;
        if k < |init| {
          assert init[k] == cs[k];
        }
      }
    }
  }

  /** Exactly the OPEN audience entries are on the fan-out list. */
  lemma {:induction false} AudienceIdsMembers(cs: seq<Conn>, x: ConnId)
    ensures x in AudienceIds(cs) <==> exists k :: 0 <= k < |cs| && cs[k].id == x && !cs[k].isHost && cs[k].open
    decreases |cs|
  {
    if cs != [] {
      var init := cs[..|cs| - 1];
      AudienceIdsMembers(init, x);
      if exists k :: 0 <= k < |init| && init[k].id == x && !init[k].isHost && init[k].open {
        var k :| 0 <= k < |init| && init[k].id == x && !init[k].isHost && init[k].open;
        assert cs[k] == init[k];
      }
      if exists k :: 0 <= k < |cs| && cs[k].id == x && !cs[k].isHost && cs[k].open {
        var k :| 0 <= k < |cs| && cs[k].id == x && !cs[k].isHost && cs[k].open;
        if k < |init| {
          assert init[k] == cs[k];
        }
      }
    }
  }

  /** A host entry never receives a fan-out, even when it is OPEN. */
  lemma {:induction false} HostNeverInAudience(cs: seq<Conn>, k: nat)
    requires DistinctIds(cs) && k < |cs| && cs[k].isHost
    ensures cs[k].id !in AudienceIds(cs)
  {
    AudienceIdsMembers(cs, cs[k].id);
  }

  /** Fan-out reaches each connection at most once. */
  lemma {:induction false} AudienceIdsDistinct(cs: seq<Conn>)
    requires DistinctIds(cs)
    ensures forall i, j :: 0 <= i < j < |AudienceIds(cs)| ==> AudienceIds(cs)[i] != AudienceIds(cs)[j]
    decreases |cs|
  {
    if cs != [] {
      var init := cs[..|cs| - 1];
      AudienceIdsDistinct(init);
      var last := cs[|cs| - 1];
      if !last.isHost && last.open {
        AudienceIdsMembers(init, last.id);
      }
    }
  }

  /** Removing by id keeps the other entries in their order; with distinct
      ids it removes exactly the entry at the position of `id`. */
  lemma {:induction false} WithoutAt(cs: seq<Conn>, k: nat)
    requires DistinctIds(cs) && k < |cs|
    ensures Without(cs, cs[k].id) == cs[..k] + cs[k + 1..]
    decreases |cs|
  {
    var id := cs[k].id;
    var init := cs[..|cs| - 1];
    if k == |cs| - 1 {
      WithoutAbsent(init, id);
      assert cs[..k] + cs[k + 1..] == init;
    } else {
      assert init[k] == cs[k];
      WithoutAt(init, k);
      assert cs[..k] + cs[k + 1..] == init[..k] + init[k + 1..] + [cs[|cs| - 1]];
    }
  }

  /** Removing an id that has no entry changes nothing. */
  lemma {:induction false} WithoutAbsent(cs: seq<Conn>, id: ConnId)
    requires forall k :: 0 <= k < |cs| ==> cs[k].id != id
    ensures Without(cs, id) == cs
    decreases |cs|
  {
    if cs != [] {
      WithoutAbsent(cs[..|cs| - 1], id);
      assert cs[..|cs| - 1] + [cs[|cs| - 1]] == cs;
    }
  }

  /** Removing an entry keeps the ids distinct and bounded. */
  lemma RemovePreservesIds(cs: seq<Conn>, k: nat, n: nat)
    requires DistinctIds(cs) && IdsBelow(cs, n) && k < |cs|
    ensures DistinctIds(cs[..k] + cs[k + 1..]) && IdsBelow(cs[..k] + cs[k + 1..], n)
  {
    var r := cs[..k] + cs[k + 1..];
    forall i | 0 <= i < |r|
      ensures r[i] == cs[if i < k then i else i + 1]
    {
    }
  }

  /** With distinct ids, setting a role touches exactly the entry at `k`. */
  lemma WithRoleAt(cs: seq<Conn>, k: nat, h: bool)
    requires DistinctIds(cs) && k < |cs|
    ensures WithRole(cs, cs[k].id, h) == cs[k := cs[k].(isHost := h)]
  {
  }
}
