/** The consistent hash ring: a sorted map from 64-bit tokens to nodes, looked up clockwise. */
module HashRing {
  import opened Wrappers
  import Sets

  const SPACE := 0x1_0000_0000_0000_0000

  type Hash = x: int | 0 <= x < SPACE

  type Uuid = nat

  type Ring = map<Hash, Uuid>

  datatype NodeIdentity = NodeIdentity(uuid: Uuid, tokens: seq<Hash>)

  // ----- Lookup

  /** First token of a non-empty ordered set. */
  function First(s: set<Hash>): (m: Hash)
    requires s != {}
    ensures m in s && forall x :: x in s ==> m <= x
  {
    assert exists m :: m in s && forall x :: x in s ==> m <= x by {
      var m := Sets.Least(s);
    }
    var m :| m in s && forall x :: x in s ==> m <= x;
    m
  }

  function AtOrAfter(tokens: set<Hash>, hash: Hash): set<Hash> {
    set t | t in tokens && hash <= t
  }

  /** The token a hash lands on: the first one at or after it, else the first of all. */
  function OwnerToken(tokens: set<Hash>, hash: Hash): Hash
    requires tokens != {}
  {
    var after := AtOrAfter(tokens, hash);
    if after != {} then First(after) else First(tokens)
  }

  function Owner(ring: Ring, hash: Hash): Option<Uuid> {
    if ring.Keys == {} then None else Some(ring[OwnerToken(ring.Keys, hash)])
  }

  /** Steps from `hash` to `token` going up and around the 64-bit circle. */
  function Clockwise(hash: Hash, token: Hash): Hash {
    (token - hash) % SPACE
  }

  lemma ClockwiseIs(hash: Hash, token: Hash)
    ensures Clockwise(hash, token) == if hash <= token then token - hash else token - hash + SPACE
  {
  }

  ghost predicate Nearest(tokens: set<Hash>, hash: Hash, token: Hash) {
    token in tokens && forall t :: t in tokens ==> Clockwise(hash, token) <= Clockwise(hash, t)
  }

  /** The two-branch lookup finds exactly the token nearest clockwise, wrap-around included. */
  lemma OwnerTokenIsNearest(tokens: set<Hash>, hash: Hash, token: Hash)
    requires tokens != {}
    ensures Nearest(tokens, hash, token) <==> token == OwnerToken(tokens, hash)
  {
    var found := OwnerToken(tokens, hash);
    forall t | t in tokens
      ensures Clockwise(hash, found) <= Clockwise(hash, t)
      ensures Clockwise(hash, found) == Clockwise(hash, t) ==> t == found
    {
      ClockwiseIs(hash, found);
      ClockwiseIs(hash, t);
      assert hash <= t ==> t in AtOrAfter(tokens, hash);
    }
  }

  // ----- Membership changes

  function Added(ring: Ring, node: NodeIdentity): Ring {
    ring + map t | t in node.tokens :: node.uuid
  }

  lemma AddedOneMore(ring: Ring, node: NodeIdentity, i: nat)
    requires i < |node.tokens|
    ensures Added(ring, node.(tokens := node.tokens[..i + 1]))
            == Added(ring, node.(tokens := node.tokens[..i]))[node.tokens[i] := node.uuid]
  {
    assert node.tokens[..i + 1] == node.tokens[..i] + [node.tokens[i]];
  }

  function Removed(ring: Ring, uuid: Uuid): Ring {
    map t | t in ring && ring[t] != uuid :: ring[t]
  }

  /** Adding a node takes to it exactly the hashes one of its tokens is nearest to; no other hash moves. */
  lemma AddMovesOnlyToNew(ring: Ring, node: NodeIdentity, hash: Hash)
    ensures var after := Added(ring, node);
            after.Keys != {} ==>
              if OwnerToken(after.Keys, hash) in node.tokens then Owner(after, hash) == Some(node.uuid)
              else Owner(after, hash) == Owner(ring, hash)
  {
    var after := Added(ring, node);
    if after.Keys != {} && OwnerToken(after.Keys, hash) !in node.tokens {
      var t := OwnerToken(after.Keys, hash);
      OwnerTokenIsNearest(after.Keys, hash, t);
      assert Nearest(ring.Keys, hash, t);
      OwnerTokenIsNearest(ring.Keys, hash, t);
    }
  }

  /** Removing a node moves only the hashes it owned, and none of them stays with it. */
  lemma RemoveMovesOnlyItsOwn(ring: Ring, uuid: Uuid, hash: Hash)
    ensures Owner(ring, hash) != Some(uuid) ==> Owner(Removed(ring, uuid), hash) == Owner(ring, hash)
    ensures Owner(Removed(ring, uuid), hash) != Some(uuid)
  {
    var after := Removed(ring, uuid);
    if ring.Keys != {} && Owner(ring, hash) != Some(uuid) {
      var t := OwnerToken(ring.Keys, hash);
      OwnerTokenIsNearest(ring.Keys, hash, t);
      assert t in after;
      assert Nearest(after.Keys, hash, t);
      OwnerTokenIsNearest(after.Keys, hash, t);
    }
  }

  /** Adding and then removing a node gives the ring back exactly when the node was new and its tokens were free. */
  lemma AddRemoveRestores(ring: Ring, node: NodeIdentity)
    ensures Removed(Added(ring, node), node.uuid) == ring
            <==> node.uuid !in ring.Values && forall t :: t in node.tokens ==> t !in ring
  {
    var back := Removed(Added(ring, node), node.uuid);
    if node.uuid in ring.Values {
      var t :| t in ring && ring[t] == node.uuid;
      assert t !in back;
    }
    if exists t :: t in node.tokens && t in ring {
      var t :| t in node.tokens && t in ring;
      assert t !in back;
    }
  }

  // ----- Convergence

  function AddedAll(ring: Ring, nodes: seq<NodeIdentity>): Ring {
    if nodes == [] then ring
    else Added(AddedAll(ring, nodes[..|nodes| - 1]), nodes[|nodes| - 1])
  }

  /** No token is claimed by two different nodes. */
  ghost predicate TokensAgree(nodes: seq<NodeIdentity>) {
    forall m, n, t :: m in nodes && n in nodes && t in m.tokens && t in n.tokens ==> m.uuid == n.uuid
  }

  ghost predicate SameMembers(a: seq<NodeIdentity>, b: seq<NodeIdentity>) {
    forall n :: n in a <==> n in b
  }

  lemma {:induction false} AddedAllAt(ring: Ring, nodes: seq<NodeIdentity>, t: Hash)
    ensures (forall n :: n in nodes ==> t !in n.tokens) ==>
              (t in AddedAll(ring, nodes) <==> t in ring)
              && (t in ring ==> AddedAll(ring, nodes)[t] == ring[t])
    ensures (exists n :: n in nodes && t in n.tokens) ==>
              t in AddedAll(ring, nodes)
              && exists n :: n in nodes && t in n.tokens && AddedAll(ring, nodes)[t] == n.uuid
  {
    if nodes != [] {
      var rest, last := nodes[..|nodes| - 1], nodes[|nodes| - 1];
      AddedAllAt(ring, rest, t);
      assert nodes == rest + [last];
      if t in last.tokens {
        assert last in nodes;
      }
    }
  }

  lemma AgreeingHistoriesMatch(ring: Ring, nodes: seq<NodeIdentity>, other: seq<NodeIdentity>)
    requires TokensAgree(nodes) && SameMembers(nodes, other)
    ensures AddedAll(ring, other) == AddedAll(ring, nodes)
  {
    forall t: Hash
      ensures t in AddedAll(ring, other) <==> t in AddedAll(ring, nodes)
      ensures t in AddedAll(ring, other) ==> AddedAll(ring, other)[t] == AddedAll(ring, nodes)[t]
    {
      AddedAllAt(ring, nodes, t);
      AddedAllAt(ring, other, t);
    }
  }

  lemma ContestedTokenDiverges(ring: Ring, nodes: seq<NodeIdentity>, m: NodeIdentity, n: NodeIdentity, t: Hash)
    requires m in nodes && n in nodes && t in m.tokens && t in n.tokens && m.uuid != n.uuid
    ensures SameMembers(nodes, nodes + [m]) && SameMembers(nodes, nodes + [n])
    ensures AddedAll(ring, nodes + [m]) != AddedAll(ring, nodes + [n])
  {
    assert (nodes + [m])[..|nodes|] == nodes == (nodes + [n])[..|nodes|];
    assert Added(AddedAll(ring, nodes), m)[t] != Added(AddedAll(ring, nodes), n)[t];
  }

  /**
    Nodes may join in any order and any number of times: every such history builds the same ring
    exactly when no token is claimed by two different nodes.
   */
  lemma ConvergesIffTokensAgree(ring: Ring, nodes: seq<NodeIdentity>)
    ensures TokensAgree(nodes)
            <==> forall other :: SameMembers(nodes, other) ==> AddedAll(ring, other) == AddedAll(ring, nodes)
  {
    if TokensAgree(nodes) {
      forall other | SameMembers(nodes, other)
        ensures AddedAll(ring, other) == AddedAll(ring, nodes)
      {
        AgreeingHistoriesMatch(ring, nodes, other);
      }
    } else {
      Diverges(ring, nodes);
    }
  }

  lemma Diverges(ring: Ring, nodes: seq<NodeIdentity>)
    requires !TokensAgree(nodes)
    ensures exists other :: SameMembers(nodes, other) && AddedAll(ring, other) != AddedAll(ring, nodes)
  {
    var m, n, t :| m in nodes && n in nodes && t in m.tokens && t in n.tokens && m.uuid != n.uuid;
    ContestedTokenDiverges(ring, nodes, m, n, t);
  }

  // ----- Joins and leaves

  datatype Change = Join(node: NodeIdentity) | Leave(uuid: Uuid)

  function RingAfter(history: seq<Change>): Ring {
    if history == [] then map[]
    else
      var before := RingAfter(history[..|history| - 1]);
      match history[|history| - 1]
      case Join(node) => Added(before, node)
      case Leave(uuid) => Removed(before, uuid)
  }

  /** The joins no later leave has undone. */
  function Members(history: seq<Change>): set<NodeIdentity> {
    if history == [] then {}
    else
      var before := Members(history[..|history| - 1]);
      match history[|history| - 1]
      case Join(node) => before + {node}
      case Leave(uuid) => set n | n in before && n.uuid != uuid
  }

  /** Only these nodes ever join. */
  ghost predicate DrawnFrom(history: seq<Change>, nodes: set<NodeIdentity>) {
    forall change :: change in history && change.Join? ==> change.node in nodes
  }

  /** No token is claimed by two different nodes. */
  ghost predicate Uncontested(members: set<NodeIdentity>) {
    forall m, n, t :: m in members && n in members && t in m.tokens && t in n.tokens ==> m.uuid == n.uuid
  }

  /** The ring that gives every token of every member to that member and has no other token. */
  ghost predicate IsRingOf(ring: Ring, members: set<NodeIdentity>) {
    && (forall t :: t in ring ==> exists n :: n in members && t in n.tokens && n.uuid == ring[t])
    && (forall n, t :: n in members && t in n.tokens ==> t in ring && ring[t] == n.uuid)
  }

  lemma JoinKeeps(ring: Ring, members: set<NodeIdentity>, node: NodeIdentity)
    requires IsRingOf(ring, members) && Uncontested(members + {node})
    ensures IsRingOf(Added(ring, node), members + {node})
  {
    var after := Added(ring, node);
    forall t | t in after
      ensures exists n :: n in members + {node} && t in n.tokens && n.uuid == after[t]
    {
      if t in node.tokens {
        assert node in members + {node};
      } else {
        var n :| n in members && t in n.tokens && n.uuid == ring[t];
        assert n in members + {node};
      }
    }
  }

  lemma LeaveKeeps(ring: Ring, members: set<NodeIdentity>, uuid: Uuid)
    requires IsRingOf(ring, members)
    ensures IsRingOf(Removed(ring, uuid), set n | n in members && n.uuid != uuid)
  {
  }

  lemma {:induction false} RingIsItsMembers(history: seq<Change>, nodes: set<NodeIdentity>)
    requires Uncontested(nodes) && DrawnFrom(history, nodes)
    ensures Members(history) <= nodes && IsRingOf(RingAfter(history), Members(history))
  {
    if history != [] {
      var before, last := history[..|history| - 1], history[|history| - 1];
      assert last in history && forall change :: change in before ==> change in history;
      RingIsItsMembers(before, nodes);
      match last
      case Join(node) => JoinKeeps(RingAfter(before), Members(before), node);
      case Leave(uuid) => LeaveKeeps(RingAfter(before), Members(before), uuid);
    }
  }

  /** A token contested even for a moment leaves its mark: the member that stays has lost it. */
  lemma ContestLeavesMark(m: NodeIdentity, n: NodeIdentity, t: Hash)
    requires m.uuid != n.uuid && t in m.tokens && t in n.tokens
    ensures var history := [Join(m)] + [Join(n)] + [Leave(n.uuid)];
            m in Members(history) && t !in RingAfter(history)
  {
    var one, two, three := [Join(m)], [Join(m)] + [Join(n)], [Join(m)] + [Join(n)] + [Leave(n.uuid)];
    assert three[..2] == two && two[..1] == one && one[..0] == [];
    assert m in Members(one) && m in Members(two);
    assert RingAfter(two)[t] == n.uuid;
  }

  /**
    Nodes may join and leave in any order and any number of times: after every such history the ring is
    that of the nodes still in it exactly when no token is claimed by two different nodes.
   */
  lemma MembershipIffUncontested(nodes: set<NodeIdentity>)
    ensures Uncontested(nodes)
            <==> forall history :: DrawnFrom(history, nodes) ==> IsRingOf(RingAfter(history), Members(history))
  {
    if Uncontested(nodes) {
      forall history | DrawnFrom(history, nodes)
        ensures IsRingOf(RingAfter(history), Members(history))
      {
        RingIsItsMembers(history, nodes);
      }
    } else {
      var m, n, t :| m in nodes && n in nodes && t in m.tokens && t in n.tokens && m.uuid != n.uuid;
      ContestLeavesMark(m, n, t);
      var history := [Join(m)] + [Join(n)] + [Leave(n.uuid)];
      assert DrawnFrom(history, nodes) && !IsRingOf(RingAfter(history), Members(history));
    }
  }

  lemma OneRingOf(a: Ring, b: Ring, members: set<NodeIdentity>)
    requires IsRingOf(a, members) && IsRingOf(b, members)
    ensures a == b
  {
    forall t: Hash
      ensures t in a <==> t in b
      ensures t in a ==> a[t] == b[t]
    {
      if t in a {
        var n :| n in members && t in n.tokens && n.uuid == a[t];
      }
      if t in b {
        var n :| n in members && t in n.tokens && n.uuid == b[t];
      }
    }
  }

  /** So two nodes that saw different histories but know the same members agree on every owner. */
  lemma SameMembersSameOwner(a: seq<Change>, b: seq<Change>, nodes: set<NodeIdentity>, hash: Hash)
    requires Uncontested(nodes) && DrawnFrom(a, nodes) && DrawnFrom(b, nodes) && Members(a) == Members(b)
    ensures Owner(RingAfter(a), hash) == Owner(RingAfter(b), hash)
  {
    RingIsItsMembers(a, nodes);
    RingIsItsMembers(b, nodes);
    OneRingOf(RingAfter(a), RingAfter(b), Members(a));
  }

  /** The ring as the node keeps it. */
  class ConsistentRing {
    var ring: Ring

    constructor ()
      ensures ring == map[]
    {
      ring := map[];
    }

    method AddNode(node: NodeIdentity)
      modifies this
      ensures ring == Added(old(ring), node)
      ensures forall t :: t in node.tokens ==> t in ring && ring[t] == node.uuid
      ensures forall t :: t !in node.tokens ==>
                (t in ring <==> t in old(ring)) && (t in ring ==> ring[t] == old(ring)[t])
    {
      for i := 0 to |node.tokens|
        invariant ring == Added(old(ring), node.(tokens := node.tokens[..i]))
      {
        AddedOneMore(old(ring), node, i);
        ring := ring[node.tokens[i] := node.uuid];
      }
      assert node.tokens[..|node.tokens|] == node.tokens;
    }

    method RemoveNode(uuid: Uuid)
      modifies this
      ensures ring == Removed(old(ring), uuid)
      ensures forall t :: t in ring <==> t in old(ring) && old(ring)[t] != uuid
      ensures forall t :: t in ring ==> ring[t] == old(ring)[t]
    {
      ring := map t | t in ring && ring[t] != uuid :: ring[t];
    }

    /** The owner is the node holding the token nearest clockwise; none on an empty ring. */
    method GetOwnerWithHash(hash: Hash) returns (owner: Option<Uuid>)
      ensures owner == Owner(ring, hash)
      ensures owner.None? <==> ring == map[]
      ensures owner.Some? ==> exists t :: Nearest(ring.Keys, hash, t) && ring[t] == owner.value
    {
      if ring == map[] {
        return None;
      }
      var token := OwnerToken(ring.Keys, hash);
      OwnerTokenIsNearest(ring.Keys, hash, token);
      owner := Some(ring[token]);
    }
  }
}
