/**
  Permissions in the block graph: what the parents of a node ask for and share together,
  what a node passes on to its children, and when a node is settled.
*/
module Permissions {
  import opened Options
  import opened BlockGraph

  const ALL_PERMS: Perms := {ConsistentRead, Write, WriteUnchanged, Resize}

  /** A driver's bdrv_child_perm: from the child (none while it is being attached), its role,
      and the cumulative permissions of the node. */
  type ChildPerm = (NodeId, Option<EdgeId>, Role, Perms, Perms) -> (Perms, Perms)

  // ----- what the parents want -----

  function CumulativePerm(g: Graph, n: NodeId): Perms
    requires n in g.nodes
  {
    set e, p | e in g.nodes[n].parents && e in g.edges && p in g.edges[e].perm :: p
  }

  function CumulativeShared(g: Graph, n: NodeId): Perms
    requires n in g.nodes
  {
    set p | p in ALL_PERMS && forall e :: e in g.nodes[n].parents && e in g.edges ==> p in g.edges[e].shared
  }

  method GetCumulativePerm(g: Graph, bs: NodeId) returns (perm: Perms, shared: Perms)
    requires Consistent(g) && bs in g.nodes
    ensures perm == CumulativePerm(g, bs) && shared == CumulativeShared(g, bs)
  {
    perm, shared := {}, ALL_PERMS;
    var todo := g.nodes[bs].parents;
    assert NodeOk(g, bs);
    while todo != {}
      invariant todo <= g.nodes[bs].parents
      invariant forall p :: p in perm <==> exists e :: e in g.nodes[bs].parents && e !in todo && p in g.edges[e].perm
      invariant forall p :: p in shared <==> p in ALL_PERMS && forall e :: e in g.nodes[bs].parents && e !in todo ==>
                p in g.edges[e].shared
      decreases todo
    {
      var c :| c in todo;
      perm, shared := perm + g.edges[c].perm, shared * g.edges[c].shared;
      todo := todo - {c};
    }
  }

  /** bdrv_a_allow_b */
  predicate Allows(a: Edge, b: Edge) {
    b.perm <= a.shared
  }

  predicate Compatible(g: Graph, n: NodeId)
    requires n in g.nodes
  {
    forall a, b :: a in g.nodes[n].parents && b in g.nodes[n].parents && a != b && a in g.edges && b in g.edges ==>
        Allows(g.edges[a], g.edges[b])
  }

  method ParentPermsConflict(g: Graph, bs: NodeId) returns (conflict: bool)
    requires Consistent(g) && bs in g.nodes
    ensures conflict <==> !Compatible(g, bs)
  {
    var parents := g.nodes[bs].parents;
    assert NodeOk(g, bs);
    var todo := parents;
    while todo != {}
      invariant todo <= parents
      invariant forall a, b :: a in parents && b in parents && a != b && a !in todo ==> Allows(g.edges[a], g.edges[b])
      decreases todo
    {
      var a :| a in todo;
      var others := parents;
      while others != {}
        invariant others <= parents
        invariant forall b :: b in parents && b != a && b !in others ==> Allows(g.edges[a], g.edges[b])
        decreases others
      {
        var b :| b in others;
        if a != b && !Allows(g.edges[a], g.edges[b]) {
          return true;
        }
        others := others - {b};
      }
      todo := todo - {a};
    }
    conflict := false;
  }

  // ----- what a node passes on -----

  function FilterDefaultPerms(perm: Perms, shared: Perms): (Perms, Perms) {
    (perm * ALL_PERMS, shared * ALL_PERMS)
  }

  function DefaultPermsForCow(info: Info, perm: Perms, shared: Perms): (Perms, Perms) {
    (perm * {ConsistentRead},
     (if Write in shared then {Write, Resize} else {}) + {ConsistentRead, WriteUnchanged} + (if info.inactive
         then {Write, Resize} else {}))
  }

  function DefaultPermsForStorage(info: Info, role: Role, perm: Perms, shared: Perms): (Perms, Perms) {
    var (p0, s0) := FilterDefaultPerms(perm, shared);
    var p1 := p0 + (if role.metadata && info.writable then {Write, Resize} else {}) + (if role.metadata && !info.noIo
        then {ConsistentRead} else {});
    var s1 := s0 - (if role.metadata then {Write, Resize} else {});
    var s2 := s1 - (if role.data then {Resize} else {});
    var p2 := p1 + (if role.data && WriteUnchanged in p1 then {Write} else {});
    var p3 := p2 + (if role.data && Write in p2 then {Resize} else {});
    (p3, s2 + (if info.inactive then {Write, Resize} else {}))
  }

  /** bdrv_default_perms */
  function DefaultPerms(info: Info, role: Role, perm: Perms, shared: Perms): (Perms, Perms) {
    if role.filtered then FilterDefaultPerms(perm, shared)
    else if role.cow then DefaultPermsForCow(info, perm, shared)
    else DefaultPermsForStorage(info, role, perm, shared)
  }

  /** Asking for less and sharing more never makes a node ask its children for more or
      share less with their other users. */
  lemma DefaultPermsMonotone(info: Info, role: Role, perm: Perms, shared: Perms, perm': Perms, shared': Perms)
    requires perm' <= perm && shared <= shared'
    ensures DefaultPerms(info, role, perm', shared').0 <= DefaultPerms(info, role, perm, shared).0
    ensures DefaultPerms(info, role, perm, shared).1 <= DefaultPerms(info, role, perm', shared').1
  {
  }

  /** The permissions node n wants on its child c, given its own cumulative permissions. */
  function ChildPermOf(childPerm: ChildPerm, g: Graph, n: NodeId, c: EdgeId, perm: Perms, shared: Perms): (Perms, Perms)
    requires c in g.edges
  {
    var wanted := childPerm(n, Some(c), g.edges[c].role, perm, shared);
    var bs := g.edges[c].bs;
    (wanted.0, if bs.Some? && bs.value in g.nodes && g.nodes[bs.value].info.forceShare then ALL_PERMS else wanted.1)
  }

  predicate Writes(perm: Perms) {
    Write in perm || WriteUnchanged in perm
  }

  /** Writers need a writable node, and without permission to resize it an aligned size. */
  predicate MayHave(info: Info, perm: Perms) {
    Writes(perm) ==> info.writable && (Resize in perm || info.sizeAligned)
  }

  predicate ChildSettled(childPerm: ChildPerm, g: Graph, n: NodeId, c: EdgeId)
    requires n in g.nodes && c in g.edges
  {
    (g.edges[c].perm, g.edges[c].shared) == ChildPermOf(childPerm, g, n, c, CumulativePerm(g, n),
        CumulativeShared(g, n))
  }

  /** The parents of n get along, n can serve them, and its children have what n needs for that. */
  predicate Settled(childPerm: ChildPerm, g: Graph, n: NodeId)
    requires n in g.nodes
  {
    && Compatible(g, n)
    && MayHave(g.nodes[n].info, CumulativePerm(g, n))
    && (g.nodes[n].info.hasDriver && g.nodes[n].info.hasChildPerm ==>
          forall c :: c in g.nodes[n].children && c in g.edges ==> ChildSettled(childPerm, g, n, c))
  }

  // ----- changing nothing but permissions -----

  predicate SameButPerms(a: Edge, b: Edge) {
    b == a.(perm := b.perm, shared := b.shared)
  }

  predicate PermsOnly(g: Graph, g': Graph) {
    && g'.nodes == g.nodes && g'.edges.Keys == g.edges.Keys
    && forall e :: e in g.edges ==> SameButPerms(g.edges[e], g'.edges[e])
  }

  /** Edges outside of changed are as before. */
  predicate SameOutside(g: Graph, g': Graph, changed: set<EdgeId>) {
    PermsOnly(g, g') && forall e :: e in g.edges && e !in changed ==> g'.edges[e] == g.edges[e]
  }

  lemma PermsOnlyKeepsConsistent(g: Graph, g': Graph)
    requires Consistent(g) && PermsOnly(g, g')
    ensures Consistent(g')
  {
    forall e | e in g'.edges
      ensures EdgeOk(g', e)
    {
      assert EdgeOk(g, e);
      assert SameButPerms(g.edges[e], g'.edges[e]);
    }
    forall n | n in g'.nodes
      ensures NodeOk(g', n)
    {
      PermsOnlyKeepsNode(g, g', n);
    }
  }

  lemma PermsOnlyKeepsNode(g: Graph, g': Graph, n: NodeId)
    requires Consistent(g) && PermsOnly(g, g') && n in g.nodes
    ensures NodeOk(g', n)
  {
    assert NodeOk(g, n);
    forall e | e in g.nodes[n].children
      ensures Attached(g', e, n)
    {
      assert Attached(g, e, n);
      assert SameButPerms(g.edges[e], g'.edges[e]);
    }
    forall e | e in g.nodes[n].parents
      ensures e in g'.edges && g'.edges[e].bs == Some(n)
    {
      assert SameButPerms(g.edges[e], g'.edges[e]);
    }
  }

  lemma PermsOnlyKeepsLinks(g: Graph, g': Graph)
    requires PermsOnly(g, g')
    ensures LinksOf(g') == LinksOf(g)
  {
    forall u, v | (u, v) in LinksOf(g)
      ensures (u, v) in LinksOf(g')
    {
      var e := EdgeOfLink(g, u, v);
      assert SameButPerms(g.edges[e], g'.edges[e]);
      LinkOfEdge(g', e);
    }
    forall u, v | (u, v) in LinksOf(g')
      ensures (u, v) in LinksOf(g)
    {
      var e := EdgeOfLink(g', u, v);
      assert SameButPerms(g.edges[e], g'.edges[e]);
      LinkOfEdge(g, e);
    }
  }

  /** Where no edge into n changes, n gives its children the same permissions as before. */
  lemma CumulativeKept(g: Graph, g': Graph, changed: set<EdgeId>, n: NodeId)
    requires SameOutside(g, g', changed) && n in g.nodes && changed !! g.nodes[n].parents
    ensures CumulativePerm(g', n) == CumulativePerm(g, n) && CumulativeShared(g', n) == CumulativeShared(g, n)
  {
  }

  /** A settled node stays settled while the edges around it do. */
  lemma SettledKept(childPerm: ChildPerm, g: Graph, g': Graph, changed: set<EdgeId>, n: NodeId)
    requires SameOutside(g, g', changed) && n in g.nodes && changed !! g.nodes[n].parents &&
             changed !! g.nodes[n].children
    requires Settled(childPerm, g, n)
    ensures Settled(childPerm, g', n)
  {
    CumulativeKept(g, g', changed, n);
    forall c | c in g.nodes[n].children && c in g.edges && g.nodes[n].info.hasDriver && g.nodes[n].info.hasChildPerm
      ensures ChildSettled(childPerm, g', n, c)
    {
      assert ChildSettled(childPerm, g, n, c);
    }
  }

  // ----- loosening -----

  /** Every edge of g was there in g0, asks for at most what it asked for, and shares at least as
      much. */
  predicate Looser(g0: Graph, g: Graph) {
    && g.nodes.Keys == g0.nodes.Keys && g.edges.Keys <= g0.edges.Keys
    && (forall n :: n in g0.nodes ==> LooserNode(g0.nodes[n], g.nodes[n]))
    && (forall e :: e in g.edges ==> LooserEdge(g0.edges[e], g.edges[e]))
  }

  predicate LooserNode(a: Node, b: Node) {
    b.info == a.info && b.parents <= a.parents && b.children <= a.children
  }

  predicate LooserEdge(a: Edge, b: Edge) {
    SameButPerms(a, b) && b.perm <= a.perm && a.shared <= b.shared
  }

  ghost predicate Monotone(childPerm: ChildPerm) {
    forall n: NodeId, c: Option<EdgeId>, role: Role, perm: Perms, shared: Perms, perm': Perms, shared': Perms
      {:trigger childPerm(n, c, role, perm, shared), childPerm(n, c, role, perm', shared')} ::
      perm' <= perm && shared <= shared' ==>
        && childPerm(n, c, role, perm', shared').0 <= childPerm(n, c, role, perm, shared).0
        && childPerm(n, c, role, perm, shared).1 <= childPerm(n, c, role, perm', shared').1
  }

  /** The drivers that use bdrv_default_perms are monotone. */
  lemma DefaultPermsAreMonotone(infos: NodeId -> Info)
    ensures Monotone((n: NodeId, c: Option<EdgeId>, role: Role, perm: Perms, shared: Perms) => DefaultPerms(infos(n),
            role, perm, shared))
  {
    forall n: NodeId, role: Role, perm: Perms, shared: Perms, perm': Perms, shared': Perms | perm' <= perm &&
        shared <= shared'
      ensures DefaultPerms(infos(n), role, perm', shared').0 <= DefaultPerms(infos(n), role, perm, shared).0
      ensures DefaultPerms(infos(n), role, perm, shared).1 <= DefaultPerms(infos(n), role, perm', shared').1
    {
      DefaultPermsMonotone(infos(n), role, perm, shared, perm', shared');
    }
  }

  lemma LooserCumulative(g0: Graph, g: Graph, n: NodeId)
    requires Looser(g0, g) && n in g0.nodes
    ensures CumulativePerm(g, n) <= CumulativePerm(g0, n) && CumulativeShared(g0, n) <= CumulativeShared(g, n)
  {
    assert LooserNode(g0.nodes[n], g.nodes[n]);
    forall e | e in g.nodes[n].parents && e in g.edges
      ensures e in g0.nodes[n].parents && e in g0.edges && LooserEdge(g0.edges[e], g.edges[e])
    {
    }
  }

  /** Loosening brings up no conflict.  The one thing it can run into is that a writer gives up
      the permission to resize an image whose size is not aligned. */
  lemma LooseningHasNoConflict(childPerm: ChildPerm, g0: Graph, g: Graph, n: NodeId)
    requires Looser(g0, g) && n in g0.nodes && Settled(childPerm, g0, n)
    ensures Compatible(g, n)
    ensures MayHave(g.nodes[n].info, CumulativePerm(g, n)) <==>
              !(Writes(CumulativePerm(g, n)) && Resize !in CumulativePerm(g, n) && !g.nodes[n].info.sizeAligned)
  {
    LooserCumulative(g0, g, n);
    assert LooserNode(g0.nodes[n], g.nodes[n]);
    forall a, b | a in g.nodes[n].parents && b in g.nodes[n].parents && a != b && a in g.edges && b in g.edges
      ensures Allows(g.edges[a], g.edges[b])
    {
      assert LooserEdge(g0.edges[a], g.edges[a]) && LooserEdge(g0.edges[b], g.edges[b]);
      assert Allows(g0.edges[a], g0.edges[b]);
    }
  }

  /** With monotone drivers, passing looser permissions on keeps the graph looser. */
  lemma LooseningGoesDown(childPerm: ChildPerm, g0: Graph, g: Graph, n: NodeId, c: EdgeId)
    requires Monotone(childPerm) && Looser(g0, g) && n in g0.nodes && c in g.edges && ChildSettled(childPerm, g0, n, c)
    ensures var wanted := ChildPermOf(childPerm, g, n, c, CumulativePerm(g, n), CumulativeShared(g, n));
            Looser(g0, WithPerm(g, c, wanted.0, wanted.1))
  {
    LooserCumulative(g0, g, n);
    assert LooserEdge(g0.edges[c], g.edges[c]);
    var bs := g.edges[c].bs;
    assert bs.Some? && bs.value in g.nodes ==> LooserNode(g0.nodes[bs.value], g.nodes[bs.value]);
    var before := childPerm(n, Some(c), g0.edges[c].role, CumulativePerm(g0, n), CumulativeShared(g0, n));
    var after := childPerm(n, Some(c), g0.edges[c].role, CumulativePerm(g, n), CumulativeShared(g, n));
    assert after.0 <= before.0 && before.1 <= after.1;
  }
}
