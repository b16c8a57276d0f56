/**
  One pass over a topologically sorted list settles the permissions of every node in it.
*/
module PermissionPass {
  import opened Digraph
  import opened BlockGraph
  import opened GraphSearch
  import opened Permissions
  import opened Transactions

  // ----- the order of the pass -----

  lemma BelowAreNodes(g: Graph, bs: NodeId)
    requires Consistent(g) && bs in g.nodes
    ensures forall n :: Reach(LinksOf(g), bs, n) ==> n in g.nodes
  {
    forall n | Reach(LinksOf(g), bs, n)
      ensures n in g.nodes
    {
      var p :| PathFrom(LinksOf(g), p, bs, n);
      if |p| > 1 {
        assert (p[|p| - 2], p[|p| - 2 + 1]) in LinksOf(g);
        var c := LinkChild(g, p[|p| - 2], n);
      }
    }
  }

  /** Several subtrees, sorted together. */
  method SortBelow(g: Graph, roots: seq<NodeId>) returns (list: seq<NodeId>, found: set<NodeId>)
    requires Consistent(g) && Acyclic(LinksOf(g)) && forall r :: r in roots ==> r in g.nodes
    ensures Sorted(LinksOf(g), list) && (forall n :: n in list ==> n in g.nodes)
    ensures forall n :: n in list <==> exists r :: r in roots && Reach(LinksOf(g), r, n)
  {
    list, found := [], {};
    var i := 0;
    while i < |roots|
      invariant 0 <= i <= |roots| && Sorted(LinksOf(g), list) && (forall n :: n in list <==> n in found)
      invariant forall n :: n in list ==> n in g.nodes
      invariant forall n :: n in list <==> exists r :: r in roots[..i] && Reach(LinksOf(g), r, n)
    {
      BelowAreNodes(g, roots[i]);
      ghost var list0 := list;
      list, found := TopologicalDfs(g, list, found, roots[i]);
      assert roots[..i + 1] == roots[..i] + [roots[i]];
      i := i + 1;
    }
    assert roots[..|roots|] == roots;
  }

  // ----- one node -----

  lemma ChildOf(g: Graph, bs: NodeId, c: EdgeId)
    requires Consistent(g) && bs in g.nodes && c in g.nodes[bs].children
    ensures c in g.edges && g.edges[c].parent == NodeParent(bs) && g.edges[c].bs.Some?
  {
    assert NodeOk(g, bs);
    assert Attached(g, c, bs);
  }

  lemma ChildHasClass(g: Graph, bs: NodeId, c: EdgeId)
    requires Consistent(g) && bs in g.nodes && c in g.nodes[bs].children
    ensures g.nodes[bs].info.hasDriver ==> g.nodes[bs].info.hasChildPerm
  {
    ChildOf(g, bs, c);
    assert EdgeOk(g, c);
  }

  lemma NoChildren(g: Graph, bs: NodeId)
    requires Consistent(g) && bs in g.nodes && g.nodes[bs].info.hasDriver && !g.nodes[bs].info.hasChildPerm
    ensures g.nodes[bs].children == {}
  {
    if c :| c in g.nodes[bs].children {
      ChildHasClass(g, bs, c);
    }
  }

  lemma NothingToPassOn(childPerm: ChildPerm, g: Graph, bs: NodeId)
    requires Consistent(g) && bs in g.nodes && g.nodes[bs].info.hasDriver && !g.nodes[bs].info.hasChildPerm
    requires Compatible(g, bs) && MayHave(g.nodes[bs].info, CumulativePerm(g, bs))
    ensures Settled(childPerm, g, bs) && SameOutside(g, g, g.nodes[bs].children)
  {
    NoChildren(g, bs);
  }

  /** In an acyclic graph no node is its own child. */
  lemma ChildrenAreNotParents(g: Graph, bs: NodeId)
    requires Consistent(g) && Acyclic(LinksOf(g)) && bs in g.nodes
    ensures g.nodes[bs].children !! g.nodes[bs].parents
  {
    if c :| c in g.nodes[bs].children && c in g.nodes[bs].parents {
      assert NodeOk(g, bs);
      ChildLink(g, bs, c);
      ReachSelf(LinksOf(g), bs);
    }
  }

  /** Child c has the permissions that bs computes for it. */
  ghost predicate HasPerms(childPerm: ChildPerm, g0: Graph, g: Graph, bs: NodeId, c: EdgeId, perm: Perms,
                           shared: Perms) {
    c in g0.edges && c in g.edges &&
        (g.edges[c].perm, g.edges[c].shared) == ChildPermOf(childPerm, g0, bs, c, perm, shared)
  }

  /** The children of bs outside of todo have their new permissions. */
  ghost predicate PermsSoFar(childPerm: ChildPerm, g0: Graph, g: Graph, log0: seq<Record>, log: seq<Record>,
                             bs: NodeId, todo: set<EdgeId>, perm: Perms, shared: Perms)
    requires bs in g0.nodes
  {
    && SameOutside(g0, g, g0.nodes[bs].children) && SameUndo(g0, g, log0, log)
    && forall c :: c in g0.nodes[bs].children && c !in todo ==> HasPerms(childPerm, g0, g, bs, c, perm, shared)
  }

  lemma PermSet(childPerm: ChildPerm, g0: Graph, g: Graph, g': Graph, log0: seq<Record>, log: seq<Record>,
                log': seq<Record>, bs: NodeId, c: EdgeId, todo: set<EdgeId>, perm: Perms, shared: Perms)
    requires bs in g0.nodes && c in g0.nodes[bs].children && c in g.edges &&
             PermsSoFar(childPerm, g0, g, log0, log, bs, todo, perm, shared)
    requires var wanted := ChildPermOf(childPerm, g, bs, c, perm, shared); g' == WithPerm(g, c, wanted.0, wanted.1)
    requires SameUndo(g, g', log, log')
    ensures PermsSoFar(childPerm, g0, g', log0, log', bs, todo - {c}, perm, shared)
  {
    assert SameButPerms(g0.edges[c], g.edges[c]);
    forall c' | c' in g0.nodes[bs].children && c' !in todo - {c}
      ensures HasPerms(childPerm, g0, g', bs, c', perm, shared)
    {
      assert c' != c ==> HasPerms(childPerm, g0, g, bs, c', perm, shared);
    }
  }

  lemma NodeIsSettled(childPerm: ChildPerm, g0: Graph, g: Graph, log0: seq<Record>, log: seq<Record>, bs: NodeId)
    requires Consistent(g0) && Acyclic(LinksOf(g0)) && bs in g0.nodes
    requires Compatible(g0, bs) && MayHave(g0.nodes[bs].info, CumulativePerm(g0, bs))
    requires PermsSoFar(childPerm, g0, g, log0, log, bs, {}, CumulativePerm(g0, bs), CumulativeShared(g0, bs))
    ensures Settled(childPerm, g, bs)
  {
    ChildrenAreNotParents(g0, bs);
    CumulativeKept(g0, g, g0.nodes[bs].children, bs);
    forall c | c in g.nodes[bs].children && c in g.edges
      ensures ChildSettled(childPerm, g, bs, c)
    {
      assert HasPerms(childPerm, g0, g, bs, c, CumulativePerm(g0, bs), CumulativeShared(g0, bs));
      assert SameButPerms(g0.edges[c], g.edges[c]);
    }
  }

  // ----- the whole pass -----

  lemma PermsOnlyTrans(g0: Graph, g: Graph, g': Graph)
    requires PermsOnly(g0, g) && PermsOnly(g, g')
    ensures PermsOnly(g0, g')
  {
    forall e | e in g0.edges
      ensures SameButPerms(g0.edges[e], g'.edges[e])
    {
      assert SameButPerms(g0.edges[e], g.edges[e]) && SameButPerms(g.edges[e], g'.edges[e]);
    }
  }

  predicate Between(edge: Edge, list: seq<NodeId>) {
    edge.parent.NodeParent? && edge.parent.node in list && edge.bs.Some? && edge.bs.value in list
  }

  /** The pass changed nothing but permissions, on edges between nodes of the list, and the
      first i nodes are settled. */
  ghost predicate Refreshed(childPerm: ChildPerm, g0: Graph, g: Graph, log0: seq<Record>, log: seq<Record>,
                            list: seq<NodeId>, i: nat)
  {
    && PermsOnly(g0, g) && SameUndo(g0, g, log0, log)
    && (forall e :: e in g0.edges && g.edges[e] != g0.edges[e] ==> Between(g0.edges[e], list))
    && i <= |list| && (forall j :: 0 <= j < i ==> list[j] in g.nodes && Settled(childPerm, g, list[j]))
  }

  /** Nodes that were settled earlier in the pass are out of the way of later ones. */
  lemma EarlierIsAway(g: Graph, list: seq<NodeId>, j: nat, i: nat)
    requires Consistent(g) && Sorted(LinksOf(g), list) && j < i < |list| && list[i] in g.nodes && list[j] in g.nodes
    ensures g.nodes[list[i]].children !! g.nodes[list[j]].parents &&
            g.nodes[list[i]].children !! g.nodes[list[j]].children
  {
    if c :| c in g.nodes[list[i]].children && (c in g.nodes[list[j]].parents || c in g.nodes[list[j]].children) {
      assert NodeOk(g, list[j]);
      ChildLink(g, list[i], c);
      ReachSelf(LinksOf(g), list[j]);
      if c in g.nodes[list[j]].parents {
        ReachLink(LinksOf(g), list[i], list[j], list[j]);
      } else {
        ChildOf(g, list[j], c);
      }
      SortedOrders(LinksOf(g), list, i, j);
    }
  }

  lemma PassStep(childPerm: ChildPerm, g0: Graph, g: Graph, g': Graph, log0: seq<Record>, log: seq<Record>,
                 log': seq<Record>, list: seq<NodeId>, i: nat)
    requires Consistent(g0) && Sorted(LinksOf(g0), list) && (forall n :: n in list ==> n in g0.nodes) && i < |list|
    requires Refreshed(childPerm, g0, g, log0, log, list, i)
    requires SameOutside(g, g', g.nodes[list[i]].children) && SameUndo(g, g', log, log')
    requires Settled(childPerm, g', list[i])
    ensures Refreshed(childPerm, g0, g', log0, log', list, i + 1)
  {
    forall j | 0 <= j < i
      ensures list[j] in g'.nodes && Settled(childPerm, g', list[j])
    {
      EarlierIsAway(g0, list, j, i);
      SettledKept(childPerm, g, g', g.nodes[list[i]].children, list[j]);
    }
    PermsOnlyTrans(g0, g, g');
    forall e | e in g0.edges && g'.edges[e] != g0.edges[e]
      ensures Between(g0.edges[e], list)
    {
      if e in g0.nodes[list[i]].children {
        ChildLink(g0, list[i], e);
        ReachSelf(LinksOf(g0), g0.edges[e].bs.value);
        ReachLink(LinksOf(g0), list[i], g0.edges[e].bs.value, g0.edges[e].bs.value);
        SortedIsClosed(LinksOf(g0), list, list[i], g0.edges[e].bs.value);
      }
    }
  }

  lemma AllSettled(childPerm: ChildPerm, g0: Graph, g: Graph, log0: seq<Record>, log: seq<Record>, list: seq<NodeId>)
    requires Refreshed(childPerm, g0, g, log0, log, list, |list|)
    ensures forall n :: n in list ==> n in g.nodes && Settled(childPerm, g, n)
  {
    forall n | n in list
      ensures n in g.nodes && Settled(childPerm, g, n)
    {
      var j :| 0 <= j < |list| && list[j] == n;
    }
  }

  // ----- setting the permissions of an edge -----

  lemma PermIsPermsOnly(g: Graph, c: EdgeId, perm: Perms, shared: Perms)
    requires c in g.edges
    ensures PermsOnly(g, WithPerm(g, c, perm, shared)) && LinksOf(WithPerm(g, c, perm, shared)) == LinksOf(g)
  {
    PermsOnlyKeepsLinks(g, WithPerm(g, c, perm, shared));
  }

  /** Nothing but permissions has changed, the edge has those that were asked for, and
      everything below it is settled. */
  ghost predicate IsSet(childPerm: ChildPerm, g0: Graph, g: Graph, c: EdgeId, perm: Perms, shared: Perms) {
    && PermsOnly(g0, g) && c in g0.edges && c in g.edges && g.edges[c].perm == perm && g.edges[c].shared == shared &&
        g0.edges[c].bs.Some?
    && forall n :: Reach(LinksOf(g0), g0.edges[c].bs.value, n) ==> n in g.nodes && Settled(childPerm, g, n)
  }

  lemma PermIsSet(childPerm: ChildPerm, g0: Graph, g1: Graph, g2: Graph, log0: seq<Record>, log: seq<Record>,
                  list: seq<NodeId>, c: EdgeId, perm: Perms, shared: Perms)
    requires Consistent(g0) && Acyclic(LinksOf(g0)) && c in g0.edges && g0.edges[c].bs.Some? &&
             g1 == WithPerm(g0, c, perm, shared)
    requires Refreshed(childPerm, g1, g2, log0, log, list, |list|) && LinksOf(g1) == LinksOf(g0)
    requires (forall n :: n in list <==> Reach(LinksOf(g0), g0.edges[c].bs.value, n)) && Removed(log0) == {}
    ensures IsSet(childPerm, g0, g2, c, perm, shared) && Freed(g2, Removed(log0)) == g2
  {
    NothingRemoved(g2, log0);
    PermsOnlyTrans(g0, g1, g2);
    AllSettled(childPerm, g1, g2, log0, log, list);
    if g2.edges[c] != g1.edges[c] {
      LinkOfEdge(g0, c);
    }
  }
}
