/**
  What the larger changes of the block graph come to: replacing a node, attaching a child,
  appending a node, and setting a file or backing child.
*/
module GraphChanges {
  import opened Options
  import opened Digraph
  import opened BlockGraph
  import opened GraphSearch
  import opened Permissions
  import opened Transactions
  import opened PermissionPass
  import opened PassOutcome

  // ----- what no change may touch -----

  predicate SameInfo(g0: Graph, g: Graph) {
    g.nodes.Keys == g0.nodes.Keys && forall n :: n in g0.nodes ==> g.nodes[n].info == g0.nodes[n].info
  }

  /** Frozen edges are where they were. */
  predicate KeepsFrozen(g0: Graph, g: Graph) {
    && SameInfo(g0, g)
    && forall e :: e in g0.edges && g0.edges[e].frozen ==> e in g.edges && SameButPerms(g0.edges[e], g.edges[e])
  }

  // ----- replacing a node -----

  /** from and to are two nodes, and the parents of from have their drivers. */
  ghost predicate CanReplaceNode(g: Graph, from: NodeId, to: NodeId) {
    && Consistent(g) && Acyclic(LinksOf(g)) && from in g.nodes && to in g.nodes && from != to
    && forall c ::
         c in g.nodes[from].parents && c in g.edges && g.edges[c].parent.NodeParent? &&
         g.edges[c].parent.node in g.nodes ==>
           HasClass(g.nodes[g.edges[c].parent.node].info)
  }

  /** Edge e after the parents of from outside of todo were moved to to, where that was allowed. */
  ghost function ReplacedEdge(g0: Graph, e: EdgeId, from: NodeId, to: NodeId, todo: set<EdgeId>): Edge
    requires e in g0.edges && from in g0.nodes
  {
    if e in g0.nodes[from].parents && e !in todo && Admits(g0, e, to) then g0.edges[e].(bs := Some(to)) else g0.edges[e]
  }

  ghost predicate Replaced(g0: Graph, g: Graph, from: NodeId, to: NodeId, todo: set<EdgeId>) {
    && g.edges.Keys == g0.edges.Keys && g.nodes.Keys == g0.nodes.Keys && from in g0.nodes
    && (forall e :: e in g0.edges ==> g.edges[e] == ReplacedEdge(g0, e, from, to, todo))
    && (forall n :: n in g0.nodes ==> g.nodes[n].info == g0.nodes[n].info)
    && (forall v :: Reach(LinksOf(g), to, v) <==> Reach(LinksOf(g0), to, v))
    && Acyclic(LinksOf(g))
  }

  /** The loop has dealt with the parents outside of todo, and has skipped none if it must not. */
  ghost predicate ReplacedSoFar(g0: Graph, g: Graph, from: NodeId, to: NodeId, todo: set<EdgeId>, autoSkip: bool) {
    && Replaced(g0, g, from, to, todo)
    && (forall c :: c in g0.nodes[from].parents && c !in todo && c in g0.edges && Admits(g0, c, to) ==>
        !g0.edges[c].frozen)
    && (!autoSkip ==> forall c :: c in g0.nodes[from].parents && c !in todo && c in g0.edges ==> Admits(g0, c, to))
  }

  /** Every parent of from can be moved to to without touching a frozen edge, or may be skipped. */
  ghost predicate Replaceable(g: Graph, from: NodeId, to: NodeId, autoSkip: bool)
    requires from in g.nodes
  {
    forall c :: c in g.nodes[from].parents && c in g.edges ==> if Admits(g, c, to) then !g.edges[c].frozen else autoSkip
  }

  lemma ReplacedAll(g0: Graph, g: Graph, from: NodeId, to: NodeId, autoSkip: bool)
    requires from in g0.nodes && ReplacedSoFar(g0, g, from, to, {}, autoSkip)
    ensures Replaceable(g0, from, to, autoSkip)
  {
  }

  lemma ReplacedNothing(g: Graph, from: NodeId, to: NodeId, autoSkip: bool)
    requires CanReplaceNode(g, from, to)
    ensures ReplacedSoFar(g, g, from, to, g.nodes[from].parents, autoSkip)
  {
  }

  lemma SkippedOne(g0: Graph, g: Graph, from: NodeId, to: NodeId, c: EdgeId, todo: set<EdgeId>)
    requires from in g0.nodes && ReplacedSoFar(g0, g, from, to, todo, true) && c in todo && c in g0.edges &&
             !Admits(g0, c, to)
    ensures ReplacedSoFar(g0, g, from, to, todo - {c}, true)
  {
    forall e | e in g0.edges
      ensures g.edges[e] == ReplacedEdge(g0, e, from, to, todo - {c})
    {
    }
  }

  lemma ParentIsThere(g0: Graph, g: Graph, from: NodeId, to: NodeId, c: EdgeId, todo: set<EdgeId>, autoSkip: bool)
    requires CanReplaceNode(g0, from, to) && Consistent(g) && ReplacedSoFar(g0, g, from, to, todo, autoSkip) &&
             c in todo && todo <= g0.nodes[from].parents
    ensures c in g0.edges && c in g.edges && g.edges[c] == g0.edges[c] && g.edges[c].bs == Some(from)
    ensures Admits(g, c, to) <==> Admits(g0, c, to)
    ensures !g.edges[c].frozen ==> CanMoveBack(g, c, Some(to))
  {
    assert NodeOk(g0, from);
    assert EdgeOk(g0, c) && EdgeOk(g, c);
    if g.edges[c].parent.NodeParent? {
      AttachedSlotFree(g, c);
    }
  }

  lemma MoveLinks(g: Graph, e: EdgeId, to: NodeId)
    requires e in g.edges && g.edges[e].bs.Some?
    ensures g.edges[e].parent.Outside? ==> LinksOf(MoveEdge(g, e, Some(to))) == LinksOf(g)
    ensures g.edges[e].parent.NodeParent? ==>
              forall u, v :: (u, v) in LinksOf(MoveEdge(g, e, Some(to))) ==>
                  (u, v) in LinksOf(g) || (u, v) == (g.edges[e].parent.node, to)
    ensures g.edges[e].parent.NodeParent? ==>
              forall u, v :: (u, v) in LinksOf(g) && (u, v) !in LinksOf(MoveEdge(g, e, Some(to))) ==>
                  u == g.edges[e].parent.node
  {
    var g' := MoveEdge(g, e, Some(to));
    forall u, v | (u, v) in LinksOf(g')
      ensures (u, v) in LinksOf(g) || (g.edges[e].parent == NodeParent(u) && v == to)
    {
      var f := EdgeOfLink(g', u, v);
      if f != e {
        LinkOfEdge(g, f);
      }
    }
    forall u, v | (u, v) in LinksOf(g) && (u, v) !in LinksOf(g')
      ensures g.edges[e].parent == NodeParent(u)
    {
      var f := EdgeOfLink(g, u, v);
      if f != e {
        LinkOfEdge(g', f);
      }
    }
  }

  /** An edge whose owner is not below to may be moved there: no cycle comes up, and what is
      below to stays as it is. */
  lemma MoveKeepsBelow(l: Links, l': Links, p: NodeId, to: NodeId)
    requires Acyclic(l) && !Reach(l, to, p)
    requires forall u, v :: (u, v) in l' ==> (u, v) in l || (u, v) == (p, to)
    requires forall u, v :: (u, v) in l && (u, v) !in l' ==> u == p
    ensures Acyclic(l') && forall v :: Reach(l', to, v) <==> Reach(l, to, v)
  {
    AddLinkKeepsAcyclic(l, p, to);
    forall x | x in l'
      ensures x in l + {(p, to)}
    {
      assert x == (x.0, x.1);
    }
    AcyclicMono(l', l + {(p, to)});
    forall v
      ensures Reach(l', to, v) <==> Reach(l, to, v)
    {
      if Reach(l, to, v) {
        ReachKept(l, l', to, v);
      }
      if Reach(l', to, v) {
        ReachMono(l', l + {(p, to)}, to, v);
        var path :| PathFrom(l + {(p, to)}, path, to, v);
        PathOverNewLink(l, p, to, path, to, v);
      }
    }
  }

  lemma MovedParentBelow(g: Graph, c: EdgeId, to: NodeId)
    requires Acyclic(LinksOf(g)) && c in g.edges && g.edges[c].bs.Some? && Admits(g, c, to)
    ensures Acyclic(LinksOf(MoveEdge(g, c, Some(to))))
    ensures forall v :: Reach(LinksOf(MoveEdge(g, c, Some(to))), to, v) <==> Reach(LinksOf(g), to, v)
  {
    MoveLinks(g, c, to);
    if g.edges[c].parent.NodeParent? {
      MoveKeepsBelow(LinksOf(g), LinksOf(MoveEdge(g, c, Some(to))), g.edges[c].parent.node, to);
    }
  }

  lemma ReplacedEdges(g0: Graph, g: Graph, from: NodeId, to: NodeId, c: EdgeId, todo: set<EdgeId>)
    requires from in g0.nodes && g.edges.Keys == g0.edges.Keys && c in g0.nodes[from].parents && c in g0.edges &&
             Admits(g0, c, to)
    requires forall e :: e in g0.edges ==> g.edges[e] == ReplacedEdge(g0, e, from, to, todo)
    requires g.edges[c] == g0.edges[c]
    ensures forall e :: e in g0.edges ==> MoveEdge(g, c, Some(to)).edges[e] == ReplacedEdge(g0, e, from, to, todo - {c})
  {
  }

  lemma ReplacedOne(g0: Graph, g: Graph, g': Graph, from: NodeId, to: NodeId, c: EdgeId, todo: set<EdgeId>,
                    autoSkip: bool)
    requires CanReplaceNode(g0, from, to) && Consistent(g) && ReplacedSoFar(g0, g, from, to, todo, autoSkip) &&
             c in todo && todo <= g0.nodes[from].parents
    requires c in g.edges && !g.edges[c].frozen && Admits(g, c, to) && g' == MoveEdge(g, c, Some(to))
    ensures ReplacedSoFar(g0, g', from, to, todo - {c}, autoSkip)
  {
    ParentIsThere(g0, g, from, to, c, todo, autoSkip);
    MovedParentBelow(g, c, to);
    ReplacedEdges(g0, g, from, to, c, todo);
  }

  /** Parents of from that may be moved point to to, everything else points where it did, what
      is below to is the same, and everything below from or to is settled. */
  ghost predicate NodeReplaced(childPerm: ChildPerm, g0: Graph, g: Graph, from: NodeId, to: NodeId) {
    && g.edges.Keys == g0.edges.Keys && from in g0.nodes && KeepsFrozen(g0, g)
    && (forall e :: e in g0.edges ==> SameButPerms(ReplacedEdge(g0, e, from, to, {}), g.edges[e]))
    && Acyclic(LinksOf(g))
    && (forall v :: Reach(LinksOf(g), to, v) <==> Reach(LinksOf(g0), to, v))
    && (forall n :: Reach(LinksOf(g), from, n) || Reach(LinksOf(g), to, n) ==> n in g.nodes && Settled(childPerm, g, n))
  }

  lemma ReplacedThenRefreshed(childPerm: ChildPerm, g0: Graph, g1: Graph, g2: Graph, log1: seq<Record>,
                              log2: seq<Record>, list: seq<NodeId>, from: NodeId, to: NodeId, autoSkip: bool)
    requires ReplacedSoFar(g0, g1, from, to, {}, autoSkip) && Refreshed(childPerm, g1, g2, log1, log2, list, |list|)
    requires forall n :: n in list <==> exists r :: r in [from, to] && Reach(LinksOf(g1), r, n)
    ensures NodeReplaced(childPerm, g0, g2, from, to)
  {
    PermsOnlyKeepsLinks(g1, g2);
    AllSettled(childPerm, g1, g2, log1, log2, list);
    forall e | e in g0.edges
      ensures SameButPerms(ReplacedEdge(g0, e, from, to, {}), g2.edges[e])
    {
      assert g1.edges[e] == ReplacedEdge(g0, e, from, to, {});
      assert SameButPerms(g1.edges[e], g2.edges[e]);
    }
    forall n | Reach(LinksOf(g2), from, n) || Reach(LinksOf(g2), to, n)
      ensures n in g2.nodes && Settled(childPerm, g2, n)
    {
      assert from in [from, to] && to in [from, to];
      assert n in list;
    }
  }

  /** When a node is replaced: exactly if all its parents can be moved or skipped, no driver refuses,
      and everything below both nodes fits the permissions passed on. */
  ghost predicate ReplaceTried(childPerm: ChildPerm, g0: Graph, from: NodeId, to: NodeId, autoSkip: bool, t: Attempt,
                               ok: bool)
    requires from in g0.nodes
  {
    if Replaceable(g0, from, to, autoSkip) then
      && Replaced(g0, t.changed, from, to, {})
      && Tried(childPerm, t, Below(t.changed, from) + Below(t.changed, to), ok)
    else !ok
  }

  // ----- attaching a child -----

  /** g1 is g0 with a new edge e from bs_new to bs_top. */
  ghost predicate IsAttached(g0: Graph, g1: Graph, e: EdgeId, bsNew: NodeId, bsTop: NodeId) {
    && Consistent(g0) && Acyclic(LinksOf(g0)) && e !in g0.edges && bsTop in g0.nodes && Consistent(g1)
    && e in g1.edges && g1.edges[e].parent == NodeParent(bsNew) && CanAttach(g0, g1.edges[e].(bs := None), bsTop, e)
    && g1 == WithChild(g0, e, g1.edges[e].(bs := None), bsTop)
  }

  lemma AttachStaysAcyclic(g: Graph, e: EdgeId, edge: Edge, parentBs: NodeId, childBs: NodeId)
    requires Acyclic(LinksOf(g)) && CanAttach(g, edge, childBs, e) && edge.parent == NodeParent(parentBs)
    requires !Reach(LinksOf(g), childBs, parentBs)
    ensures Acyclic(LinksOf(WithChild(g, e, edge, childBs)))
  {
    AttachLinks(g, e, edge, childBs);
    AddLinkKeepsAcyclic(LinksOf(g), parentBs, childBs);
  }

  lemma AttachedNow(g0: Graph, g: Graph, e: EdgeId, edge: Edge, parentBs: NodeId, childBs: NodeId)
    requires Consistent(g0) && Acyclic(LinksOf(g0)) && CanAttach(g0, edge, childBs, e) &&
             edge.parent == NodeParent(parentBs)
    requires !Reach(LinksOf(g0), childBs, parentBs) && g == WithChild(g0, e, edge, childBs)
    ensures IsAttached(g0, g, e, parentBs, childBs) && Acyclic(LinksOf(g)) && g.edges[e].role == edge.role
  {
    AttachStaysAcyclic(g0, e, edge, parentBs, childBs);
    NewEdgeConsistent(g0, e, edge);
    MoveKeepsConsistent(WithEdge(g0, e, edge), e, Some(childBs));
    assert g.edges[e].(bs := None) == edge;
  }

  /** The edge that bdrv_attach_child_noperm makes. */
  function NewEdge(childPerm: ChildPerm, g: Graph, parentBs: NodeId, childBs: NodeId, role: Role): Edge
    requires parentBs in g.nodes && childBs in g.nodes
  {
    var wanted := childPerm(parentBs, None, role, CumulativePerm(g, parentBs), CumulativeShared(g, parentBs));
    Edge(NodeParent(parentBs), None, role, wanted.0,
         if g.nodes[childBs].info.forceShare then ALL_PERMS else wanted.1, false)
  }

  /** When it refuses: the edge would close a cycle, or an active parent or more than consistent
      reads would be given to an inactive child. */
  ghost predicate AttachBarred(childPerm: ChildPerm, g: Graph, parentBs: NodeId, childBs: NodeId, role: Role)
    requires parentBs in g.nodes && childBs in g.nodes
  {
    || Reach(LinksOf(g), childBs, parentBs)
    || (g.nodes[childBs].info.inactive && !g.nodes[parentBs].info.inactive)
    || (g.nodes[childBs].info.inactive && !(NewEdge(childPerm, g, parentBs, childBs, role).perm <= {ConsistentRead}))
  }

  /** When a child is attached: exactly if nothing bars it, no driver refuses, and everything below
      the parent fits. */
  ghost predicate AttachTried(childPerm: ChildPerm, g0: Graph, e: EdgeId, parentBs: NodeId, childBs: NodeId, role: Role,
                              t: Attempt, ok: bool)
    requires parentBs in g0.nodes && childBs in g0.nodes
  {
    if AttachBarred(childPerm, g0, parentBs, childBs, role) then !ok
    else
      && t.changed == WithChild(g0, e, NewEdge(childPerm, g0, parentBs, childBs, role), childBs)
      && Tried(childPerm, t, Below(t.changed, parentBs), ok)
  }

  ghost predicate PutNow(g0: Graph, g: Graph, e: EdgeId, edge: Edge, c: NodeId) {
    e !in g0.edges && g.edges == g0.edges[e := edge.(bs := Some(c))] && SameInfo(g0, g)
  }

  lemma AttachedIsPut(g0: Graph, g: Graph, e: EdgeId, edge: Edge, c: NodeId)
    requires e !in g0.edges && g == WithChild(g0, e, edge, c)
    ensures PutNow(g0, g, e, edge, c) && SameInherits(g0, g)
  {
    assert g.edges == g0.edges[e := edge.(bs := Some(c))];
  }

  predicate SameInherits(g0: Graph, g: Graph) {
    g.nodes.Keys == g0.nodes.Keys && forall n :: n in g0.nodes ==> g.nodes[n].inheritsFrom == g0.nodes[n].inheritsFrom
  }

  /** The graph has one more edge, from parent to child and with the given role; permissions have
      changed and everything below the parent is settled. */
  ghost predicate ChildAttached(childPerm: ChildPerm, g0: Graph, g: Graph, e: EdgeId, parentBs: NodeId,
                                childBs: NodeId, role: Role) {
    && e !in g0.edges && g.edges.Keys == g0.edges.Keys + {e}
    && g.edges[e].parent == NodeParent(parentBs) && g.edges[e].bs == Some(childBs) && g.edges[e].role == role
    && KeepsFrozen(g0, g)
    && (forall f :: f in g0.edges ==> SameButPerms(g0.edges[f], g.edges[f]))
    && (forall n :: Reach(LinksOf(g), parentBs, n) ==> n in g.nodes && Settled(childPerm, g, n))
  }

  lemma AttachedThenRefreshed(childPerm: ChildPerm, g0: Graph, g1: Graph, g2: Graph, log1: seq<Record>,
                              log2: seq<Record>, list: seq<NodeId>, e: EdgeId, edge: Edge, parentBs: NodeId,
                              childBs: NodeId)
    requires PutNow(g0, g1, e, edge, childBs) && edge.parent == NodeParent(parentBs)
    requires Refreshed(childPerm, g1, g2, log1, log2, list, |list|)
    requires forall n :: n in list <==> Reach(LinksOf(g1), parentBs, n)
    ensures ChildAttached(childPerm, g0, g2, e, parentBs, childBs, edge.role) && LinksOf(g2) == LinksOf(g1)
  {
    PermsOnlyKeepsLinks(g1, g2);
    AllSettled(childPerm, g1, g2, log1, log2, list);
    forall f | f in g0.edges
      ensures SameButPerms(g0.edges[f], g2.edges[f])
    {
      assert SameButPerms(g1.edges[f], g2.edges[f]);
    }
    assert SameButPerms(g1.edges[e], g2.edges[e]);
  }

  // ----- appending a node -----

  /** bdrv_backing_role */
  function BackingRole(info: Info): Role {
    if info.hasDriver && info.isFilter then Role(false, false, true, false, true)
        else Role(false, false, false, true, false)
  }

  /** The new top node has a place for its backing child, and the parents of the old one have
      their drivers. */
  ghost predicate CanAppend(g: Graph, e: EdgeId, bsNew: NodeId, bsTop: NodeId) {
    && CanReplaceNode(g, bsTop, bsNew) && g.nodes[bsNew].backing == None
    && CanAttach(g, Edge(NodeParent(bsNew), None, BackingRole(g.nodes[bsNew].info), {}, {}, false), bsTop, e)
  }

  /** After an append, bs_new has an edge to bs_top; the parents of bs_top that may be moved
      point to bs_new, all other edges where they did; bs_new reaches bs_top and all that was
      below it; and everything below bs_new is settled. */
  ghost predicate Appended(childPerm: ChildPerm, g0: Graph, g: Graph, e: EdgeId, bsNew: NodeId, bsTop: NodeId) {
    && bsTop in g0.nodes && e !in g0.edges && g.edges.Keys == g0.edges.Keys + {e}
    && g.edges[e].parent == NodeParent(bsNew) && g.edges[e].bs == Some(bsTop) && KeepsFrozen(g0, g)
    && bsNew in g0.nodes && g.edges[e].role == BackingRole(g0.nodes[bsNew].info)
    && (forall c :: c in g0.edges ==> SameButPerms(ReplacedEdge(g0, c, bsTop, bsNew, {}), g.edges[c]))
    && Acyclic(LinksOf(g))
    && Reach(LinksOf(g), bsNew, bsTop) && (forall v :: Reach(LinksOf(g0), bsTop, v) ==> Reach(LinksOf(g), bsNew, v))
    && (forall n :: Reach(LinksOf(g), bsNew, n) ==> n in g.nodes && Settled(childPerm, g, n))
  }

  /** When a node is appended: exactly if its new edge is not barred, no frozen edge would have to
      move, no driver refuses, and everything below the new node fits. */
  ghost predicate AppendTried(childPerm: ChildPerm, g0: Graph, e: EdgeId, bsNew: NodeId, bsTop: NodeId, t: Attempt,
                              ok: bool)
    requires bsNew in g0.nodes && bsTop in g0.nodes
  {
    var role := BackingRole(g0.nodes[bsNew].info);
    if AttachBarred(childPerm, g0, bsNew, bsTop, role) || !Replaceable(g0, bsTop, bsNew, true) then !ok
    else
      && Replaced(WithChild(g0, e, NewEdge(childPerm, g0, bsNew, bsTop, role), bsTop), t.changed, bsTop, bsNew, {})
      && Tried(childPerm, t, Below(t.changed, bsNew), ok)
  }

  lemma AttachKeepsCanReplace(g0: Graph, g1: Graph, e: EdgeId, bsNew: NodeId, bsTop: NodeId)
    requires CanReplaceNode(g0, bsTop, bsNew) && IsAttached(g0, g1, e, bsNew, bsTop) && Acyclic(LinksOf(g1))
    ensures CanReplaceNode(g1, bsTop, bsNew)
  {
    forall c | c in g1.nodes[bsTop].parents && c in g1.edges && g1.edges[c].parent.NodeParent? &&
        g1.edges[c].parent.node in g1.nodes
      ensures HasClass(g1.nodes[g1.edges[c].parent.node].info)
    {
      if c != e {
        assert c in g0.nodes[bsTop].parents;
      }
    }
  }

  /** The new edge of bs_new does not change which parents of bs_top may be moved. */
  lemma AttachKeepsAdmits(g0: Graph, g1: Graph, e: EdgeId, bsNew: NodeId, bsTop: NodeId, c: EdgeId)
    requires IsAttached(g0, g1, e, bsNew, bsTop) && c in g0.nodes[bsTop].parents
    ensures c in g0.edges && c in g1.edges && (Admits(g1, c, bsNew) <==> Admits(g0, c, bsNew))
  {
    var l, l1 := LinksOf(g0), LinksOf(g1);
    AttachLinks(g0, e, g1.edges[e].(bs := None), bsTop);
    assert NodeOk(g0, bsTop);
    if g0.edges[c].parent.NodeParent? {
      var p := g0.edges[c].parent.node;
      LinkOfEdge(g0, c);
      if Reach(l, bsNew, p) {
        ReachMono(l, l1, bsNew, p);
      }
      if Reach(l1, bsNew, p) {
        var path :| PathFrom(l1, path, bsNew, p);
        PathOverNewLink(l, bsNew, bsTop, path, bsNew, p);
      }
    }
  }

  /** So the parents of bs_top can be moved before the attachment exactly if they can be after it. */
  lemma AttachKeepsReplaceable(g0: Graph, g1: Graph, e: EdgeId, bsNew: NodeId, bsTop: NodeId)
    requires IsAttached(g0, g1, e, bsNew, bsTop)
    ensures bsTop in g1.nodes && (Replaceable(g1, bsTop, bsNew, true) <==> Replaceable(g0, bsTop, bsNew, true))
  {
    ReachSelf(LinksOf(g1), bsNew);
    assert !Admits(g1, e, bsNew);
    assert g1.nodes[bsTop].parents == g0.nodes[bsTop].parents + {e};
    forall c | c in g0.nodes[bsTop].parents
      ensures c in g0.edges && c in g1.edges && c != e && g1.edges[c] == g0.edges[c]
      ensures Admits(g1, c, bsNew) <==> Admits(g0, c, bsNew)
    {
      AttachKeepsAdmits(g0, g1, e, bsNew, bsTop, c);
    }
  }

  lemma AppendedEdge(g0: Graph, g1: Graph, g2: Graph, e: EdgeId, bsNew: NodeId, bsTop: NodeId, c: EdgeId)
    requires IsAttached(g0, g1, e, bsNew, bsTop) && ReplacedSoFar(g1, g2, bsTop, bsNew, {}, true) && c in g0.edges
    ensures c in g2.edges && g2.edges[c] == ReplacedEdge(g0, c, bsTop, bsNew, {})
  {
    assert g2.edges[c] == ReplacedEdge(g1, c, bsTop, bsNew, {});
    if c in g0.nodes[bsTop].parents {
      AttachKeepsAdmits(g0, g1, e, bsNew, bsTop, c);
    }
  }

  lemma AppendedEdges(g0: Graph, g1: Graph, g2: Graph, e: EdgeId, bsNew: NodeId, bsTop: NodeId)
    requires IsAttached(g0, g1, e, bsNew, bsTop) && ReplacedSoFar(g1, g2, bsTop, bsNew, {}, true)
    ensures forall c :: c in g0.edges ==> c in g2.edges && g2.edges[c] == ReplacedEdge(g0, c, bsTop, bsNew, {})
    ensures e in g2.edges && g2.edges[e] == g1.edges[e] && g2.edges.Keys == g0.edges.Keys + {e}
  {
    forall c | c in g0.edges
      ensures c in g2.edges && g2.edges[c] == ReplacedEdge(g0, c, bsTop, bsNew, {})
    {
      AppendedEdge(g0, g1, g2, e, bsNew, bsTop, c);
    }
    ReachSelf(LinksOf(g1), bsNew);
    assert g2.edges[e] == ReplacedEdge(g1, e, bsTop, bsNew, {});
  }

  lemma AppendedPerms(g0: Graph, g1: Graph, g2: Graph, g3: Graph, e: EdgeId, bsNew: NodeId, bsTop: NodeId)
    requires IsAttached(g0, g1, e, bsNew, bsTop) && ReplacedSoFar(g1, g2, bsTop, bsNew, {}, true) && PermsOnly(g2, g3)
    ensures g3.edges.Keys == g0.edges.Keys + {e} && SameButPerms(g1.edges[e], g3.edges[e])
    ensures forall c :: c in g0.edges ==> SameButPerms(ReplacedEdge(g0, c, bsTop, bsNew, {}), g3.edges[c])
  {
    AppendedEdges(g0, g1, g2, e, bsNew, bsTop);
    forall c | c in g0.edges
      ensures SameButPerms(ReplacedEdge(g0, c, bsTop, bsNew, {}), g3.edges[c])
    {
      assert SameButPerms(g2.edges[c], g3.edges[c]);
    }
    assert SameButPerms(g2.edges[e], g3.edges[e]);
  }

  lemma AppendKeepsFrozen(g0: Graph, g1: Graph, g2: Graph, g3: Graph, e: EdgeId, edge: Edge, bsNew: NodeId,
                          bsTop: NodeId)
    requires PutNow(g0, g1, e, edge, bsTop) && ReplacedSoFar(g1, g2, bsTop, bsNew, {}, true) && PermsOnly(g2, g3)
    ensures KeepsFrozen(g0, g3)
  {
    forall c | c in g0.edges && g0.edges[c].frozen
      ensures c in g3.edges && SameButPerms(g0.edges[c], g3.edges[c])
    {
      assert g1.edges[c] == g0.edges[c];
      assert g2.edges[c] == ReplacedEdge(g1, c, bsTop, bsNew, {});
      assert SameButPerms(g2.edges[c], g3.edges[c]);
    }
  }

  lemma AppendedReach(g0: Graph, g1: Graph, g2: Graph, e: EdgeId, bsNew: NodeId, bsTop: NodeId)
    requires IsAttached(g0, g1, e, bsNew, bsTop) && ReplacedSoFar(g1, g2, bsTop, bsNew, {}, true)
    ensures Reach(LinksOf(g2), bsNew, bsTop) && (forall v :: Reach(LinksOf(g0), bsTop, v) ==>
            Reach(LinksOf(g2), bsNew, v))
  {
    AttachLinks(g0, e, g1.edges[e].(bs := None), bsTop);
    forall v | v == bsTop || Reach(LinksOf(g0), bsTop, v)
      ensures Reach(LinksOf(g2), bsNew, v)
    {
      if v == bsTop {
        ReachSelf(LinksOf(g0), bsTop);
      }
      ReachMono(LinksOf(g0), LinksOf(g1), bsTop, v);
      ReachLink(LinksOf(g1), bsNew, bsTop, v);
    }
  }

  lemma AttachedReplacedRefreshed(childPerm: ChildPerm, g0: Graph, g1: Graph, g2: Graph, g3: Graph, log2: seq<Record>,
                                  log3: seq<Record>, list: seq<NodeId>, e: EdgeId, bsNew: NodeId, bsTop: NodeId)
    requires IsAttached(g0, g1, e, bsNew, bsTop) && ReplacedSoFar(g1, g2, bsTop, bsNew, {}, true) &&
             Refreshed(childPerm, g2, g3, log2, log3, list, |list|)
    requires forall n :: n in list <==> Reach(LinksOf(g2), bsNew, n)
    requires bsNew in g0.nodes && g1.edges[e].role == BackingRole(g0.nodes[bsNew].info)
    ensures Appended(childPerm, g0, g3, e, bsNew, bsTop)
  {
    AppendedPerms(g0, g1, g2, g3, e, bsNew, bsTop);
    var edge := g1.edges[e].(bs := None);
    AttachedIsPut(g0, g1, e, edge, bsTop);
    AppendKeepsFrozen(g0, g1, g2, g3, e, edge, bsNew, bsTop);
    PermsOnlyKeepsLinks(g2, g3);
    AllSettled(childPerm, g2, g3, log2, log3, list);
    AppendedReach(g0, g1, g2, e, bsNew, bsTop);
  }

  // ----- setting the file or backing child -----

  /** Nothing but inherits_from pointers differs. */
  ghost predicate InheritsOnly(g0: Graph, g: Graph) {
    && g.edges == g0.edges && g.nodes.Keys == g0.nodes.Keys
    && forall n :: n in g0.nodes ==> g.nodes[n] == g0.nodes[n].(inheritsFrom := g.nodes[n].inheritsFrom)
  }

  /** Some other edge of root than child leads to n. */
  predicate LinkedOtherwise(g: Graph, root: NodeId, child: EdgeId, n: NodeId)
    requires root in g.nodes
  {
    exists c :: c in g.nodes[root].children && c != child && c in g.edges && g.edges[c].bs == Some(n)
  }

  /** The nodes in done have lost the pointers to root that go with child; nothing else changed. */
  ghost predicate Uninherited(g0: Graph, g: Graph, root: NodeId, child: EdgeId, done: set<NodeId>) {
    && InheritsOnly(g0, g) && root in g0.nodes
    && forall n :: n in g0.nodes ==>
         g.nodes[n].inheritsFrom ==
           if n in done && g0.nodes[n].inheritsFrom == Some(root) && !LinkedOtherwise(g0, root, child, n) then None
               else g0.nodes[n].inheritsFrom
  }

  lemma UnsetOne(g: Graph, g': Graph, root: NodeId, child: EdgeId, bs: NodeId)
    requires root in g.nodes && bs in g.nodes
    requires g' == if g.nodes[bs].inheritsFrom == Some(root) && !LinkedOtherwise(g, root, child, bs)
             then WithInherits(g, bs, None) else g
    ensures Uninherited(g, g', root, child, {bs})
  {
  }

  /** The nodes below the children of bs outside of todo are done, and bs itself. */
  ghost predicate DoneBelow(g: Graph, bs: NodeId, todo: set<EdgeId>, done: set<NodeId>)
    requires bs in g.nodes
  {
    && bs in done && done <= Below(g, bs)
    && forall c :: c in g.nodes[bs].children && c !in todo && c in g.edges && g.edges[c].bs.Some? ==>
        Below(g, g.edges[c].bs.value) <= done
  }

  lemma UninheritedBegins(g: Graph, bs: NodeId)
    requires bs in g.nodes
    ensures DoneBelow(g, bs, g.nodes[bs].children, {bs})
  {
    ReachSelf(LinksOf(g), bs);
  }

  lemma DoneMore(g: Graph, bs: NodeId, c: EdgeId, todo: set<EdgeId>, done: set<NodeId>)
    requires Consistent(g) && bs in g.nodes && c in g.nodes[bs].children && c in g.edges && g.edges[c].bs.Some? &&
             DoneBelow(g, bs, todo, done)
    ensures DoneBelow(g, bs, todo - {c}, done + Below(g, g.edges[c].bs.value))
  {
    ChildLink(g, bs, c);
    forall n | n in Below(g, g.edges[c].bs.value)
      ensures n in Below(g, bs)
    {
      ReachLink(LinksOf(g), bs, g.edges[c].bs.value, n);
    }
  }

  lemma DoneAll(g: Graph, bs: NodeId, done: set<NodeId>)
    requires Consistent(g) && bs in g.nodes && DoneBelow(g, bs, {}, done)
    ensures done == Below(g, bs)
  {
    forall n | n in Below(g, bs)
      ensures n in done
    {
      if n != bs {
        var v := ReachFirst(LinksOf(g), bs, n);
        var c := LinkChild(g, bs, v);
        assert n in Below(g, v);
      }
    }
  }

  lemma UninheritedKeeps(g0: Graph, g: Graph, root: NodeId, child: EdgeId, bs: NodeId, c: EdgeId, done: set<NodeId>)
    requires Consistent(g0) && Acyclic(LinksOf(g0)) && Uninherited(g0, g, root, child, done)
    requires bs in g0.nodes && c in g0.nodes[bs].children && !Reach(LinksOf(g0), bs, root)
    ensures LinksOf(g) == LinksOf(g0) && c in g.edges && g.edges[c].bs.Some?
    ensures Below(g, g.edges[c].bs.value) == Below(g0, g0.edges[c].bs.value) < Below(g0, bs)
    ensures !Reach(LinksOf(g), g.edges[c].bs.value, root)
  {
    ChildIsLower(g0, bs, c);
    ChildLink(g0, bs, c);
    if Reach(LinksOf(g0), g0.edges[c].bs.value, root) {
      ReachLink(LinksOf(g0), bs, g0.edges[c].bs.value, root);
    }
  }

  /** Below a child of bs, the edges from root that count are the same as for bs. */
  lemma LinkedTheSame(g: Graph, root: NodeId, child: EdgeId, bs: NodeId, c: EdgeId, n: NodeId)
    requires Consistent(g) && Acyclic(LinksOf(g)) && root in g.nodes && child in g.edges &&
             g.edges[child].bs == Some(bs) && bs in g.nodes
    requires c in g.nodes[bs].children && c in g.edges && g.edges[c].bs.Some? && n in Below(g, g.edges[c].bs.value) &&
             !Reach(LinksOf(g), bs, root)
    ensures LinkedOtherwise(g, root, c, n) <==> LinkedOtherwise(g, root, child, n)
  {
    ReachSelf(LinksOf(g), bs);
    ChildLink(g, bs, c);
    assert NodeOk(g, root);
    assert c !in g.nodes[root].children;
    assert n != bs;
  }

  lemma UninheritedMore(g0: Graph, g1: Graph, g: Graph, root: NodeId, child: EdgeId, bs: NodeId, c: EdgeId,
                        done: set<NodeId>)
    requires Consistent(g0) && Acyclic(LinksOf(g0)) && Uninherited(g0, g1, root, child, done) && child in g0.edges &&
             g0.edges[child].bs == Some(bs)
    requires bs in g0.nodes && c in g0.nodes[bs].children && c in g0.edges && g0.edges[c].bs.Some? &&
             !Reach(LinksOf(g0), bs, root)
    requires Uninherited(g1, g, root, c, Below(g0, g0.edges[c].bs.value))
    ensures Uninherited(g0, g, root, child, done + Below(g0, g0.edges[c].bs.value))
  {
    forall n | n in g0.nodes && n in Below(g0, g0.edges[c].bs.value)
      ensures LinkedOtherwise(g1, root, c, n) <==> LinkedOtherwise(g0, root, child, n)
    {
      LinkedTheSame(g0, root, child, bs, c, n);
    }
  }

  /** bs->backing or bs->file */
  function ChildIn(g: Graph, n: NodeId, isBacking: bool): Option<EdgeId>
    requires n in g.nodes
  {
    if isBacking then g.nodes[n].backing else g.nodes[n].file
  }

  /** The role of a new file or backing child, or none if there can be no such child: the node
      lost its driver, the old link is frozen, the driver has no backing files, or there was no
      file child to take the role from. */
  function RoleOfNewChild(g: Graph, n: NodeId, isBacking: bool): Option<Role>
    requires n in g.nodes
  {
    var info, child := g.nodes[n].info, ChildIn(g, n, isBacking);
    if !info.hasDriver then None
    else if child.Some? && child.value in g.edges && g.edges[child.value].frozen then None
    else if isBacking && !info.isFilter && !info.supportsBacking then None
    else if info.isFilter then Some(Role(false, false, true, false, true))
    else if isBacking then Some(Role(false, false, false, true, false))
    else if child.Some? && child.value in g.edges then Some(g.edges[child.value].role)
    else None
  }

  function AsSet(e: Option<EdgeId>): set<EdgeId> {
    if e.Some? then {e.value} else {}
  }

  lemma SlotIsChild(g: Graph, n: NodeId, isBacking: bool)
    requires Consistent(g) && n in g.nodes
    ensures var child := ChildIn(g, n, isBacking);
            child.Some? ==>
              && child.value in g.nodes[n].children && child.value in g.edges
              && g.edges[child.value].parent == NodeParent(n)
  {
    assert NodeOk(g, n);
    var child := ChildIn(g, n, isBacking);
    if child.Some? {
      ChildOf(g, n, child.value);
    }
  }

  /** bdrv_inherits_from_recursive: parent is on the way along inherits_from.  The walk is given up
      where it would go in circles. */
  predicate InheritsFrom(g: Graph, child: Option<NodeId>, parent: NodeId, seen: set<NodeId>)
    decreases g.nodes.Keys - seen
  {
    child.Some? && (child.value == parent ||
      (child.value in g.nodes && child.value !in seen &&
       InheritsFrom(g, g.nodes[child.value].inheritsFrom, parent, seen + {child.value})))
  }

  /** What inherits_from of node n becomes when childBs takes the place of the old child of p. */
  ghost function NewInherits(g0: Graph, p: NodeId, child: Option<EdgeId>, childBs: Option<NodeId>, n: NodeId):
    Option<NodeId>
    requires p in g0.nodes && n in g0.nodes
  {
    if childBs == Some(n) && InheritsFrom(g0, childBs, p, {}) then Some(p)
    else if child.Some? && Uninherits(g0, p, child.value, n) then None
    else g0.nodes[n].inheritsFrom
  }

  /** bdrv_unset_inherits_from clears the pointer of n. */
  ghost predicate Uninherits(g0: Graph, p: NodeId, child: EdgeId, n: NodeId)
    requires p in g0.nodes && n in g0.nodes
  {
    && child in g0.edges && g0.edges[child].bs.Some? && n in Below(g0, g0.edges[child].bs.value)
    && g0.nodes[n].inheritsFrom == Some(p) && !LinkedOtherwise(g0, p, child, n)
  }

  ghost predicate InheritsNow(g0: Graph, g: Graph, p: NodeId, child: Option<EdgeId>, childBs: Option<NodeId>) {
    && p in g0.nodes && g.nodes.Keys == g0.nodes.Keys
    && forall n :: n in g0.nodes ==> g.nodes[n].inheritsFrom == NewInherits(g0, p, child, childBs, n)
  }

  /** Edge e of node p points nowhere now, and inherits_from pointers are cleared as they should
      be; everything else is as before. */
  ghost predicate TakenAway(g0: Graph, g: Graph, p: NodeId, e: EdgeId) {
    && e in g0.edges && p in g0.nodes && SameInfo(g0, g) && g.edges == g0.edges[e := g0.edges[e].(bs := None)]
    && Acyclic(LinksOf(g)) && InheritsNow(g0, g, p, Some(e), None)
    && g.nodes[p].backing == (if g0.nodes[p].backing == Some(e) then None else g0.nodes[p].backing)
    && g.nodes[p].file == (if g0.nodes[p].file == Some(e) then None else g0.nodes[p].file)
  }

  lemma InheritsMoved(g0: Graph, g1: Graph, g: Graph, p: NodeId, e: EdgeId)
    requires InheritsNow(g0, g1, p, Some(e), None) && e in g1.edges && g == MoveEdge(g1, e, None)
    ensures InheritsNow(g0, g, p, Some(e), None)
  {
  }

  lemma UninheritedIsNow(g0: Graph, g1: Graph, p: NodeId, e: EdgeId)
    requires e in g0.edges && g0.edges[e].bs.Some? && Uninherited(g0, g1, p, e, Below(g0, g0.edges[e].bs.value))
    ensures InheritsNow(g0, g1, p, Some(e), None)
  {
  }

  lemma TakenAcyclic(g0: Graph, g: Graph, e: EdgeId)
    requires Acyclic(LinksOf(g0)) && e in g0.edges && g.edges == g0.edges[e := g0.edges[e].(bs := None)]
    ensures Acyclic(LinksOf(g))
  {
    LinksShrink(g0, g);
  }

  lemma TakenAwayNow(g0: Graph, g1: Graph, g: Graph, p: NodeId, e: EdgeId)
    requires Consistent(g0) && Acyclic(LinksOf(g0)) && p in g0.nodes && e in g0.edges &&
             g0.edges[e].parent == NodeParent(p) && g0.edges[e].bs.Some?
    requires InheritsOnly(g0, g1) && InheritsNow(g0, g1, p, Some(e), None) && g == MoveEdge(g1, e, None)
    ensures TakenAway(g0, g, p, e)
  {
    TakenAcyclic(g0, g, e);
    InheritsMoved(g0, g1, g, p, e);
    assert g.nodes[p] == MovedNode(g1.nodes[p], p, e, g1.edges[e], None);
  }

  lemma RoomForChild(g0: Graph, g1: Graph, p: NodeId, isBacking: bool, role: Role, c: NodeId, e: EdgeId)
    requires Consistent(g0) && p in g0.nodes && c in g1.nodes && e !in g0.edges && HasClass(g0.nodes[p].info)
    requires var child := ChildIn(g0, p, isBacking); if child.Some? then TakenAway(g0, g1, p, child.value) else g1 == g0
    requires g0.nodes[p].info.isFilter ==> ChildIn(g0, p, !isBacking) == None
    requires RoleOfNewChild(g0, p, isBacking) == Some(role)
    ensures CanAttach(g1, Edge(NodeParent(p), None, role, {}, {}, false), c, e)
  {
    SlotIsChild(g0, p, isBacking);
    assert NodeOk(g0, p);
    if !g0.nodes[p].info.isFilter && !isBacking {
      var f := ChildIn(g0, p, false).value;
      ChildOf(g0, p, f);
      assert EdgeOk(g0, f);
      AttachedSlotFree(g0, f);
    }
  }

  /** A path to v does not need the links that start at v. */
  lemma {:induction false} ReachWithoutOut(l: Links, l': Links, path: seq<nat>, u: nat, v: nat)
    requires PathFrom(l, path, u, v) && forall x :: x in l && x !in l' ==> x.0 == v
    ensures Reach(l', u, v)
    decreases |path|
  {
    if u == v {
      ReachSelf(l', u);
    } else {
      var rest := path[1..];
      assert (path[0], path[1]) in l;
      forall i | 0 <= i < |rest| - 1
        ensures (rest[i], rest[i + 1]) in l
      {
        assert rest[i] == path[i + 1] && rest[i + 1] == path[i + 1 + 1];
      }
      ReachWithoutOut(l, l', rest, path[1], v);
      ReachLink(l', u, path[1], v);
    }
  }

  lemma TakenKeepsReach(g0: Graph, g1: Graph, p: NodeId, e: EdgeId, c: NodeId)
    requires TakenAway(g0, g1, p, e) && g0.edges[e].parent == NodeParent(p)
    ensures Reach(LinksOf(g1), c, p) <==> Reach(LinksOf(g0), c, p)
  {
    forall x | x in LinksOf(g1)
      ensures x in LinksOf(g0)
    {
      var f := EdgeOfLink(g1, x.0, x.1);
      LinkOfEdge(g0, f);
    }
    if Reach(LinksOf(g1), c, p) {
      ReachMono(LinksOf(g1), LinksOf(g0), c, p);
    }
    if Reach(LinksOf(g0), c, p) {
      forall x | x in LinksOf(g0) && x !in LinksOf(g1)
        ensures x.0 == p
      {
        var f := EdgeOfLink(g0, x.0, x.1);
        if f != e {
          LinkOfEdge(g1, f);
        }
      }
      var path :| PathFrom(LinksOf(g0), path, c, p);
      ReachWithoutOut(LinksOf(g0), LinksOf(g1), path, c, p);
    }
  }

  /** In a consistent graph the list of parents is determined by the edges. */
  lemma ParentsAre(g: Graph, n: NodeId, f: EdgeId)
    requires Consistent(g) && n in g.nodes
    ensures f in g.nodes[n].parents <==> f in g.edges && g.edges[f].bs == Some(n)
  {
    assert NodeOk(g, n);
    if f in g.edges {
      assert EdgeOk(g, f);
    }
  }

  /** Taking the old child away does not change what is asked of the parent. */
  lemma TakenKeepsCumulative(g0: Graph, g1: Graph, p: NodeId, e: EdgeId)
    requires Consistent(g0) && Acyclic(LinksOf(g0)) && Consistent(g1) && TakenAway(g0, g1, p, e)
    requires g0.edges[e].parent == NodeParent(p)
    ensures CumulativePerm(g1, p) == CumulativePerm(g0, p) && CumulativeShared(g1, p) == CumulativeShared(g0, p)
  {
    forall f
      ensures f in g1.nodes[p].parents <==> f in g0.nodes[p].parents
      ensures f in g0.nodes[p].parents ==> f in g0.edges && f in g1.edges && g1.edges[f] == g0.edges[f]
    {
      ParentsAre(g0, p, f);
      ParentsAre(g1, p, f);
      if f == e && g0.edges[e].bs == Some(p) {
        LinkOfEdge(g0, e);
        ReachSelf(LinksOf(g0), p);
      }
    }
    assert g1.nodes[p].parents == g0.nodes[p].parents;
    assert CumulativePerm(g1, p) == CumulativePerm(g0, p);
  }

  /** So a new child is attached, or refused, as if the old one were still there. */
  lemma TakenKeepsBarred(childPerm: ChildPerm, g0: Graph, g1: Graph, p: NodeId, e: EdgeId, c: NodeId, role: Role)
    requires Consistent(g0) && Acyclic(LinksOf(g0)) && Consistent(g1) && TakenAway(g0, g1, p, e) && c in g0.nodes
    requires g0.edges[e].parent == NodeParent(p)
    ensures NewEdge(childPerm, g1, p, c, role) == NewEdge(childPerm, g0, p, c, role)
    ensures AttachBarred(childPerm, g1, p, c, role) <==> AttachBarred(childPerm, g0, p, c, role)
  {
    TakenKeepsCumulative(g0, g1, p, e);
    TakenKeepsReach(g0, g1, p, e, c);
  }

  /** The file or backing child of p can be changed. */
  ghost predicate CanSwitch(childPerm: ChildPerm, g: Graph, p: NodeId, childBs: Option<NodeId>, isBacking: bool)
    requires p in g.nodes && (childBs.Some? ==> childBs.value in g.nodes)
  {
    var role := RoleOfNewChild(g, p, isBacking);
    role.Some? && (childBs.Some? ==> !AttachBarred(childPerm, g, p, childBs.value, role.value))
  }

  /** The old child is gone from the graph, the new one is there with the role and permissions it
      should have, inherits_from pointers follow, and no other edge changed. */
  ghost predicate Switched(childPerm: ChildPerm, g0: Graph, g: Graph, p: NodeId, isBacking: bool,
                           childBs: Option<NodeId>, e: EdgeId)
    requires p in g0.nodes && (childBs.Some? ==> childBs.value in g0.nodes)
  {
    var child, role := ChildIn(g0, p, isBacking), RoleOfNewChild(g0, p, isBacking);
    && e !in g0.edges && g.edges.Keys == g0.edges.Keys + (if childBs.Some? then {e} else {}) && SameInfo(g0, g)
    && role.Some? && InheritsNow(g0, g, p, child, childBs)
    && (childBs.Some? ==> g.edges[e] == NewEdge(childPerm, g0, p, childBs.value, role.value).(bs := childBs))
    && (forall f :: f in g0.edges ==> g.edges[f] == if Some(f) == child then g0.edges[f].(bs := None) else g0.edges[f])
  }

  /** The pointers after the new child has inherited, if it does. */
  ghost predicate Adopted(g0: Graph, g: Graph, p: NodeId, c: NodeId, adopt: bool) {
    && g.nodes.Keys == g0.nodes.Keys
    && forall n :: n in g0.nodes ==>
         g.nodes[n].inheritsFrom == if adopt && n == c then Some(p) else g0.nodes[n].inheritsFrom
  }

  lemma InheritsSwitched(g0: Graph, g1: Graph, g: Graph, p: NodeId, child: Option<EdgeId>, childBs: NodeId)
    requires InheritsNow(g0, g1, p, child, None) && Adopted(g1, g, p, childBs, InheritsFrom(g0, Some(childBs), p, {}))
    ensures InheritsNow(g0, g, p, child, Some(childBs))
  {
    forall n | n in g0.nodes
      ensures g.nodes[n].inheritsFrom == NewInherits(g0, p, child, Some(childBs), n)
    {
      assert g1.nodes[n].inheritsFrom == NewInherits(g0, p, child, None, n);
    }
  }

  lemma SwitchedNow(childPerm: ChildPerm, g0: Graph, g1: Graph, g: Graph, p: NodeId, isBacking: bool,
                    childBs: Option<NodeId>, e: EdgeId)
    requires e !in g0.edges && p in g0.nodes && (childBs.Some? ==> childBs.value in g0.nodes)
    requires RoleOfNewChild(g0, p, isBacking).Some?
    requires var child := ChildIn(g0, p, isBacking); if child.Some? then TakenAway(g0, g1, p, child.value) else g1 == g0
    requires if childBs.Some? then
               var role := RoleOfNewChild(g0, p, isBacking).value;
               PutNow(g1, g, e, NewEdge(childPerm, g0, p, childBs.value, role), childBs.value) &&
               Adopted(g1, g, p, childBs.value, InheritsFrom(g0, childBs, p, {}))
             else g == g1
    ensures Switched(childPerm, g0, g, p, isBacking, childBs, e)
  {
    assert InheritsNow(g0, g1, p, ChildIn(g0, p, isBacking), None);
    if childBs.Some? {
      InheritsSwitched(g0, g1, g, p, ChildIn(g0, p, isBacking), childBs.value);
    }
  }

  /** An edge that points nowhere plays no part in the permissions of any node. */
  lemma FreeKeepsSettled(childPerm: ChildPerm, g: Graph, gone: set<EdgeId>, n: NodeId)
    requires Consistent(g) && n in g.nodes && (forall e :: e in gone && e in g.edges ==> g.edges[e].bs == None) &&
             Settled(childPerm, g, n)
    ensures Settled(childPerm, Freed(g, gone), n)
  {
    var g' := Freed(g, gone);
    assert NodeOk(g, n);
    forall e | e in g.nodes[n].parents
      ensures e in g'.edges && g'.edges[e] == g.edges[e]
    {
    }
    assert CumulativePerm(g', n) == CumulativePerm(g, n);
    assert CumulativeShared(g', n) == CumulativeShared(g, n);
    forall c | c in g'.nodes[n].children && c in g'.edges && g.nodes[n].info.hasDriver && g.nodes[n].info.hasChildPerm
      ensures ChildSettled(childPerm, g', n, c)
    {
      assert ChildSettled(childPerm, g, n, c);
    }
  }

  lemma FreeKeepsAllSettled(childPerm: ChildPerm, g1: Graph, g2: Graph, log1: seq<Record>, log2: seq<Record>,
                            list: seq<NodeId>, gone: set<EdgeId>)
    requires Consistent(g2) && Refreshed(childPerm, g1, g2, log1, log2, list, |list|) &&
             (forall e :: e in gone && e in g2.edges ==> g2.edges[e].bs == None)
    ensures forall n :: n in list ==> n in g2.nodes && Settled(childPerm, Freed(g2, gone), n)
  {
    AllSettled(childPerm, g1, g2, log1, log2, list);
    forall n | n in list
      ensures n in g2.nodes && Settled(childPerm, Freed(g2, gone), n)
    {
      FreeKeepsSettled(childPerm, g2, gone, n);
    }
  }

  ghost predicate EdgesSet(g0: Graph, g: Graph, bs: NodeId, child: Option<EdgeId>, backingHd: Option<NodeId>,
                           e: EdgeId, role: Role) {
    && e !in g0.edges && KeepsFrozen(g0, g)
    && g.edges.Keys == g0.edges.Keys - AsSet(child) + (if backingHd.Some? then {e} else {})
    && (backingHd.Some? ==>
          g.edges[e].parent == NodeParent(bs) && g.edges[e].bs == backingHd && g.edges[e].role == role)
    && (forall f :: f in g0.edges && f in g.edges ==> SameButPerms(g0.edges[f], g.edges[f]))
  }

  /** Which pointer a driver keeps its backing or filtered child in. */
  predicate InBacking(info: Info) {
    !info.isFilter || info.filteredChildIsBacking
  }

  /** The backing child of bs is new and in its place, or gone; no other edge has changed but in
      its permissions; inherits_from pointers follow; and everything below bs is settled. */
  ghost predicate BackingSet(childPerm: ChildPerm, g0: Graph, g: Graph, bs: NodeId, backingHd: Option<NodeId>,
                             e: EdgeId) {
    && bs in g0.nodes && bs in g.nodes && g0.nodes[bs].info.hasDriver
    && EdgesSet(g0, g, bs, ChildIn(g0, bs, true), backingHd, e, BackingRole(g0.nodes[bs].info))
    && (if backingHd.Some? then ChildIn(g, bs, InBacking(g0.nodes[bs].info)) == Some(e)
        else ChildIn(g, bs, true) == None)
    && InheritsNow(g0, g, bs, ChildIn(g0, bs, true), backingHd)
    && (forall n :: Reach(LinksOf(g), bs, n) ==> n in g.nodes && Settled(childPerm, g, n))
  }

  /** When a backing child is set: exactly if the link can be changed, no driver refuses, and
      everything below the node fits. */
  ghost predicate BackingTried(childPerm: ChildPerm, g0: Graph, bs: NodeId, backingHd: Option<NodeId>, e: EdgeId,
                               t: Attempt, ok: bool)
    requires bs in g0.nodes && (backingHd.Some? ==> backingHd.value in g0.nodes)
  {
    if CanSwitch(childPerm, g0, bs, backingHd, true) then
      && Switched(childPerm, g0, t.changed, bs, true, backingHd, e)
      && Tried(childPerm, t, Below(t.changed, bs), ok)
    else !ok
  }

  /** The pointers of a node are determined by its edges. */
  lemma SlotsAre(g: Graph, n: NodeId, e: EdgeId)
    requires Consistent(g) && n in g.nodes
    ensures g.nodes[n].backing == Some(e) <==>
              Attached(g, e, n) && SlotOf(g.nodes[n].info, g.edges[e].role) == BackingSlot
    ensures g.nodes[n].file == Some(e) <==>
              Attached(g, e, n) && SlotOf(g.nodes[n].info, g.edges[e].role) == FileSlot
  {
    assert NodeOk(g, n);
    if Attached(g, e, n) {
      assert EdgeOk(g, e);
    }
  }

  lemma BackingInPlace(g0: Graph, g: Graph, bs: NodeId, backingHd: Option<NodeId>, e: EdgeId)
    requires Consistent(g0) && Consistent(g) && bs in g0.nodes && bs in g.nodes && g0.nodes[bs].info.hasDriver
    requires EdgesSet(g0, g, bs, ChildIn(g0, bs, true), backingHd, e, BackingRole(g0.nodes[bs].info))
    ensures if backingHd.Some? then ChildIn(g, bs, InBacking(g0.nodes[bs].info)) == Some(e)
            else ChildIn(g, bs, true) == None
  {
    if backingHd.Some? {
      SlotsAre(g, bs, e);
    } else if ChildIn(g, bs, true).Some? {
      var f := ChildIn(g, bs, true).value;
      SlotsAre(g0, bs, f);
      SlotsAre(g, bs, f);
    }
  }

  lemma SwitchedEdges(childPerm: ChildPerm, g0: Graph, g1: Graph, g2: Graph, bs: NodeId, backingHd: Option<NodeId>,
                      e: EdgeId)
    requires bs in g0.nodes && (backingHd.Some? ==> backingHd.value in g0.nodes)
    requires Switched(childPerm, g0, g1, bs, true, backingHd, e) && PermsOnly(g1, g2)
    requires var child := ChildIn(g0, bs, true);
             child.Some? ==> child.value in g0.edges && !g0.edges[child.value].frozen
    ensures var child := ChildIn(g0, bs, true);
            && (forall f :: f in AsSet(child) && f in g2.edges ==> g2.edges[f].bs == None)
            && EdgesSet(g0, Freed(g2, AsSet(child)), bs, child, backingHd, e, BackingRole(g0.nodes[bs].info))
  {
    var child := ChildIn(g0, bs, true);
    var g := Freed(g2, AsSet(child));
    forall f | f in g1.edges
      ensures SameButPerms(g1.edges[f], g2.edges[f])
    {
    }
    assert g.edges.Keys == g0.edges.Keys - AsSet(child) + (if backingHd.Some? then {e} else {});
  }

  lemma SwitchedThenRefreshed(childPerm: ChildPerm, g0: Graph, g1: Graph, g2: Graph, log1: seq<Record>,
                              log2: seq<Record>, list: seq<NodeId>, bs: NodeId, backingHd: Option<NodeId>, e: EdgeId)
    requires Consistent(g0) && bs in g0.nodes && (backingHd.Some? ==> backingHd.value in g0.nodes)
    requires var child := ChildIn(g0, bs, true);
             && (child.Some? ==> child.value in g0.edges && !g0.edges[child.value].frozen)
             && Removed(log1) == AsSet(child)
    requires Consistent(g1) && Acyclic(LinksOf(g1)) && Switched(childPerm, g0, g1, bs, true, backingHd, e)
    requires Refreshed(childPerm, g1, g2, log1, log2, list, |list|)
    requires forall n :: n in list <==> Reach(LinksOf(g1), bs, n)
    ensures var g := Freed(g2, AsSet(ChildIn(g0, bs, true)));
            BackingSet(childPerm, g0, g, bs, backingHd, e) && Acyclic(LinksOf(g))
  {
    var gone := AsSet(ChildIn(g0, bs, true));
    var g := Freed(g2, gone);
    PermsOnlyKeepsConsistent(g1, g2);
    PermsOnlyKeepsLinks(g1, g2);
    SwitchedEdges(childPerm, g0, g1, g2, bs, backingHd, e);
    FreeKeepsLinks(g2, gone);
    FreeKeepsConsistent(g2, gone);
    FreeKeepsAllSettled(childPerm, g1, g2, log1, log2, list, gone);
    BackingInPlace(g0, g, bs, backingHd, e);
  }

  // ----- taking an edge away -----

  lemma WithoutIsLooser(g: Graph, e: EdgeId)
    requires e in g.edges
    ensures Looser(g, WithoutEdge(g, e))
  {
    var g' := WithoutEdge(g, e);
    forall n | n in g.nodes
      ensures LooserNode(g.nodes[n], g'.nodes[n])
    {
    }
    forall f | f in g'.edges
      ensures LooserEdge(g.edges[f], g'.edges[f])
    {
    }
  }

  /** Taking a parent away is a loosening for everything below. */
  lemma UnrefIsLooser(childPerm: ChildPerm, g: Graph, e: EdgeId, list: seq<NodeId>, bs: NodeId)
    requires Consistent(g) && Monotone(childPerm) && e in g.edges && AllSettledIn(childPerm, g, Below(g, bs))
    requires AsNodes(list) == Below(WithoutEdge(g, e), bs)
    ensures var spread := Turns(childPerm, WithoutEdge(g, e), list, |list|);
            AllFit(spread, AsNodes(list)) <==> NoneUnaligned(spread, AsNodes(list))
  {
    var g' := WithoutEdge(g, e);
    WithoutIsLooser(g, e);
    forall x | x in LinksOf(g')
      ensures x in LinksOf(g)
    {
      var f := EdgeOfLink(g', x.0, x.1);
      LinkOfEdge(g, f);
    }
    forall n | n in AsNodes(list)
      ensures n in Below(g, bs)
    {
      ReachMono(LinksOf(g'), LinksOf(g), bs, n);
    }
    LooseningFits(childPerm, g, g', list);
  }
}
