/**
  Freezing the links of a backing chain, and why a frozen chain stays put while the graph
  around it changes.
*/
module FrozenChain {
  import opened Options
  import opened Digraph
  import opened BlockGraph
  import opened Permissions
  import opened Transactions
  import opened PermissionPass
  import opened PassOutcome
  import opened GraphSearch
  import opened GraphChanges
  import opened GraphOps

  /** bdrv_filter_or_cow_child */
  function FilterOrCowChild(g: Graph, n: NodeId): Option<EdgeId>
    requires n in g.nodes
  {
    var node := g.nodes[n];
    if !node.info.hasDriver then None
    else if node.info.isFilter && node.backing == None then node.file
    else node.backing
  }

  /** path is what a walk from i meets on its way to base.  Without a base the walk ends at a
      node that has no such child. */
  predicate IsChain(g: Graph, path: seq<EdgeId>, i: Option<NodeId>, base: Option<NodeId>)
    decreases |path|
  {
    if path == [] then i == base || (base == None && i.value in g.nodes && FilterOrCowChild(g, i.value) == None)
    else
      && i != base && i.Some? && i.value in g.nodes && FilterOrCowChild(g, i.value) == Some(path[0])
      && path[0] in g.edges && g.edges[path[0]].bs.Some?
      && IsChain(g, path[1..], g.edges[path[0]].bs, base)
  }

  /** There is only one way to walk. */
  lemma {:induction false} ChainIsUnique(g: Graph, path: seq<EdgeId>, path': seq<EdgeId>, i: Option<NodeId>,
                                         base: Option<NodeId>)
    requires IsChain(g, path, i, base) && IsChain(g, path', i, base)
    ensures path' == path
    decreases |path|
  {
    if path != [] && path' != [] {
      ChainIsUnique(g, path[1..], path'[1..], g.edges[path[0]].bs, base);
      assert path == [path[0]] + path[1..] && path' == [path'[0]] + path'[1..];
    }
  }

  // ----- freezing and unfreezing -----

  /** A walk along path that has got to i, k links down. */
  ghost predicate WalkAt(g: Graph, path: seq<EdgeId>, k: nat, i: Option<NodeId>, base: Option<NodeId>) {
    k <= |path| && (IsChain(g, path[k..], i, base) || (k == |path| && i == base))
  }

  lemma WalkStarts(g: Graph, path: seq<EdgeId>, i: Option<NodeId>, base: Option<NodeId>)
    requires IsChain(g, path, i, base)
    ensures WalkAt(g, path, 0, i, base)
  {
    assert path[0..] == path;
  }

  lemma WalkGoesOn(g: Graph, path: seq<EdgeId>, k: nat, i: Option<NodeId>, base: Option<NodeId>)
    requires WalkAt(g, path, k, i, base) && i != base
    ensures i.Some? && i.value in g.nodes
    ensures var child := FilterOrCowChild(g, i.value);
            if child == None then k == |path| && WalkAt(g, path, k, None, base)
            else
              && k < |path| && path[k] == child.value && child.value in g.edges && g.edges[child.value].bs.Some?
              && WalkAt(g, path, k + 1, g.edges[child.value].bs, base)
  {
    if k < |path| {
      assert path[k..][1..] == path[k + 1..];
    }
  }

  lemma WalkEnds(g: Graph, path: seq<EdgeId>, k: nat, base: Option<NodeId>)
    requires WalkAt(g, path, k, base, base)
    ensures k == |path|
  {
  }

  /** bdrv_is_backing_chain_frozen */
  method IsBackingChainFrozen(g: Graph, bs: NodeId, base: Option<NodeId>, ghost path: seq<EdgeId>)
    returns (frozen: bool)
    requires IsChain(g, path, Some(bs), base)
    ensures frozen <==> exists e :: e in path && e in g.edges && g.edges[e].frozen
  {
    var i: Option<NodeId> := Some(bs);
    ghost var k := 0;
    WalkStarts(g, path, i, base);
    while i != base
      invariant 0 <= k && WalkAt(g, path, k, i, base)
      invariant forall j :: 0 <= j < k ==> path[j] in g.edges && !g.edges[path[j]].frozen
      decreases |path| - k, if i.Some? then 1 else 0
    {
      WalkGoesOn(g, path, k, i, base);
      var child := FilterOrCowChild(g, i.value);
      if child.Some? {
        if g.edges[child.value].frozen {
          return true;
        }
        i := g.edges[child.value].bs;
        k := k + 1;
      } else {
        i := None;
      }
    }
    WalkEnds(g, path, k, base);
    frozen := false;
  }

  /** The second loop of bdrv_freeze_backing_chain. */
  method LeadsToNeverFreeze(g: Graph, bs: NodeId, base: Option<NodeId>, ghost path: seq<EdgeId>) returns (never: bool)
    requires Consistent(g) && IsChain(g, path, Some(bs), base)
    ensures never <==> exists e :: e in path && e in g.edges && NeverFreeze(g, e)
  {
    var i: Option<NodeId> := Some(bs);
    ghost var k := 0;
    WalkStarts(g, path, i, base);
    while i != base
      invariant 0 <= k && WalkAt(g, path, k, i, base)
      invariant forall j :: 0 <= j < k ==> path[j] in g.edges && !NeverFreeze(g, path[j])
      decreases |path| - k, if i.Some? then 1 else 0
    {
      WalkGoesOn(g, path, k, i, base);
      var child := FilterOrCowChild(g, i.value);
      if child.Some? {
        assert EdgeOk(g, child.value);
        if g.nodes[g.edges[child.value].bs.value].info.neverFreeze {
          return true;
        }
        i := g.edges[child.value].bs;
        k := k + 1;
      } else {
        i := None;
      }
    }
    WalkEnds(g, path, k, base);
    never := false;
  }

  predicate NeverFreeze(g: Graph, e: EdgeId)
    requires e in g.edges
  {
    g.edges[e].bs.Some? && g.edges[e].bs.value in g.nodes && g.nodes[g.edges[e].bs.value].info.neverFreeze
  }

  function WithFrozen(g: Graph, s: set<EdgeId>, frozen: bool): Graph {
    g.(edges := map e | e in g.edges :: if e in s then g.edges[e].(frozen := frozen) else g.edges[e])
  }

  function EdgesOf(path: seq<EdgeId>): set<EdgeId> {
    set e | e in path
  }

  /** The walk does not depend on what is frozen. */
  lemma {:induction false} FrozenKeepsChain(g: Graph, s: set<EdgeId>, frozen: bool, path: seq<EdgeId>,
                                            i: Option<NodeId>, base: Option<NodeId>)
    requires IsChain(g, path, i, base)
    ensures IsChain(WithFrozen(g, s, frozen), path, i, base)
    decreases |path|
  {
    if path != [] {
      FrozenKeepsChain(g, s, frozen, path[1..], g.edges[path[0]].bs, base);
    }
  }

  /** One link is set. */
  lemma SetOneFrozen(g0: Graph, path: seq<EdgeId>, k: nat, frozen: bool, g: Graph)
    requires k < |path| && path[k] in g0.edges && g == WithFrozen(g0, EdgesOf(path[..k]), frozen)
    ensures g.(edges := g.edges[path[k] := g.edges[path[k]].(frozen := frozen)]) == WithFrozen(g0,
            EdgesOf(path[..k + 1]), frozen)
  {
    assert path[..k + 1] == path[..k] + [path[k]];
    assert EdgesOf(path[..k + 1]) == EdgesOf(path[..k]) + {path[k]};
    var g' := g.(edges := g.edges[path[k] := g.edges[path[k]].(frozen := frozen)]);
    assert g'.edges == WithFrozen(g0, EdgesOf(path[..k + 1]), frozen).edges;
  }

  lemma SetNoneFrozen(g: Graph, frozen: bool)
    ensures WithFrozen(g, EdgesOf([]), frozen) == g
  {
    assert WithFrozen(g, EdgesOf([]), frozen).edges == g.edges;
  }

  /** A chain has no edge twice: it would lead back to itself. */
  lemma {:induction false} ChainLeadsDown(g: Graph, path: seq<EdgeId>, i: Option<NodeId>, base: Option<NodeId>, k: nat)
    requires Consistent(g) && IsChain(g, path, i, base) && k < |path|
    ensures i.Some? && path[k] in g.edges && g.edges[path[k]].parent.NodeParent? &&
            Reach(LinksOf(g), i.value, g.edges[path[k]].parent.node)
    decreases |path|
  {
    ChainEdge(g, path, i, base);
    if k > 0 {
      ChainLeadsDown(g, path[1..], g.edges[path[0]].bs, base, k - 1);
      LinkOfEdge(g, path[0]);
      ReachLink(LinksOf(g), i.value, g.edges[path[0]].bs.value, g.edges[path[k]].parent.node);
    } else {
      ReachSelf(LinksOf(g), i.value);
    }
  }

  lemma ChainEdge(g: Graph, path: seq<EdgeId>, i: Option<NodeId>, base: Option<NodeId>)
    requires Consistent(g) && IsChain(g, path, i, base) && path != []
    ensures i.Some? && i.value in g.nodes && path[0] in g.edges && g.edges[path[0]].parent == NodeParent(i.value)
  {
    assert NodeOk(g, i.value);
    ChildOf(g, i.value, path[0]);
  }

  lemma {:induction false} ChainHasNoEdgeTwice(g: Graph, path: seq<EdgeId>, i: Option<NodeId>, base: Option<NodeId>,
                                               j: nat, k: nat)
    requires Consistent(g) && Acyclic(LinksOf(g)) && IsChain(g, path, i, base) && j < k < |path|
    ensures path[j] != path[k]
    decreases |path|
  {
    if j > 0 {
      ChainHasNoEdgeTwice(g, path[1..], g.edges[path[0]].bs, base, j - 1, k - 1);
    } else {
      ChainEdge(g, path, i, base);
      ChainLeadsDown(g, path[1..], g.edges[path[0]].bs, base, k - 1);
      LinkOfEdge(g, path[0]);
    }
  }

  /** bdrv_freeze_backing_chain: all of the links, or none if one of them is frozen already or
      leads to a node that must never be frozen. */
  method FreezeBackingChain(layer: BlockLayer, bs: NodeId, base: Option<NodeId>, ghost path: seq<EdgeId>)
    returns (ok: bool)
    requires Consistent(layer.g) && IsChain(layer.g, path, Some(bs), base)
    modifies layer`g
    ensures ok <==> forall e :: e in path && e in old(layer.g).edges ==>
            !old(layer.g).edges[e].frozen && !NeverFreeze(old(layer.g), e)
    ensures layer.g == if ok then WithFrozen(old(layer.g), EdgesOf(path), true) else old(layer.g)
  {
    ghost var g0 := layer.g;
    var frozen := IsBackingChainFrozen(layer.g, bs, base, path);
    if frozen {
      return false;
    }
    var never := LeadsToNeverFreeze(layer.g, bs, base, path);
    if never {
      return false;
    }
    SetFrozen(layer, bs, base, path, true);
    ok := true;
  }

  /** bdrv_unfreeze_backing_chain */
  method UnfreezeBackingChain(layer: BlockLayer, bs: NodeId, base: Option<NodeId>, ghost path: seq<EdgeId>)
    requires Consistent(layer.g) && Acyclic(LinksOf(layer.g)) && IsChain(layer.g, path, Some(bs), base)
    requires forall e :: e in path && e in layer.g.edges ==> layer.g.edges[e].frozen
    modifies layer`g
    ensures layer.g == WithFrozen(old(layer.g), EdgesOf(path), false)
  {
    SetFrozen(layer, bs, base, path, false);
  }

  /** The loop that both end with; when unfreezing, every link is found frozen. */
  method SetFrozen(layer: BlockLayer, bs: NodeId, base: Option<NodeId>, ghost path: seq<EdgeId>, frozen: bool)
    requires Consistent(layer.g) && IsChain(layer.g, path, Some(bs), base)
    requires !frozen ==> Acyclic(LinksOf(layer.g)) && forall e :: e in path && e in layer.g.edges ==>
             layer.g.edges[e].frozen
    modifies layer`g
    ensures layer.g == WithFrozen(old(layer.g), EdgesOf(path), frozen)
  {
    ghost var g0 := layer.g;
    var i: Option<NodeId> := Some(bs);
    ghost var k := 0;
    WalkStarts(g0, path, i, base);
    assert path[..0] == [];
    SetNoneFrozen(g0, frozen);
    while i != base
      invariant 0 <= k && WalkAt(g0, path, k, i, base) && layer.g == WithFrozen(g0, EdgesOf(path[..k]), frozen)
      decreases |path| - k, if i.Some? then 1 else 0
    {
      i, k := SetNext(layer, i, base, frozen, g0, path, Some(bs), k);
    }
    WalkEnds(g0, path, k, base);
    assert path[..|path|] == path;
  }

  /** One turn of that loop. */
  method SetNext(layer: BlockLayer, i: Option<NodeId>, base: Option<NodeId>, frozen: bool, ghost g0: Graph,
                 ghost path: seq<EdgeId>, ghost start: Option<NodeId>, ghost k: nat)
    returns (next: Option<NodeId>, ghost k': nat)
    requires Consistent(g0) && IsChain(g0, path, start, base) && WalkAt(g0, path, k, i, base) && i != base
    requires !frozen ==> Acyclic(LinksOf(g0)) && forall e :: e in path && e in g0.edges ==> g0.edges[e].frozen
    requires layer.g == WithFrozen(g0, EdgesOf(path[..k]), frozen)
    modifies layer`g
    ensures WalkAt(g0, path, k', next, base) && layer.g == WithFrozen(g0, EdgesOf(path[..k']), frozen)
    ensures k < k' <= |path| || (k' == k && i.Some? && next == None)
  {
    WalkGoesOn(g0, path, k, i, base);
    var child := FilterOrCowChild(layer.g, i.value);
    if child == None {
      return None, k;
    }
    if !frozen {
      NotUnfrozenYet(g0, path, start, base, k);
    }
    k' := k + 1;
    next := SetLink(layer, child.value, frozen, g0, path, k);
  }

  method SetLink(layer: BlockLayer, child: EdgeId, frozen: bool, ghost g0: Graph, ghost path: seq<EdgeId>, ghost k: nat)
    returns (next: Option<NodeId>)
    requires k < |path| && path[k] == child && child in g0.edges &&
             layer.g == WithFrozen(g0, EdgesOf(path[..k]), frozen)
    requires !frozen ==> g0.edges[child].frozen && child !in EdgesOf(path[..k])
    modifies layer`g
    ensures layer.g == WithFrozen(g0, EdgesOf(path[..k + 1]), frozen) && next == g0.edges[child].bs
  {
    assert !frozen ==> layer.g.edges[child].frozen;
    SetOneFrozen(g0, path, k, frozen, layer.g);
    next := layer.g.edges[child].bs;
    layer.g := layer.g.(edges := layer.g.edges[child := layer.g.edges[child].(frozen := frozen)]);
  }

  lemma NotUnfrozenYet(g: Graph, path: seq<EdgeId>, i: Option<NodeId>, base: Option<NodeId>, k: nat)
    requires Consistent(g) && Acyclic(LinksOf(g)) && IsChain(g, path, i, base) && k < |path|
    ensures path[k] !in EdgesOf(path[..k])
  {
    forall j | 0 <= j < k
      ensures path[j] != path[k]
    {
      ChainHasNoEdgeTwice(g, path, i, base, j, k);
    }
  }

  /** Unfreezing restores the flags that freezing found. */
  lemma UnfreezeRestores(g: Graph, s: set<EdgeId>)
    requires forall e :: e in s && e in g.edges ==> !g.edges[e].frozen
    ensures WithFrozen(WithFrozen(g, s, true), s, false) == g
  {
    assert WithFrozen(WithFrozen(g, s, true), s, false).edges == g.edges;
  }

  // ----- a frozen chain stays put -----

  /** Where the walk ends. */
  function EndOf(g: Graph, path: seq<EdgeId>, i: Option<NodeId>): Option<NodeId>
    decreases |path|
  {
    if path == [] || path[0] !in g.edges then i else EndOf(g, path[1..], g.edges[path[0]].bs)
  }

  /** A frozen link is still where the walk looks for it. */
  lemma FrozenLinkStays(g0: Graph, g: Graph, n: NodeId, e: EdgeId)
    requires Consistent(g0) && Consistent(g) && KeepsFrozen(g0, g) && n in g0.nodes
    requires FilterOrCowChild(g0, n) == Some(e) && e in g0.edges && g0.edges[e].frozen
    ensures n in g.nodes && FilterOrCowChild(g, n) == Some(e) && e in g.edges && g.edges[e].bs == g0.edges[e].bs
  {
    assert NodeOk(g0, n) && NodeOk(g, n);
    ChildOf(g0, n, e);
    assert SameButPerms(g0.edges[e], g.edges[e]);
    assert EdgeOk(g, e) && EdgeOk(g0, e);
  }

  /** Whatever happens to the graph, as long as frozen edges stay: a frozen chain down to a base
      is walked as before; one that was frozen all the way down is walked as before exactly
      if its last node has not got a child since. */
  lemma {:induction false} FrozenChainStaysPut(g0: Graph, g: Graph, path: seq<EdgeId>, i: Option<NodeId>,
                                               base: Option<NodeId>)
    requires Consistent(g0) && Consistent(g) && KeepsFrozen(g0, g) && IsChain(g0, path, i, base)
    requires forall e :: e in path && e in g0.edges ==> g0.edges[e].frozen
    ensures base.Some? ==> IsChain(g, path, i, base)
    ensures base == None && i.Some? ==>
              var end := EndOf(g0, path, i);
              end.Some? && end.value in g.nodes &&
                  (IsChain(g, path, i, base) <==> FilterOrCowChild(g, end.value) == None)
    decreases |path|
  {
    if path != [] {
      FrozenLinkStays(g0, g, i.value, path[0]);
      assert forall e :: e in path[1..] ==> e in path;
      FrozenChainStaysPut(g0, g, path[1..], g0.edges[path[0]].bs, base);
    }
  }

  /** No successful replacement, append, attachment or change of a backing file changes what is
      met on the way from a node to the base of a frozen chain. */
  lemma ChangesKeepFrozenChain(childPerm: ChildPerm, g0: Graph, g: Graph, a: NodeId, b: NodeId, hd: Option<NodeId>,
                               e: EdgeId, role: Role, path: seq<EdgeId>, bs: NodeId, base: NodeId)
    requires Consistent(g0) && Consistent(g) && IsChain(g0, path, Some(bs), Some(base)) &&
             (forall f :: f in path && f in g0.edges ==> g0.edges[f].frozen)
    requires NodeReplaced(childPerm, g0, g, a, b) || Appended(childPerm, g0, g, e, a, b) ||
             BackingSet(childPerm, g0, g, a, hd, e) || ChildAttached(childPerm, g0, g, e, a, b, role)
    ensures IsChain(g, path, Some(bs), Some(base)) && forall path' :: IsChain(g, path', Some(bs), Some(base)) ==>
            path' == path
  {
    FrozenChainStaysPut(g0, g, path, Some(bs), Some(base));
    forall path' | IsChain(g, path', Some(bs), Some(base))
      ensures path' == path
    {
      ChainIsUnique(g, path, path', Some(bs), Some(base));
    }
  }

  // ----- a chain that is frozen to its end -----

  // The last node of such a chain has no link that could be frozen.  So the walk changes exactly if
  // that node gets a child that a walk follows.

  /** A walk follows a child of this role. */
  predicate Walked(info: Info, role: Role) {
    info.hasDriver && (SlotOf(info, role) == BackingSlot || (info.isFilter && SlotOf(info, role) == FileSlot))
  }

  lemma WalkedChild(g: Graph, n: NodeId, e: EdgeId)
    requires Consistent(g) && n in g.nodes
    ensures FilterOrCowChild(g, n) == Some(e) <==> Attached(g, e, n) && Walked(g.nodes[n].info, g.edges[e].role)
  {
    assert NodeOk(g, n);
    SlotsAre(g, n, e);
  }

  /** Of the edges of g only e is new; the others belong to whom they belonged to. */
  ghost predicate OneNew(g0: Graph, g: Graph, e: EdgeId) {
    && e !in g0.edges && SameInfo(g0, g)
    && forall f :: f in g.edges && f != e && g.edges[f].bs.Some? ==>
         f in g0.edges && g0.edges[f].bs.Some? && g.edges[f].parent == g0.edges[f].parent &&
         g.edges[f].role == g0.edges[f].role
  }

  lemma ChildSince(g0: Graph, g: Graph, n: NodeId, e: EdgeId)
    requires Consistent(g0) && Consistent(g) && OneNew(g0, g, e) && n in g0.nodes && FilterOrCowChild(g0, n) == None
    ensures n in g.nodes
    ensures FilterOrCowChild(g, n) == None <==> !(Attached(g, e, n) && Walked(g0.nodes[n].info, g.edges[e].role))
  {
    WalkedChild(g, n, e);
    if FilterOrCowChild(g, n).Some? {
      var f := FilterOrCowChild(g, n).value;
      WalkedChild(g, n, f);
      if f != e {
        WalkedChild(g0, n, f);
        assert false;
      }
    }
  }

  lemma {:induction false} ChainEnds(g: Graph, path: seq<EdgeId>, i: Option<NodeId>)
    requires IsChain(g, path, i, None) && i.Some?
    ensures var end := EndOf(g, path, i); end.Some? && end.value in g.nodes && FilterOrCowChild(g, end.value) == None
    decreases |path|
  {
    if path != [] {
      ChainEnds(g, path[1..], g.edges[path[0]].bs);
    }
  }

  /** All links of the chain from bs to its end are frozen. */
  ghost predicate FrozenToEnd(g: Graph, path: seq<EdgeId>, bs: NodeId) {
    Consistent(g) && IsChain(g, path, Some(bs), None) && forall f :: f in path && f in g.edges ==> g.edges[f].frozen
  }

  lemma FrozenEnd(g0: Graph, g: Graph, path: seq<EdgeId>, bs: NodeId, e: EdgeId)
    requires FrozenToEnd(g0, path, bs) && Consistent(g) && KeepsFrozen(g0, g) && OneNew(g0, g, e)
    ensures var end := EndOf(g0, path, Some(bs));
            && end.Some? && end.value in g0.nodes
            && (IsChain(g, path, Some(bs), None) <==>
                  !(Attached(g, e, end.value) && Walked(g0.nodes[end.value].info, g.edges[e].role)))
  {
    FrozenChainStaysPut(g0, g, path, Some(bs), None);
    ChainEnds(g0, path, Some(bs));
    ChildSince(g0, g, EndOf(g0, path, Some(bs)).value, e);
  }

  lemma BackingRoleIsWalked(info: Info)
    requires info.hasDriver
    ensures Walked(info, BackingRole(info))
  {
  }

  lemma BackingIsOneNew(childPerm: ChildPerm, g0: Graph, g: Graph, a: NodeId, hd: Option<NodeId>, e: EdgeId)
    requires BackingSet(childPerm, g0, g, a, hd, e)
    ensures OneNew(g0, g, e)
  {
    forall f | f in g.edges && f != e
      ensures f in g0.edges && SameButPerms(g0.edges[f], g.edges[f])
    {
    }
  }

  /** Setting a backing file keeps a chain that is frozen to its end exactly if it takes the file
      away, or if the node is not the last one of the chain. */
  lemma BackingKeepsEndIff(childPerm: ChildPerm, g0: Graph, g: Graph, a: NodeId, hd: Option<NodeId>, e: EdgeId,
                           path: seq<EdgeId>, bs: NodeId)
    requires FrozenToEnd(g0, path, bs) && Consistent(g) && BackingSet(childPerm, g0, g, a, hd, e)
    ensures IsChain(g, path, Some(bs), None) <==> hd == None || EndOf(g0, path, Some(bs)) != Some(a)
  {
    BackingIsOneNew(childPerm, g0, g, a, hd, e);
    BackingRoleIsWalked(g0.nodes[a].info);
    FrozenEnd(g0, g, path, bs, e);
  }

  lemma MovedHadNode(g0: Graph, f: EdgeId, from: NodeId, to: NodeId)
    requires Consistent(g0) && f in g0.edges && from in g0.nodes && ReplacedEdge(g0, f, from, to, {}).bs.Some?
    ensures g0.edges[f].bs.Some?
  {
    if f in g0.nodes[from].parents {
      assert NodeOk(g0, from);
    }
  }

  lemma AppendIsOneNew(childPerm: ChildPerm, g0: Graph, g: Graph, bsNew: NodeId, bsTop: NodeId, e: EdgeId)
    requires Consistent(g0) && Appended(childPerm, g0, g, e, bsNew, bsTop)
    ensures OneNew(g0, g, e)
  {
    forall f | f in g.edges && f != e && g.edges[f].bs.Some?
      ensures f in g0.edges && SameButPerms(ReplacedEdge(g0, f, bsTop, bsNew, {}), g.edges[f]) && g0.edges[f].bs.Some?
    {
      MovedHadNode(g0, f, bsTop, bsNew);
    }
  }

  /** Appending a node keeps it exactly if the new node is not the last one of the chain; the new
      node has a driver, as bdrv_append expects. */
  lemma AppendKeepsEndIff(childPerm: ChildPerm, g0: Graph, g: Graph, bsNew: NodeId, bsTop: NodeId, e: EdgeId,
                          path: seq<EdgeId>, bs: NodeId)
    requires FrozenToEnd(g0, path, bs) && Consistent(g) && CanAppend(g0, e, bsNew, bsTop)
    requires Appended(childPerm, g0, g, e, bsNew, bsTop)
    ensures IsChain(g, path, Some(bs), None) <==> EndOf(g0, path, Some(bs)) != Some(bsNew)
  {
    AppendIsOneNew(childPerm, g0, g, bsNew, bsTop, e);
    BackingRoleIsWalked(g0.nodes[bsNew].info);
    FrozenEnd(g0, g, path, bs, e);
  }

  /** Attaching a child keeps it exactly if the parent is not the last node, or if a walk does not
      follow children of that role. */
  lemma AttachKeepsEndIff(childPerm: ChildPerm, g0: Graph, g: Graph, parentBs: NodeId, childBs: NodeId, role: Role,
                          e: EdgeId, path: seq<EdgeId>, bs: NodeId)
    requires FrozenToEnd(g0, path, bs) && Consistent(g) && parentBs in g0.nodes
    requires ChildAttached(childPerm, g0, g, e, parentBs, childBs, role)
    ensures IsChain(g, path, Some(bs), None) <==>
              EndOf(g0, path, Some(bs)) != Some(parentBs) || !Walked(g0.nodes[parentBs].info, role)
  {
    forall f | f in g.edges && f != e
      ensures f in g0.edges && SameButPerms(g0.edges[f], g.edges[f])
    {
    }
    FrozenEnd(g0, g, path, bs, e);
  }

  lemma ReplaceIsNoneNew(childPerm: ChildPerm, g0: Graph, g: Graph, from: NodeId, to: NodeId, e: EdgeId)
    requires Consistent(g0) && NodeReplaced(childPerm, g0, g, from, to) && e !in g0.edges
    ensures OneNew(g0, g, e) && e !in g.edges
  {
    forall f | f in g.edges && g.edges[f].bs.Some?
      ensures f in g0.edges && SameButPerms(ReplacedEdge(g0, f, from, to, {}), g.edges[f]) && g0.edges[f].bs.Some?
    {
      MovedHadNode(g0, f, from, to);
    }
  }

  /** Replacing a node keeps it in any case. */
  lemma ReplaceKeepsEnd(childPerm: ChildPerm, g0: Graph, g: Graph, from: NodeId, to: NodeId, e: EdgeId,
                        path: seq<EdgeId>, bs: NodeId)
    requires FrozenToEnd(g0, path, bs) && Consistent(g) && NodeReplaced(childPerm, g0, g, from, to) && e !in g0.edges
    ensures IsChain(g, path, Some(bs), None)
  {
    ReplaceIsNoneNew(childPerm, g0, g, from, to, e);
    FrozenEnd(g0, g, path, bs, e);
  }

  // ----- such a chain grows -----

  const FORMAT_DRIVER := Info(true, false, false, true, true, true, false, false, true, false, false)
  const COW_ROLE := Role(false, false, false, true, false)

  /** Node 0 over node 1, with a frozen link, and node 2 by itself. */
  function ShortChain(): Graph {
    Graph(map[0 := Node(FORMAT_DRIVER, {0}, {}, Some(0), None, None),
              1 := Node(FORMAT_DRIVER, {}, {0}, None, None, None),
              2 := Node(FORMAT_DRIVER, {}, {}, None, None, None)],
          map[0 := Edge(NodeParent(0), Some(1), COW_ROLE, {}, ALL_PERMS, true)])
  }

  lemma ShortChainFrozen()
    ensures FrozenToEnd(ShortChain(), [0], 0) && EndOf(ShortChain(), [0], Some(0)) == Some(1)
    ensures LinksOf(ShortChain()) == {(0, 1)} && Acyclic(LinksOf(ShortChain()))
    ensures !Reach(LinksOf(ShortChain()), 2, 1)
  {
    var g := ShortChain();
    assert EdgeOk(g, 0) && NodeOk(g, 0) && NodeOk(g, 1) && NodeOk(g, 2);
    assert [0][1..] == [];
    assert IsChain(g, [], Some(1), None);
    assert LinksOf(g) == {(0, 1)} by {
      LinkOfEdge(g, 0);
    }
    if Reach(LinksOf(g), 1, 0) {
      var v := ReachFirst(LinksOf(g), 1, 0);
    }
    if Reach(LinksOf(g), 2, 1) {
      var v := ReachFirst(LinksOf(g), 2, 1);
    }
  }

  lemma ShortChainTracked(books: Books)
    requires books == Books(map[0 := 1, 1 := 1, 2 := 1], multiset{}, multiset{0, 2}, 1)
    ensures Tracked(ShortChain(), books, [])
  {
    ShortChainFrozen();
    var g := ShortChain();
    assert g.nodes[0].parents == {} && g.nodes[1].parents == {0} && g.nodes[2].parents == {};
    assert HeldBy([]) == multiset{};
  }

  lemma ShortChainCanSwitch(childPerm: ChildPerm)
    ensures CanSwitch(childPerm, ShortChain(), 1, Some(2), true)
  {
    ShortChainFrozen();
  }

  /** With node 2 as the backing file of node 1, every node has at most one parent and can serve it,
      whatever permissions are passed on. */
  lemma LongerChainFits(childPerm: ChildPerm, t: Attempt, n: NodeId)
    requires Switched(childPerm, ShortChain(), t.changed, 1, true, Some(2), 1) && Consistent(t.changed)
    requires PermsOnly(t.changed, t.spread) && n in t.changed.nodes
    ensures n in t.spread.nodes && Fits(t.spread, n)
  {
    forall a, b | a in t.changed.nodes[n].parents && b in t.changed.nodes[n].parents
      ensures a == b
    {
      ParentsAre(t.changed, n, a);
      ParentsAre(t.changed, n, b);
    }
  }

  lemma GrowsUnlessRefused(childPerm: ChildPerm, t: Attempt, ok: bool)
    requires BackingTried(childPerm, ShortChain(), 1, Some(2), 1, t, ok)
    ensures ok <==> !t.refused
  {
    ShortChainCanSwitch(childPerm);
    forall n | n in Below(t.changed, 1)
      ensures n in t.spread.nodes && Fits(t.spread, n)
    {
      LongerChainFits(childPerm, t, n);
    }
  }

  /** bdrv_set_backing_hd on the last node of a chain that is frozen to its end: unless a driver
      refuses, it succeeds, and the walk is longer than before. */
  method FrozenToTheEndMayGrow(childPerm: ChildPerm)
    returns (layer: BlockLayer, ok: bool, ghost g0: Graph, ghost t: Attempt)
    ensures g0 == ShortChain() && FrozenToEnd(g0, [0], 0) && Acyclic(LinksOf(g0))
    ensures layer.childPerm == childPerm && Tracked(layer.g, layer.books, [])
    ensures ok <==> !t.refused
    ensures ok ==> BackingSet(childPerm, g0, layer.g, 1, Some(2), 1) && !IsChain(layer.g, [0], Some(0), None)
  {
    var books := Books(map[0 := 1, 1 := 1, 2 := 1], multiset{}, multiset{0, 2}, 1);
    g0 := ShortChain();
    ShortChainFrozen();
    ShortChainTracked(books);
    layer := new BlockLayer(childPerm, ShortChain(), books);
    ok, t := layer.SetBackingHd(1, Some(2));
    GrowsUnlessRefused(childPerm, t, ok);
    if ok {
      BackingKeepsEndIff(childPerm, g0, layer.g, 1, Some(2), 1, [0], 0);
    }
  }
}
