/**
  Searching the block graph: the topological order of a subtree, the search for a node below
  another one, and the breadth-first search that decides which parents a replacement moves.
*/
module GraphSearch {
  import opened Options
  import opened Digraph
  import opened BlockGraph

  /** The nodes below n, with n itself. */
  ghost function Below(g: Graph, n: NodeId): set<NodeId> {
    set m | m in g.nodes && Reach(LinksOf(g), n, m)
  }

  lemma ChildLink(g: Graph, n: NodeId, c: EdgeId)
    requires Consistent(g) && n in g.nodes && c in g.nodes[n].children
    ensures c in g.edges && g.edges[c].parent == NodeParent(n) && g.edges[c].bs.Some?
    ensures g.edges[c].bs.value in g.nodes && (n, g.edges[c].bs.value) in LinksOf(g)
  {
    assert NodeOk(g, n);
    assert Attached(g, c, n);
    assert EdgeOk(g, c);
    LinkOfEdge(g, c);
  }

  lemma LinkChild(g: Graph, n: NodeId, v: NodeId) returns (c: EdgeId)
    requires Consistent(g) && (n, v) in LinksOf(g)
    ensures n in g.nodes && c in g.nodes[n].children && g.edges[c].bs == Some(v) && v in g.nodes
  {
    c := EdgeOfLink(g, n, v);
    assert EdgeOk(g, c);
  }

  /** In an acyclic graph there is less below a child than below its parent. */
  lemma ChildIsLower(g: Graph, n: NodeId, c: EdgeId)
    requires Consistent(g) && Acyclic(LinksOf(g)) && n in g.nodes && c in g.nodes[n].children
    ensures c in g.edges && g.edges[c].bs.Some? && Below(g, g.edges[c].bs.value) < Below(g, n)
  {
    ChildLink(g, n, c);
    var m := g.edges[c].bs.value;
    forall x | x in Below(g, m)
      ensures x in Below(g, n)
    {
      ReachLink(LinksOf(g), n, m, x);
    }
    ReachSelf(LinksOf(g), n);
    assert n in Below(g, n) && n !in Below(g, m);
  }

  // ----- bdrv_recurse_has_child -----

  method RecurseHasChild(g: Graph, bs: NodeId, child: NodeId) returns (has: bool)
    requires Consistent(g) && Acyclic(LinksOf(g)) && bs in g.nodes
    ensures has <==> Reach(LinksOf(g), bs, child)
    decreases Below(g, bs)
  {
    if bs == child {
      ReachSelf(LinksOf(g), bs);
      return true;
    }
    var todo := g.nodes[bs].children;
    while todo != {}
      invariant todo <= g.nodes[bs].children
      invariant forall c :: c in g.nodes[bs].children && c !in todo ==>
                c in g.edges && g.edges[c].bs.Some? && !Reach(LinksOf(g), g.edges[c].bs.value, child)
      decreases todo
    {
      var c :| c in todo;
      ChildLink(g, bs, c);
      ChildIsLower(g, bs, c);
      has := RecurseHasChild(g, g.edges[c].bs.value, child);
      if has {
        ReachLink(LinksOf(g), bs, g.edges[c].bs.value, child);
        return;
      }
      todo := todo - {c};
    }
    has := false;
    if Reach(LinksOf(g), bs, child) {
      var v := ReachFirst(LinksOf(g), bs, child);
      var c := LinkChild(g, bs, v);
      assert false;
    }
  }

  // ----- bdrv_topological_dfs -----

  /** Every node comes once, before all its children, and these are in the list as well. */
  ghost predicate Sorted(l: Links, list: seq<NodeId>) {
    if list == [] then true
    else
      && list[0] !in list[1..]
      && (forall v :: (list[0], v) in l ==> v in list[1..])
      && Sorted(l, list[1..])
  }

  /** A sorted list holds whole subtrees. */
  lemma {:induction false} SortedIsClosed(l: Links, list: seq<NodeId>, u: NodeId, v: NodeId)
    requires Sorted(l, list) && u in list && Reach(l, u, v)
    ensures v in list
    decreases |list|
  {
    if u != v {
      var w := ReachFirst(l, u, v);
      if list[0] == u {
        SortedIsClosed(l, list[1..], w, v);
      } else {
        SortedIsClosed(l, list[1..], u, v);
      }
    }
  }

  /** In terms of positions: a node before its descendants, and nothing twice. */
  lemma {:induction false} SortedOrders(l: Links, list: seq<NodeId>, i: nat, j: nat)
    requires Sorted(l, list) && i < |list| && j < |list| && Reach(l, list[i], list[j])
    ensures i <= j
    ensures list[i] == list[j] ==> i == j
    decreases |list|
  {
    if i > 0 && j > 0 {
      SortedOrders(l, list[1..], i - 1, j - 1);
    } else if i == 0 && j > 0 {
      assert list[1..][j - 1] == list[j];
    } else if i > 0 {
      assert list[1..][i - 1] == list[i];
      SortedIsClosed(l, list[1..], list[i], list[0]);
    }
  }

  /** bs goes in front of the list that already holds all its children. */
  lemma SortedPrepend(g: Graph, list: seq<NodeId>, bs: NodeId)
    requires Consistent(g) && Sorted(LinksOf(g), list) && bs !in list
    requires bs in g.nodes && forall c :: c in g.nodes[bs].children ==>
             c in g.edges && g.edges[c].bs.Some? && g.edges[c].bs.value in list
    ensures Sorted(LinksOf(g), [bs] + list)
  {
    assert ([bs] + list)[1..] == list;
    forall v | (bs, v) in LinksOf(g)
      ensures v in list
    {
      var c := LinkChild(g, bs, v);
    }
  }

  lemma PrependIsAll(g: Graph, list: seq<NodeId>, bs: NodeId)
    requires Consistent(g) && Sorted(LinksOf(g), list)
    requires bs in g.nodes && forall c :: c in g.nodes[bs].children ==>
             c in g.edges && g.edges[c].bs.Some? && g.edges[c].bs.value in list
    ensures Reach(LinksOf(g), bs, bs) && forall n :: Reach(LinksOf(g), bs, n) ==> n == bs || n in list
  {
    ReachSelf(LinksOf(g), bs);
    forall n | Reach(LinksOf(g), bs, n)
      ensures n == bs || n in list
    {
      if n != bs {
        var v := ReachFirst(LinksOf(g), bs, n);
        var c := LinkChild(g, bs, v);
        SortedIsClosed(LinksOf(g), list, v, n);
      }
    }
  }

  /** What the search finds below bs is bs and what it finds below the children. */
  ghost predicate FoundBelow(l: Links, list0: seq<NodeId>, list: seq<NodeId>, bs: NodeId) {
    && (forall n :: n in list0 ==> n in list)
    && (forall n :: n in list ==> n in list0 || Reach(l, bs, n))
  }

  /** The nodes of found that are not in the list are those the search is inside of: they
      lead to bs. */
  method TopologicalDfs(g: Graph, list0: seq<NodeId>, found0: set<NodeId>, bs: NodeId)
    returns (list: seq<NodeId>, found: set<NodeId>)
    requires Consistent(g) && Acyclic(LinksOf(g)) && bs in g.nodes
    requires Sorted(LinksOf(g), list0) && (forall n :: n in list0 ==> n in found0)
    requires forall n :: n in found0 && n !in list0 ==> n != bs && Reach(LinksOf(g), n, bs)
    ensures Sorted(LinksOf(g), list)
    ensures forall n :: n in list <==> n in list0 || Reach(LinksOf(g), bs, n)
    ensures forall n :: n in found <==> n in found0 || n in list
    decreases Below(g, bs)
  {
    ghost var l := LinksOf(g);
    list, found := list0, found0;
    if bs in found {
      forall n | Reach(l, bs, n)
        ensures n in list
      {
        SortedIsClosed(l, list, bs, n);
      }
      return;
    }
    found := found + {bs};
    var todo := g.nodes[bs].children;
    while todo != {}
      invariant todo <= g.nodes[bs].children
      invariant Sorted(l, list) && FoundBelow(l, list0, list, bs) && bs !in list
      invariant forall n :: n in found <==> n in found0 || n == bs || n in list
      invariant forall c :: c in g.nodes[bs].children && c !in todo ==>
                c in g.edges && g.edges[c].bs.Some? && g.edges[c].bs.value in list
      decreases todo
    {
      var c :| c in todo;
      list, found := DfsChild(g, list0, found0, list, found, bs, c);
      todo := todo - {c};
    }
    SortedPrepend(g, list, bs);
    PrependIsAll(g, list, bs);
    list := [bs] + list;
  }

  /** The search below one child of bs. */
  method DfsChild(g: Graph, ghost list0: seq<NodeId>, ghost found0: set<NodeId>, list: seq<NodeId>, found: set<NodeId>,
                  bs: NodeId, c: EdgeId)
    returns (list': seq<NodeId>, found': set<NodeId>)
    requires Consistent(g) && Acyclic(LinksOf(g)) && bs in g.nodes && c in g.nodes[bs].children
    requires forall n :: n in found0 && n !in list0 ==> n != bs && Reach(LinksOf(g), n, bs)
    requires Sorted(LinksOf(g), list) && FoundBelow(LinksOf(g), list0, list, bs) && bs !in list
    requires forall n :: n in found <==> n in found0 || n == bs || n in list
    ensures Sorted(LinksOf(g), list') && FoundBelow(LinksOf(g), list0, list', bs) && bs !in list'
    ensures forall n :: n in found' <==> n in found0 || n == bs || n in list'
    ensures c in g.edges && g.edges[c].bs.Some? && g.edges[c].bs.value in list'
    ensures forall n :: n in list ==> n in list'
    decreases Below(g, bs), 0
  {
    ghost var l := LinksOf(g);
    ChildLink(g, bs, c);
    ChildIsLower(g, bs, c);
    var m := g.edges[c].bs.value;
    ReachSelf(l, bs);
    forall n | n in found && n !in list
      ensures n != m && Reach(l, n, m)
    {
      if n != bs {
        assert Reach(l, n, bs);
      }
      ReachLast(l, n, bs, m);
    }
    list', found' := TopologicalDfs(g, list, found, m);
    ReachSelf(l, m);
    forall n | n in list'
      ensures n in list0 || Reach(l, bs, n)
    {
      if n !in list {
        ReachLink(l, bs, m, n);
      }
    }
  }

  // ----- should_update_child -----

  /** An edge may be moved to a node unless it has to stay or belongs to something below that node. */
  ghost predicate Admits(g: Graph, c: EdgeId, to: NodeId)
    requires c in g.edges
  {
    match g.edges[c].parent
    case Outside(stayAtNode) => !stayAtNode
    case NodeParent(p) => !Reach(LinksOf(g), to, p)
  }

  /** v was expanded: its children were put in the queue, and c is none of them. */
  ghost predicate Expanded(g: Graph, found: set<NodeId>, c: EdgeId, v: NodeId)
    requires v in g.nodes
  {
    c !in g.nodes[v].children && forall c2 :: c2 in g.nodes[v].children ==>
        c2 in g.edges && g.edges[c2].bs.Some? && g.edges[c2].bs.value in found
  }

  /** The inner loop: looks for c among the children of v and queues those not met before. */
  method Expand(g: Graph, c: EdgeId, to: NodeId, found0: set<NodeId>, queue0: seq<NodeId>, v: NodeId)
    returns (ret: bool, found: set<NodeId>, queue: seq<NodeId>)
    requires Consistent(g) && c in g.edges && found0 <= g.nodes.Keys && v in found0
    requires forall w :: w in found0 ==> Reach(LinksOf(g), to, w)
    ensures found0 <= found <= g.nodes.Keys && (forall w :: w in found ==> Reach(LinksOf(g), to, w))
    ensures forall w :: w in queue <==> w in queue0 || (w in found && w !in found0)
    ensures found == found0 ==> queue == queue0
    ensures ret ==> Expanded(g, found, c, v)
    ensures !ret ==> !Admits(g, c, to)
  {
    ret, found, queue := true, found0, queue0;
    var todo := g.nodes[v].children;
    while todo != {}
      invariant todo <= g.nodes[v].children && found0 <= found <= g.nodes.Keys
      invariant forall w :: w in found ==> Reach(LinksOf(g), to, w)
      invariant forall w :: w in queue <==> w in queue0 || (w in found && w !in found0)
      invariant found == found0 ==> queue == queue0
      invariant forall c2 :: c2 in g.nodes[v].children && c2 !in todo ==>
                c2 != c && c2 in g.edges && g.edges[c2].bs.Some? && g.edges[c2].bs.value in found
      decreases todo
    {
      var c2 :| c2 in todo;
      ChildLink(g, v, c2);
      if c2 == c {
        ret := false;
        break;
      }
      var m := g.edges[c2].bs.value;
      if m !in found {
        ReachLast(LinksOf(g), to, v, m);
        queue := queue + [m];
        found := found + {m};
      }
      todo := todo - {c2};
    }
  }

  /** Where everything was expanded, nothing reachable was missed. */
  lemma {:induction false} ExpandedIsClosed(g: Graph, found: set<NodeId>, c: EdgeId, u: NodeId, p: NodeId,
                                            path: seq<NodeId>)
    requires Consistent(g) && PathFrom(LinksOf(g), path, u, p) && u in found
    requires forall v :: v in found ==> v in g.nodes && Expanded(g, found, c, v)
    ensures p in found
    decreases |path|
  {
    if |path| > 1 {
      var n := |path| - 1;
      assert (path[n - 1], path[n - 1 + 1]) in LinksOf(g);
      assert PathFrom(LinksOf(g), path[..n], u, path[n - 1]);
      ExpandedIsClosed(g, found, c, u, path[n - 1], path[..n]);
      var c2 := LinkChild(g, path[n - 1], p);
      assert Expanded(g, found, c, path[n - 1]);
    }
  }

  lemma NothingMissed(g: Graph, found: set<NodeId>, c: EdgeId, to: NodeId)
    requires Consistent(g) && c in g.edges && g.edges[c].bs.Some? && to in found
    requires forall v :: v in found ==> v in g.nodes && Expanded(g, found, c, v)
    ensures g.edges[c].parent.NodeParent? ==> !Reach(LinksOf(g), to, g.edges[c].parent.node)
  {
    assert EdgeOk(g, c);
    if g.edges[c].parent.NodeParent? && Reach(LinksOf(g), to, g.edges[c].parent.node) {
      var path :| PathFrom(LinksOf(g), path, to, g.edges[c].parent.node);
      ExpandedIsClosed(g, found, c, to, g.edges[c].parent.node, path);
    }
  }

  ghost predicate Searched(g: Graph, found: set<NodeId>, queue: seq<NodeId>, c: EdgeId, v: NodeId) {
    v in g.nodes && (v in queue || Expanded(g, found, c, v))
  }

  method ShouldUpdateChild(g: Graph, c: EdgeId, to: NodeId) returns (ret: bool)
    requires Consistent(g) && c in g.edges && g.edges[c].bs.Some? && to in g.nodes
    ensures ret <==> Admits(g, c, to)
  {
    if g.edges[c].parent.Outside? && g.edges[c].parent.stayAtNode {
      return false;
    }
    ret := true;
    var found, queue := {to}, [to];
    ReachSelf(LinksOf(g), to);
    while queue != []
      invariant found <= g.nodes.Keys && to in found && forall v :: v in queue ==> v in found
      invariant ret ==> forall v :: v in found ==> Searched(g, found, queue, c, v)
      invariant forall v :: v in found ==> Reach(LinksOf(g), to, v)
      invariant !ret ==> !Admits(g, c, to)
      decreases g.nodes.Keys - found, |queue|
    {
      var v := queue[0];
      ghost var found0, queue0 := found, queue;
      var ok;
      ok, found, queue := Expand(g, c, to, found, queue[1..], v);
      if ret && ok {
        forall w | w in found
          ensures Searched(g, found, queue, c, w)
        {
          if w in found0 {
            assert Searched(g, found0, queue0, c, w);
            assert w in queue0 ==> w == v || w in queue0[1..];
          }
        }
      }
      ret := ret && ok;
    }
    if ret {
      assert forall v :: v in found ==> Searched(g, found, queue, c, v);
      NothingMissed(g, found, c, to);
    }
  }
}
