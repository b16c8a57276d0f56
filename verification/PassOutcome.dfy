/**
  What the permission pass comes to: the permissions it leaves are the only ones that fit
  together, and it succeeds exactly if every node can serve them and no driver refuses.
*/
module PassOutcome {
  import opened Options
  import opened Digraph
  import opened BlockGraph
  import opened GraphSearch
  import opened Permissions
  import opened PermissionPass

  /** The parents of n get along, and n can serve them. */
  predicate Fits(g: Graph, n: NodeId)
    requires n in g.nodes
  {
    Compatible(g, n) && MayHave(g.nodes[n].info, CumulativePerm(g, n))
  }

  ghost predicate AllFit(g: Graph, nodes: set<NodeId>) {
    forall n :: n in nodes ==> n in g.nodes && Fits(g, n)
  }

  /** Edge e is a child of n, and n has a driver that says what to ask of it. */
  predicate GivenBy(g: Graph, n: NodeId, e: EdgeId) {
    n in g.nodes && g.nodes[n].info.hasDriver && e in g.nodes[n].children
  }

  // ----- the turns of the pass, without the checks -----

  /** Node n passes its permissions on to its children. */
  function Turn(childPerm: ChildPerm, g: Graph, n: NodeId): Graph {
    g.(edges := map e | e in g.edges :: if GivenBy(g, n, e) then GivenEdge(childPerm, g, n, e) else g.edges[e])
  }

  function GivenEdge(childPerm: ChildPerm, g: Graph, n: NodeId, e: EdgeId): Edge
    requires n in g.nodes && e in g.edges
  {
    var wanted := ChildPermOf(childPerm, g, n, e, CumulativePerm(g, n), CumulativeShared(g, n));
    g.edges[e].(perm := wanted.0, shared := wanted.1)
  }

  function Turns(childPerm: ChildPerm, g: Graph, list: seq<NodeId>, k: nat): Graph
    requires k <= |list|
  {
    if k == 0 then g else Turn(childPerm, Turns(childPerm, g, list, k - 1), list[k - 1])
  }

  lemma {:induction false} TurnsChangePerms(childPerm: ChildPerm, g: Graph, list: seq<NodeId>, k: nat)
    requires k <= |list|
    ensures PermsOnly(g, Turns(childPerm, g, list, k))
  {
    if k > 0 {
      TurnsChangePerms(childPerm, g, list, k - 1);
      PermsOnlyTrans(g, Turns(childPerm, g, list, k - 1), Turns(childPerm, g, list, k));
    }
  }

  /** The pass is over a sorted list of nodes of an acyclic graph. */
  ghost predicate InOrder(g: Graph, list: seq<NodeId>) {
    Consistent(g) && Acyclic(LinksOf(g)) && Sorted(LinksOf(g), list) && forall n :: n in list ==> n in g.nodes
  }

  /** No turn from i on changes what the parents of the i-th node ask for and share. */
  lemma LaterTurnsAreAway(g: Graph, list: seq<NodeId>, i: nat, j: nat, e: EdgeId)
    requires InOrder(g, list) && i <= j < |list| && e in g.nodes[list[i]].parents
    ensures !GivenBy(g, list[j], e)
  {
    if i == j {
      ChildrenAreNotParents(g, list[i]);
    } else {
      EarlierIsAway(g, list, i, j);
    }
  }

  lemma {:induction false} ParentsKept(childPerm: ChildPerm, g: Graph, list: seq<NodeId>, i: nat, k: nat, e: EdgeId)
    requires InOrder(g, list) && i < |list| && i <= k <= |list| && e in g.nodes[list[i]].parents && e in g.edges
    ensures e in Turns(childPerm, g, list, i).edges && e in Turns(childPerm, g, list, k).edges
    ensures Turns(childPerm, g, list, k).edges[e] == Turns(childPerm, g, list, i).edges[e]
    decreases k
  {
    TurnsChangePerms(childPerm, g, list, i);
    if k > i {
      ParentsKept(childPerm, g, list, i, k - 1, e);
      LaterTurnsAreAway(g, list, i, k - 1, e);
      TurnsChangePerms(childPerm, g, list, k - 1);
    }
  }

  /** What a node finds at its turn is what it has in the end. */
  lemma FitsAtItsTurn(childPerm: ChildPerm, g: Graph, list: seq<NodeId>, i: nat)
    requires InOrder(g, list) && i < |list|
    ensures list[i] in Turns(childPerm, g, list, i).nodes && list[i] in Turns(childPerm, g, list, |list|).nodes
    ensures Fits(Turns(childPerm, g, list, i), list[i]) <==> Fits(Turns(childPerm, g, list, |list|), list[i])
  {
    var n, now, end := list[i], Turns(childPerm, g, list, i), Turns(childPerm, g, list, |list|);
    TurnsChangePerms(childPerm, g, list, i);
    TurnsChangePerms(childPerm, g, list, |list|);
    assert NodeOk(g, n);
    forall e | e in g.nodes[n].parents
      ensures e in now.edges && e in end.edges && now.edges[e] == end.edges[e]
    {
      ParentsKept(childPerm, g, list, i, |list|, e);
    }
    SameParentsFit(now, end, n);
  }

  lemma SameParentsFit(g: Graph, g': Graph, n: NodeId)
    requires n in g.nodes && g'.nodes == g.nodes
    requires forall e :: e in g.nodes[n].parents ==> e in g.edges && e in g'.edges && g.edges[e] == g'.edges[e]
    ensures CumulativePerm(g', n) == CumulativePerm(g, n) && CumulativeShared(g', n) == CumulativeShared(g, n)
    ensures Fits(g', n) <==> Fits(g, n)
  {
    assert CumulativePerm(g', n) == CumulativePerm(g, n);
  }

  // ----- the verdict -----

  ghost predicate FitSoFar(childPerm: ChildPerm, g: Graph, list: seq<NodeId>, i: nat)
    requires i <= |list|
  {
    forall j :: 0 <= j < i ==> FitsNow(childPerm, g, list, j)
  }

  ghost predicate FitsNow(childPerm: ChildPerm, g: Graph, list: seq<NodeId>, j: nat)
    requires j < |list|
  {
    list[j] in Turns(childPerm, g, list, j).nodes && Fits(Turns(childPerm, g, list, j), list[j])
  }

  ghost function AsNodes(list: seq<NodeId>): set<NodeId> {
    set n | n in list
  }

  /** A pass over the list succeeds exactly if no driver refuses and, with all permissions passed
      on, every node fits; then this is what it leaves. */
  ghost predicate Verdict(childPerm: ChildPerm, g0: Graph, g: Graph, list: seq<NodeId>, ok: bool, refused: bool) {
    var spread := Turns(childPerm, g0, list, |list|);
    (ok <==> !refused && AllFit(spread, AsNodes(list))) && (ok ==> g == spread)
  }

  /** The first i turns have been made, and everything fitted. */
  ghost predicate TurnsMade(childPerm: ChildPerm, g0: Graph, g: Graph, log0: seq<Record>, log: seq<Record>,
                            list: seq<NodeId>, i: nat) {
    Refreshed(childPerm, g0, g, log0, log, list, i) && g == Turns(childPerm, g0, list, i) &&
        FitSoFar(childPerm, g0, list, i)
  }

  /** How a pass ends. */
  ghost predicate PassDone(childPerm: ChildPerm, g0: Graph, g: Graph, log0: seq<Record>, log: seq<Record>,
                           list: seq<NodeId>, ok: bool, refused: bool) {
    Refreshed(childPerm, g0, g, log0, log, list, if ok then |list| else 0) &&
        Verdict(childPerm, g0, g, list, ok, refused)
  }

  ghost predicate PassSoFar(childPerm: ChildPerm, g0: Graph, g: Graph, log0: seq<Record>, log: seq<Record>,
                            list: seq<NodeId>, i: nat, ok: bool, refused: bool) {
    if ok then !refused && TurnsMade(childPerm, g0, g, log0, log, list, i)
        else PassDone(childPerm, g0, g, log0, log, list, false, refused)
  }

  lemma PassBegins(childPerm: ChildPerm, g: Graph, log: seq<Record>, list: seq<NodeId>)
    ensures PassSoFar(childPerm, g, g, log, log, list, 0, true, false)
  {
  }

  lemma PassSucceeds(childPerm: ChildPerm, g0: Graph, g: Graph, log0: seq<Record>, log: seq<Record>, list: seq<NodeId>)
    requires InOrder(g0, list) && TurnsMade(childPerm, g0, g, log0, log, list, |list|)
    ensures PassDone(childPerm, g0, g, log0, log, list, true, false)
  {
    forall n | n in list
      ensures n in g.nodes && Fits(g, n)
    {
      var i :| 0 <= i < |list| && list[i] == n;
      assert FitsNow(childPerm, g0, list, i);
      FitsAtItsTurn(childPerm, g0, list, i);
    }
  }

  lemma PassFails(childPerm: ChildPerm, g0: Graph, g: Graph, list: seq<NodeId>, i: nat, refused: bool)
    requires InOrder(g0, list) && i < |list| && (refused || !FitsNow(childPerm, g0, list, i))
    ensures Verdict(childPerm, g0, g, list, false, refused)
  {
    FitsAtItsTurn(childPerm, g0, list, i);
    assert list[i] in AsNodes(list);
  }

  /** The loop over the children comes to the turn of their node. */
  lemma TurnMade(childPerm: ChildPerm, g: Graph, g': Graph, n: NodeId)
    requires Consistent(g) && n in g.nodes && g.nodes[n].info.hasDriver && SameOutside(g, g', g.nodes[n].children)
    requires forall c :: c in g.nodes[n].children ==>
             HasPerms(childPerm, g, g', n, c, CumulativePerm(g, n), CumulativeShared(g, n))
    ensures g' == Turn(childPerm, g, n)
  {
    var t := Turn(childPerm, g, n);
    forall e | e in g.edges
      ensures g'.edges[e] == t.edges[e]
    {
      assert SameButPerms(g.edges[e], g'.edges[e]);
      if e in g.nodes[n].children {
        assert HasPerms(childPerm, g, g', n, e, CumulativePerm(g, n), CumulativeShared(g, n));
      }
    }
    assert g'.edges == t.edges;
  }

  lemma NoTurn(childPerm: ChildPerm, g: Graph, n: NodeId)
    requires n in g.nodes && (!g.nodes[n].info.hasDriver || g.nodes[n].children == {})
    ensures Turn(childPerm, g, n) == g
  {
    assert Turn(childPerm, g, n).edges == g.edges;
  }

  // ----- the permissions that the pass leaves -----

  /** In g' the nodes have given their children what they compute from what g' asks of them;
      no other edge differs from g. */
  ghost predicate Assigned(childPerm: ChildPerm, g: Graph, g': Graph, nodes: set<NodeId>) {
    && PermsOnly(g, g')
    && (forall n, c :: n in nodes && GivenBy(g, n, c) ==> c in g'.edges && ChildSettled(childPerm, g', n, c))
    && (forall e :: e in g.edges && (forall n :: n in nodes ==> !GivenBy(g, n, e)) ==> g'.edges[e] == g.edges[e])
  }

  /** The edges that no node from the i-th on gives permissions to. */
  ghost predicate Final(g: Graph, list: seq<NodeId>, i: nat, e: EdgeId)
    requires i <= |list|
  {
    forall j :: i <= j < |list| ==> !GivenBy(g, list[j], e)
  }

  lemma ParentsAreFinal(g: Graph, list: seq<NodeId>, i: nat, p: EdgeId)
    requires InOrder(g, list) && i < |list| && p in g.nodes[list[i]].parents
    ensures Final(g, list, i, p)
  {
    forall j | i <= j < |list|
      ensures !GivenBy(g, list[j], p)
    {
      LaterTurnsAreAway(g, list, i, j, p);
    }
  }

  lemma NeverGiven(g: Graph, list: seq<NodeId>, e: EdgeId)
    requires Final(g, list, 0, e)
    ensures forall n :: n in AsNodes(list) ==> !GivenBy(g, n, e)
  {
    forall n | n in AsNodes(list)
      ensures !GivenBy(g, n, e)
    {
      var j :| 0 <= j < |list| && list[j] == n;
    }
  }

  lemma SameGiven(childPerm: ChildPerm, g: Graph, g1: Graph, g2: Graph, n: NodeId, e: EdgeId)
    requires PermsOnly(g, g1) && PermsOnly(g, g2) && n in g.nodes && e in g.edges && ChildSettled(childPerm, g2, n, e)
    requires CumulativePerm(g1, n) == CumulativePerm(g2, n) && CumulativeShared(g1, n) == CumulativeShared(g2, n)
    ensures GivenEdge(childPerm, g1, n, e) == g2.edges[e]
  {
    assert SameButPerms(g.edges[e], g1.edges[e]) && SameButPerms(g.edges[e], g2.edges[e]);
  }

  ghost predicate Same(g: Graph, g': Graph, e: EdgeId) {
    e in g.edges && e in g'.edges && g.edges[e] == g'.edges[e]
  }

  /** The step: n gives e what it gives it in g', because it is asked for the same. */
  lemma GivenTheSame(childPerm: ChildPerm, g: Graph, g': Graph, before: Graph, nodes: set<NodeId>, n: NodeId, e: EdgeId)
    requires Consistent(g) && Assigned(childPerm, g, g', nodes) && PermsOnly(g, before) && n in nodes && e in g.edges
    requires if GivenBy(g, n, e) then forall p :: p in g.nodes[n].parents ==>
             Same(before, g', p) else Same(before, g', e)
    ensures Same(Turn(childPerm, before, n), g', e)
  {
    if GivenBy(g, n, e) {
      assert NodeOk(g, n);
      SameParentsFit(before, g', n);
      SameGiven(childPerm, g, before, g', n, e);
    }
  }

  lemma {:induction false} OnlyAssignmentSoFar(childPerm: ChildPerm, g: Graph, g': Graph, list: seq<NodeId>, k: nat,
                                               e: EdgeId)
    requires InOrder(g, list) && k <= |list| && Assigned(childPerm, g, g', AsNodes(list)) && e in g.edges &&
             Final(g, list, k, e)
    ensures Same(Turns(childPerm, g, list, k), g', e)
    decreases k, 0
  {
    if k == 0 {
      NeverGiven(g, list, e);
    } else {
      var n, before := list[k - 1], Turns(childPerm, g, list, k - 1);
      assert n in AsNodes(list);
      if !GivenBy(g, n, e) {
        OnlyAssignmentSoFar(childPerm, g, g', list, k - 1, e);
      } else {
        OnlyAssignmentOfParents(childPerm, g, g', list, k - 1);
      }
      TurnsChangePerms(childPerm, g, list, k - 1);
      GivenTheSame(childPerm, g, g', before, AsNodes(list), n, e);
    }
  }

  lemma {:induction false} OnlyAssignmentOfParents(childPerm: ChildPerm, g: Graph, g': Graph, list: seq<NodeId>, k: nat)
    requires InOrder(g, list) && k < |list| && Assigned(childPerm, g, g', AsNodes(list))
    ensures forall p :: p in g.nodes[list[k]].parents ==> Same(Turns(childPerm, g, list, k), g', p)
    decreases k, 1
  {
    assert NodeOk(g, list[k]);
    forall p | p in g.nodes[list[k]].parents
      ensures Same(Turns(childPerm, g, list, k), g', p)
    {
      ParentsAreFinal(g, list, k, p);
      OnlyAssignmentSoFar(childPerm, g, g', list, k, p);
    }
  }

  /** Only one assignment of permissions fits together, in whatever order the nodes are visited. */
  lemma OnlyOneAssignment(childPerm: ChildPerm, g: Graph, g': Graph, list: seq<NodeId>)
    requires InOrder(g, list) && Assigned(childPerm, g, g', AsNodes(list))
    ensures g' == Turns(childPerm, g, list, |list|)
  {
    var spread := Turns(childPerm, g, list, |list|);
    TurnsChangePerms(childPerm, g, list, |list|);
    forall e | e in g.edges
      ensures spread.edges[e] == g'.edges[e]
    {
      OnlyAssignmentSoFar(childPerm, g, g', list, |list|, e);
    }
    assert spread.edges == g'.edges;
  }

  /** What the pass leaves is such an assignment. */
  lemma PassAssigns(childPerm: ChildPerm, g: Graph, list: seq<NodeId>)
    requires InOrder(g, list)
    ensures Assigned(childPerm, g, Turns(childPerm, g, list, |list|), AsNodes(list))
  {
    var spread := Turns(childPerm, g, list, |list|);
    TurnsChangePerms(childPerm, g, list, |list|);
    forall n, c | n in AsNodes(list) && GivenBy(g, n, c)
      ensures c in spread.edges && ChildSettled(childPerm, spread, n, c)
    {
      var i :| 0 <= i < |list| && list[i] == n;
      GivenAtItsTurn(childPerm, g, list, i, c);
    }
    forall e | e in g.edges && forall n :: n in AsNodes(list) ==> !GivenBy(g, n, e)
      ensures spread.edges[e] == g.edges[e]
    {
      NotGiven(childPerm, g, list, |list|, e);
    }
  }

  lemma {:induction false} NotGiven(childPerm: ChildPerm, g: Graph, list: seq<NodeId>, k: nat, e: EdgeId)
    requires k <= |list| && e in g.edges && forall n :: n in AsNodes(list) ==> !GivenBy(g, n, e)
    ensures e in Turns(childPerm, g, list, k).edges && Turns(childPerm, g, list, k).edges[e] == g.edges[e]
  {
    if k > 0 {
      NotGiven(childPerm, g, list, k - 1, e);
      TurnsChangePerms(childPerm, g, list, k - 1);
      assert list[k - 1] in AsNodes(list);
    }
  }

  /** An edge has one owner, so it gets permissions once. */
  lemma {:induction false} GivenOnce(childPerm: ChildPerm, g: Graph, list: seq<NodeId>, i: nat, k: nat, c: EdgeId)
    requires InOrder(g, list) && i < k <= |list| && GivenBy(g, list[i], c)
    ensures c in g.edges && c in Turns(childPerm, g, list, i + 1).edges && c in Turns(childPerm, g, list, k).edges
    ensures Turns(childPerm, g, list, k).edges[c] == Turns(childPerm, g, list, i + 1).edges[c]
    decreases k
  {
    ChildLink(g, list[i], c);
    TurnsChangePerms(childPerm, g, list, i + 1);
    if k > i + 1 {
      GivenOnce(childPerm, g, list, i, k - 1, c);
      TurnsChangePerms(childPerm, g, list, k - 1);
      EarlierIsAway(g, list, i, k - 1);
    }
  }

  lemma GivenAtItsTurn(childPerm: ChildPerm, g: Graph, list: seq<NodeId>, i: nat, c: EdgeId)
    requires InOrder(g, list) && i < |list| && GivenBy(g, list[i], c)
    ensures c in Turns(childPerm, g, list, |list|).edges && list[i] in Turns(childPerm, g, list, |list|).nodes
    ensures ChildSettled(childPerm, Turns(childPerm, g, list, |list|), list[i], c)
  {
    var n, now, end := list[i], Turns(childPerm, g, list, i), Turns(childPerm, g, list, |list|);
    TurnsChangePerms(childPerm, g, list, i);
    TurnsChangePerms(childPerm, g, list, |list|);
    GivenOnce(childPerm, g, list, i, |list|, c);
    assert NodeOk(g, n);
    forall e | e in g.nodes[n].parents
      ensures e in now.edges && e in end.edges && now.edges[e] == end.edges[e]
    {
      ParentsKept(childPerm, g, list, i, |list|, e);
    }
    SameParentsFit(now, end, n);
    assert end.edges[c] == GivenEdge(childPerm, now, n, c);
    assert SameButPerms(g.edges[c], now.edges[c]) && SameButPerms(g.edges[c], end.edges[c]);
  }

  // ----- what an operation tried -----

  /** The graph with the change made, the same with all permissions passed on, and whether a
      driver refused. */
  datatype Attempt = Attempt(changed: Graph, spread: Graph, refused: bool)

  /** An operation whose change was possible ends well exactly if no driver refuses and every node
      in question fits the permissions that are passed on to it. */
  ghost predicate Tried(childPerm: ChildPerm, t: Attempt, nodes: set<NodeId>, ok: bool) {
    && Consistent(t.changed) && Assigned(childPerm, t.changed, t.spread, nodes)
    && (ok <==> !t.refused && AllFit(t.spread, nodes))
  }

  /** The same for everything below one node, which list holds in order. */
  ghost predicate TriedBelow(childPerm: ChildPerm, t: Attempt, list: seq<NodeId>, bs: NodeId, ok: bool) {
    && InOrder(t.changed, list) && AsNodes(list) == Below(t.changed, bs)
    && t.spread == Turns(childPerm, t.changed, list, |list|) && Tried(childPerm, t, Below(t.changed, bs), ok)
  }

  lemma TriedOver(childPerm: ChildPerm, g: Graph, g': Graph, list: seq<NodeId>, ok: bool, refused: bool)
    requires InOrder(g, list) && Verdict(childPerm, g, g', list, ok, refused)
    ensures var spread := Turns(childPerm, g, list, |list|);
            Tried(childPerm, Attempt(g, spread, refused), AsNodes(list), ok) && (ok ==> g' == spread)
  {
    PassAssigns(childPerm, g, list);
  }

  lemma ListIsBelow(g: Graph, list: seq<NodeId>, bs: NodeId)
    requires Consistent(g) && bs in g.nodes && forall n :: n in list <==> Reach(LinksOf(g), bs, n)
    ensures AsNodes(list) == Below(g, bs)
  {
    BelowAreNodes(g, bs);
  }

  lemma TriedBelowOne(childPerm: ChildPerm, g: Graph, g': Graph, list: seq<NodeId>, bs: NodeId, ok: bool, refused: bool)
    requires InOrder(g, list) && bs in g.nodes && Verdict(childPerm, g, g', list, ok, refused)
    requires forall n :: n in list <==> Reach(LinksOf(g), bs, n)
    ensures var t := Attempt(g, Turns(childPerm, g, list, |list|), refused);
            TriedBelow(childPerm, t, list, bs, ok) && (ok ==> g' == t.spread)
  {
    TriedOver(childPerm, g, g', list, ok, refused);
    ListIsBelow(g, list, bs);
  }

  lemma ListIsBelowBoth(g: Graph, list: seq<NodeId>, a: NodeId, b: NodeId)
    requires Consistent(g) && a in g.nodes && b in g.nodes
    requires forall n :: n in list <==> exists r :: r in [a, b] && Reach(LinksOf(g), r, n)
    ensures AsNodes(list) == Below(g, a) + Below(g, b)
  {
    BelowAreNodes(g, a);
    BelowAreNodes(g, b);
    assert a in [a, b] && b in [a, b];
  }

  // ----- loosening -----

  ghost predicate AllSettledIn(childPerm: ChildPerm, g: Graph, nodes: set<NodeId>) {
    forall n :: n in nodes ==> n in g.nodes && Settled(childPerm, g, n)
  }

  lemma TurnKeepsLooser(childPerm: ChildPerm, g0: Graph, g: Graph, n: NodeId)
    requires Consistent(g0) && Monotone(childPerm) && Looser(g0, g) && n in g0.nodes && Settled(childPerm, g0, n)
    ensures Looser(g0, Turn(childPerm, g, n))
  {
    var t := Turn(childPerm, g, n);
    forall e | e in t.edges
      ensures LooserEdge(g0.edges[e], t.edges[e])
    {
      assert LooserEdge(g0.edges[e], g.edges[e]);
      if GivenBy(g, n, e) {
        ChildHasClass(g0, n, e);
        assert ChildSettled(childPerm, g0, n, e);
        LooseningGoesDown(childPerm, g0, g, n, e);
      }
    }
  }

  lemma {:induction false} TurnsKeepLooser(childPerm: ChildPerm, g0: Graph, g: Graph, list: seq<NodeId>, k: nat)
    requires Consistent(g0) && Monotone(childPerm) && Looser(g0, g) && k <= |list| &&
             AllSettledIn(childPerm, g0, AsNodes(list))
    ensures Looser(g0, Turns(childPerm, g, list, k))
  {
    if k > 0 {
      TurnsKeepLooser(childPerm, g0, g, list, k - 1);
      assert list[k - 1] in AsNodes(list);
      TurnKeepsLooser(childPerm, g0, Turns(childPerm, g, list, k - 1), list[k - 1]);
    }
  }

  /** A writer of n is left without the permission to resize it, and its size is not aligned. */
  predicate LeftUnaligned(g: Graph, n: NodeId)
    requires n in g.nodes
  {
    Writes(CumulativePerm(g, n)) && Resize !in CumulativePerm(g, n) && !g.nodes[n].info.sizeAligned
  }

  ghost predicate NoneUnaligned(g: Graph, nodes: set<NodeId>) {
    forall n :: n in nodes && n in g.nodes ==> !LeftUnaligned(g, n)
  }

  /** With monotone drivers and a settled graph to start from, an unaligned size is all that a
      loosening can run into, over the whole pass. */
  lemma LooseningFits(childPerm: ChildPerm, g0: Graph, g: Graph, list: seq<NodeId>)
    requires Consistent(g0) && Monotone(childPerm) && Looser(g0, g) && AllSettledIn(childPerm, g0, AsNodes(list))
    ensures var spread := Turns(childPerm, g, list, |list|);
            AllFit(spread, AsNodes(list)) <==> NoneUnaligned(spread, AsNodes(list))
  {
    var spread := Turns(childPerm, g, list, |list|);
    TurnsKeepLooser(childPerm, g0, g, list, |list|);
    forall n | n in AsNodes(list)
      ensures n in spread.nodes && (Fits(spread, n) <==> !LeftUnaligned(spread, n))
    {
      LooseningHasNoConflict(childPerm, g0, spread, n);
    }
  }

  // ----- setting the permissions of one edge -----

  /** In spread the edge has its new permissions, and everything below it passes on what follows. */
  ghost predicate IsSpread(childPerm: ChildPerm, g: Graph, spread: Graph, c: EdgeId, perm: Perms, shared: Perms) {
    c in g.edges && g.edges[c].bs.Some? &&
        Assigned(childPerm, WithPerm(g, c, perm, shared), spread, Below(g, g.edges[c].bs.value))
  }

  /** Drivers are monotone, everything below the edge is settled, and nothing more is asked of it. */
  ghost predicate MonotoneLoosening(childPerm: ChildPerm, g: Graph, c: EdgeId, perm: Perms, shared: Perms) {
    && Monotone(childPerm) && c in g.edges && g.edges[c].bs.Some? &&
        AllSettledIn(childPerm, g, Below(g, g.edges[c].bs.value))
    && perm <= g.edges[c].perm && g.edges[c].shared <= shared
  }

  predicate AllAligned(g: Graph, nodes: set<NodeId>) {
    forall n :: n in nodes && n in g.nodes ==> g.nodes[n].info.sizeAligned
  }

  lemma SortedBelow(g: Graph, list: seq<NodeId>, c: EdgeId, perm: Perms, shared: Perms)
    requires Consistent(g) && Acyclic(LinksOf(g)) && c in g.edges && g.edges[c].bs.Some? && Sorted(LinksOf(g), list)
    requires forall n :: n in list <==> Reach(LinksOf(g), g.edges[c].bs.value, n)
    ensures AsNodes(list) == Below(g, g.edges[c].bs.value)
    ensures InOrder(WithPerm(g, c, perm, shared), list)
  {
    assert EdgeOk(g, c);
    BelowAreNodes(g, g.edges[c].bs.value);
    PermIsPermsOnly(g, c, perm, shared);
    PermsOnlyKeepsConsistent(g, WithPerm(g, c, perm, shared));
  }

  lemma SpreadAssigned(childPerm: ChildPerm, g: Graph, list: seq<NodeId>, c: EdgeId, perm: Perms, shared: Perms)
    requires c in g.edges && g.edges[c].bs.Some? && AsNodes(list) == Below(g, g.edges[c].bs.value)
    requires InOrder(WithPerm(g, c, perm, shared), list)
    ensures IsSpread(childPerm, g, Turns(childPerm, WithPerm(g, c, perm, shared), list, |list|), c, perm, shared)
  {
    PassAssigns(childPerm, WithPerm(g, c, perm, shared), list);
  }

  lemma SpreadFits(childPerm: ChildPerm, g: Graph, list: seq<NodeId>, c: EdgeId, perm: Perms, shared: Perms)
    requires Consistent(g) && MonotoneLoosening(childPerm, g, c, perm, shared) &&
             AsNodes(list) == Below(g, g.edges[c].bs.value)
    ensures var spread := Turns(childPerm, WithPerm(g, c, perm, shared), list, |list|);
            AllFit(spread, AsNodes(list)) <==> NoneUnaligned(spread, AsNodes(list))
  {
    var g1 := WithPerm(g, c, perm, shared);
    assert Looser(g, g1);
    LooseningFits(childPerm, g, g1, list);
  }

  /** There is one way only to pass the permissions of an edge on. */
  lemma SpreadIsUnique(childPerm: ChildPerm, g: Graph, s1: Graph, s2: Graph, list: seq<NodeId>, c: EdgeId, perm: Perms,
                       shared: Perms)
    requires Consistent(g) && Acyclic(LinksOf(g)) && c in g.edges && g.edges[c].bs.Some? && Sorted(LinksOf(g), list)
    requires forall n :: n in list <==> Reach(LinksOf(g), g.edges[c].bs.value, n)
    requires IsSpread(childPerm, g, s1, c, perm, shared) && IsSpread(childPerm, g, s2, c, perm, shared)
    ensures s1 == s2
  {
    SortedBelow(g, list, c, perm, shared);
    OnlyOneAssignment(childPerm, WithPerm(g, c, perm, shared), s1, list);
    OnlyOneAssignment(childPerm, WithPerm(g, c, perm, shared), s2, list);
  }

  /** Node 0 over node 1, both used from outside. */
  ghost function TwoNodes(): Graph {
    var info := Info(true, false, false, false, true, true, false, false, true, false, false);
    var role := Role(true, false, false, false, false);
    Graph(
      map[0 := Node(info, {1}, {0}, None, None, None), 1 := Node(info, {}, {1, 2}, None, None, None)],
      map[0 := Edge(Outside(false), Some(0), role, {Write}, ALL_PERMS, false),
          1 := Edge(NodeParent(0), Some(1), role, {}, ALL_PERMS, false),
          2 := Edge(Outside(false), Some(1), role, {ConsistentRead}, {ConsistentRead}, false)])
  }

  /** A driver that asks its child for more when less is asked of it. */
  function Contrary(n: NodeId, c: Option<EdgeId>, role: Role, perm: Perms, shared: Perms): (Perms, Perms) {
    (if Write in perm then {} else {Write}, ALL_PERMS)
  }

  lemma TwoNodesInOrder()
    ensures InOrder(TwoNodes(), [0, 1])
  {
    var g := TwoNodes();
    assert forall e :: e in g.edges ==> EdgeOk(g, e);
    assert forall n :: n in g.nodes ==> NodeOk(g, n);
    assert LinksOf(g) == {(0, 1)} by {
      LinkOfEdge(g, 1);
    }
    if Reach(LinksOf(g), 1, 0) {
      var v := ReachFirst(LinksOf(g), 1, 0);
    }
    assert [0, 1][1..] == [1];
    assert Sorted(LinksOf(g), [1]);
  }

  lemma TwoNodesSettled()
    ensures AllSettledIn(Contrary, TwoNodes(), {0, 1})
  {
    var g := TwoNodes();
    assert Write in g.edges[0].perm;
    assert Write in CumulativePerm(g, 0);
    assert ChildSettled(Contrary, g, 0, 1);
    assert Settled(Contrary, g, 0);
    assert Settled(Contrary, g, 1);
  }

  lemma TwoNodesConflict(g: Graph)
    requires g == WithPerm(TwoNodes(), 0, {}, ALL_PERMS)
    ensures !AllFit(Turns(Contrary, g, [0, 1], 2), {0, 1})
  {
    var g1, g2 := Turns(Contrary, g, [0, 1], 1), Turns(Contrary, g, [0, 1], 2);
    assert g1 == Turn(Contrary, Turns(Contrary, g, [0, 1], 0), 0);
    assert g2 == Turn(Contrary, g1, 1);
    assert GivenBy(g, 0, 1) && Write !in CumulativePerm(g, 0);
    assert g1.edges[1].perm == {Write};
    assert g2.edges[1] == g1.edges[1] && g2.edges[2].shared == {ConsistentRead};
    assert !Allows(g2.edges[2], g2.edges[1]);
    assert !Fits(g2, 1);
  }

  /** Without monotone drivers a loosening in a settled graph, all sizes aligned, can make two
      users of a child conflict. */
  lemma LooseningMayConflict()
    ensures InOrder(TwoNodes(), [0, 1]) && AllSettledIn(Contrary, TwoNodes(), {0, 1})
    ensures TwoNodes().nodes[0].info.sizeAligned && TwoNodes().nodes[1].info.sizeAligned
    ensures var g := WithPerm(TwoNodes(), 0, {}, ALL_PERMS);
            Looser(TwoNodes(), g) && !AllFit(Turns(Contrary, g, [0, 1], 2), {0, 1})
  {
    TwoNodesInOrder();
    TwoNodesSettled();
    TwoNodesConflict(WithPerm(TwoNodes(), 0, {}, ALL_PERMS));
  }
}
