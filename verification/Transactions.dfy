/**
  The records of a transaction on the block graph, and the reference counts that go with them:
  what can be undone, what a commit relies on, and why no reference is lost on the way.
*/
module Transactions {
  import opened Options
  import opened Digraph
  import opened BlockGraph
  import opened Permissions

  // ----- reference counts -----

  /** The reference held in a record: to the node that an edge was taken off. */
  function HeldIn(r: Record): multiset<NodeId> {
    if r.ReplaceChild? then Single(r.oldBs) else multiset{}
  }

  /** The references held in the records of an open transaction. */
  function HeldBy(log: seq<Record>): multiset<NodeId>
    decreases |log|
  {
    if log == [] then multiset{}
    else HeldIn(log[0]) + HeldBy(log[1..])
  }

  /** Reference counts, the unrefs that are scheduled but have not run, the references held by
      callers, and the next unused edge id. */
  datatype Books = Books(refcnt: map<NodeId, int>, scheduled: multiset<NodeId>, holders: multiset<NodeId>, next: EdgeId)

  /** Every reference is accounted for: by an edge, or by something else in pending. */
  ghost predicate RefsMatch(nodes: map<NodeId, Node>, refcnt: map<NodeId, int>, pending: multiset<NodeId>) {
    && refcnt.Keys == nodes.Keys
    && forall n :: n in nodes ==> refcnt[n] == |nodes[n].parents| + pending[n]
  }

  function OneIf(b: bool): int {
    if b then 1 else 0
  }

  function Single(bs: Option<NodeId>): multiset<NodeId> {
    if bs.Some? then multiset{bs.value} else multiset{}
  }

  function PlusOne(refcnt: map<NodeId, int>, bs: Option<NodeId>): map<NodeId, int> {
    if bs.Some? && bs.value in refcnt then refcnt[bs.value := refcnt[bs.value] + 1] else refcnt
  }

  function MinusOne(refcnt: map<NodeId, int>, bs: Option<NodeId>): map<NodeId, int> {
    if bs.Some? && bs.value in refcnt then refcnt[bs.value := refcnt[bs.value] - 1] else refcnt
  }

  /** An edge takes its reference with it when it moves. */
  lemma MoveCounts(g: Graph, e: EdgeId, to: Option<NodeId>, n: NodeId)
    requires Consistent(g) && CanMove(g, e, to) && n in g.nodes
    ensures |MoveEdge(g, e,
            to).nodes[n].parents| == |g.nodes[n].parents| - OneIf(g.edges[e].bs == Some(n)) + OneIf(to == Some(n))
  {
    assert EdgeOk(g, e) && NodeOk(g, n);
    var parents := g.nodes[n].parents;
    if g.edges[e].bs == Some(n) {
      assert parents == (parents - {e}) + {e};
    } else if to == Some(n) {
      assert e !in parents;
    }
  }

  lemma MoveKeepsRefs(g: Graph, e: EdgeId, to: Option<NodeId>, refcnt: map<NodeId, int>, pending: multiset<NodeId>,
                      refcnt': map<NodeId, int>, pending': multiset<NodeId>)
    requires Consistent(g) && CanMove(g, e, to) && RefsMatch(g.nodes, refcnt, pending) && refcnt'.Keys == refcnt.Keys
    requires forall n :: n in g.nodes ==>
             refcnt'[n] - pending'[n] == refcnt[n] - pending[n] - OneIf(g.edges[e].bs == Some(n)) + OneIf(to == Some(n))
    ensures RefsMatch(MoveEdge(g, e, to).nodes, refcnt', pending')
  {
    var nodes := MoveEdge(g, e, to).nodes;
    assert nodes.Keys == g.nodes.Keys;
    forall n | n in nodes
      ensures refcnt'[n] == |nodes[n].parents| + pending'[n]
    {
      MoveCounts(g, e, to, n);
    }
  }

  lemma HeldByRecord(r: Record, log: seq<Record>)
    ensures HeldBy([r] + log) == HeldIn(r) + HeldBy(log)
  {
    assert ([r] + log)[1..] == log;
  }

  /** Nothing but permissions was changed. */
  predicate PermRecords(log: seq<Record>) {
    forall r :: r in log ==> r.SetPerm? || r.DriverPerm?
  }

  lemma {:induction false} PermRecordsHoldNothing(log: seq<Record>)
    requires PermRecords(log)
    ensures HeldBy(log) == multiset{}
    decreases |log|
  {
    if log != [] {
      assert log[0] in log;
      PermRecordsHoldNothing(log[1..]);
    }
  }

  // ----- what a commit relies on -----

  /** The edges that a commit frees point nowhere and are freed once. */
  ghost predicate CommitOk(g: Graph, log: seq<Record>) {
    && (forall i :: 0 <= i < |log| && log[i].RemoveChild? ==> log[i].e in g.edges && g.edges[log[i].e].bs == None)
    && (forall i, j :: 0 <= i < j < |log| && log[i].RemoveChild? && log[j].RemoveChild? ==> log[i].e != log[j].e)
  }

  /** The edges a commit frees. */
  ghost function Removed(log: seq<Record>): set<EdgeId> {
    set i | 0 <= i < |log| && log[i].RemoveChild? :: log[i].e
  }

  lemma RemovedRecord(r: Record, log: seq<Record>)
    ensures Removed([r] + log) == Removed(log) + (if r.RemoveChild? then {r.e} else {})
  {
    var log' := [r] + log;
    forall e | e in Removed(log)
      ensures e in Removed(log')
    {
      var i :| 0 <= i < |log| && log[i].RemoveChild? && log[i].e == e;
      assert log'[i + 1] == log[i];
    }
    forall e | e in Removed(log')
      ensures e in Removed(log) || (r.RemoveChild? && e == r.e)
    {
      var i :| 0 <= i < |log'| && log'[i].RemoveChild? && log'[i].e == e;
      if i > 0 {
        assert log[i - 1] == log'[i];
      }
    }
    assert log'[0] == r;
  }

  lemma CommitOkGrows(g: Graph, g': Graph, r: Record, log: seq<Record>)
    requires CommitOk(g, log) && !r.RemoveChild?
    requires forall e :: e in g.edges && g.edges[e].bs == None ==> e in g'.edges && g'.edges[e].bs == None
    ensures CommitOk(g', [r] + log)
  {
  }

  lemma NotRemovedYet(g: Graph, e: EdgeId, log: seq<Record>)
    requires CommitOk(g, log) && e in g.edges && g.edges[e].bs.Some?
    ensures forall i :: 0 <= i < |log| && log[i].RemoveChild? ==> log[i].e != e
  {
  }

  /** Ids of edges are not used again. */
  ghost predicate IdsBelow(g: Graph, next: EdgeId) {
    forall e :: e in g.edges ==> e < next
  }

  /** The graph without the edges that a commit frees. */
  ghost function Freed(g: Graph, gone: set<EdgeId>): Graph {
    g.(edges := g.edges - gone)
  }

  lemma FreeKeepsConsistent(g: Graph, gone: set<EdgeId>)
    requires Consistent(g) && forall e :: e in gone && e in g.edges ==> g.edges[e].bs == None
    ensures Consistent(Freed(g, gone))
  {
    var g' := Freed(g, gone);
    forall f | f in g'.edges
      ensures EdgeOk(g', f)
    {
      assert EdgeOk(g, f);
    }
    forall n | n in g'.nodes
      ensures NodeOk(g', n)
    {
      assert NodeOk(g, n);
      forall e | e in g.nodes[n].children
        ensures Attached(g', e, n)
      {
        assert Attached(g, e, n);
      }
    }
  }

  lemma FreeKeepsLinks(g: Graph, gone: set<EdgeId>)
    requires forall e :: e in gone && e in g.edges ==> g.edges[e].bs == None
    ensures LinksOf(Freed(g, gone)) == LinksOf(g)
  {
    forall u, v | (u, v) in LinksOf(g)
      ensures (u, v) in LinksOf(Freed(g, gone))
    {
      var e := EdgeOfLink(g, u, v);
      LinkOfEdge(Freed(g, gone), e);
    }
  }

  lemma NothingRemoved(g: Graph, log: seq<Record>)
    requires Removed(log) == {}
    ensures Freed(g, Removed(log)) == g
  {
    assert g.edges - {} == g.edges;
  }

  // ----- the recorded steps -----

  /** What holds between the steps of a transaction: it can be undone and committed from here,
      and every reference is accounted for. */
  ghost predicate Tracked(g: Graph, b: Books, log: seq<Record>) {
    CanUndo(g, log) && CommitOk(g, log) && IdsBelow(g, b.next) &&
        RefsMatch(g.nodes, b.refcnt, HeldBy(log) + b.scheduled + b.holders)
  }

  /** An abort from here has the effect it had before, and a commit frees the same edges. */
  ghost predicate SameUndo(g0: Graph, g: Graph, log0: seq<Record>, log: seq<Record>) {
    Undo(g, log) == Undo(g0, log0) && Removed(log) == Removed(log0)
  }

  lemma ReplaceUndoable(g: Graph, e: EdgeId, to: Option<NodeId>, log: seq<Record>)
    requires CanUndo(g, log) && CanMoveBack(g, e, to)
    ensures CanUndo(MoveEdge(g, e, to), [ReplaceChild(e, g.edges[e].bs)] + log)
    ensures Undo(MoveEdge(g, e, to), [ReplaceChild(e, g.edges[e].bs)] + log) == Undo(g, log)
  {
    MoveKeepsConsistent(g, e, to);
    MoveBack(g, e, to);
    MoveBackAllowed(g, e, to);
    LogGrows(g, MoveEdge(g, e, to), ReplaceChild(e, g.edges[e].bs), log);
  }

  lemma ReplaceCounted(g: Graph, e: EdgeId, to: Option<NodeId>, b: Books, log: seq<Record>)
    requires Consistent(g) && CanMove(g, e, to) && g.edges[e].bs.Some?
    requires RefsMatch(g.nodes, b.refcnt, HeldBy(log) + b.scheduled + b.holders)
    ensures RefsMatch(MoveEdge(g, e, to).nodes, PlusOne(b.refcnt, to),
            HeldBy([ReplaceChild(e, g.edges[e].bs)] + log) + b.scheduled + b.holders)
  {
    var r := ReplaceChild(e, g.edges[e].bs);
    HeldByRecord(r, log);
    MoveKeepsRefs(g, e, to, b.refcnt, HeldBy(log) + b.scheduled + b.holders, PlusOne(b.refcnt, to),
        HeldBy([r] + log) + b.scheduled + b.holders);
  }

  lemma ReplaceCommits(g: Graph, e: EdgeId, to: Option<NodeId>, next: EdgeId, log: seq<Record>)
    requires CommitOk(g, log) && IdsBelow(g, next) && e in g.edges && g.edges[e].bs.Some?
    ensures CommitOk(MoveEdge(g, e, to), [ReplaceChild(e, g.edges[e].bs)] + log) && IdsBelow(MoveEdge(g, e, to), next)
  {
    CommitOkGrows(g, MoveEdge(g, e, to), ReplaceChild(e, g.edges[e].bs), log);
  }

  lemma ReplaceTracked(g: Graph, e: EdgeId, to: Option<NodeId>, b: Books, log: seq<Record>)
    requires Tracked(g, b, log) && CanMoveBack(g, e, to) && g.edges[e].bs.Some?
    ensures Tracked(MoveEdge(g, e, to), b.(refcnt := PlusOne(b.refcnt, to)), [ReplaceChild(e, g.edges[e].bs)] + log)
    ensures Undo(MoveEdge(g, e, to), [ReplaceChild(e, g.edges[e].bs)] + log) == Undo(g, log)
  {
    ReplaceUndoable(g, e, to, log);
    ReplaceCounted(g, e, to, b, log);
    ReplaceCommits(g, e, to, b.next, log);
  }

  lemma PermTracked(g: Graph, c: EdgeId, perm: Perms, shared: Perms, b: Books, log: seq<Record>)
    requires Tracked(g, b, log) && c in g.edges
    ensures Tracked(WithPerm(g, c, perm, shared), b, [SetPerm(c, g.edges[c].perm, g.edges[c].shared)] + log)
    ensures Undo(WithPerm(g, c, perm, shared), [SetPerm(c, g.edges[c].perm, g.edges[c].shared)] + log) == Undo(g, log)
  {
    var r := SetPerm(c, g.edges[c].perm, g.edges[c].shared);
    var g' := WithPerm(g, c, perm, shared);
    PermUndone(g, c, perm, shared);
    PermsOnlyKeepsConsistent(g, g');
    LogGrows(g, g', r, log);
    CommitOkGrows(g, g', r, log);
    HeldByRecord(r, log);
  }

  lemma InheritsKeepsConsistent(g: Graph, n: NodeId, from: Option<NodeId>)
    requires Consistent(g) && n in g.nodes
    ensures Consistent(WithInherits(g, n, from)) && LinksOf(WithInherits(g, n, from)) == LinksOf(g)
  {
    var g' := WithInherits(g, n, from);
    forall e | e in g'.edges
      ensures EdgeOk(g', e)
    {
      assert EdgeOk(g, e);
    }
    forall m | m in g'.nodes
      ensures NodeOk(g', m)
    {
      assert NodeOk(g, m);
    }
  }

  lemma InheritsUndoable(g: Graph, n: NodeId, from: Option<NodeId>, log: seq<Record>)
    requires CanUndo(g, log) && n in g.nodes
    ensures CanUndo(WithInherits(g, n, from), [SetInheritsFrom(n, g.nodes[n].inheritsFrom)] + log)
    ensures Undo(WithInherits(g, n, from), [SetInheritsFrom(n, g.nodes[n].inheritsFrom)] + log) == Undo(g, log)
  {
    InheritsUndone(g, n, from);
    InheritsKeepsConsistent(g, n, from);
    LogGrows(g, WithInherits(g, n, from), SetInheritsFrom(n, g.nodes[n].inheritsFrom), log);
  }

  lemma InheritsCounted(g: Graph, n: NodeId, from: Option<NodeId>, refcnt: map<NodeId, int>, pending: multiset<NodeId>)
    requires n in g.nodes && RefsMatch(g.nodes, refcnt, pending)
    ensures RefsMatch(WithInherits(g, n, from).nodes, refcnt, pending)
  {
    var nodes := WithInherits(g, n, from).nodes;
    assert nodes.Keys == g.nodes.Keys;
    forall m | m in nodes
      ensures refcnt[m] == |nodes[m].parents| + pending[m]
    {
      assert nodes[m].parents == g.nodes[m].parents;
    }
  }

  lemma InheritsTracked(g: Graph, n: NodeId, from: Option<NodeId>, b: Books, log: seq<Record>)
    requires Tracked(g, b, log) && n in g.nodes
    ensures Tracked(WithInherits(g, n, from), b, [SetInheritsFrom(n, g.nodes[n].inheritsFrom)] + log)
    ensures Undo(WithInherits(g, n, from), [SetInheritsFrom(n, g.nodes[n].inheritsFrom)] + log) == Undo(g, log)
  {
    var r := SetInheritsFrom(n, g.nodes[n].inheritsFrom);
    var g' := WithInherits(g, n, from);
    InheritsUndoable(g, n, from, log);
    CommitOkGrows(g, g', r, log);
    HeldByRecord(r, log);
    InheritsCounted(g, n, from, b.refcnt, HeldBy(log) + b.scheduled + b.holders);
  }

  /** Records that change nothing themselves: a child to be freed, a driver's own permissions. */
  lemma NoteTracked(g: Graph, r: Record, b: Books, log: seq<Record>)
    requires Tracked(g, b, log) && (r.RemoveChild? || r.DriverPerm?)
    requires r.RemoveChild? ==> r.e in g.edges && g.edges[r.e].bs == None
    requires r.RemoveChild? ==> forall i :: 0 <= i < |log| && log[i].RemoveChild? ==> log[i].e != r.e
    ensures Tracked(g, b, [r] + log) && Undo(g, [r] + log) == Undo(g, log)
  {
    LogGrows(g, g, r, log);
    HeldByRecord(r, log);
  }

  lemma DriverNoted(g: Graph, bs: NodeId, b: Books, log: seq<Record>)
    requires Tracked(g, b, log)
    ensures Tracked(g, b, [DriverPerm(bs)] + log) && SameUndo(g, g, log, [DriverPerm(bs)] + log)
  {
    NoteTracked(g, DriverPerm(bs), b, log);
    RemovedRecord(DriverPerm(bs), log);
  }

  // ----- attaching -----

  /** The graph with a new edge e to the node to. */
  function WithChild(g: Graph, e: EdgeId, edge: Edge, to: NodeId): Graph {
    MoveEdge(WithEdge(g, e, edge), e, Some(to))
  }

  /** What bdrv_attach_child_common expects of its arguments. */
  predicate CanAttach(g: Graph, edge: Edge, to: NodeId, e: EdgeId) {
    && edge.bs == None && !edge.frozen && to in g.nodes && e !in g.edges
    && (edge.parent.NodeParent? ==>
          var p := edge.parent.node;
          p in g.nodes && HasClass(g.nodes[p].info) && RoleOk(g.nodes[p].info, edge.role) &&
              SlotFree(g.nodes[p], e, edge.role))
  }

  lemma AttachUndoable(g: Graph, e: EdgeId, edge: Edge, to: NodeId, log: seq<Record>)
    requires CanUndo(g, log) && CanAttach(g, edge, to, e)
    ensures CanUndo(WithChild(g, e, edge, to), [AttachChild(e)] + log)
    ensures Undo(WithChild(g, e, edge, to), [AttachChild(e)] + log) == Undo(g, log)
  {
    NewEdgeConsistent(g, e, edge);
    MoveKeepsConsistent(WithEdge(g, e, edge), e, Some(to));
    AttachUndone(g, e, edge, to);
    LogGrows(g, WithChild(g, e, edge, to), AttachChild(e), log);
  }

  lemma AttachCounted(g: Graph, e: EdgeId, edge: Edge, to: NodeId, b: Books, log: seq<Record>)
    requires Consistent(g) && CanAttach(g, edge, to, e) &&
             RefsMatch(g.nodes, b.refcnt, HeldBy(log) + b.scheduled + b.holders)
    ensures RefsMatch(WithChild(g, e, edge, to).nodes, PlusOne(b.refcnt, Some(to)),
            HeldBy([AttachChild(e)] + log) + b.scheduled + b.holders)
  {
    HeldByRecord(AttachChild(e), log);
    NewEdgeConsistent(g, e, edge);
    MoveKeepsRefs(WithEdge(g, e, edge), e, Some(to), b.refcnt, HeldBy(log) + b.scheduled + b.holders,
        PlusOne(b.refcnt, Some(to)), HeldBy(log) + b.scheduled + b.holders);
  }

  lemma AttachCommits(g: Graph, edge: Edge, to: NodeId, e: EdgeId, log: seq<Record>)
    requires CommitOk(g, log) && IdsBelow(g, e) && e !in g.edges
    ensures CommitOk(WithChild(g, e, edge, to), [AttachChild(e)] + log) && IdsBelow(WithChild(g, e, edge, to), e + 1)
  {
    CommitOkGrows(g, WithChild(g, e, edge, to), AttachChild(e), log);
  }

  lemma AttachTracked(g: Graph, edge: Edge, to: NodeId, b: Books, log: seq<Record>)
    requires Tracked(g, b, log) && CanAttach(g, edge, to, b.next)
    ensures Tracked(WithChild(g, b.next, edge, to), b.(next := b.next + 1, refcnt := PlusOne(b.refcnt, Some(to))),
            [AttachChild(b.next)] + log)
    ensures Undo(WithChild(g, b.next, edge, to), [AttachChild(b.next)] + log) == Undo(g, log)
  {
    AttachUndoable(g, b.next, edge, to, log);
    AttachCounted(g, b.next, edge, to, b, log);
    AttachCommits(g, edge, to, b.next, log);
  }

  lemma AttachLinks(g: Graph, e: EdgeId, edge: Edge, to: NodeId)
    requires CanAttach(g, edge, to, e)
    ensures LinksOf(WithChild(g, e, edge, to)) == LinksOf(g) + (if edge.parent.NodeParent?
            then {(edge.parent.node, to)} else {})
  {
    var g' := WithChild(g, e, edge, to);
    forall u, v | (u, v) in LinksOf(g')
      ensures (u, v) in LinksOf(g) || (edge.parent == NodeParent(u) && v == to)
    {
      var f := EdgeOfLink(g', u, v);
      if f != e {
        LinkOfEdge(g, f);
      }
    }
    forall u, v | (u, v) in LinksOf(g)
      ensures (u, v) in LinksOf(g')
    {
      var f := EdgeOfLink(g, u, v);
      LinkOfEdge(g', f);
    }
    if edge.parent.NodeParent? {
      LinkOfEdge(g', e);
    }
  }

  // ----- abort and commit -----

  /** What the abort action of a record does to the reference counts. */
  function UndoBooks(g: Graph, r: Record, b: Books): Books {
    if r.ReplaceChild? && r.e in g.edges then b.(refcnt := MinusOne(b.refcnt, g.edges[r.e].bs))
    else if r.AttachChild? && r.e in g.edges then b.(scheduled := b.scheduled + Single(g.edges[r.e].bs))
    else b
  }

  lemma UndoReplaceCounted(g: Graph, r: Record, b: Books, rest: seq<Record>)
    requires Consistent(g) && r.ReplaceChild? && CanMove(g, r.e, r.oldBs)
    requires RefsMatch(g.nodes, b.refcnt, HeldBy([r] + rest) + b.scheduled + b.holders)
    ensures RefsMatch(UndoOne(g, r).nodes, UndoBooks(g, r, b).refcnt, HeldBy(rest) + b.scheduled + b.holders)
  {
    HeldByRecord(r, rest);
    assert EdgeOk(g, r.e);
    MoveKeepsRefs(g, r.e, r.oldBs, b.refcnt, HeldBy([r] + rest) + b.scheduled + b.holders, UndoBooks(g, r, b).refcnt,
        HeldBy(rest) + b.scheduled + b.holders);
  }

  lemma UndoAttachCounted(g: Graph, r: Record, b: Books, rest: seq<Record>)
    requires Consistent(g) && r.AttachChild? && CanMove(g, r.e, None)
    requires RefsMatch(g.nodes, b.refcnt, HeldBy([r] + rest) + b.scheduled + b.holders)
    ensures RefsMatch(UndoOne(g, r).nodes, b.refcnt, HeldBy(rest) + UndoBooks(g, r, b).scheduled + b.holders)
  {
    HeldByRecord(r, rest);
    assert EdgeOk(g, r.e);
    MoveKeepsRefs(g, r.e, None, b.refcnt, HeldBy([r] + rest) + b.scheduled + b.holders, b.refcnt,
        HeldBy(rest) + UndoBooks(g, r, b).scheduled + b.holders);
  }

  /** Undoing a record returns the reference that the record held or that the edge took. */
  lemma UndoCounted(g: Graph, r: Record, b: Books, rest: seq<Record>)
    requires Consistent(g) && CanUndoOne(g, r) &&
             RefsMatch(g.nodes, b.refcnt, HeldBy([r] + rest) + b.scheduled + b.holders)
    ensures var b' := UndoBooks(g, r, b);
            RefsMatch(UndoOne(g, r).nodes, b'.refcnt, HeldBy(rest) + b'.scheduled + b'.holders)
  {
    if r.ReplaceChild? {
      UndoReplaceCounted(g, r, b, rest);
    } else if r.AttachChild? {
      UndoAttachCounted(g, r, b, rest);
    } else {
      HeldByRecord(r, rest);
      if r.SetInheritsFrom? {
        InheritsCounted(g, r.bs, r.oldFrom, b.refcnt, HeldBy(rest) + b.scheduled + b.holders);
      }
    }
  }

  /** A node that an edge points to has a reference to give back. */
  lemma TargetIsReferenced(g: Graph, e: EdgeId, refcnt: map<NodeId, int>, pending: multiset<NodeId>)
    requires Consistent(g) && e in g.edges && g.edges[e].bs.Some? && RefsMatch(g.nodes, refcnt, pending)
    ensures g.edges[e].bs.value in refcnt && refcnt[g.edges[e].bs.value] > 0
  {
    assert EdgeOk(g, e);
    assert e in g.nodes[g.edges[e].bs.value].parents;
  }

  /** A commit hands the references in the records to the unref queue. */
  function CommitBooks(b: Books, log: seq<Record>): Books {
    b.(scheduled := b.scheduled + HeldBy(log))
  }

  lemma {:induction false} HeldByLast(log: seq<Record>, r: Record)
    ensures HeldBy(log + [r]) == HeldBy(log) + HeldIn(r)
    decreases |log|
  {
    if log == [] {
      assert [r][1..] == [] && log + [r] == [r];
    } else {
      assert (log + [r])[1..] == log[1..] + [r];
      HeldByLast(log[1..], r);
    }
  }

  lemma CommitCounted(b: Books, log: seq<Record>, i: nat)
    requires i < |log|
    ensures var b' := CommitBooks(b, log[..i]);
            CommitBooks(b, log[..i + 1]) == b'.(scheduled := b'.scheduled + HeldIn(log[i]))
  {
    assert log[..i + 1] == log[..i] + [log[i]];
    HeldByLast(log[..i], log[i]);
  }

  lemma CommitProgress(g0: Graph, g: Graph, log: seq<Record>, i: nat)
    requires CommitOk(g0, log) && i < |log| && g == Freed(g0, Removed(log[..i]))
    ensures log[i].RemoveChild? ==> log[i].e in g.edges && g.edges[log[i].e].bs == None
    ensures CommitOne(g, log[i]) == Freed(g0, Removed(log[..i + 1]))
  {
    var r := log[i];
    assert Removed(log[..i + 1]) == Removed(log[..i]) + (if r.RemoveChild? then {r.e} else {}) by {
      forall e | e in Removed(log[..i + 1])
        ensures e in Removed(log[..i]) || (r.RemoveChild? && e == r.e)
      {
        var j :| 0 <= j < |log[..i + 1]| && log[..i + 1][j].RemoveChild? && log[..i + 1][j].e == e;
        assert j < i ==> log[..i][j] == log[j];
      }
      forall e | e in Removed(log[..i])
        ensures e in Removed(log[..i + 1])
      {
        var j :| 0 <= j < |log[..i]| && log[..i][j].RemoveChild? && log[..i][j].e == e;
        assert log[..i + 1][j] == log[j];
      }
      assert log[..i + 1][i] == r;
    }
  }

  // ----- references from outside -----

  lemma HandOver(g: Graph, b: Books, bs: NodeId)
    requires Tracked(g, b, []) && b.holders[bs] > 0
    ensures Tracked(g, b.(holders := b.holders - multiset{bs}, scheduled := b.scheduled + multiset{bs}), [])
  {
    assert b.scheduled + multiset{bs} + (b.holders - multiset{bs}) == b.scheduled + b.holders;
  }

  lemma UnrefTracked(g: Graph, b: Books, bs: NodeId)
    requires Tracked(g, b, []) && b.scheduled[bs] > 0 && bs in g.nodes
    ensures bs in b.refcnt && b.refcnt[bs] > 0
    ensures Tracked(g, b.(scheduled := b.scheduled - multiset{bs}, refcnt := MinusOne(b.refcnt, Some(bs))), [])
  {
    var b' := b.(scheduled := b.scheduled - multiset{bs}, refcnt := MinusOne(b.refcnt, Some(bs)));
    forall n | n in g.nodes
      ensures b'.refcnt[n] == |g.nodes[n].parents| + (HeldBy([]) + b'.scheduled + b'.holders)[n]
    {
    }
  }

  function WithoutEdge(g: Graph, e: EdgeId): Graph
    requires e in g.edges
  {
    var g' := MoveEdge(g, e, None);
    g'.(edges := g'.edges - {e})
  }

  lemma LinksShrink(g: Graph, g': Graph)
    requires Acyclic(LinksOf(g)) && g'.edges.Keys <= g.edges.Keys
    requires forall e :: e in g'.edges ==>
             g'.edges[e].parent == g.edges[e].parent && (g'.edges[e].bs == None || g'.edges[e].bs == g.edges[e].bs)
    ensures Acyclic(LinksOf(g'))
  {
    forall x | x in LinksOf(g')
      ensures x in LinksOf(g)
    {
      var f := EdgeOfLink(g', x.0, x.1);
      LinkOfEdge(g, f);
    }
    AcyclicMono(LinksOf(g'), LinksOf(g));
  }

  lemma ChildUnrefCounted(g: Graph, e: EdgeId, b: Books)
    requires Consistent(g) && CanMove(g, e, None) && RefsMatch(g.nodes, b.refcnt, HeldBy([]) + b.scheduled + b.holders)
    ensures RefsMatch(WithoutEdge(g, e).nodes, b.refcnt, HeldBy([]) + (b.scheduled + Single(g.edges[e].bs)) + b.holders)
  {
    MoveKeepsRefs(g, e, None, b.refcnt, HeldBy([]) + b.scheduled + b.holders, b.refcnt,
        HeldBy([]) + (b.scheduled + Single(g.edges[e].bs)) + b.holders);
  }

  lemma ChildUnrefTracked(g: Graph, e: EdgeId, b: Books)
    requires Tracked(g, b, []) && Acyclic(LinksOf(g)) && CanMove(g, e, None)
    ensures Tracked(WithoutEdge(g, e), b.(scheduled := b.scheduled + Single(g.edges[e].bs)), []) &&
            Acyclic(LinksOf(WithoutEdge(g, e)))
  {
    MoveKeepsConsistent(g, e, None);
    FreeKeepsConsistent(MoveEdge(g, e, None), {e});
    assert WithoutEdge(g, e) == Freed(MoveEdge(g, e, None), {e});
    ChildUnrefCounted(g, e, b);
    LinksShrink(g, WithoutEdge(g, e));
  }
}
