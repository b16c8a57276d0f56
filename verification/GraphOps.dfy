/**
  Changing the block graph: the graph is changed first, then permissions are recomputed in one
  pass, and the whole change is kept or undone through the records of a transaction.
*/
module GraphOps {
  import opened Options
  import opened Digraph
  import opened BlockGraph
  import opened GraphSearch
  import opened Permissions
  import opened Transactions
  import opened PermissionPass
  import opened PassOutcome
  import opened GraphChanges

  // ----- moving an edge in two halves -----

  function OffNode(node: Node, n: NodeId, e: EdgeId, edge: Edge): Node {
    var node' := if edge.bs == Some(n) then node.(parents := node.parents - {e}) else node;
    if edge.bs.Some? && edge.parent == NodeParent(n) then
      node'.(children := node.children - {e},
             backing := if node.backing == Some(e) then None else node.backing,
             file := if node.file == Some(e) then None else node.file)
    else node'
  }

  function OnNode(node: Node, n: NodeId, e: EdgeId, edge: Edge, to: NodeId): Node {
    var node' := if to == n then node.(parents := node.parents + {e}) else node;
    if edge.parent == NodeParent(n) then
      node'.(children := node.children + {e},
             backing := if SlotOf(node.info, edge.role) == BackingSlot then Some(e) else node.backing,
             file := if SlotOf(node.info, edge.role) == FileSlot then Some(e) else node.file)
    else node'
  }

  function AllOff(g: Graph, e: EdgeId): map<NodeId, Node>
    requires e in g.edges
  {
    map n | n in g.nodes :: OffNode(g.nodes[n], n, e, g.edges[e])
  }

  function AllOn(nodes: map<NodeId, Node>, e: EdgeId, edge: Edge, to: NodeId): map<NodeId, Node> {
    map n | n in nodes :: OnNode(nodes[n], n, e, edge, to)
  }

  lemma MoveInTwo(g: Graph, e: EdgeId, to: Option<NodeId>, n: NodeId)
    requires Consistent(g) && CanMove(g, e, to) && n in g.nodes
    ensures var off := OffNode(g.nodes[n], n, e, g.edges[e]);
            MovedNode(g.nodes[n], n, e, g.edges[e], to) == if to.Some?
                then OnNode(off, n, e, g.edges[e].(bs := to), to.value) else off
  {
    assert EdgeOk(g, e) && NodeOk(g, n);
    var off := OffNode(g.nodes[n], n, e, g.edges[e]);
    var moved := MovedNode(g.nodes[n], n, e, g.edges[e], to);
    if to.Some? {
      var on := OnNode(off, n, e, g.edges[e].(bs := to), to.value);
      assert on.children == moved.children && on.parents == moved.parents;
    } else {
      assert off.children == moved.children && off.parents == moved.parents;
    }
  }

  lemma MoveIsTwoHalves(g: Graph, e: EdgeId, to: Option<NodeId>)
    requires Consistent(g) && CanMove(g, e, to)
    ensures g.edges[e].bs == None ==> AllOff(g, e) == g.nodes
    ensures MoveEdge(g, e, to).nodes == if to.Some? then AllOn(AllOff(g, e), e, g.edges[e].(bs := to), to.value)
            else AllOff(g, e)
  {
    var nodes := MoveEdge(g, e, to).nodes;
    var nodes' := if to.Some? then AllOn(AllOff(g, e), e, g.edges[e].(bs := to), to.value) else AllOff(g, e);
    forall n | n in g.nodes
      ensures nodes[n] == nodes'[n]
    {
      MoveInTwo(g, e, to, n);
    }
  }

  class BlockLayer {
    const childPerm: ChildPerm
    var g: Graph
    var books: Books

    constructor (childPerm: ChildPerm, g: Graph, books: Books)
      ensures this.childPerm == childPerm && this.g == g && this.books == books
    {
      this.childPerm, this.g, this.books := childPerm, g, books;
    }

    // ----- moving an edge in place -----

    /** bdrv_child_cb_detach */
    method ChildCbDetach(e: EdgeId)
      requires e in g.edges && g.edges[e].parent.NodeParent? && g.edges[e].parent.node in g.nodes
      requires g.nodes[g.edges[e].parent.node].backing == Some(e) ==> g.nodes[g.edges[e].parent.node].file != Some(e)
      modifies this`g
      ensures books == old(books)
      ensures var p := old(g).edges[e].parent.node;
              var node := old(g).nodes[p];
              g == old(g).(nodes := old(g).nodes[p := node.(
                children := node.children - {e},
                backing := if node.backing == Some(e) then None else node.backing,
                file := if node.file == Some(e) then None else node.file)])
    {
      var p := g.edges[e].parent.node;
      var node := g.nodes[p];
      node := node.(children := node.children - {e});
      if node.backing == Some(e) {
        node := node.(backing := None);
      } else if node.file == Some(e) {
        node := node.(file := None);
      }
      g := g.(nodes := g.nodes[p := node]);
    }

    /** bdrv_child_cb_attach; its assertions are RoleOk and SlotFree. */
    method ChildCbAttach(e: EdgeId)
      requires e in g.edges && g.edges[e].parent.NodeParent? && g.edges[e].parent.node in g.nodes
      requires var node := g.nodes[g.edges[e].parent.node];
               HasClass(node.info) && RoleOk(node.info, g.edges[e].role) && SlotFree(node, e, g.edges[e].role) &&
                   node.backing != Some(e) && node.file != Some(e)
      modifies this`g
      ensures books == old(books)
      ensures var p := old(g).edges[e].parent.node;
              var node := old(g).nodes[p];
              var slot := SlotOf(node.info, old(g).edges[e].role);
              g == old(g).(nodes := old(g).nodes[p := node.(
                children := node.children + {e},
                backing := if slot == BackingSlot then Some(e) else node.backing,
                file := if slot == FileSlot then Some(e) else node.file)])
    {
      var p, role := g.edges[e].parent.node, g.edges[e].role;
      var node := g.nodes[p];
      node := node.(children := node.children + {e});
      if node.info.isFilter || role.filtered {
        assert !role.cow;
        if role.primary {
          assert role.filtered && node.backing == None && node.file == None;
          if node.info.filteredChildIsBacking {
            node := node.(backing := Some(e));
          } else {
            node := node.(file := Some(e));
          }
        } else {
          assert !role.filtered;
        }
      } else if role.cow {
        assert node.info.supportsBacking && !role.primary && node.backing == None;
        node := node.(backing := Some(e));
      } else if role.primary {
        assert node.file == None;
        node := node.(file := Some(e));
      }
      g := g.(nodes := g.nodes[p := node]);
    }

    /** Takes e off the lists and slots it is in. */
    method TakeOff(e: EdgeId)
      requires Consistent(g) && e in g.edges && g.edges[e].bs.Some?
      modifies this`g
      ensures books == old(books)
      ensures g.edges == old(g).edges && g.nodes == AllOff(old(g), e)
    {
      ghost var g0 := g;
      var oldBs := g.edges[e].bs.value;
      assert EdgeOk(g, e);
      if g.edges[e].parent.NodeParent? {
        assert NodeOk(g, g.edges[e].parent.node);
        ChildCbDetach(e);
      }
      var node := g.nodes[oldBs];
      g := g.(nodes := g.nodes[oldBs := node.(parents := node.parents - {e})]);
      assert g.nodes == AllOff(g0, e);
    }

    /** Puts e on the lists and slots it belongs in. */
    method PutOn(e: EdgeId, to: NodeId)
      requires e in g.edges && to in g.nodes
      requires g.edges[e].parent.NodeParent? ==>
                 && g.edges[e].parent.node in g.nodes
                 && var node := g.nodes[g.edges[e].parent.node];
                    HasClass(node.info) && RoleOk(node.info, g.edges[e].role) && SlotFree(node, e, g.edges[e].role) &&
                        node.backing != Some(e) && node.file != Some(e)
      modifies this`g
      ensures books == old(books)
      ensures g.edges == old(g).edges && g.nodes == AllOn(old(g).nodes, e, old(g).edges[e], to)
    {
      ghost var g0 := g;
      var node := g.nodes[to];
      g := g.(nodes := g.nodes[to := node.(parents := node.parents + {e})]);
      if g.edges[e].parent.NodeParent? {
        ChildCbAttach(e);
      }
      assert g.nodes == AllOn(g0.nodes, e, g0.edges[e], to);
    }

    /** bdrv_replace_child_noperm */
    method ReplaceChildNoperm(e: EdgeId, to: Option<NodeId>)
      requires Consistent(g) && CanMove(g, e, to)
      modifies this`g
      ensures books == old(books)
      ensures g == MoveEdge(old(g), e, to) && Consistent(g)
    {
      ghost var g0 := g;
      assert EdgeOk(g, e);
      if g.edges[e].parent.NodeParent? {
        assert NodeOk(g, g.edges[e].parent.node);
      }
      if g.edges[e].bs.Some? {
        TakeOff(e);
      }
      g := g.(edges := g.edges[e := g.edges[e].(bs := to)]);
      if to.Some? {
        PutOn(e, to.value);
      }
      MoveIsTwoHalves(g0, e, to);
      MoveKeepsConsistent(g0, e, to);
    }

    // ----- the recorded steps -----

    /** bdrv_ref */
    method Ref(bs: Option<NodeId>)
      requires bs.Some? ==> bs.value in books.refcnt
      modifies this`books
      ensures g == old(g)
      ensures books == old(books).(refcnt := PlusOne(old(books).refcnt, bs))
    {
      if bs.Some? {
        books := books.(refcnt := books.refcnt[bs.value := books.refcnt[bs.value] + 1]);
      }
    }

    /** bdrv_replace_child_tran: the old reference moves into the record. */
    method ReplaceChildTran(e: EdgeId, to: Option<NodeId>, log: seq<Record>) returns (log': seq<Record>)
      requires Tracked(g, books, log) && CanMoveBack(g, e, to) && g.edges[e].bs.Some?
      modifies this
      ensures g == MoveEdge(old(g), e, to) && log' == [ReplaceChild(e, old(g).edges[e].bs)] + log
      ensures books == old(books).(refcnt := PlusOne(old(books).refcnt, to))
      ensures Tracked(g, books, log') && SameUndo(old(g), g, log, log')
    {
      ghost var g0, books0 := g, books;
      log' := [ReplaceChild(e, g.edges[e].bs)] + log;
      RemovedRecord(ReplaceChild(e, g.edges[e].bs), log);
      Ref(to);
      ReplaceChildNoperm(e, to);
      ReplaceTracked(g0, e, to, books0, log);
    }

    /** bdrv_child_set_perm */
    method ChildSetPerm(c: EdgeId, perm: Perms, shared: Perms, log: seq<Record>) returns (log': seq<Record>)
      requires Tracked(g, books, log) && c in g.edges
      modifies this`g
      ensures books == old(books)
      ensures g == WithPerm(old(g), c, perm, shared)
      ensures Tracked(g, books, log') && SameUndo(old(g), g, log, log')
      ensures PermRecords(log) ==> PermRecords(log')
    {
      PermTracked(g, c, perm, shared, books, log);
      RemovedRecord(SetPerm(c, g.edges[c].perm, g.edges[c].shared), log);
      log' := [SetPerm(c, g.edges[c].perm, g.edges[c].shared)] + log;
      g := g.(edges := g.edges[c := g.edges[c].(perm := perm, shared := shared)]);
    }

    /** bdrv_set_inherits_from */
    method SetInherits(bs: NodeId, from: Option<NodeId>, log: seq<Record>) returns (log': seq<Record>)
      requires Tracked(g, books, log) && bs in g.nodes
      modifies this`g
      ensures books == old(books)
      ensures g == WithInherits(old(g), bs, from)
      ensures Tracked(g, books, log') && SameUndo(old(g), g, log, log')
    {
      InheritsTracked(g, bs, from, books, log);
      RemovedRecord(SetInheritsFrom(bs, g.nodes[bs].inheritsFrom), log);
      log' := [SetInheritsFrom(bs, g.nodes[bs].inheritsFrom)] + log;
      g := g.(nodes := g.nodes[bs := g.nodes[bs].(inheritsFrom := from)]);
    }

    /** bdrv_remove_child: the edge is only freed by a commit. */
    method RemoveChildTran(child: EdgeId, log: seq<Record>) returns (log': seq<Record>)
      requires Tracked(g, books, log) && CanMoveBack(g, child, None) && g.edges[child].bs.Some?
      modifies this
      ensures g == MoveEdge(old(g), child, None) && books == old(books)
      ensures Tracked(g, books, log') && Undo(g, log') == Undo(old(g), log) && Removed(log') == Removed(log) + {child}
    {
      NotRemovedYet(g, child, log);
      log' := ReplaceChildTran(child, None, log);
      NoteTracked(g, RemoveChild(child), books, log');
      RemovedRecord(RemoveChild(child), log');
      log' := [RemoveChild(child)] + log';
    }

    // ----- abort and commit -----

    method Unref(bs: Option<NodeId>)
      requires bs.Some? ==> bs.value in books.refcnt && books.refcnt[bs.value] > 0
      modifies this`books
      ensures g == old(g)
      ensures books == old(books).(refcnt := MinusOne(old(books).refcnt, bs))
    {
      if bs.Some? {
        books := books.(refcnt := books.refcnt[bs.value := books.refcnt[bs.value] - 1]);
      }
    }

    method ScheduleUnref(bs: Option<NodeId>)
      modifies this`books
      ensures g == old(g)
      ensures books == old(books).(scheduled := old(books).scheduled + Single(bs))
    {
      if bs.Some? {
        books := books.(scheduled := books.scheduled + multiset{bs.value});
      }
    }

    /** The abort action of a record; none of the assertions on its way fails. */
    method AbortOne(r: Record, ghost pending: multiset<NodeId>)
      requires Consistent(g) && CanUndoOne(g, r) && RefsMatch(g.nodes, books.refcnt, pending)
      modifies this
      ensures g == UndoOne(old(g), r) && books == UndoBooks(old(g), r, old(books))
    {
      if r.ReplaceChild? {
        var newBs := g.edges[r.e].bs;
        if newBs.Some? {
          TargetIsReferenced(g, r.e, books.refcnt, pending);
        }
        ReplaceChildNoperm(r.e, r.oldBs);
        Unref(newBs);
      } else if r.AttachChild? {
        var bs := g.edges[r.e].bs;
        ReplaceChildNoperm(r.e, None);
        ScheduleUnref(bs);
        assert g.edges[r.e].bs == None;
        g := g.(edges := g.edges - {r.e});
      } else if r.SetPerm? {
        g := WithPerm(g, r.e, r.oldPerm, r.oldShared);
      } else if r.SetInheritsFrom? {
        g := WithInherits(g, r.bs, r.oldFrom);
      }
    }

    /** tran_abort */
    method TranAbort(log: seq<Record>)
      requires Tracked(g, books, log)
      modifies this
      ensures g == Undo(old(g), log) && Tracked(g, books, [])
      ensures books.holders == old(books).holders && books.next == old(books).next
      ensures PermRecords(log) ==> books == old(books)
    {
      var rest := log;
      while rest != []
        invariant CanUndo(g, rest) && Undo(g, rest) == Undo(old(g), log) && IdsBelow(g, books.next)
        invariant RefsMatch(g.nodes, books.refcnt, HeldBy(rest) + books.scheduled + books.holders)
        invariant books.holders == old(books).holders && books.next == old(books).next
        invariant PermRecords(log) ==> PermRecords(rest) && books == old(books)
        decreases |rest|
      {
        ghost var g0, books0 := g, books;
        assert rest == [rest[0]] + rest[1..];
        AbortOne(rest[0], HeldBy(rest) + books.scheduled + books.holders);
        UndoCounted(g0, rest[0], books0, rest[1..]);
        rest := rest[1..];
      }
    }

    /** The commit action of a record. */
    method CommitRecord(r: Record)
      requires r.RemoveChild? ==> r.e in g.edges && g.edges[r.e].bs == None
      modifies this
      ensures g == CommitOne(old(g), r)
      ensures books == old(books).(scheduled := old(books).scheduled + HeldIn(r))
    {
      if r.RemoveChild? {
        g := g.(edges := g.edges - {r.e});
      } else if r.ReplaceChild? {
        ScheduleUnref(r.oldBs);
      }
    }

    /** tran_commit: frees the removed edges and hands the recorded references to the unref queue. */
    method TranCommit(log: seq<Record>)
      requires Tracked(g, books, log)
      modifies this
      ensures g == Freed(old(g), Removed(log)) && Tracked(g, books, [])
      ensures books == CommitBooks(old(books), log)
    {
      CommitRecords(log);
      FreeKeepsConsistent(old(g), Removed(log));
    }

    method CommitRecords(log: seq<Record>)
      requires CommitOk(g, log)
      modifies this
      ensures g == Freed(old(g), Removed(log))
      ensures books == CommitBooks(old(books), log)
    {
      ghost var g0, books0 := g, books;
      var i := 0;
      while i < |log|
        invariant 0 <= i <= |log| && g == Freed(g0, Removed(log[..i])) && books == CommitBooks(books0, log[..i])
      {
        CommitProgress(g0, g, log, i);
        CommitCounted(books0, log, i);
        CommitRecord(log[i]);
        i := i + 1;
      }
      assert log[..|log|] == log;
    }

    /** tran_finalize */
    method TranFinalize(log: seq<Record>, ok: bool)
      requires Tracked(g, books, log)
      modifies this
      ensures g == (if ok then Freed(old(g), Removed(log)) else Undo(old(g), log)) && Tracked(g, books, [])
      ensures books.holders == old(books).holders && books.next == old(books).next
      ensures PermRecords(log) ==> books == old(books)
    {
      if PermRecords(log) {
        PermRecordsHoldNothing(log);
      }
      if ok {
        TranCommit(log);
      } else {
        TranAbort(log);
      }
    }

    // ----- attaching -----

    /** bdrv_attach_child_common, for a child that is in its parent's AioContext already. */
    method AttachChildCommon(childBs: NodeId, parent: Parent, role: Role, perm: Perms, shared: Perms, log: seq<Record>)
      returns (child: Option<EdgeId>, log': seq<Record>)
      requires Tracked(g, books, log) &&
               CanAttach(g, Edge(parent, None, role, perm, shared, false), childBs, books.next)
      modifies this
      ensures child == None <==> old(g).nodes[childBs].info.inactive && !(perm <= {ConsistentRead})
      ensures child == None ==> g == old(g) && books == old(books) && log' == log
      ensures child.Some? ==>
              child.value == old(books).next &&
                  g == WithChild(old(g), child.value, Edge(parent, None, role, perm, shared, false), childBs)
      ensures child.Some? ==> log' == [AttachChild(child.value)] + log
      ensures Tracked(g, books, log') && SameUndo(old(g), g, log, log') && books.holders == old(books).holders
    {
      if g.nodes[childBs].info.inactive && !(perm <= {ConsistentRead}) {
        return None, log;
      }
      ghost var g0, books0 := g, books;
      var edge := Edge(parent, None, role, perm, shared, false);
      var e := books.next;
      MakeEdge(edge, childBs);
      child, log' := Some(e), [AttachChild(e)] + log;
      AttachTracked(g0, edge, childBs, books0, log);
      RemovedRecord(AttachChild(e), log);
    }

    /** A new edge with a reference to its node. */
    method MakeEdge(edge: Edge, childBs: NodeId)
      requires Consistent(g) && CanAttach(g, edge, childBs, books.next) && childBs in books.refcnt
      modifies this
      ensures g == WithChild(old(g), old(books).next, edge, childBs)
      ensures books == old(books).(next := old(books).next + 1, refcnt := PlusOne(old(books).refcnt, Some(childBs)))
    {
      var e := books.next;
      NewEdgeConsistent(g, e, edge);
      books := books.(next := e + 1);
      g := WithEdge(g, e, edge);
      Ref(Some(childBs));
      ReplaceChildNoperm(e, Some(childBs));
    }

    /** What parentBs asks of a child that is not attached yet. */
    method PermsOfNewChild(parentBs: NodeId, childBs: NodeId, role: Role) returns (perm: Perms, shared: Perms)
      requires Consistent(g) && parentBs in g.nodes && childBs in g.nodes
      ensures NewEdge(childPerm, g, parentBs, childBs, role) ==
                Edge(NodeParent(parentBs), None, role, perm, shared, false)
    {
      perm, shared := GetCumulativePerm(g, parentBs);
      var wanted := childPerm(parentBs, None, role, perm, shared);
      perm, shared := wanted.0, if g.nodes[childBs].info.forceShare then ALL_PERMS else wanted.1;
    }

    /** bdrv_attach_child_noperm refuses to close a cycle. */
    method AttachChildNoperm(parentBs: NodeId, childBs: NodeId, role: Role, log: seq<Record>)
      returns (child: Option<EdgeId>, log': seq<Record>)
      requires Tracked(g, books, log) && Acyclic(LinksOf(g))
      requires CanAttach(g, Edge(NodeParent(parentBs), None, role, {}, {}, false), childBs, books.next)
      modifies this
      ensures Acyclic(LinksOf(g)) && Tracked(g, books, log') && SameUndo(old(g), g, log, log') &&
              books.holders == old(books).holders
      ensures child == None <==> AttachBarred(childPerm, old(g), parentBs, childBs, role)
      ensures child == None ==> g == old(g) && books == old(books) && log' == log
      ensures child.Some? ==> child.value == old(books).next
      ensures child.Some? ==>
                g == WithChild(old(g), child.value, NewEdge(childPerm, old(g), parentBs, childBs, role), childBs)
    {
      var has := RecurseHasChild(g, childBs, parentBs);
      if has {
        return None, log;
      }
      if g.nodes[childBs].info.inactive && !g.nodes[parentBs].info.inactive {
        return None, log;
      }
      ghost var g0, e, edge := g, books.next, NewEdge(childPerm, g, parentBs, childBs, role);
      child, log' := AttachUnbarred(parentBs, childBs, role, log);
      if child.Some? {
        AttachStaysAcyclic(g0, e, edge, parentBs, childBs);
      }
    }

    /** The rest of it, when the edge closes no cycle and the parent may be active. */
    method AttachUnbarred(parentBs: NodeId, childBs: NodeId, role: Role, log: seq<Record>)
      returns (child: Option<EdgeId>, log': seq<Record>)
      requires Tracked(g, books, log)
      requires CanAttach(g, Edge(NodeParent(parentBs), None, role, {}, {}, false), childBs, books.next)
      modifies this
      ensures Tracked(g, books, log') && SameUndo(old(g), g, log, log') && books.holders == old(books).holders
      ensures child == None <==>
                old(g).nodes[childBs].info.inactive &&
                !(NewEdge(childPerm, old(g), parentBs, childBs, role).perm <= {ConsistentRead})
      ensures child == None ==> g == old(g) && books == old(books) && log' == log
      ensures child.Some? ==> child.value == old(books).next
      ensures child.Some? ==>
                g == WithChild(old(g), child.value, NewEdge(childPerm, old(g), parentBs, childBs, role), childBs)
    {
      var perm, shared := PermsOfNewChild(parentBs, childBs, role);
      child, log' := AttachChildCommon(childBs, NodeParent(parentBs), role, perm, shared, log);
    }

    // ----- recomputing permissions -----

    /** A driver's bdrv_check_perm may refuse for reasons of its own. */
    method DriverCheckPerm(bs: NodeId, perm: Perms, shared: Perms) returns (ok: bool)
    {
      ok := *;
    }

    /** bdrv_node_refresh_perm: sets the permissions on the children of bs from those of its parents. */
    method NodeRefreshPerm(bs: NodeId, log: seq<Record>) returns (ok: bool, log': seq<Record>, ghost refused: bool)
      requires Tracked(g, books, log) && Acyclic(LinksOf(g)) && bs in g.nodes && Compatible(g, bs)
      modifies this`g
      ensures books == old(books)
      ensures SameOutside(old(g), g, old(g).nodes[bs].children)
      ensures Tracked(g, books, log') && SameUndo(old(g), g, log, log')
      ensures ok <==> !refused && MayHave(old(g).nodes[bs].info, CumulativePerm(old(g), bs))
      ensures ok ==> Settled(childPerm, g, bs) && g == Turn(childPerm, old(g), bs)
      ensures !ok ==> g == old(g) && log' == log
      ensures PermRecords(log) ==> PermRecords(log')
    {
      log', refused := log, false;
      var info := g.nodes[bs].info;
      var perm, shared := GetCumulativePerm(g, bs);
      if Writes(perm) && !info.writable {
        return false, log, false;
      }
      if Writes(perm) && Resize !in perm && !info.sizeAligned {
        return false, log, false;
      }
      if !info.hasDriver {
        NoTurn(childPerm, g, bs);
        return true, log, false;
      }
      ok := DriverCheckPerm(bs, perm, shared);
      refused := !ok;
      if ok {
        log' := PassOn(bs, perm, shared, log);
      }
    }

    /** The rest of bdrv_node_refresh_perm, when nothing can fail any more. */
    method PassOn(bs: NodeId, perm: Perms, shared: Perms, log: seq<Record>) returns (log': seq<Record>)
      requires Tracked(g, books, log) && Acyclic(LinksOf(g)) && bs in g.nodes && g.nodes[bs].info.hasDriver
      requires perm == CumulativePerm(g, bs) && shared == CumulativeShared(g, bs) && Compatible(g, bs) &&
               MayHave(g.nodes[bs].info, perm)
      modifies this`g
      ensures books == old(books)
      ensures SameOutside(old(g), g, old(g).nodes[bs].children) && Settled(childPerm, g, bs) &&
              g == Turn(childPerm, old(g), bs)
      ensures Tracked(g, books, log') && SameUndo(old(g), g, log, log')
      ensures PermRecords(log) ==> PermRecords(log')
    {
      DriverNoted(g, bs, books, log);
      log' := [DriverPerm(bs)] + log;
      if !g.nodes[bs].info.hasChildPerm {
        NothingToPassOn(childPerm, g, bs);
        NoChildren(g, bs);
        NoTurn(childPerm, g, bs);
      } else {
        log' := PassOnToChildren(bs, perm, shared, log');
      }
    }

    method PassOnToChildren(bs: NodeId, perm: Perms, shared: Perms, log: seq<Record>) returns (log': seq<Record>)
      requires Tracked(g, books, log) && Acyclic(LinksOf(g)) && bs in g.nodes && g.nodes[bs].info.hasDriver
      requires perm == CumulativePerm(g, bs) && shared == CumulativeShared(g, bs) && Compatible(g, bs) &&
               MayHave(g.nodes[bs].info, perm)
      modifies this`g
      ensures books == old(books)
      ensures SameOutside(old(g), g, old(g).nodes[bs].children) && Settled(childPerm, g, bs) &&
              g == Turn(childPerm, old(g), bs)
      ensures Tracked(g, books, log') && SameUndo(old(g), g, log, log')
      ensures PermRecords(log) ==> PermRecords(log')
    {
      ghost var g0 := g;
      log' := SetChildPerms(bs, perm, shared, log);
      NodeIsSettled(childPerm, g0, g, log, log', bs);
      TurnMade(childPerm, g0, g, bs);
    }

    /** The loop over the children. */
    method SetChildPerms(bs: NodeId, perm: Perms, shared: Perms, log: seq<Record>) returns (log': seq<Record>)
      requires Tracked(g, books, log) && bs in g.nodes
      modifies this`g
      ensures books == old(books)
      ensures Tracked(g, books, log') && PermsSoFar(childPerm, old(g), g, log, log', bs, {}, perm, shared)
      ensures PermRecords(log) ==> PermRecords(log')
    {
      ghost var g0 := g;
      log' := log;
      var todo := g.nodes[bs].children;
      while todo != {}
        invariant todo <= g0.nodes[bs].children && PermsSoFar(childPerm, g0, g, log, log', bs, todo, perm, shared) &&
                  Tracked(g, books, log')
        invariant PermRecords(log) ==> PermRecords(log')
        decreases todo
      {
        var c :| c in todo;
        log' := SetChildPerm(g0, log, bs, c, todo, perm, shared, log');
        todo := todo - {c};
      }
    }

    /** One turn of that loop. */
    method SetChildPerm(ghost g0: Graph, ghost log0: seq<Record>, bs: NodeId, c: EdgeId, ghost todo: set<EdgeId>,
                        perm: Perms, shared: Perms, log: seq<Record>)
      returns (log': seq<Record>)
      requires Tracked(g, books, log) && bs in g0.nodes && c in todo && todo <= g0.nodes[bs].children
      requires PermsSoFar(childPerm, g0, g, log0, log, bs, todo, perm, shared)
      modifies this`g
      ensures books == old(books)
      ensures Tracked(g, books, log') && PermsSoFar(childPerm, g0, g, log0, log', bs, todo - {c}, perm, shared)
      ensures PermRecords(log) ==> PermRecords(log')
    {
      ghost var g1 := g;
      ChildOf(g, bs, c);
      assert SameButPerms(g0.edges[c], g.edges[c]);
      var wanted := ChildPermOf(childPerm, g, bs, c, perm, shared);
      log' := ChildSetPerm(c, wanted.0, wanted.1, log);
      PermSet(childPerm, g0, g1, g, log0, log, log', bs, c, todo, perm, shared);
    }

    /** bdrv_do_refresh_perms: one pass over a sorted list settles every node in it. */
    method DoRefreshPerms(list: seq<NodeId>, log: seq<Record>)
      returns (ok: bool, log': seq<Record>, ghost refused: bool)
      requires Tracked(g, books, log) && InOrder(g, list)
      modifies this`g
      ensures books == old(books)
      ensures Tracked(g, books, log') && PassDone(childPerm, old(g), g, log, log', list, ok, refused)
      ensures PermRecords(log) ==> PermRecords(log')
    {
      ghost var g0 := g;
      ok, log', refused := true, log, false;
      PassBegins(childPerm, g, log, list);
      var i := 0;
      while i < |list| && ok
        invariant 0 <= i <= |list| && Tracked(g, books, log') &&
                  PassSoFar(childPerm, g0, g, log, log', list, i, ok, refused)
        invariant PermRecords(log) ==> PermRecords(log')
      {
        ok, log', refused := RefreshNext(g0, log, list, i, log');
        i := i + 1;
      }
      if ok {
        PassSucceeds(childPerm, g0, g, log, log', list);
      }
    }

    /** One turn of that loop. */
    method RefreshNext(ghost g0: Graph, ghost log0: seq<Record>, list: seq<NodeId>, i: nat, log: seq<Record>)
      returns (ok: bool, log': seq<Record>, ghost refused: bool)
      requires Tracked(g, books, log) && InOrder(g0, list) && i < |list| &&
               TurnsMade(childPerm, g0, g, log0, log, list, i)
      modifies this`g
      ensures books == old(books)
      ensures Tracked(g, books, log')
      ensures PassSoFar(childPerm, g0, g, log0, log', list, i + 1, ok, refused)
      ensures PermRecords(log) ==> PermRecords(log')
    {
      ghost var g1 := g;
      log', refused := log, false;
      var conflict := ParentPermsConflict(g, list[i]);
      if conflict {
        PassFails(childPerm, g0, g, list, i, false);
        return false, log, false;
      }
      PermsOnlyKeepsLinks(g0, g);
      ok, log', refused := NodeRefreshPerm(list[i], log);
      if ok {
        PassStep(childPerm, g0, g1, g, log0, log, log', list, i);
      } else {
        PassFails(childPerm, g0, g, list, i, refused);
      }
    }

    /** bdrv_list_refresh_perms: settles everything below any of the roots. */
    method ListRefreshPerms(roots: seq<NodeId>, log: seq<Record>)
      returns (ok: bool, log': seq<Record>, ghost list: seq<NodeId>, ghost refused: bool)
      requires Tracked(g, books, log) && Acyclic(LinksOf(g)) && forall r :: r in roots ==> r in g.nodes
      modifies this`g
      ensures books == old(books)
      ensures InOrder(old(g), list)
      ensures forall n :: n in list <==> exists r :: r in roots && Reach(LinksOf(old(g)), r, n)
      ensures Tracked(g, books, log') && PassDone(childPerm, old(g), g, log, log', list, ok, refused)
    {
      var refreshList, found := SortBelow(g, roots);
      list := refreshList;
      ok, log', refused := DoRefreshPerms(refreshList, log);
    }

    /** bdrv_refresh_perms within a transaction */
    method RefreshPerms(bs: NodeId, log: seq<Record>)
      returns (ok: bool, log': seq<Record>, ghost list: seq<NodeId>, ghost refused: bool)
      requires Tracked(g, books, log) && Acyclic(LinksOf(g)) && bs in g.nodes
      modifies this`g
      ensures books == old(books)
      ensures InOrder(old(g), list) && (forall n :: n in list <==> Reach(LinksOf(old(g)), bs, n))
      ensures Tracked(g, books, log') && PassDone(childPerm, old(g), g, log, log', list, ok, refused)
      ensures PermRecords(log) ==> PermRecords(log')
    {
      var refreshList, found := TopologicalDfs(g, [], {}, bs);
      list := refreshList;
      BelowAreNodes(g, bs);
      ok, log', refused := DoRefreshPerms(refreshList, log);
    }

    /** The end of most graph changes: refresh the permissions below bs, then finish the
        transaction one way or the other. */
    method RefreshAndFinish(bs: NodeId, log: seq<Record>)
      returns (ok: bool, ghost g1: Graph, ghost log1: seq<Record>, ghost list: seq<NodeId>, ghost t: Attempt)
      requires Tracked(g, books, log) && Acyclic(LinksOf(g)) && bs in g.nodes
      modifies this
      ensures Tracked(g, books, []) && books.holders == old(books).holders
      ensures forall n :: n in list <==> Reach(LinksOf(old(g)), bs, n)
      ensures Refreshed(childPerm, old(g), g1, log, log1, list, if ok then |list| else 0)
      ensures g == if ok then Freed(g1, Removed(log)) else Undo(old(g), log)
      ensures t.changed == old(g) && TriedBelow(childPerm, t, list, bs, ok) && (ok ==> g1 == t.spread)
      ensures PermRecords(log) ==> books == old(books)
    {
      ghost var g0, refused := g, false;
      var log';
      ok, log', list, refused := RefreshPerms(bs, log);
      g1, log1 := g, log';
      t := Attempt(g0, Turns(childPerm, g0, list, |list|), refused);
      TriedBelowOne(childPerm, g0, g1, list, bs, ok, refused);
      TranFinalize(log', ok);
    }

    /** bdrv_refresh_perms with a transaction of its own */
    method RefreshPermsAlone(bs: NodeId) returns (ok: bool, ghost list: seq<NodeId>, ghost t: Attempt)
      requires Tracked(g, books, []) && Acyclic(LinksOf(g)) && bs in g.nodes
      modifies this
      ensures Tracked(g, books, []) && PermsOnly(old(g), g) && books == old(books)
      ensures ok ==> forall n :: Reach(LinksOf(old(g)), bs, n) ==> n in g.nodes && Settled(childPerm, g, n)
      ensures t.changed == old(g) && TriedBelow(childPerm, t, list, bs, ok) && g == if ok then t.spread else old(g)
    {
      ghost var g1, log1;
      ok, g1, log1, list, t := RefreshAndFinish(bs, []);
      if ok {
        NothingRemoved(g1, []);
        AllSettled(childPerm, old(g), g1, [], log1, list);
      }
    }

    /** bdrv_child_try_set_perm, up to the decision about what to report.  In spread the new
        permissions are passed on to everything below; either this is the result, or nothing
        changes. */
    method SetPermAndRefresh(c: EdgeId, perm: Perms, shared: Perms)
      returns (ok: bool, ghost refused: bool, ghost spread: Graph)
      requires Tracked(g, books, []) && Acyclic(LinksOf(g)) && c in g.edges && g.edges[c].bs.Some?
      modifies this
      ensures Tracked(g, books, []) && books == old(books)
      ensures if ok then IsSet(childPerm, old(g), g, c, perm, shared) && g == spread else g == old(g)
      ensures IsSpread(childPerm, old(g), spread, c, perm, shared)
      ensures ok <==> !refused && AllFit(spread, Below(old(g), old(g).edges[c].bs.value))
      ensures MonotoneLoosening(childPerm, old(g), c, perm, shared) ==>
                (AllFit(spread, Below(old(g), old(g).edges[c].bs.value)) <==>
                    NoneUnaligned(spread, Below(old(g), old(g).edges[c].bs.value)))
    {
      ghost var g0 := g;
      var bs := g.edges[c].bs.value;
      assert EdgeOk(g, c);
      var log := ChildSetPerm(c, perm, shared, []);
      ghost var g1 := g;
      PermIsPermsOnly(g0, c, perm, shared);
      ghost var g2, log2, list, t;
      ok, g2, log2, list, t := RefreshAndFinish(bs, log);
      refused, spread := t.refused, t.spread;
      SortedBelow(g0, list, c, perm, shared);
      if MonotoneLoosening(childPerm, g0, c, perm, shared) {
        SpreadFits(childPerm, g0, list, c, perm, shared);
      }
      if ok {
        PermIsSet(childPerm, g0, g1, g2, log, log2, list, c, perm, shared);
      }
    }

    /** bdrv_child_try_set_perm: a failure to loosen permissions is not reported, and every
        failure leaves the graph as it was.  With monotone drivers a loosening of settled
        permissions is made exactly if no driver refuses and no writer is left with an
        unaligned size. */
    method ChildTrySetPerm(c: EdgeId, perm: Perms, shared: Perms)
      returns (ok: bool, ghost refused: bool, ghost spread: Graph)
      requires Tracked(g, books, []) && Acyclic(LinksOf(g)) && c in g.edges && g.edges[c].bs.Some?
      modifies this
      ensures Tracked(g, books, []) && books == old(books)
      ensures perm <= old(g).edges[c].perm && old(g).edges[c].shared <= shared ==> ok
      ensures !ok ==> g == old(g)
      ensures g == old(g) || IsSet(childPerm, old(g), g, c, perm, shared)
      ensures ok && !(perm <= old(g).edges[c].perm && old(g).edges[c].shared <= shared) ==>
              IsSet(childPerm, old(g), g, c, perm, shared)
      ensures IsSpread(childPerm, old(g), spread, c, perm, shared)
      ensures g == if !refused && AllFit(spread, Below(old(g), old(g).edges[c].bs.value)) then spread else old(g)
      ensures MonotoneLoosening(childPerm, old(g), c, perm, shared) &&
              (perm, shared) != (old(g).edges[c].perm, old(g).edges[c].shared) ==>
                (IsSet(childPerm, old(g), g, c, perm, shared) <==>
                    !refused && NoneUnaligned(spread, Below(old(g), old(g).edges[c].bs.value)))
      ensures MonotoneLoosening(childPerm, old(g), c, perm, shared) && !refused &&
              AllAligned(old(g), Below(old(g), old(g).edges[c].bs.value)) ==>
                IsSet(childPerm, old(g), g, c, perm, shared)
    {
      ok, refused, spread := SetPermAndRefresh(c, perm, shared);
      if !ok && perm <= g.edges[c].perm && g.edges[c].shared <= shared {
        ok := true;
      }
    }

    // ----- replacing a node -----

    /** bdrv_replace_node_noperm */
    method ReplaceNodeNoperm(from: NodeId, to: NodeId, autoSkip: bool, log: seq<Record>)
      returns (ok: bool, log': seq<Record>)
      requires Tracked(g, books, log) && CanReplaceNode(g, from, to)
      modifies this
      ensures Tracked(g, books, log') && SameUndo(old(g), g, log, log') && books.holders == old(books).holders
      ensures ok <==> Replaceable(old(g), from, to, autoSkip)
      ensures ok ==> ReplacedSoFar(old(g), g, from, to, {}, autoSkip)
    {
      ghost var g0 := g;
      log' := log;
      var todo := g.nodes[from].parents;
      ReplacedNothing(g, from, to, autoSkip);
      while todo != {}
        invariant todo <= g0.nodes[from].parents && ReplacedSoFar(g0, g, from, to, todo, autoSkip)
        invariant Tracked(g, books, log') && SameUndo(g0, g, log, log') && books.holders == old(books).holders
        decreases todo
      {
        var c :| c in todo;
        ok, log' := ReplaceParent(g0, log, from, to, c, todo, autoSkip, log');
        if !ok {
          return;
        }
        todo := todo - {c};
      }
      ReplacedAll(g0, g, from, to, autoSkip);
      ok := true;
    }

    /** One turn of that loop. */
    method ReplaceParent(ghost g0: Graph, ghost log0: seq<Record>, from: NodeId, to: NodeId, c: EdgeId,
                         ghost todo: set<EdgeId>, autoSkip: bool, log: seq<Record>)
      returns (ok: bool, log': seq<Record>)
      requires Tracked(g, books, log) && CanReplaceNode(g0, from, to)
      requires c in todo && todo <= g0.nodes[from].parents && ReplacedSoFar(g0, g, from, to, todo, autoSkip) &&
               SameUndo(g0, g, log0, log)
      modifies this
      ensures Tracked(g, books, log') && SameUndo(g0, g, log0, log') && books.holders == old(books).holders
      ensures if ok then ReplacedSoFar(g0, g, from, to, todo - {c}, autoSkip)
              else !Replaceable(g0, from, to, autoSkip)
    {
      ghost var g1 := g;
      ParentIsThere(g0, g, from, to, c, todo, autoSkip);
      assert g.edges[c].bs == Some(from);
      var should := ShouldUpdateChild(g, c, to);
      if !should {
        SkippedOne(g0, g, from, to, c, todo);
        return autoSkip, log;
      }
      if g.edges[c].frozen {
        return false, log;
      }
      log' := ReplaceChildTran(c, Some(to), log);
      ReplacedOne(g0, g1, g, from, to, c, todo, autoSkip);
      ok := true;
    }

    /** bdrv_replace_node_common */
    method ReplaceNodeCommon(from: NodeId, to: NodeId, autoSkip: bool) returns (ok: bool, ghost t: Attempt)
      requires Tracked(g, books, []) && CanReplaceNode(g, from, to)
      modifies this
      ensures Tracked(g, books, []) && Acyclic(LinksOf(g)) && books.holders == old(books).holders
      ensures ReplaceTried(childPerm, old(g), from, to, autoSkip, t, ok)
      ensures g == if ok then t.spread else old(g)
      ensures ok ==> NodeReplaced(childPerm, old(g), g, from, to)
    {
      ghost var g0 := g;
      var log;
      ok, log := ReplaceNodeNoperm(from, to, autoSkip, []);
      if !ok {
        t := Attempt(g, g, false);
        TranAbort(log);
        return;
      }
      ghost var g1 := g;
      ok, t := RefreshBoth(g0, from, to, autoSkip, log);
    }

    /** The end of a replacement, when the parents have been moved. */
    method RefreshBoth(ghost g0: Graph, from: NodeId, to: NodeId, autoSkip: bool, log: seq<Record>)
      returns (ok: bool, ghost t: Attempt)
      requires Tracked(g, books, log) && SameUndo(g0, g, [], log) && CanReplaceNode(g0, from, to)
      requires ReplacedSoFar(g0, g, from, to, {}, autoSkip)
      modifies this
      ensures Tracked(g, books, []) && Acyclic(LinksOf(g)) && books.holders == old(books).holders
      ensures t.changed == old(g) && Tried(childPerm, t, Below(t.changed, from) + Below(t.changed, to), ok)
      ensures g == if ok then t.spread else g0
      ensures ok ==> NodeReplaced(childPerm, g0, g, from, to)
    {
      ghost var g1, list, refused := g, [], false;
      var log';
      ok, log', list, refused := ListRefreshPerms([from, to], log);
      ghost var g2 := g;
      t := Attempt(g1, Turns(childPerm, g1, list, |list|), refused);
      TriedOver(childPerm, g1, g2, list, ok, refused);
      ListIsBelowBoth(g1, list, from, to);
      TranFinalize(log', ok);
      if ok {
        NothingRemoved(g2, log');
        ReplacedThenRefreshed(childPerm, g0, g1, g2, log, log', list, from, to, autoSkip);
      }
    }

    /** bdrv_append: bs_new, which has no backing child yet, goes on top of bs_top. */
    method Append(bsNew: NodeId, bsTop: NodeId) returns (ok: bool, ghost t: Attempt)
      requires Tracked(g, books, []) && CanAppend(g, books.next, bsNew, bsTop)
      modifies this
      ensures Tracked(g, books, []) && Acyclic(LinksOf(g)) && books.holders == old(books).holders
      ensures AppendTried(childPerm, old(g), old(books).next, bsNew, bsTop, t, ok)
      ensures g == if ok then t.spread else old(g)
      ensures ok ==> Appended(childPerm, old(g), g, old(books).next, bsNew, bsTop)
    {
      ghost var g0, e := g, books.next;
      var log;
      ghost var g1;
      ok, log, g1 := AppendNoperm(bsNew, bsTop);
      if !ok {
        t := Attempt(g, g, false);
        TranAbort(log);
        return;
      }
      ghost var g2, g3, log3, list := g, g, log, [];
      ok, g3, log3, list, t := RefreshAndFinish(bsNew, log);
      if ok {
        NothingRemoved(g3, log);
        AttachedReplacedRefreshed(childPerm, g0, g1, g2, g3, log, log3, list, e, bsNew, bsTop);
      }
    }

    /** bdrv_append up to the permissions. */
    method AppendNoperm(bsNew: NodeId, bsTop: NodeId) returns (ok: bool, log: seq<Record>, ghost g1: Graph)
      requires Tracked(g, books, []) && CanAppend(g, books.next, bsNew, bsTop)
      modifies this
      ensures Tracked(g, books, log) && SameUndo(old(g), g, [], log) && books.holders == old(books).holders
      ensures var role := BackingRole(old(g).nodes[bsNew].info);
              && (ok <==>
                    !AttachBarred(childPerm, old(g), bsNew, bsTop, role) && Replaceable(old(g), bsTop, bsNew, true))
              && (ok ==>
                    g1 == WithChild(old(g), old(books).next, NewEdge(childPerm, old(g), bsNew, bsTop, role), bsTop))
      ensures ok ==>
                IsAttached(old(g), g1, old(books).next, bsNew, bsTop) &&
                ReplacedSoFar(g1, g, bsTop, bsNew, {}, true) && bsNew in g.nodes
    {
      ghost var g0, e := g, books.next;
      var child;
      child, log := AttachChildNoperm(bsNew, bsTop, BackingRole(g.nodes[bsNew].info), []);
      g1 := g;
      if child == None {
        return false, log, g1;
      }
      AttachedNow(g0, g1, e, NewEdge(childPerm, g0, bsNew, bsTop, BackingRole(g0.nodes[bsNew].info)), bsNew, bsTop);
      AttachKeepsCanReplace(g0, g1, e, bsNew, bsTop);
      AttachKeepsReplaceable(g0, g1, e, bsNew, bsTop);
      ok, log := ReplaceNodeNoperm(bsTop, bsNew, true, log);
    }

    // ----- setting the file or backing child -----

    /** The pointer of the child itself goes when no other edge leads there from root. */
    method UnsetAtChild(root: NodeId, child: EdgeId, log: seq<Record>) returns (log': seq<Record>)
      requires Tracked(g, books, log) && root in g.nodes && child in g.edges && g.edges[child].bs.Some?
      modifies this`g
      ensures books == old(books)
      ensures Tracked(g, books, log') && SameUndo(old(g), g, log, log')
      ensures Uninherited(old(g), g, root, child, {old(g).edges[child].bs.value}) &&
              old(g).edges[child].bs.value in g.nodes
    {
      ghost var g0 := g;
      var bs := g.edges[child].bs.value;
      assert EdgeOk(g, child);
      log' := log;
      if g.nodes[bs].inheritsFrom == Some(root) {
        if !LinkedOtherwise(g, root, child, bs) {
          log' := SetInherits(bs, None, log);
        }
      }
      UnsetOne(g0, g, root, child, bs);
    }

    /** bdrv_unset_inherits_from: below one of its children, clears the pointers to root of
        exactly the nodes that root has no other edge to. */
    method UnsetInheritsFrom(root: NodeId, child: EdgeId, log: seq<Record>) returns (log': seq<Record>)
      requires Tracked(g, books, log) && Acyclic(LinksOf(g)) && root in g.nodes && child in g.edges &&
               g.edges[child].bs.Some?
      requires !Reach(LinksOf(g), g.edges[child].bs.value, root)
      modifies this`g
      ensures books == old(books)
      ensures Tracked(g, books, log') && SameUndo(old(g), g, log, log')
      ensures Uninherited(old(g), g, root, child, Below(old(g), old(g).edges[child].bs.value))
      decreases Below(g, g.edges[child].bs.value)
    {
      ghost var g0 := g;
      var bs := g.edges[child].bs.value;
      log' := UnsetAtChild(root, child, log);
      var todo := g.nodes[bs].children;
      ghost var done := {bs};
      UninheritedBegins(g0, bs);
      while todo != {}
        invariant todo <= g0.nodes[bs].children && Uninherited(g0, g, root, child, done) &&
                  DoneBelow(g0, bs, todo, done)
        invariant Tracked(g, books, log') && SameUndo(g0, g, log, log')
        decreases todo
      {
        var c :| c in todo;
        ghost var g1 := g;
        UninheritedKeeps(g0, g, root, child, bs, c, done);
        log' := UnsetInheritsFrom(root, c, log');
        UninheritedMore(g0, g1, g, root, child, bs, c, done);
        DoneMore(g0, bs, c, todo, done);
        done := done + Below(g0, g0.edges[c].bs.value);
        todo := todo - {c};
      }
      DoneAll(g0, bs, done);
    }

    /** Takes the old file or backing child away. */
    method TakeChildAway(parentBs: NodeId, child: EdgeId, log: seq<Record>) returns (log': seq<Record>)
      requires Tracked(g, books, log) && Acyclic(LinksOf(g)) && parentBs in g.nodes && HasClass(g.nodes[parentBs].info)
      requires child in g.nodes[parentBs].children && child in g.edges && !g.edges[child].frozen
      modifies this
      ensures Tracked(g, books, log') && Undo(g, log') == Undo(old(g), log) &&
              Removed(log') == Removed(log) + {child} && books == old(books)
      ensures TakenAway(old(g), g, parentBs, child)
    {
      ghost var g0 := g;
      ChildLink(g, parentBs, child);
      log' := UnsetInheritsFrom(parentBs, child, log);
      ghost var g1 := g;
      UninheritedIsNow(g0, g1, parentBs, child);
      log' := RemoveChildTran(child, log');
      TakenAwayNow(g0, g1, g, parentBs, child);
    }

    /** bdrv_set_file_or_backing_noperm */
    method SetFileOrBackingNoperm(parentBs: NodeId, childBs: Option<NodeId>, isBacking: bool, log: seq<Record>)
      returns (ok: bool, log': seq<Record>)
      requires Tracked(g, books, log) && Acyclic(LinksOf(g)) && parentBs in g.nodes &&
               (childBs.Some? ==> childBs.value in g.nodes)
      requires g.nodes[parentBs].info.hasDriver ==> g.nodes[parentBs].info.hasChildPerm
      requires g.nodes[parentBs].info.isFilter && childBs.Some? ==> ChildIn(g, parentBs, !isBacking) == None
      modifies this
      ensures Tracked(g, books, log') && Undo(g, log') == Undo(old(g), log) && books.holders == old(books).holders
      ensures ok <==> CanSwitch(childPerm, old(g), parentBs, childBs, isBacking)
      ensures RoleOfNewChild(old(g), parentBs, isBacking) == None ==> g == old(g)
      ensures ok ==> Switched(childPerm, old(g), g, parentBs, isBacking, childBs, old(books).next)
      ensures ok ==> Removed(log') == Removed(log) + AsSet(ChildIn(old(g), parentBs, isBacking)) && Acyclic(LinksOf(g))
    {
      ghost var g0 := g;
      log' := log;
      var adopt := InheritsFrom(g, childBs, parentBs, {});
      var child := ChildIn(g, parentBs, isBacking);
      SlotIsChild(g, parentBs, isBacking);
      var newRole := RoleOfNewChild(g, parentBs, isBacking);
      if newRole == None {
        return false, log;
      }
      var role := newRole.value;
      if child.Some? {
        log' := TakeChildAway(parentBs, child.value, log);
      }
      if childBs.Some? {
        ok, log' := PutInstead(g0, parentBs, childBs.value, isBacking, role, adopt, log');
      } else {
        ok := true;
        SwitchedNow(childPerm, g0, g, g, parentBs, isBacking, childBs, old(books).next);
      }
    }

    /** The new child takes the place of the old one, which is gone. */
    method PutInstead(ghost g0: Graph, parentBs: NodeId, childBs: NodeId, ghost isBacking: bool, role: Role,
                      adopt: bool, log: seq<Record>)
      returns (ok: bool, log': seq<Record>)
      requires Tracked(g, books, log) && Acyclic(LinksOf(g)) && Consistent(g0) && Acyclic(LinksOf(g0))
      requires parentBs in g0.nodes && childBs in g0.nodes && HasClass(g0.nodes[parentBs].info)
      requires books.next !in g0.edges && SameInfo(g0, g)
      requires var child := ChildIn(g0, parentBs, isBacking);
               if child.Some? then TakenAway(g0, g, parentBs, child.value) else g == g0
      requires g0.nodes[parentBs].info.isFilter ==> ChildIn(g0, parentBs, !isBacking) == None
      requires RoleOfNewChild(g0, parentBs, isBacking) == Some(role)
      requires adopt == InheritsFrom(g0, Some(childBs), parentBs, {})
      modifies this
      ensures Tracked(g, books, log') && SameUndo(old(g), g, log, log') && books.holders == old(books).holders
      ensures ok <==> !AttachBarred(childPerm, g0, parentBs, childBs, role)
      ensures ok ==> Switched(childPerm, g0, g, parentBs, isBacking, Some(childBs), old(books).next)
      ensures ok ==> Acyclic(LinksOf(g))
    {
      ghost var g1, child := g, ChildIn(g0, parentBs, isBacking);
      RoomForChild(g0, g1, parentBs, isBacking, role, childBs, books.next);
      if child.Some? {
        SlotIsChild(g0, parentBs, isBacking);
        TakenKeepsBarred(childPerm, g0, g1, parentBs, child.value, childBs, role);
      }
      ok, log' := PutChild(parentBs, childBs, role, adopt, log);
      if ok {
        SwitchedNow(childPerm, g0, g1, g, parentBs, isBacking, Some(childBs), old(books).next);
      }
    }

    /** Attaches the new child, and lets it inherit from its parent. */
    method PutChild(parentBs: NodeId, childBs: NodeId, role: Role, adopt: bool, log: seq<Record>)
      returns (ok: bool, log': seq<Record>)
      requires Tracked(g, books, log) && Acyclic(LinksOf(g))
      requires CanAttach(g, Edge(NodeParent(parentBs), None, role, {}, {}, false), childBs, books.next)
      modifies this
      ensures Tracked(g, books, log') && SameUndo(old(g), g, log, log') && books.holders == old(books).holders
      ensures ok <==> !AttachBarred(childPerm, old(g), parentBs, childBs, role)
      ensures ok ==> PutNow(old(g), g, old(books).next, NewEdge(childPerm, old(g), parentBs, childBs, role), childBs)
      ensures ok ==> Adopted(old(g), g, parentBs, childBs, adopt) && Acyclic(LinksOf(g))
    {
      ghost var g0, e, edge := g, books.next, NewEdge(childPerm, g, parentBs, childBs, role);
      var child;
      child, log' := AttachChildNoperm(parentBs, childBs, role, log);
      ok := child.Some?;
      if ok {
        AttachedIsPut(g0, g, e, edge, childBs);
        if adopt {
          log' := Adopt(g0, e, edge, parentBs, childBs, log, log');
        }
      }
    }

    /** The new child inherits from its parent. */
    method Adopt(ghost g0: Graph, ghost e: EdgeId, ghost edge: Edge, parentBs: NodeId, childBs: NodeId,
                 ghost log0: seq<Record>, log: seq<Record>)
      returns (log': seq<Record>)
      requires Tracked(g, books, log) && SameUndo(g0, g, log0, log) && Acyclic(LinksOf(g)) && childBs in g0.nodes
      requires PutNow(g0, g, e, edge, childBs) && SameInherits(g0, g)
      modifies this`g
      ensures books == old(books)
      ensures Tracked(g, books, log') && SameUndo(g0, g, log0, log') && Acyclic(LinksOf(g))
      ensures PutNow(g0, g, e, edge, childBs) && Adopted(g0, g, parentBs, childBs, true)
    {
      InheritsKeepsConsistent(g, childBs, Some(parentBs));
      log' := SetInherits(childBs, Some(parentBs), log);
    }

    /** bdrv_set_backing_hd */
    method SetBackingHd(bs: NodeId, backingHd: Option<NodeId>) returns (ok: bool, ghost t: Attempt)
      requires Tracked(g, books, []) && Acyclic(LinksOf(g)) && bs in g.nodes &&
               (backingHd.Some? ==> backingHd.value in g.nodes)
      requires g.nodes[bs].info.hasDriver ==> g.nodes[bs].info.hasChildPerm
      requires g.nodes[bs].info.isFilter && backingHd.Some? ==> g.nodes[bs].file == None
      modifies this
      ensures Tracked(g, books, []) && Acyclic(LinksOf(g)) && books.holders == old(books).holders
      ensures BackingTried(childPerm, old(g), bs, backingHd, old(books).next, t, ok)
      ensures g == if ok then Freed(t.spread, AsSet(ChildIn(old(g), bs, true))) else old(g)
      ensures ok ==> BackingSet(childPerm, old(g), g, bs, backingHd, old(books).next)
    {
      ghost var g0, e := g, books.next;
      var log;
      ok, log := SetFileOrBackingNoperm(bs, backingHd, true, []);
      if !ok {
        t := Attempt(g, g, false);
        TranAbort(log);
        return;
      }
      ok, t := RefreshBacking(g0, bs, backingHd, e, log);
    }

    /** The end of it, when the links have been changed. */
    method RefreshBacking(ghost g0: Graph, bs: NodeId, ghost backingHd: Option<NodeId>, ghost e: EdgeId,
                          log: seq<Record>)
      returns (ok: bool, ghost t: Attempt)
      requires Tracked(g, books, log) && Acyclic(LinksOf(g)) && Consistent(g0) && bs in g0.nodes && bs in g.nodes
      requires (backingHd.Some? ==> backingHd.value in g0.nodes) && Undo(g, log) == g0
      requires Switched(childPerm, g0, g, bs, true, backingHd, e) && Removed(log) == AsSet(ChildIn(g0, bs, true))
      modifies this
      ensures Tracked(g, books, []) && books.holders == old(books).holders && (ok ==> Acyclic(LinksOf(g)))
      ensures t.changed == old(g) && Tried(childPerm, t, Below(t.changed, bs), ok)
      ensures g == if ok then Freed(t.spread, AsSet(ChildIn(g0, bs, true))) else g0
      ensures ok ==> BackingSet(childPerm, g0, g, bs, backingHd, e)
    {
      ghost var g1, g2, log2, list := g, g, log, [];
      ok, g2, log2, list, t := RefreshAndFinish(bs, log);
      if ok {
        SlotIsChild(g0, bs, true);
        SwitchedThenRefreshed(childPerm, g0, g1, g2, log, log2, list, bs, backingHd, e);
      }
    }

    // ----- references from outside -----

    /** bdrv_attach_child: takes over the caller's reference to childBs, also when it fails. */
    method AttachChildNode(parentBs: NodeId, childBs: NodeId, role: Role) returns (ok: bool, ghost t: Attempt)
      requires Tracked(g, books, []) && Acyclic(LinksOf(g)) && parentBs in g.nodes && books.holders[childBs] > 0
      requires CanAttach(g, Edge(NodeParent(parentBs), None, role, {}, {}, false), childBs, books.next)
      modifies this
      ensures Tracked(g, books, []) && Acyclic(LinksOf(g))
      ensures books.holders == old(books).holders - multiset{childBs}
      ensures AttachTried(childPerm, old(g), old(books).next, parentBs, childBs, role, t, ok)
      ensures g == if ok then t.spread else old(g)
      ensures ok ==> ChildAttached(childPerm, old(g), g, old(books).next, parentBs, childBs, role)
    {
      ok, t := AttachAndRefresh(parentBs, childBs, role);
      HandOver(g, books, childBs);
      books := books.(holders := books.holders - multiset{childBs}, scheduled := books.scheduled + multiset{childBs});
    }

    method AttachAndRefresh(parentBs: NodeId, childBs: NodeId, role: Role) returns (ok: bool, ghost t: Attempt)
      requires Tracked(g, books, []) && Acyclic(LinksOf(g)) && parentBs in g.nodes
      requires CanAttach(g, Edge(NodeParent(parentBs), None, role, {}, {}, false), childBs, books.next)
      modifies this
      ensures Tracked(g, books, []) && Acyclic(LinksOf(g)) && books.holders == old(books).holders
      ensures AttachTried(childPerm, old(g), old(books).next, parentBs, childBs, role, t, ok)
      ensures g == if ok then t.spread else old(g)
      ensures ok ==> ChildAttached(childPerm, old(g), g, old(books).next, parentBs, childBs, role)
    {
      ghost var g0, e, edge := g, books.next, NewEdge(childPerm, g, parentBs, childBs, role);
      var child, log := AttachChildNoperm(parentBs, childBs, role, []);
      if child == None {
        t := Attempt(g, g, false);
        TranAbort(log);
        return false, t;
      }
      ghost var g1, g2, log2, list := g, g, log, [];
      ok, g2, log2, list, t := RefreshAndFinish(parentBs, log);
      if ok {
        NothingRemoved(g2, log);
        AttachedIsPut(g0, g1, e, edge, childBs);
        AttachedThenRefreshed(childPerm, g0, g1, g2, log, log2, list, e, edge, parentBs, childBs);
      }
    }

    /** bdrv_root_unref_child: errors of the permission update are ignored.  It is a loosening, so
        with monotone drivers and settled permissions only a driver or an unaligned size can keep
        it from settling everything below. */
    method RootUnrefChild(child: EdgeId) returns (ghost settled: bool, ghost t: Attempt)
      requires Tracked(g, books, []) && Acyclic(LinksOf(g)) && CanMove(g, child, None)
      modifies this
      ensures Tracked(g, books, []) && Acyclic(LinksOf(g))
      ensures books == old(books).(scheduled := old(books).scheduled + Single(old(g).edges[child].bs))
      ensures PermsOnly(WithoutEdge(old(g), child), g)
      ensures t.changed == WithoutEdge(old(g), child) && g == if settled then t.spread else t.changed
      ensures Tried(childPerm, t, Below(t.changed, old(g).edges[child].bs.value), settled)
      ensures settled ==> AllSettledIn(childPerm, g, Below(t.changed, old(g).edges[child].bs.value))
      ensures Monotone(childPerm) && AllSettledIn(childPerm, old(g), Below(old(g), old(g).edges[child].bs.value)) ==>
                (settled <==> !t.refused && NoneUnaligned(t.spread, Below(t.changed, old(g).edges[child].bs.value)))
    {
      ghost var g0 := g;
      var childBs := g.edges[child].bs.value;
      FreeChild(child);
      ghost var g1 := g;
      var ok;
      ghost var list;
      ok, list, t := RefreshPermsAlone(childBs);
      settled := ok;
      PermsOnlyKeepsLinks(g1, g);
      if Monotone(childPerm) && AllSettledIn(childPerm, g0, Below(g0, childBs)) {
        UnrefIsLooser(childPerm, g0, child, list, childBs);
      }
    }

    /** Takes an edge out of the graph; its reference goes to the unref queue. */
    method FreeChild(child: EdgeId)
      requires Tracked(g, books, []) && Acyclic(LinksOf(g)) && CanMove(g, child, None)
      modifies this
      ensures g == WithoutEdge(old(g), child) && Tracked(g, books, []) && Acyclic(LinksOf(g))
      ensures books == old(books).(scheduled := old(books).scheduled + Single(old(g).edges[child].bs))
      ensures old(g).edges[child].bs.value in g.nodes
    {
      ghost var g0, books0 := g, books;
      var childBs := g.edges[child].bs;
      assert EdgeOk(g, child);
      ReplaceChildNoperm(child, None);
      g := g.(edges := g.edges - {child});
      ScheduleUnref(childBs);
      ChildUnrefTracked(g0, child, books0);
    }

    /** bdrv_schedule_unref_bh: a scheduled unref runs. */
    method RunScheduledUnref(bs: NodeId)
      requires Tracked(g, books, []) && books.scheduled[bs] > 0 && bs in g.nodes
      modifies this`books
      ensures g == old(g) && Tracked(g, books, []) && books.holders == old(books).holders
      ensures books.scheduled == old(books).scheduled - multiset{bs}
      ensures bs in old(books).refcnt && books.refcnt == old(books).refcnt[bs := old(books).refcnt[bs] - 1]
    {
      UnrefTracked(g, books, bs);
      books := books.(scheduled := books.scheduled - multiset{bs});
      Unref(Some(bs));
    }
  }

  // ----- a loosening that is refused -----

  /** One node of unaligned size, whose one user may write to it and resize it. */
  function Unaligned(): Graph {
    var info := Info(true, false, false, false, true, true, false, false, false, false, false);
    Graph(map[0 := Node(info, {}, {0}, None, None, None)],
          map[0 := Edge(Outside(false), Some(0), Role(false, false, false, false, true), {Write, Resize}, ALL_PERMS,
              false)])
  }

  lemma UnalignedTracked(books: Books)
    requires books == Books(map[0 := 1], multiset{}, multiset{}, 1)
    ensures Tracked(Unaligned(), books, []) && LinksOf(Unaligned()) == {} && Acyclic(LinksOf(Unaligned()))
  {
    var g := Unaligned();
    assert EdgeOk(g, 0) && NodeOk(g, 0);
    assert g.nodes[0].parents == {0} && HeldBy([]) == multiset{};
  }

  lemma UnalignedSettled(childPerm: ChildPerm)
    ensures Settled(childPerm, Unaligned(), 0)
  {
    var g := Unaligned();
    assert Resize in g.edges[0].perm;
    assert Resize in CumulativePerm(g, 0);
  }

  lemma UnalignedBelow()
    requires LinksOf(Unaligned()) == {}
    ensures Below(Unaligned(), 0) == {0}
  {
    ReachSelf(LinksOf(Unaligned()), 0);
    forall n | Reach(LinksOf(Unaligned()), 0, n)
      ensures n == 0
    {
      if n != 0 {
        var v := ReachFirst(LinksOf(Unaligned()), 0, n);
      }
    }
  }

  /** However the permissions are passed on, the writer is left without resizing. */
  lemma UnalignedDoesNotFit(childPerm: ChildPerm, spread: Graph)
    requires IsSpread(childPerm, Unaligned(), spread, 0, {Write}, ALL_PERMS) && Below(Unaligned(), 0) == {0}
    ensures !AllFit(spread, {0}) && spread.edges[0].perm == {Write}
  {
    var g1 := WithPerm(Unaligned(), 0, {Write}, ALL_PERMS);
    assert !GivenBy(g1, 0, 0);
    assert spread.edges[0] == g1.edges[0] && spread.nodes == g1.nodes;
    assert Write in spread.edges[0].perm;
    assert Write in CumulativePerm(spread, 0) && Resize !in CumulativePerm(spread, 0);
    assert !Fits(spread, 0);
  }

  /** Whatever the driver answers, the loosening is not made, and the call succeeds. */
  method LooseningMayBeRefused(childPerm: ChildPerm) returns (layer: BlockLayer, ok: bool, ghost g0: Graph)
    ensures g0 == Unaligned() && Acyclic(LinksOf(g0)) && AllSettledIn(childPerm, g0, Below(g0, 0))
    ensures {Write} <= g0.edges[0].perm && g0.edges[0].shared <= ALL_PERMS
    ensures layer.childPerm == childPerm && Tracked(layer.g, layer.books, [])
    ensures ok && layer.g == g0 && !IsSet(childPerm, g0, layer.g, 0, {Write}, ALL_PERMS)
  {
    var g, books := Unaligned(), Books(map[0 := 1], multiset{}, multiset{}, 1);
    g0 := g;
    UnalignedTracked(books);
    UnalignedSettled(childPerm);
    UnalignedBelow();
    layer := new BlockLayer(childPerm, g, books);
    ghost var refused, spread;
    ok, refused, spread := layer.ChildTrySetPerm(0, {Write}, ALL_PERMS);
    UnalignedDoesNotFit(childPerm, spread);
    assert Resize in g0.edges[0].perm;
  }
}
