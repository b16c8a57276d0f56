/**
  The block graph of block.c: nodes, the BdrvChild edges between them, and how an edge is
  moved from one node to another.  Linked lists of edges are sets here, so that everything
  holds for every order in which they are walked.
*/
module BlockGraph {
  import opened Options
  import opened Digraph

  type NodeId = nat
  type EdgeId = nat

  datatype Perm = ConsistentRead | Write | WriteUnchanged | Resize
  type Perms = set<Perm>

  datatype Role = Role(data: bool, metadata: bool, filtered: bool, cow: bool, primary: bool)

  /** The fields of a node and its driver that graph changes only read. */
  datatype Info = Info(
    hasDriver: bool,
    isFilter: bool,
    filteredChildIsBacking: bool,
    supportsBacking: bool,
    hasChildPerm: bool,
    writable: bool,
    noIo: bool,
    inactive: bool,
    sizeAligned: bool,
    forceShare: bool,
    neverFreeze: bool)

  datatype Node = Node(
    info: Info,
    children: set<EdgeId>,
    parents: set<EdgeId>,
    backing: Option<EdgeId>,
    file: Option<EdgeId>,
    inheritsFrom: Option<NodeId>)

  /** An edge belongs to a node, or to a user outside the graph such as a block backend or a job. */
  datatype Parent = NodeParent(node: NodeId) | Outside(stayAtNode: bool)

  datatype Edge = Edge(parent: Parent, bs: Option<NodeId>, role: Role, perm: Perms, shared: Perms, frozen: bool)

  datatype Graph = Graph(nodes: map<NodeId, Node>, edges: map<EdgeId, Edge>)

  datatype Slot = NoSlot | BackingSlot | FileSlot

  predicate Filtering(info: Info, role: Role) {
    info.isFilter || role.filtered
  }

  /** Which pointer of its parent a child is kept in, besides the list of children. */
  function SlotOf(info: Info, role: Role): Slot {
    if Filtering(info, role) then
      if !role.primary then NoSlot else if info.filteredChildIsBacking then BackingSlot else FileSlot
    else if role.cow then BackingSlot
    else if role.primary then FileSlot
    else NoSlot
  }

  /** The combinations of roles that bdrv_child_cb_attach admits.  A driver that filters one
      child without being a filter (such as raw) keeps it in file and has no backing child. */
  predicate RoleOk(info: Info, role: Role) {
    && (Filtering(info, role) ==> !role.cow && (role.primary <==> role.filtered))
    && (!Filtering(info, role) && role.cow ==> info.supportsBacking && !role.primary)
    && (role.filtered && !info.isFilter ==> !info.supportsBacking && !info.filteredChildIsBacking)
  }

  /** The pointers that attaching e to node has to find empty are empty, or hold e itself. */
  predicate SlotFree(node: Node, e: EdgeId, role: Role) {
    var slot := SlotOf(node.info, role);
    && (slot == BackingSlot || (slot == FileSlot && Filtering(node.info, role)) ==>
        node.backing == None || node.backing == Some(e))
    && (slot == FileSlot || (slot == BackingSlot && Filtering(node.info, role)) ==>
        node.file == None || node.file == Some(e))
  }

  // ----- the lists, slots and edges agree -----

  predicate Attached(g: Graph, e: EdgeId, p: NodeId) {
    e in g.edges && g.edges[e].parent == NodeParent(p) && g.edges[e].bs.Some?
  }

  predicate EdgeOk(g: Graph, e: EdgeId)
    requires e in g.edges
  {
    var edge := g.edges[e];
    && (edge.parent.NodeParent? ==> edge.parent.node in g.nodes)
    && (edge.bs.Some? ==> edge.bs.value in g.nodes && e in g.nodes[edge.bs.value].parents)
    && (edge.bs.Some? && edge.parent.NodeParent? ==>
          var node := g.nodes[edge.parent.node];
          && e in node.children && RoleOk(node.info, edge.role) && (node.info.hasDriver ==> node.info.hasChildPerm)
          && (SlotOf(node.info, edge.role) == BackingSlot ==> node.backing == Some(e))
          && (SlotOf(node.info, edge.role) == FileSlot ==> node.file == Some(e)))
  }

  predicate NodeOk(g: Graph, n: NodeId)
    requires n in g.nodes
  {
    var node := g.nodes[n];
    && (forall e :: e in node.parents ==> e in g.edges && g.edges[e].bs == Some(n))
    && (forall e :: e in node.children ==> Attached(g, e, n))
    && (node.backing.Some? ==>
        node.backing.value in node.children && SlotOf(node.info, g.edges[node.backing.value].role) == BackingSlot)
    && (node.file.Some? ==>
        node.file.value in node.children && SlotOf(node.info, g.edges[node.file.value].role) == FileSlot)
    && (node.info.isFilter ==> node.backing == None || node.file == None)
  }

  predicate Consistent(g: Graph) {
    && (forall e :: e in g.edges ==> EdgeOk(g, e))
    && (forall n :: n in g.nodes ==> NodeOk(g, n))
  }

  /** The links between nodes. */
  function LinksOf(g: Graph): Links {
    set e | e in g.edges && g.edges[e].parent.NodeParent? && g.edges[e].bs.Some? ::
        (g.edges[e].parent.node, g.edges[e].bs.value)
  }

  lemma LinkOfEdge(g: Graph, e: EdgeId)
    requires e in g.edges && g.edges[e].parent.NodeParent? && g.edges[e].bs.Some?
    ensures (g.edges[e].parent.node, g.edges[e].bs.value) in LinksOf(g)
  {
  }

  lemma EdgeOfLink(g: Graph, u: NodeId, v: NodeId) returns (e: EdgeId)
    requires (u, v) in LinksOf(g)
    ensures Attached(g, e, u) && g.edges[e].bs == Some(v)
  {
    e :| e in g.edges && g.edges[e].parent.NodeParent? && g.edges[e].bs.Some? &&
        (g.edges[e].parent.node, g.edges[e].bs.value) == (u, v);
  }

  // ----- moving an edge -----

  /** Node n after edge e was taken off its node and its parent's list and put on those of to. */
  function MovedNode(node: Node, n: NodeId, e: EdgeId, edge: Edge, to: Option<NodeId>): Node {
    var parents := (if edge.bs == Some(n) then node.parents - {e} else node.parents) + (if to == Some(n) then {e}
        else {});
    if edge.parent != NodeParent(n) then node.(parents := parents)
    else
      var slot := SlotOf(node.info, edge.role);
      node.(
        parents := parents,
        children := if to.Some? then node.children + {e} else node.children - {e},
        backing := if to.Some? && slot == BackingSlot then Some(e) else if node.backing == Some(e) then None
            else node.backing,
        file := if to.Some? && slot == FileSlot then Some(e) else if node.file == Some(e) then None else node.file)
  }

  function MoveEdge(g: Graph, e: EdgeId, to: Option<NodeId>): Graph
    requires e in g.edges
  {
    Graph(map n | n in g.nodes :: MovedNode(g.nodes[n], n, e, g.edges[e], to), g.edges[e := g.edges[e].(bs := to)])
  }

  /** A node that can have children has a driver that knows what to ask of them. */
  predicate HasClass(info: Info) {
    info.hasDriver && info.hasChildPerm
  }

  /** What bdrv_replace_child_noperm and the callbacks it runs assert. */
  predicate CanMove(g: Graph, e: EdgeId, to: Option<NodeId>) {
    && e in g.edges && !g.edges[e].frozen && g.edges[e].bs != to
    && (to.Some? ==> to.value in g.nodes)
    && (g.edges[e].parent.NodeParent? ==>
          var p := g.edges[e].parent.node;
          p in g.nodes && (to.Some? ==>
              HasClass(g.nodes[p].info) && RoleOk(g.nodes[p].info, g.edges[e].role) &&
                  SlotFree(g.nodes[p], e, g.edges[e].role)))
  }

  /** An edge that is attached has its place to itself. */
  lemma AttachedSlotFree(g: Graph, e: EdgeId)
    requires Consistent(g) && e in g.edges && g.edges[e].bs.Some? && g.edges[e].parent.NodeParent?
    ensures SlotFree(g.nodes[g.edges[e].parent.node], e, g.edges[e].role)
  {
    var p := g.edges[e].parent.node;
    assert EdgeOk(g, e);
    assert NodeOk(g, p);
    if g.nodes[p].backing.Some? {
      assert EdgeOk(g, g.nodes[p].backing.value);
    }
  }

  lemma MovedEdgeOk(g: Graph, e: EdgeId, to: Option<NodeId>, f: EdgeId)
    requires Consistent(g) && CanMove(g, e, to) && f in g.edges
    ensures EdgeOk(MoveEdge(g, e, to), f)
  {
    assert EdgeOk(g, e);
    if f != e {
      OtherEdgeOk(g, e, to, f);
    }
  }

  lemma OtherEdgeOk(g: Graph, e: EdgeId, to: Option<NodeId>, f: EdgeId)
    requires Consistent(g) && CanMove(g, e, to) && f in g.edges && f != e
    ensures EdgeOk(MoveEdge(g, e, to), f)
  {
    assert EdgeOk(g, f);
    if g.edges[f].parent.NodeParent? && to.Some? && g.edges[e].parent == g.edges[f].parent {
      assert SlotFree(g.nodes[g.edges[e].parent.node], e, g.edges[e].role);
    }
  }

  lemma MovedNodeOk(g: Graph, e: EdgeId, to: Option<NodeId>, n: NodeId)
    requires Consistent(g) && CanMove(g, e, to) && n in g.nodes
    ensures NodeOk(MoveEdge(g, e, to), n)
  {
    assert EdgeOk(g, e) && NodeOk(g, n);
  }

  lemma MoveKeepsConsistent(g: Graph, e: EdgeId, to: Option<NodeId>)
    requires Consistent(g) && CanMove(g, e, to)
    ensures Consistent(MoveEdge(g, e, to))
  {
    var g' := MoveEdge(g, e, to);
    forall f | f in g'.edges
      ensures EdgeOk(g', f)
    {
      MovedEdgeOk(g, e, to, f);
    }
    forall n | n in g'.nodes
      ensures NodeOk(g', n)
    {
      MovedNodeOk(g, e, to, n);
    }
  }

  /** Moving an edge back undoes the move, in both nodes and in the parent's list and slots. */
  lemma MoveBack(g: Graph, e: EdgeId, to: Option<NodeId>)
    requires Consistent(g) && CanMove(g, e, to)
    ensures MoveEdge(MoveEdge(g, e, to), e, g.edges[e].bs) == g
  {
    var g' := MoveEdge(g, e, to);
    var g'' := MoveEdge(g', e, g.edges[e].bs);
    assert EdgeOk(g, e);
    assert g''.edges == g.edges;
    forall n | n in g.nodes
      ensures g''.nodes[n] == g.nodes[n]
    {
      assert NodeOk(g, n);
      MoveBackNode(g, n, e, to);
    }
    assert g''.nodes == g.nodes;
  }

  lemma MoveBackNode(g: Graph, n: NodeId, e: EdgeId, to: Option<NodeId>)
    requires Consistent(g) && CanMove(g, e, to) && n in g.nodes
    ensures MovedNode(MovedNode(g.nodes[n], n, e, g.edges[e], to), n, e, g.edges[e].(bs := to),
            g.edges[e].bs) == g.nodes[n]
  {
    var node := g.nodes[n];
    var node' := MovedNode(node, n, e, g.edges[e], to);
    var node'' := MovedNode(node', n, e, g.edges[e].(bs := to), g.edges[e].bs);
    assert EdgeOk(g, e) && NodeOk(g, n);
    assert node''.parents == node.parents;
    assert node''.children == node.children;
  }

  /** A move can be undone if the parent still has its driver. */
  predicate CanMoveBack(g: Graph, e: EdgeId, to: Option<NodeId>) {
    && CanMove(g, e, to)
    && (g.edges[e].bs.Some? && g.edges[e].parent.NodeParent? ==> HasClass(g.nodes[g.edges[e].parent.node].info))
  }

  lemma MoveBackAllowed(g: Graph, e: EdgeId, to: Option<NodeId>)
    requires Consistent(g) && CanMoveBack(g, e, to)
    ensures CanMove(MoveEdge(g, e, to), e, g.edges[e].bs)
  {
    assert EdgeOk(g, e);
    if g.edges[e].bs.Some? && g.edges[e].parent.NodeParent? {
      AttachedSlotFree(g, e);
    }
  }

  // ----- the undo log -----

  /** The records of a transaction. */
  datatype Record =
    | SetPerm(e: EdgeId, oldPerm: Perms, oldShared: Perms)
    | ReplaceChild(e: EdgeId, oldBs: Option<NodeId>)
    | AttachChild(e: EdgeId)
    | RemoveChild(e: EdgeId)
    | SetInheritsFrom(bs: NodeId, oldFrom: Option<NodeId>)
    | DriverPerm(bs: NodeId)

  function WithPerm(g: Graph, e: EdgeId, perm: Perms, shared: Perms): Graph
    requires e in g.edges
  {
    g.(edges := g.edges[e := g.edges[e].(perm := perm, shared := shared)])
  }

  function WithInherits(g: Graph, n: NodeId, from: Option<NodeId>): Graph
    requires n in g.nodes
  {
    g.(nodes := g.nodes[n := g.nodes[n].(inheritsFrom := from)])
  }

  /** The abort action of one record. */
  function UndoOne(g: Graph, r: Record): Graph {
    match r
    case SetPerm(e, perm, shared) => if e in g.edges then WithPerm(g, e, perm, shared) else g
    case ReplaceChild(e, oldBs) => if e in g.edges then MoveEdge(g, e, oldBs) else g
    case AttachChild(e) => if e in g.edges then var g' := MoveEdge(g, e, None); g'.(edges := g'.edges - {e}) else g
    case RemoveChild(_) => g
    case SetInheritsFrom(n, from) => if n in g.nodes then WithInherits(g, n, from) else g
    case DriverPerm(_) => g
  }

  /** tran_abort: the newest record, which comes first, is undone first. */
  function Undo(g: Graph, log: seq<Record>): Graph
    decreases |log|
  {
    if log == [] then g else Undo(UndoOne(g, log[0]), log[1..])
  }

  /** The commit action of one record, as far as the graph is concerned. */
  function CommitOne(g: Graph, r: Record): Graph {
    if r.RemoveChild? then g.(edges := g.edges - {r.e}) else g
  }

  /** The abort actions can be run from here: none of them trips over an assertion. */
  predicate CanUndoOne(g: Graph, r: Record) {
    match r
    case SetPerm(e, _, _) => e in g.edges
    case ReplaceChild(e, oldBs) => CanMove(g, e, oldBs)
    case AttachChild(e) => CanMove(g, e, None)
    case RemoveChild(_) => true
    case SetInheritsFrom(n, _) => n in g.nodes
    case DriverPerm(_) => true
  }

  predicate CanUndo(g: Graph, log: seq<Record>)
    decreases |log|
  {
    Consistent(g) && (log == [] || (CanUndoOne(g, log[0]) && CanUndo(UndoOne(g, log[0]), log[1..])))
  }

  lemma LogGrows(g: Graph, g': Graph, r: Record, log: seq<Record>)
    requires CanUndo(g, log) && Consistent(g') && CanUndoOne(g', r) && UndoOne(g', r) == g
    ensures CanUndo(g', [r] + log) && Undo(g', [r] + log) == Undo(g, log)
  {
    assert ([r] + log)[1..] == log;
  }

  lemma PermUndone(g: Graph, e: EdgeId, perm: Perms, shared: Perms)
    requires e in g.edges
    ensures UndoOne(WithPerm(g, e, perm, shared), SetPerm(e, g.edges[e].perm, g.edges[e].shared)) == g
  {
    var edges := g.edges[e := g.edges[e].(perm := perm, shared := shared)];
    assert edges[e := g.edges[e]] == g.edges;
  }

  lemma InheritsUndone(g: Graph, n: NodeId, from: Option<NodeId>)
    requires n in g.nodes
    ensures UndoOne(WithInherits(g, n, from), SetInheritsFrom(n, g.nodes[n].inheritsFrom)) == g
  {
    var nodes := g.nodes[n := g.nodes[n].(inheritsFrom := from)];
    assert nodes[n := g.nodes[n]] == g.nodes;
  }

  /** A new edge that points nowhere yet. */
  function WithEdge(g: Graph, e: EdgeId, edge: Edge): Graph {
    g.(edges := g.edges[e := edge])
  }

  lemma NewEdgeConsistent(g: Graph, e: EdgeId, edge: Edge)
    requires Consistent(g) && e !in g.edges && edge.bs == None &&
             (edge.parent.NodeParent? ==> edge.parent.node in g.nodes)
    ensures Consistent(WithEdge(g, e, edge))
  {
    var g1 := WithEdge(g, e, edge);
    forall f | f in g1.edges
      ensures EdgeOk(g1, f)
    {
      assert f != e ==> EdgeOk(g, f);
    }
    forall n | n in g1.nodes
      ensures NodeOk(g1, n)
    {
      assert NodeOk(g, n);
    }
  }

  lemma AttachUndone(g: Graph, e: EdgeId, edge: Edge, to: NodeId)
    requires Consistent(g) && e !in g.edges && edge.bs == None && CanMove(WithEdge(g, e, edge), e, Some(to))
    ensures UndoOne(MoveEdge(WithEdge(g, e, edge), e, Some(to)), AttachChild(e)) == g
  {
    NewEdgeConsistent(g, e, edge);
    MoveBack(WithEdge(g, e, edge), e, Some(to));
    assert WithEdge(g, e, edge).edges - {e} == g.edges;
  }
}
