/**
  Moving block nodes to another AioContext: everything that hangs together with a node moves
  with it, or nothing moves.
*/
module AioContext {
  import opened Digraph

  type Vertex = nat
  type EdgeId = nat
  type Context = nat

  /** What an edge can belong to: a block node, a job, a block backend that lets its context be
      changed or not, or a user that does not know about contexts. */
  datatype Kind = BlockNode | Job | Backend(movable: bool) | Unaware

  /** An edge from its owner to a block node. */
  datatype Child = Child(owner: Vertex, bs: Vertex)

  datatype World = World(kind: map<Vertex, Kind>, edges: map<EdgeId, Child>)

  /** Edges lead from known owners to block nodes, and a backend or an unaware user has one edge. */
  ghost predicate WorldOk(w: World) {
    && (forall c :: c in w.edges ==>
        w.edges[c].owner in w.kind && w.edges[c].bs in w.kind && w.kind[w.edges[c].bs] == BlockNode)
    && (forall c, d ::
          && c in w.edges && d in w.edges && w.edges[c].owner == w.edges[d].owner
          && w.kind[w.edges[c].owner] != BlockNode && w.kind[w.edges[c].owner] != Job
          ==> c == d)
  }

  predicate Stuck(w: World, v: Vertex)
    requires v in w.kind
  {
    w.kind[v] == Unaware || w.kind[v] == Backend(false)
  }

  function Parents(w: World, n: Vertex): set<EdgeId> {
    set c | c in w.edges && w.edges[c].bs == n
  }

  function Children(w: World, v: Vertex): set<EdgeId> {
    set c | c in w.edges && w.edges[c].owner == v
  }

  /** The edges, followed in both directions, without those that are ignored. */
  function Bonds(w: World, ignored: set<EdgeId>): Links {
    (set c | c in w.edges && c !in ignored :: (w.edges[c].owner, w.edges[c].bs)) + (set c | c in w.edges &&
        c !in ignored :: (w.edges[c].bs, w.edges[c].owner))
  }

  ghost predicate Connected(w: World, ignored: set<EdgeId>, u: Vertex, v: Vertex) {
    Reach(Bonds(w, ignored), u, v)
  }

  /** Both ends of every edge are in the same context. */
  ghost predicate Agree(w: World, ignored: set<EdgeId>, ctx: map<Vertex, Context>) {
    && ctx.Keys == w.kind.Keys
    && forall c :: c in w.edges && c !in ignored && w.edges[c].owner in ctx && w.edges[c].bs in ctx ==>
        ctx[w.edges[c].owner] == ctx[w.edges[c].bs]
  }

  lemma BondOfEdge(w: World, ignored: set<EdgeId>, c: EdgeId)
    requires c in w.edges && c !in ignored
    ensures (w.edges[c].owner, w.edges[c].bs) in Bonds(w, ignored) &&
            (w.edges[c].bs, w.edges[c].owner) in Bonds(w, ignored)
  {
  }

  lemma EdgeOfBond(w: World, ignored: set<EdgeId>, u: Vertex, v: Vertex) returns (c: EdgeId)
    requires (u, v) in Bonds(w, ignored)
    ensures c in w.edges && c !in ignored && (w.edges[c] == Child(u, v) || w.edges[c] == Child(v, u))
  {
    if (u, v) in (set c | c in w.edges && c !in ignored :: (w.edges[c].owner, w.edges[c].bs)) {
      c :| c in w.edges && c !in ignored && (w.edges[c].owner, w.edges[c].bs) == (u, v);
    } else {
      c :| c in w.edges && c !in ignored && (w.edges[c].bs, w.edges[c].owner) == (u, v);
    }
  }

  // ----- the search -----

  /** Where the recursion started, what it must not follow, and from which context it moves away. */
  datatype Search = Search(w: World, ignored: set<EdgeId>, ctx: map<Vertex, Context>, start: Vertex, target: Context)

  /** Vertex v belongs to the search: it is connected to the start, and not in the target context. */
  ghost predicate InScope(s: Search, v: Vertex) {
    v in s.w.kind && v in s.ctx && Connected(s.w, s.ignored, s.start, v) && s.ctx[v] != s.target
  }

  ghost predicate Incident(w: World, v: Vertex, c: EdgeId) {
    c in w.edges && (w.edges[c].owner == v || w.edges[c].bs == v)
  }

  /** All edges at v were visited, and v can be moved. */
  ghost predicate Finished(s: Search, visited: set<EdgeId>, v: Vertex) {
    v in s.w.kind && !Stuck(s.w, v) && forall c :: Incident(s.w, v, c) ==> c in visited
  }

  /** stack holds the vertices that the recursion is inside of: they are yet to be recorded. */
  ghost predicate Progress(s: Search, visited: set<EdgeId>, log: seq<Vertex>, stack: set<Vertex>) {
    && WorldOk(s.w) && Agree(s.w, s.ignored, s.ctx) && s.ignored <= visited
    && (forall c :: c in visited && c in s.w.edges && c !in s.ignored ==>
        Known(log, stack, s.w.edges[c].owner) && Known(log, stack, s.w.edges[c].bs))
    && (forall v :: v in log ==> InScope(s, v) && Finished(s, visited, v))
    && (forall v :: v in stack ==> InScope(s, v))
  }

  predicate Known(log: seq<Vertex>, stack: set<Vertex>, v: Vertex) {
    v in log || v in stack
  }

  /** The other end of an edge is in scope, too. */
  lemma NeighbourInScope(s: Search, c: EdgeId, u: Vertex, v: Vertex)
    requires WorldOk(s.w) && Agree(s.w, s.ignored, s.ctx) && c in s.w.edges && c !in s.ignored
    requires s.w.edges[c] == Child(u, v) || s.w.edges[c] == Child(v, u)
    requires InScope(s, u)
    ensures InScope(s, v)
  {
    BondOfEdge(s.w, s.ignored, c);
    ReachLast(Bonds(s.w, s.ignored), s.start, u, v);
  }

  /** bdrv_change_aio_context below the first call.  It gives up only over something that
      cannot be moved. */
  method ChangeNode(s: Search, n: Vertex, visited0: set<EdgeId>, log0: seq<Vertex>, ghost stack: set<Vertex>)
    returns (ok: bool, visited: set<EdgeId>, log: seq<Vertex>)
    requires Progress(s, visited0, log0, stack + {n}) && InScope(s, n) && s.w.kind[n] == BlockNode
    ensures visited0 <= visited && (forall v :: v in log0 ==> v in log)
    ensures ok ==> Progress(s, visited, log, stack) && n in log
    ensures !ok ==> exists v :: InScope(s, v) && Stuck(s.w, v)
    decreases s.w.edges.Keys - visited0, 2
  {
    visited, log := visited0, log0;
    var todo := Parents(s.w, n);
    while todo != {}
      invariant todo <= Parents(s.w, n) && visited0 <= visited && (forall v :: v in log0 ==> v in log)
      invariant Progress(s, visited, log, stack + {n})
      invariant forall c :: c in Parents(s.w, n) && c !in todo ==> c in visited
      decreases todo
    {
      var c :| c in todo;
      ok, visited, log := ParentChange(s, c, visited, log, stack + {n});
      if !ok {
        return;
      }
      todo := todo - {c};
    }
    todo := Children(s.w, n);
    while todo != {}
      invariant todo <= Children(s.w, n) && visited0 <= visited && (forall v :: v in log0 ==> v in log)
      invariant Progress(s, visited, log, stack + {n})
      invariant forall c :: c in Parents(s.w, n) ==> c in visited
      invariant forall c :: c in Children(s.w, n) && c !in todo ==> c in visited
      decreases todo
    {
      var c :| c in todo;
      ok, visited, log := ChildChange(s, c, visited, log, stack + {n});
      if !ok {
        return;
      }
      todo := todo - {c};
    }
    Recorded(s, visited, log, stack, n);
    log := [n] + log;
    ok := true;
  }

  lemma Recorded(s: Search, visited: set<EdgeId>, log: seq<Vertex>, stack: set<Vertex>, v: Vertex)
    requires Progress(s, visited, log, stack + {v}) && InScope(s, v) && !Stuck(s.w, v)
    requires forall c :: c in Parents(s.w, v) ==> c in visited
    requires forall c :: c in Children(s.w, v) ==> c in visited
    ensures Progress(s, visited, [v] + log, stack)
  {
    var log' := [v] + log;
    forall u | u in log'
      ensures InScope(s, u) && Finished(s, visited, u)
    {
    }
    forall c | c in visited && c in s.w.edges && c !in s.ignored
      ensures Known(log', stack, s.w.edges[c].owner) && Known(log', stack, s.w.edges[c].bs)
    {
      assert Known(log, stack + {v}, s.w.edges[c].owner) && Known(log, stack + {v}, s.w.edges[c].bs);
    }
  }

  /** bdrv_parent_change_aio_context and the callbacks of the edge classes. */
  method ParentChange(s: Search, c: EdgeId, visited0: set<EdgeId>, log0: seq<Vertex>, ghost stack: set<Vertex>)
    returns (ok: bool, visited: set<EdgeId>, log: seq<Vertex>)
    requires Progress(s, visited0, log0, stack) && c in s.w.edges && Known(log0, stack, s.w.edges[c].bs)
    ensures visited0 <= visited && c in visited && (forall v :: v in log0 ==> v in log)
    ensures ok ==> Progress(s, visited, log, stack)
    ensures !ok ==> exists v :: InScope(s, v) && Stuck(s.w, v)
    decreases s.w.edges.Keys - visited0, 1
  {
    visited, log := visited0, log0;
    if c in visited {
      return true, visited, log;
    }
    visited := visited + {c};
    var owner := s.w.edges[c].owner;
    NeighbourInScope(s, c, s.w.edges[c].bs, owner);
    if s.w.kind[owner] == Unaware {
      return false, visited, log;
    }
    VisitedOne(s, visited0, log, stack, c, owner);
    if s.w.kind[owner] == BlockNode {
      ok, visited, log := ChangeNode(s, owner, visited, log, stack);
    } else if s.w.kind[owner] == Job {
      ok, visited, log := ChangeJob(s, owner, visited, log, stack);
    } else if !s.w.kind[owner].movable {
      ok := false;
    } else {
      OnlyEdge(s.w, c);
      Recorded(s, visited, log, stack, owner);
      log := [owner] + log;
      ok := true;
    }
  }

  lemma VisitedOne(s: Search, visited: set<EdgeId>, log: seq<Vertex>, stack: set<Vertex>, c: EdgeId, v: Vertex)
    requires Progress(s, visited, log, stack) && c in s.w.edges && InScope(s, v)
    requires s.w.edges[c].owner == v || Known(log, stack, s.w.edges[c].owner)
    requires s.w.edges[c].bs == v || Known(log, stack, s.w.edges[c].bs)
    ensures Progress(s, visited + {c}, log, stack + {v})
  {
    var visited' := visited + {c};
    forall u | u in log
      ensures InScope(s, u) && Finished(s, visited', u)
    {
      assert Finished(s, visited, u);
    }
    forall d | d in visited' && d in s.w.edges && d !in s.ignored
      ensures Known(log, stack + {v}, s.w.edges[d].owner) && Known(log, stack + {v}, s.w.edges[d].bs)
    {
      if d != c {
        assert Known(log, stack, s.w.edges[d].owner) && Known(log, stack, s.w.edges[d].bs);
      }
    }
  }

  lemma OnlyEdge(w: World, c: EdgeId)
    requires WorldOk(w) && c in w.edges && w.kind[w.edges[c].owner].Backend?
    ensures Parents(w, w.edges[c].owner) == {} && Children(w, w.edges[c].owner) == {c}
  {
  }

  /** child_job_change_aio_ctx: a job takes all its nodes along. */
  method ChangeJob(s: Search, j: Vertex, visited0: set<EdgeId>, log0: seq<Vertex>, ghost stack: set<Vertex>)
    returns (ok: bool, visited: set<EdgeId>, log: seq<Vertex>)
    requires Progress(s, visited0, log0, stack + {j}) && InScope(s, j) && s.w.kind[j] == Job
    ensures visited0 <= visited && (forall v :: v in log0 ==> v in log)
    ensures ok ==> Progress(s, visited, log, stack) && j in log
    ensures !ok ==> exists v :: InScope(s, v) && Stuck(s.w, v)
    decreases s.w.edges.Keys - visited0, 2
  {
    visited, log := visited0, log0;
    var todo := Children(s.w, j);
    while todo != {}
      invariant todo <= Children(s.w, j) && visited0 <= visited && (forall v :: v in log0 ==> v in log)
      invariant Progress(s, visited, log, stack + {j})
      invariant forall c :: c in Children(s.w, j) && c !in todo ==> c in visited
      decreases todo
    {
      var sibling :| sibling in todo;
      ok, visited, log := ChildChange(s, sibling, visited, log, stack + {j});
      if !ok {
        return;
      }
      todo := todo - {sibling};
    }
    assert Parents(s.w, j) == {};
    Recorded(s, visited, log, stack, j);
    log := [j] + log;
    ok := true;
  }

  /** bdrv_child_change_aio_context */
  method ChildChange(s: Search, c: EdgeId, visited0: set<EdgeId>, log0: seq<Vertex>, ghost stack: set<Vertex>)
    returns (ok: bool, visited: set<EdgeId>, log: seq<Vertex>)
    requires Progress(s, visited0, log0, stack) && c in s.w.edges && Known(log0, stack, s.w.edges[c].owner)
    ensures visited0 <= visited && c in visited && (forall v :: v in log0 ==> v in log)
    ensures ok ==> Progress(s, visited, log, stack)
    ensures !ok ==> exists v :: InScope(s, v) && Stuck(s.w, v)
    decreases s.w.edges.Keys - visited0, 1
  {
    visited, log := visited0, log0;
    if c in visited {
      return true, visited, log;
    }
    visited := visited + {c};
    var bs := s.w.edges[c].bs;
    NeighbourInScope(s, c, s.w.edges[c].owner, bs);
    VisitedOne(s, visited0, log, stack, c, bs);
    ok, visited, log := ChangeNode(s, bs, visited, log, stack);
  }

  // ----- the whole move -----

  /** What is connected agrees on a context. */
  lemma {:induction false} ConnectedAgree(w: World, ignored: set<EdgeId>, ctx: map<Vertex, Context>, path: seq<Vertex>,
                                          u: Vertex, v: Vertex)
    requires WorldOk(w) && Agree(w, ignored, ctx) && PathFrom(Bonds(w, ignored), path, u, v) && u in ctx
    ensures v in ctx && ctx[v] == ctx[u]
    decreases |path|
  {
    if |path| > 1 {
      var n := |path| - 1;
      assert (path[n - 1], path[n - 1 + 1]) in Bonds(w, ignored);
      assert PathFrom(Bonds(w, ignored), path[..n], u, path[n - 1]);
      ConnectedAgree(w, ignored, ctx, path[..n], u, path[n - 1]);
      var c := EdgeOfBond(w, ignored, path[n - 1], v);
    }
  }

  /** When the recursion has come back, it has recorded everything that is connected. */
  lemma {:induction false} AllRecorded(s: Search, visited: set<EdgeId>, log: seq<Vertex>, path: seq<Vertex>, v: Vertex)
    requires Progress(s, visited, log, {}) && s.start in log && PathFrom(Bonds(s.w, s.ignored), path, s.start, v)
    ensures v in log
    decreases |path|
  {
    if |path| > 1 {
      var n := |path| - 1;
      assert (path[n - 1], path[n - 1 + 1]) in Bonds(s.w, s.ignored);
      assert PathFrom(Bonds(s.w, s.ignored), path[..n], s.start, path[n - 1]);
      AllRecorded(s, visited, log, path[..n], path[n - 1]);
      var c := EdgeOfBond(s.w, s.ignored, path[n - 1], v);
      assert Finished(s, visited, path[n - 1]) && Incident(s.w, path[n - 1], c);
      assert Known(log, {}, s.w.edges[c].owner) && Known(log, {}, s.w.edges[c].bs);
    }
  }

  /** Everything connected to bs in the new context, everything else as it was. */
  ghost function Moved(w: World, ignored: set<EdgeId>, ctx: map<Vertex, Context>, bs: Vertex,
                       target: Context): map<Vertex, Context> {
    map v | v in ctx :: if Connected(w, ignored, bs, v) then target else ctx[v]
  }

  ghost predicate AnyStuck(w: World, ignored: set<EdgeId>, bs: Vertex) {
    exists v :: v in w.kind && Connected(w, ignored, bs, v) && Stuck(w, v)
  }

  class Contexts {
    var ctx: map<Vertex, Context>

    /** bdrv_try_change_aio_context_locked: all of the connected component moves, or nothing.
        It fails exactly if the node is not there already and something connected is stuck. */
    method TryChange(w: World, bs: Vertex, target: Context, ignored: set<EdgeId>) returns (ok: bool)
      requires WorldOk(w) && Agree(w, ignored, ctx) && bs in w.kind && w.kind[bs] == BlockNode
      modifies this
      ensures ok <==> old(ctx)[bs] == target || !AnyStuck(w, ignored, bs)
      ensures ctx == if ok then Moved(w, ignored, old(ctx), bs, target) else old(ctx)
      ensures Agree(w, ignored, ctx)
    {
      if ctx[bs] == target {
        MovedAlready(w, ignored, ctx, bs, target);
        return true;
      }
      var s := Search(w, ignored, ctx, bs, target);
      ReachSelf(Bonds(w, ignored), bs);
      var visited, log;
      ok, visited, log := ChangeNode(s, bs, ignored, [], {});
      if !ok {
        return;
      }
      RecordedIsConnected(s, visited, log);
      MovedAgrees(w, ignored, ctx, bs, target);
      Commit(log, target);
      assert ctx == Moved(w, ignored, old(ctx), bs, target);
    }

    /** tran_commit: runs the recorded moves. */
    method Commit(log: seq<Vertex>, target: Context)
      requires forall v :: v in log ==> v in ctx
      modifies this
      ensures ctx == map v | v in old(ctx) :: if v in log then target else old(ctx)[v]
    {
      var i := 0;
      while i < |log|
        invariant 0 <= i <= |log|
        invariant ctx == map v | v in old(ctx) :: if v in log[..i] then target else old(ctx)[v]
      {
        assert log[..i + 1] == log[..i] + [log[i]];
        ctx := ctx[log[i] := target];
        i := i + 1;
      }
      assert log[..|log|] == log;
    }
  }

  lemma MovedAlready(w: World, ignored: set<EdgeId>, ctx: map<Vertex, Context>, bs: Vertex, target: Context)
    requires WorldOk(w) && Agree(w, ignored, ctx) && bs in ctx && ctx[bs] == target
    ensures Moved(w, ignored, ctx, bs, target) == ctx
  {
    forall v | v in ctx
      ensures Moved(w, ignored, ctx, bs, target)[v] == ctx[v]
    {
      if Connected(w, ignored, bs, v) {
        var path :| PathFrom(Bonds(w, ignored), path, bs, v);
        ConnectedAgree(w, ignored, ctx, path, bs, v);
      }
    }
  }

  lemma RecordedIsConnected(s: Search, visited: set<EdgeId>, log: seq<Vertex>)
    requires Progress(s, visited, log, {}) && s.start in log
    ensures forall v :: v in log <==> v in s.ctx && Connected(s.w, s.ignored, s.start, v)
    ensures !AnyStuck(s.w, s.ignored, s.start)
  {
    forall v | Connected(s.w, s.ignored, s.start, v)
      ensures v in log
    {
      var path :| PathFrom(Bonds(s.w, s.ignored), path, s.start, v);
      AllRecorded(s, visited, log, path, v);
    }
    forall v | v in log
      ensures InScope(s, v) && !Stuck(s.w, v)
    {
      assert Finished(s, visited, v);
    }
  }

  /** Edges keep their ends together. */
  lemma MovedAgrees(w: World, ignored: set<EdgeId>, ctx: map<Vertex, Context>, bs: Vertex, target: Context)
    requires WorldOk(w) && Agree(w, ignored, ctx)
    ensures Agree(w, ignored, Moved(w, ignored, ctx, bs, target))
  {
    var ctx' := Moved(w, ignored, ctx, bs, target);
    forall c | c in w.edges && c !in ignored && w.edges[c].owner in ctx' && w.edges[c].bs in ctx'
      ensures ctx'[w.edges[c].owner] == ctx'[w.edges[c].bs]
    {
      var u, v := w.edges[c].owner, w.edges[c].bs;
      BondOfEdge(w, ignored, c);
      if Connected(w, ignored, bs, u) {
        ReachLast(Bonds(w, ignored), bs, u, v);
      }
      if Connected(w, ignored, bs, v) {
        ReachLast(Bonds(w, ignored), bs, v, u);
      }
    }
  }
}
