/**
  Reachability and acyclicity of finite directed graphs given by their links.
*/
module Digraph {
  type Links = set<(nat, nat)>

  ghost predicate Path(l: Links, p: seq<nat>) {
    |p| > 0 && forall i :: 0 <= i < |p| - 1 ==> (p[i], p[i + 1]) in l
  }

  ghost predicate PathFrom(l: Links, p: seq<nat>, u: nat, v: nat) {
    Path(l, p) && p[0] == u && p[|p| - 1] == v
  }

  ghost predicate Reach(l: Links, u: nat, v: nat) {
    exists p :: PathFrom(l, p, u, v)
  }

  /** No link leads back. */
  ghost predicate Acyclic(l: Links) {
    forall u, v :: (u, v) in l ==> !Reach(l, v, u)
  }

  lemma ReachSelf(l: Links, u: nat)
    ensures Reach(l, u, u)
  {
    assert PathFrom(l, [u], u, u);
  }

  lemma ReachLink(l: Links, u: nat, v: nat, w: nat)
    requires (u, v) in l && Reach(l, v, w)
    ensures Reach(l, u, w)
  {
    var p :| PathFrom(l, p, v, w);
    assert PathFrom(l, [u] + p, u, w);
  }

  /** A path is empty or starts with a link. */
  lemma ReachFirst(l: Links, u: nat, w: nat) returns (v: nat)
    requires Reach(l, u, w) && u != w
    ensures (u, v) in l && Reach(l, v, w)
  {
    var p :| PathFrom(l, p, u, w);
    v := p[1];
    var rest := p[1..];
    forall i | 0 <= i < |rest| - 1
      ensures (rest[i], rest[i + 1]) in l
    {
      assert rest[i] == p[i + 1] && rest[i + 1] == p[i + 1 + 1];
    }
    assert PathFrom(l, rest, v, w);
  }

  lemma ReachTrans(l: Links, u: nat, v: nat, w: nat)
    requires Reach(l, u, v) && Reach(l, v, w)
    ensures Reach(l, u, w)
  {
    var p :| PathFrom(l, p, u, v);
    var q :| PathFrom(l, q, v, w);
    var r := p + q[1..];
    forall i | 0 <= i < |r| - 1
      ensures (r[i], r[i + 1]) in l
    {
      if i < |p| - 1 {
        assert (p[i], p[i + 1]) in l;
      } else {
        var k := i - (|p| - 1);
        assert (q[k], q[k + 1]) in l;
        assert r[i] == q[k] && r[i + 1] == q[k + 1];
      }
    }
    assert r[|r| - 1] == w;
    assert PathFrom(l, r, u, w);
  }

  lemma ReachLast(l: Links, u: nat, v: nat, w: nat)
    requires Reach(l, u, v) && (v, w) in l
    ensures Reach(l, u, w)
  {
    ReachSelf(l, w);
    ReachLink(l, v, w, w);
    ReachTrans(l, u, v, w);
  }

  /** Links that start where u does not come to do not matter for u. */
  lemma {:induction false} PathKept(l: Links, l': Links, p: seq<nat>, u: nat, v: nat)
    requires PathFrom(l, p, u, v)
    requires forall a, b :: (a, b) in l && (a, b) !in l' ==> !Reach(l, u, a)
    ensures Reach(l', u, v)
    decreases |p|
  {
    if |p| == 1 {
      ReachSelf(l', u);
    } else {
      var n := |p| - 1;
      assert (p[n - 1], p[n - 1 + 1]) in l;
      assert PathFrom(l, p[..n], u, p[n - 1]);
      PathKept(l, l', p[..n], u, p[n - 1]);
      ReachLast(l', u, p[n - 1], v);
    }
  }

  lemma ReachKept(l: Links, l': Links, u: nat, v: nat)
    requires Reach(l, u, v)
    requires forall a, b :: (a, b) in l && (a, b) !in l' ==> !Reach(l, u, a)
    ensures Reach(l', u, v)
  {
    var p :| PathFrom(l, p, u, v);
    PathKept(l, l', p, u, v);
  }

  lemma ReachMono(l: Links, l': Links, u: nat, v: nat)
    requires Reach(l, u, v) && l <= l'
    ensures Reach(l', u, v)
  {
    var p :| PathFrom(l, p, u, v);
    assert PathFrom(l', p, u, v);
  }

  lemma AcyclicMono(l: Links, l': Links)
    requires Acyclic(l') && l <= l'
    ensures Acyclic(l)
  {
    forall u, v | (u, v) in l
      ensures !Reach(l, v, u)
    {
      if Reach(l, v, u) {
        ReachMono(l, l', v, u);
      }
    }
  }

  /** A path over an extended graph either avoids the new link or leads through its start. */
  lemma {:induction false} PathOverNewLink(l: Links, a: nat, b: nat, p: seq<nat>, u: nat, v: nat)
    requires PathFrom(l + {(a, b)}, p, u, v)
    ensures Reach(l, u, v) || (Reach(l, u, a) && Reach(l, b, v))
    decreases |p|
  {
    if |p| == 1 {
      ReachSelf(l, u);
    } else {
      var n := |p| - 1;
      assert (p[n - 1], p[n - 1 + 1]) in l + {(a, b)};
      assert PathFrom(l + {(a, b)}, p[..n], u, p[n - 1]);
      PathOverNewLink(l, a, b, p[..n], u, p[n - 1]);
      if (p[n - 1], v) in l {
        if Reach(l, u, p[n - 1]) {
          ReachLast(l, u, p[n - 1], v);
        } else {
          ReachLast(l, b, p[n - 1], v);
        }
      } else {
        ReachSelf(l, b);
      }
    }
  }

  /** A link whose end does not lead to its start closes no cycle. */
  lemma AddLinkKeepsAcyclic(l: Links, a: nat, b: nat)
    requires Acyclic(l) && !Reach(l, b, a)
    ensures Acyclic(l + {(a, b)})
  {
    var l' := l + {(a, b)};
    forall u, v | (u, v) in l'
      ensures !Reach(l', v, u)
    {
      if Reach(l', v, u) {
        var p :| PathFrom(l', p, v, u);
        PathOverNewLink(l, a, b, p, v, u);
        if (u, v) in l {
          ReachLink(l, u, v, a);
          ReachTrans(l, b, u, a);
        }
      }
    }
  }
}
