/**
 * The backward pass of `Value.backward` (src/core.py): a depth-first,
 * post-order topological sort of the nodes reachable from the output,
 * followed by one run of every node's local rule in reverse list order.
 *
 * The sweep is specified by `Sweep`, and `SweepIsGradient` proves that it
 * computes the chain-rule derivative `Deriv` when the caller has reset the
 * gradients of the intermediate nodes.
 */
module Backprop {
  import opened ValueGraph

  function Elems(s: seq<nat>): set<nat>
  {
    set x | x in s
  }

  predicate NoDup(s: seq<nat>)
  {
    forall p, q :: 0 <= p < q < |s| ==> s[p] != s[q]
  }

  /**
   * A list in which every node appears once and after every node it reaches
   * (its operands, their operands, and so on).
   */
  ghost predicate Ordered(nodes: seq<Node>, topo: seq<nat>)
    requires OperandsBelow(nodes)
  {
    && (forall p :: 0 <= p < |topo| ==> topo[p] < |nodes|)
    && NoDup(topo)
    && (forall p :: 0 <= p < |topo| ==> Reach(nodes, topo[p]) - {topo[p]} <= Elems(topo[..p]))
  }

  /** The list `backward` builds for `out`: exactly the reachable nodes, ordered. */
  ghost predicate IsTopoOrder(nodes: seq<Node>, out: nat, topo: seq<nat>)
    requires OperandsBelow(nodes) && out < |nodes|
  {
    Ordered(nodes, topo) && Elems(topo) == Reach(nodes, out)
  }

  // ---------------------------------------------------------------------
  // Facts about reachability

  lemma ReachStep(nodes: seq<Node>, w: nat, c: nat, u: nat)
    requires OperandsBelow(nodes) && w < |nodes|
    requires c in Children(nodes[w].rule) && c < |nodes|
    requires u in Reach(nodes, c)
    ensures u in Reach(nodes, w)
  {
    ChildrenBelow(nodes[w].rule, w);
    assert u in ReachAll(nodes, Children(nodes[w].rule), w);
  }

  lemma ChildrenReached(nodes: seq<Node>, w: nat)
    requires OperandsBelow(nodes) && w < |nodes|
    ensures forall c :: c in Children(nodes[w].rule) ==> c < w && c in Reach(nodes, w)
  {
    ChildrenBelow(nodes[w].rule, w);
    forall c | c in Children(nodes[w].rule)
      ensures c in Reach(nodes, w)
    {
      ReachStep(nodes, w, c, c);
    }
  }

  /** Whatever a reachable node reaches is reachable. */
  lemma {:induction false} ReachTransitive(nodes: seq<Node>, w: nat, u: nat)
    requires OperandsBelow(nodes) && w < |nodes| && u in Reach(nodes, w)
    ensures Reach(nodes, u) <= Reach(nodes, w)
    decreases w
  {
    if u != w {
      ChildrenBelow(nodes[w].rule, w);
      var c :| c in Children(nodes[w].rule) && u in Reach(nodes, c);
      ReachTransitive(nodes, c, u);
      forall x | x in Reach(nodes, u)
        ensures x in Reach(nodes, w)
      {
        ReachStep(nodes, w, c, x);
      }
    }
  }

  lemma ReachAllAdd(nodes: seq<Node>, cs: set<nat>, c: nat, bound: nat)
    requires OperandsBelow(nodes) && bound <= |nodes| && c < bound
    requires forall x :: x in cs ==> x < bound
    ensures ReachAll(nodes, cs + {c}, bound) == ReachAll(nodes, cs, bound) + Reach(nodes, c)
  {
    ReachAllGrows(nodes, cs, c, bound);
    ReachAllSplits(nodes, cs, c, bound);
  }

  lemma ReachAllGrows(nodes: seq<Node>, cs: set<nat>, c: nat, bound: nat)
    requires OperandsBelow(nodes) && bound <= |nodes| && c < bound
    requires forall x :: x in cs ==> x < bound
    ensures ReachAll(nodes, cs, bound) + Reach(nodes, c) <= ReachAll(nodes, cs + {c}, bound)
  {
    var all := ReachAll(nodes, cs + {c}, bound);
    forall u | u in Reach(nodes, c)
      ensures u in all
    {
      assert c in cs + {c};
    }
    forall u | u in ReachAll(nodes, cs, bound)
      ensures u in all
    {
      var d :| d in cs && u in Reach(nodes, d);
      assert d in cs + {c};
    }
  }

  lemma ReachAllSplits(nodes: seq<Node>, cs: set<nat>, c: nat, bound: nat)
    requires OperandsBelow(nodes) && bound <= |nodes| && c < bound
    requires forall x :: x in cs ==> x < bound
    ensures ReachAll(nodes, cs + {c}, bound) <= ReachAll(nodes, cs, bound) + Reach(nodes, c)
  {
    forall u | u in ReachAll(nodes, cs + {c}, bound)
      ensures u in ReachAll(nodes, cs, bound) + Reach(nodes, c)
    {
      var d :| d in cs + {c} && u in Reach(nodes, d);
      if d != c {
        assert u in ReachAll(nodes, cs, bound);
      }
    }
  }

  /** The reference derivative vanishes outside the reachable set. */
  lemma {:induction false} DerivSupport(nodes: seq<Node>, w: nat, u: nat)
    requires OperandsBelow(nodes) && w < |nodes|
    requires u != w && Deriv(nodes, w, u) != 0.0
    ensures u in Reach(nodes, w)
    decreases w
  {
    ChildrenReached(nodes, w);
    match nodes[w].rule
    case Leaf =>
    case Add(i, j) =>
      var c := if Deriv(nodes, i, u) != 0.0 then i else j;
      Descend(nodes, w, c, u);
    case Mul(i, j) =>
      var c := if Deriv(nodes, i, u) != 0.0 then i else j;
      Descend(nodes, w, c, u);
    case Pow(i, _) =>
      Descend(nodes, w, i, u);
    case Relu(i) =>
      Descend(nodes, w, i, u);
  }

  lemma {:induction false} Descend(nodes: seq<Node>, w: nat, c: nat, u: nat)
    requires OperandsBelow(nodes) && w < |nodes| && c in Children(nodes[w].rule)
    requires c < w
    requires Deriv(nodes, c, u) != 0.0
    ensures u in Reach(nodes, w)
    decreases w, 0
  {
    if u != c {
      DerivSupport(nodes, c, u);
    }
    ReachStep(nodes, w, c, u);
  }

  // ---------------------------------------------------------------------
  // build_topo

  lemma ElemsAppend(s: seq<nat>, x: nat)
    ensures Elems(s + [x]) == Elems(s) + {x}
  {
    assert forall y :: y in s + [x] <==> y in s || y == x;
  }

  lemma ReachUnfold(nodes: seq<Node>, v: nat)
    requires OperandsBelow(nodes) && v < |nodes|
    ensures forall c :: c in Children(nodes[v].rule) ==> c < v
    ensures Reach(nodes, v) == {v} + ReachAll(nodes, Children(nodes[v].rule), v)
  {
    ChildrenBelow(nodes[v].rule, v);
  }

  lemma OrderedClosed(nodes: seq<Node>, topo: seq<nat>, v: nat)
    requires OperandsBelow(nodes) && Ordered(nodes, topo) && v in Elems(topo)
    ensures v < |nodes| && Reach(nodes, v) <= Elems(topo)
  {
    var p :| 0 <= p < |topo| && topo[p] == v;
    assert Elems(topo[..p]) <= Elems(topo);
  }

  lemma OrderedAppend(nodes: seq<Node>, topo: seq<nat>, v: nat)
    requires OperandsBelow(nodes) && Ordered(nodes, topo) && v < |nodes|
    requires v !in Elems(topo) && Reach(nodes, v) - {v} <= Elems(topo)
    ensures Ordered(nodes, topo + [v])
  {
    var t := topo + [v];
    assert t[..|topo|] == topo;
    forall p | 0 <= p < |t|
      ensures Reach(nodes, t[p]) - {t[p]} <= Elems(t[..p])
    {
      if p < |topo| {
        assert t[..p] == topo[..p];
      }
    }
    forall p, q | 0 <= p < q < |t|
      ensures t[p] != t[q]
    {
      if q == |topo| {
        assert t[p] in Elems(topo);
      }
    }
  }

  /**
   * `build_topo` (src/core.py:61-66): depth-first search with a visited set;
   * a node is appended after all its children.  `visited0` holds, besides
   * the finished nodes (those already in `topo0`), only the nodes on the
   * current search path, which lie above `v`.
   */
  method Visit(nodes: seq<Node>, v: nat, visited0: set<nat>, topo0: seq<nat>)
    returns (visited: set<nat>, topo: seq<nat>)
    requires OperandsBelow(nodes) && v < |nodes|
    requires Ordered(nodes, topo0) && Elems(topo0) <= visited0
    requires forall u :: u in visited0 ==> u in Elems(topo0) || u > v
    ensures Ordered(nodes, topo) && topo0 <= topo
    ensures Elems(topo) == Elems(topo0) + Reach(nodes, v)
    ensures visited == visited0 + Reach(nodes, v)
    decreases v
  {
    if v in visited0 {
      OrderedClosed(nodes, topo0, v);
      return visited0, topo0;
    }
    visited := visited0 + {v};
    topo := topo0;
    var kids := Children(nodes[v].rule);
    ReachUnfold(nodes, v);
    var rest := kids;
    ExploredStart(nodes, v, visited0, topo0);
    while rest != {}
      invariant rest <= kids
      invariant Explored(nodes, v, visited0, topo0, kids - rest, visited, topo)
      decreases rest
    {
      var c :| c in rest;
      ExploredCalls(nodes, v, visited0, topo0, kids - rest, visited, topo, c);
      var visited', topo' := Visit(nodes, c, visited, topo);
      ExploredStep(nodes, v, visited0, topo0, kids, rest, visited, topo, c, visited', topo');
      visited, topo, rest := visited', topo', rest - {c};
    }
    VisitFinish(nodes, v, visited0, topo0, visited, topo);
    ElemsAppend(topo, v);
    topo := topo + [v];
  }

  /**
   * The state of `Visit(v)` after the children `done` are explored: `topo`
   * grew by exactly what they reach, in order, and `visited` by `v` and the
   * same nodes; the only other visited nodes lie above `v`.
   */
  ghost predicate Explored(nodes: seq<Node>, v: nat, visited0: set<nat>, topo0: seq<nat>,
                           done: set<nat>, visited: set<nat>, topo: seq<nat>)
    requires OperandsBelow(nodes) && v < |nodes|
  {
    && (forall c :: c in done ==> c < v)
    && Ordered(nodes, topo0) && Elems(topo0) <= visited0
    && (forall u :: u in visited0 ==> u in Elems(topo0) || u > v)
    && Ordered(nodes, topo) && topo0 <= topo
    && Elems(topo) == Elems(topo0) + ReachAll(nodes, done, v)
    && visited == visited0 + {v} + ReachAll(nodes, done, v)
  }

  /** Exploring a child keeps the preconditions of `Visit` for it. */
  lemma ExploredCalls(nodes: seq<Node>, v: nat, visited0: set<nat>, topo0: seq<nat>,
                      done: set<nat>, visited: set<nat>, topo: seq<nat>, c: nat)
    requires OperandsBelow(nodes) && v < |nodes| && c < v && v !in visited0
    requires Explored(nodes, v, visited0, topo0, done, visited, topo)
    ensures Ordered(nodes, topo) && Elems(topo) <= visited
    ensures forall u :: u in visited ==> u in Elems(topo) || u > c
  {
  }

  lemma ExploredStart(nodes: seq<Node>, v: nat, visited0: set<nat>, topo0: seq<nat>)
    requires OperandsBelow(nodes) && v < |nodes|
    requires Ordered(nodes, topo0) && Elems(topo0) <= visited0
    requires forall u :: u in visited0 ==> u in Elems(topo0) || u > v
    ensures var kids := Children(nodes[v].rule);
      Explored(nodes, v, visited0, topo0, kids - kids, visited0 + {v}, topo0)
  {
    var kids := Children(nodes[v].rule);
    assert kids - kids == {};
  }

  lemma ExploredStep(nodes: seq<Node>, v: nat, visited0: set<nat>, topo0: seq<nat>,
                     kids: set<nat>, rest: set<nat>, visited: set<nat>, topo: seq<nat>,
                     c: nat, visited': set<nat>, topo': seq<nat>)
    requires OperandsBelow(nodes) && v < |nodes| && c < v && c in rest && rest <= kids
    requires Explored(nodes, v, visited0, topo0, kids - rest, visited, topo)
    requires Ordered(nodes, topo') && topo <= topo'
    requires Elems(topo') == Elems(topo) + Reach(nodes, c)
    requires visited' == visited + Reach(nodes, c)
    ensures Explored(nodes, v, visited0, topo0, kids - (rest - {c}), visited', topo')
  {
    var done, done' := kids - rest, kids - (rest - {c});
    assert done' == done + {c};
    ReachAllAdd(nodes, done, c, v);
    var r, r' := ReachAll(nodes, done, v), ReachAll(nodes, done', v);
    UnionGrows(Elems(topo0), r, Reach(nodes, c), r', Elems(topo), Elems(topo'));
    UnionGrows(visited0 + {v}, r, Reach(nodes, c), r', visited, visited');
  }

  lemma UnionGrows(base: set<nat>, r: set<nat>, extra: set<nat>, r': set<nat>, t: set<nat>, t': set<nat>)
    requires t == base + r && t' == t + extra && r' == r + extra
    ensures t' == base + r'
  {
  }

  /** After all children, `v` can be appended: everything it reaches is listed. */
  lemma VisitFinish(nodes: seq<Node>, v: nat, visited0: set<nat>, topo0: seq<nat>,
                    visited: set<nat>, topo: seq<nat>)
    requires OperandsBelow(nodes) && v < |nodes| && v !in visited0
    requires forall c :: c in Children(nodes[v].rule) ==> c < v
    requires Explored(nodes, v, visited0, topo0, Children(nodes[v].rule) - {}, visited, topo)
    ensures Ordered(nodes, topo + [v]) && topo0 <= topo + [v]
    ensures Elems(topo) + {v} == Elems(topo0) + Reach(nodes, v)
    ensures visited == visited0 + Reach(nodes, v)
  {
    assert Children(nodes[v].rule) - {} == Children(nodes[v].rule);
    ReachUnfold(nodes, v);
    assert v !in Elems(topo);
    OrderedAppend(nodes, topo, v);
  }

  /** The `topo` list of `backward` (src/core.py:59-67). */
  method BuildTopo(nodes: seq<Node>, out: nat) returns (topo: seq<nat>)
    requires OperandsBelow(nodes) && out < |nodes|
    ensures IsTopoOrder(nodes, out, topo)
    ensures |topo| == |Reach(nodes, out)|
  {
    var visited;
    visited, topo := Visit(nodes, out, {}, []);
    NoDupCard(topo);
  }

  lemma {:induction false} NoDupCard(s: seq<nat>)
    requires NoDup(s)
    ensures |Elems(s)| == |s|
  {
    if s != [] {
      var t := s[..|s| - 1];
      assert s == t + [s[|s| - 1]];
      assert Elems(s) == Elems(t) + {s[|s| - 1]};
      assert s[|s| - 1] !in Elems(t);
      NoDupCard(t);
    }
  }

  // ---------------------------------------------------------------------
  // The reverse sweep

  /** No node of `order` has `u` among its children, so no rule run for `order` writes `u`'s gradient. */
  predicate NotOperand(nodes: seq<Node>, order: seq<nat>, u: nat)
    requires forall p :: 0 <= p < |order| ==> order[p] < |nodes|
  {
    forall p :: 0 <= p < |order| ==> u !in Children(nodes[order[p]].rule)
  }

  /**
   * Runs the local rules of `order` from its last element to its first.
   * Only the operands of the listed nodes have their gradients changed.
   */
  function Sweep(nodes: seq<Node>, g: seq<real>, order: seq<nat>): (r: seq<real>)
    requires OperandsBelow(nodes) && |g| == |nodes|
    requires forall p :: 0 <= p < |order| ==> order[p] < |nodes|
    ensures |r| == |g|
    ensures forall u :: 0 <= u < |g| && NotOperand(nodes, order, u) ==> r[u] == g[u]
    decreases |order|
  {
    if order == [] then g
    else
      var front := order[..|order| - 1];
      assert forall u :: NotOperand(nodes, order, u) ==> NotOperand(nodes, front, u) by {
        forall u | NotOperand(nodes, order, u)
          ensures NotOperand(nodes, front, u)
        {
          assert forall p :: 0 <= p < |front| ==> front[p] == order[p];
        }
      }
      Sweep(nodes, Propagate(nodes, g, order[|order| - 1]), front)
  }

  /** The sweep runs the last listed rule first. */
  lemma SweepLast(nodes: seq<Node>, g: seq<real>, order: seq<nat>)
    requires OperandsBelow(nodes) && |g| == |nodes| && order != []
    requires forall p :: 0 <= p < |order| ==> order[p] < |nodes|
    ensures Sweep(nodes, g, order) == Sweep(nodes, Propagate(nodes, g, order[|order| - 1]), order[..|order| - 1])
  {
  }

  /** Running the rule of `order[k - 1]` leaves the sweep of the first `k - 1` nodes to do. */
  lemma SweepDown(nodes: seq<Node>, g: seq<real>, order: seq<nat>, k: nat)
    requires OperandsBelow(nodes) && |g| == |nodes| && 0 < k <= |order|
    requires forall p :: 0 <= p < |order| ==> order[p] < |nodes|
    ensures Sweep(nodes, Propagate(nodes, g, order[k - 1]), order[..k - 1]) == Sweep(nodes, g, order[..k])
  {
    SweepLast(nodes, g, order[..k]);
    assert order[..k][..k - 1] == order[..k - 1];
  }

  /**
   * The reset discipline: every reachable derived node other than the
   * output holds a zero gradient.
   */
  ghost predicate ResetDone(nodes: seq<Node>, out: nat, g: seq<real>)
    requires OperandsBelow(nodes) && out < |nodes| == |g|
  {
    forall w :: w in Reach(nodes, out) && w != out && !nodes[w].rule.Leaf? ==> g[w] == 0.0
  }

  /** Sweeping reachable nodes never writes to the output or to an unreachable node. */
  lemma {:induction false} SweepFrame(nodes: seq<Node>, out: nat, s: seq<nat>, g: seq<real>)
    requires OperandsBelow(nodes) && out < |nodes| == |g|
    requires forall p :: 0 <= p < |s| ==> s[p] < |nodes| && s[p] in Reach(nodes, out)
    ensures forall u :: 0 <= u < |nodes| && (u == out || u !in Reach(nodes, out)) ==> Sweep(nodes, g, s)[u] == g[u]
    decreases |s|
  {
    if s != [] {
      var w := s[|s| - 1];
      var g' := Propagate(nodes, g, w);
      ChildrenReached(nodes, w);
      forall c | c in Children(nodes[w].rule)
        ensures c in Reach(nodes, out) && c != out
      {
        ReachTransitive(nodes, out, w);
      }
      SweepFrame(nodes, out, s[..|s| - 1], g');
    }
  }

  // ---------------------------------------------------------------------
  // Correctness of the sweep

  /**
   * The gradient still owed to `u` by the unprocessed nodes `s`: each
   * contributes its fresh gradient (its accumulator minus the stale part `b`)
   * times its derivative with respect to `u`.
   */
  ghost function Pending(nodes: seq<Node>, g: seq<real>, b: seq<real>, s: seq<nat>, u: nat): real
    requires OperandsBelow(nodes) && |g| == |nodes| && |b| == |nodes|
    requires forall p :: 0 <= p < |s| ==> s[p] < |nodes|
    decreases |s|
  {
    if s == [] then 0.0
    else
      var w := s[|s| - 1];
      Pending(nodes, g, b, s[..|s| - 1], u) + Scale(g[w] - b[w], Deriv(nodes, w, u))
  }

  lemma {:induction false} PendingAgree(nodes: seq<Node>, g: seq<real>, h: seq<real>, b: seq<real>, s: seq<nat>, u: nat)
    requires OperandsBelow(nodes) && |g| == |nodes| && |h| == |nodes| && |b| == |nodes|
    requires forall p :: 0 <= p < |s| ==> s[p] < |nodes| && g[s[p]] == h[s[p]]
    ensures Pending(nodes, g, b, s, u) == Pending(nodes, h, b, s, u)
    decreases |s|
  {
    if s != [] {
      PendingAgree(nodes, g, h, b, s[..|s| - 1], u);
    }
  }

  /** Scaling distributes over a sum of factors. */
  lemma ScaleSum(x: real, y: real, z: real, d: real)
    requires z == x + y
    ensures Scale(z, d) == Scale(x, d) + Scale(y, d)
  {
  }

  /** Adding `delta` to one listed accumulator adds `delta` times its derivative. */
  lemma {:induction false} PendingBump(nodes: seq<Node>, g: seq<real>, b: seq<real>, s: seq<nat>, c: nat, delta: real, u: nat)
    requires OperandsBelow(nodes) && |g| == |nodes| && |b| == |nodes|
    requires forall p :: 0 <= p < |s| ==> s[p] < |nodes|
    requires NoDup(s) && c in s
    ensures Pending(nodes, Bump(g, c, delta), b, s, u) == Pending(nodes, g, b, s, u) + Scale(delta, Deriv(nodes, c, u))
    decreases |s|
  {
    var h := Bump(g, c, delta);
    var t := s[..|s| - 1];
    var w := s[|s| - 1];
    if w == c {
      assert forall p :: 0 <= p < |t| ==> t[p] != c;
      PendingAgree(nodes, h, g, b, t, u);
      ScaleSum(g[c] - b[c], delta, h[c] - b[c], Deriv(nodes, c, u));
    } else {
      assert c in t by {
        var p :| 0 <= p < |s| && s[p] == c;
        assert t[p] == c;
      }
      PendingBump(nodes, g, b, t, c, delta, u);
    }
  }

  lemma {:induction false} PendingVanishes(nodes: seq<Node>, g: seq<real>, b: seq<real>, s: seq<nat>, u: nat)
    requires OperandsBelow(nodes) && |g| == |nodes| && |b| == |nodes|
    requires forall p :: 0 <= p < |s| ==> s[p] < |nodes| && Deriv(nodes, s[p], u) == 0.0
    ensures Pending(nodes, g, b, s, u) == 0.0
    decreases |s|
  {
    if s != [] {
      PendingVanishes(nodes, g, b, s[..|s| - 1], u);
    }
  }

  /** When only `out` carries a fresh gradient, the pending sum is its share. */
  lemma {:induction false} PendingSingle(nodes: seq<Node>, g: seq<real>, b: seq<real>, s: seq<nat>, out: nat, u: nat)
    requires OperandsBelow(nodes) && |g| == |nodes| && |b| == |nodes| && out < |nodes|
    requires forall p :: 0 <= p < |s| ==> s[p] < |nodes| && (s[p] == out || g[s[p]] == b[s[p]])
    requires NoDup(s) && out in s
    ensures Pending(nodes, g, b, s, u) == Scale(g[out] - b[out], Deriv(nodes, out, u))
    decreases |s|
  {
    var t := s[..|s| - 1];
    if s[|s| - 1] == out {
      PendingZeroFresh(nodes, g, b, t, u);
    } else {
      assert out in t by {
        var p :| 0 <= p < |s| && s[p] == out;
        assert t[p] == out;
      }
      PendingSingle(nodes, g, b, t, out, u);
    }
  }

  lemma {:induction false} PendingZeroFresh(nodes: seq<Node>, g: seq<real>, b: seq<real>, s: seq<nat>, u: nat)
    requires OperandsBelow(nodes) && |g| == |nodes| && |b| == |nodes|
    requires forall p :: 0 <= p < |s| ==> s[p] < |nodes| && g[s[p]] == b[s[p]]
    ensures Pending(nodes, g, b, s, u) == 0.0
    decreases |s|
  {
    if s != [] {
      PendingZeroFresh(nodes, g, b, s[..|s| - 1], u);
    }
  }

  lemma PendingTwoBumps(nodes: seq<Node>, g: seq<real>, b: seq<real>, s: seq<nat>,
                        i: nat, di: real, j: nat, dj: real, u: nat)
    requires OperandsBelow(nodes) && |g| == |nodes| && |b| == |nodes|
    requires forall p :: 0 <= p < |s| ==> s[p] < |nodes|
    requires NoDup(s) && i in s && j in s
    ensures Pending(nodes, Bump(Bump(g, i, di), j, dj), b, s, u)
         == Pending(nodes, g, b, s, u) + Scale(di, Deriv(nodes, i, u)) + Scale(dj, Deriv(nodes, j, u))
  {
    PendingBump(nodes, g, b, s, i, di, u);
    PendingBump(nodes, Bump(g, i, di), b, s, j, dj, u);
  }

  /** The chain rule for one operand: `(m * up) * d == up * (m * d)`. */
  lemma ChainOne(up: real, m: real, d: real, dw: real)
    requires dw == Scale(m, d)
    ensures Scale(Scale(m, up), d) == Scale(up, dw)
  {
  }

  /** The chain rule for two operands. */
  lemma ChainTwo(up: real, m: real, d: real, n: real, e: real, dw: real)
    requires dw == Scale(m, d) + Scale(n, e)
    ensures Scale(Scale(m, up), d) + Scale(Scale(n, up), e) == Scale(up, dw)
  {
  }

  /** Running the rule of `w` moves its share of the pending sum to its operands. */
  lemma PropagatePending(nodes: seq<Node>, g: seq<real>, b: seq<real>, s: seq<nat>, w: nat, u: nat)
    requires OperandsBelow(nodes) && w < |nodes| == |g| == |b|
    requires forall p :: 0 <= p < |s| ==> s[p] < |nodes|
    requires NoDup(s) && Children(nodes[w].rule) <= Elems(s) && u != w
    ensures Pending(nodes, Propagate(nodes, g, w), b, s, u) == Pending(nodes, g, b, s, u) + Scale(g[w], Deriv(nodes, w, u))
  {
    ChildrenBelow(nodes[w].rule, w);
    var up := g[w];
    match nodes[w].rule
    case Leaf =>
    case Add(i, j) =>
      assert i in Elems(s) && j in Elems(s);
      PendingTwoBumps(nodes, g, b, s, i, up, j, up, u);
      ScaleSum(Deriv(nodes, i, u), Deriv(nodes, j, u), Deriv(nodes, w, u), up);
      ScaleSwap(up, Deriv(nodes, i, u));
      ScaleSwap(up, Deriv(nodes, j, u));
      ScaleSwap(up, Deriv(nodes, w, u));
    case Mul(i, j) =>
      assert i in Elems(s) && j in Elems(s);
      PendingTwoBumps(nodes, g, b, s, i, Scale(nodes[j].data, up), j, Scale(nodes[i].data, up), u);
      ChainTwo(up, nodes[j].data, Deriv(nodes, i, u), nodes[i].data, Deriv(nodes, j, u), Deriv(nodes, w, u));
    case Pow(i, k) =>
      assert i in Elems(s);
      PendingBump(nodes, g, b, s, i, Scale(PowSlope(nodes[i].data, k), up), u);
      ChainOne(up, PowSlope(nodes[i].data, k), Deriv(nodes, i, u), Deriv(nodes, w, u));
    case Relu(i) =>
      assert i in Elems(s);
      PendingBump(nodes, g, b, s, i, Scale(ReluSlope(nodes[i].data), up), u);
      ChainOne(up, ReluSlope(nodes[i].data), Deriv(nodes, i, u), Deriv(nodes, w, u));
  }

  lemma ScaleSwap(c: real, x: real)
    ensures Scale(c, x) == Scale(x, c)
  {
  }

  /**
   * The loop invariant of the sweep: nodes outside the unprocessed list `s`
   * hold their final gradient, and for the listed ones the pending sum is
   * the derivative.
   */
  ghost predicate SweepInv(nodes: seq<Node>, out: nat, s: seq<nat>, g: seq<real>, b: seq<real>)
    requires OperandsBelow(nodes) && out < |nodes|
  {
    && Ordered(nodes, s) && |g| == |nodes| && |b| == |nodes|
    && (forall u :: 0 <= u < |nodes| && u !in s ==> g[u] == b[u] + Deriv(nodes, out, u))
    && (forall p :: 0 <= p < |s| ==> Pending(nodes, g, b, s, s[p]) == Deriv(nodes, out, s[p]))
    && (forall p :: 0 <= p < |s| && !nodes[s[p]].rule.Leaf? ==> b[s[p]] == 0.0)
  }

  /** Once the list is exhausted, every accumulator holds its final gradient. */
  lemma {:induction false} SweepInvariant(nodes: seq<Node>, out: nat, s: seq<nat>, g: seq<real>, b: seq<real>)
    requires OperandsBelow(nodes) && out < |nodes| && SweepInv(nodes, out, s, g, b)
    ensures forall u :: 0 <= u < |nodes| ==> Sweep(nodes, g, s)[u] == b[u] + Deriv(nodes, out, u)
    decreases |s|
  {
    if s != [] {
      SweepStep(nodes, out, s, g, b);
      SweepInvariant(nodes, out, s[..|s| - 1], Propagate(nodes, g, s[|s| - 1]), b);
    }
  }

  /** Running the rule of the last listed node keeps the invariant for the rest. */
  lemma SweepStep(nodes: seq<Node>, out: nat, s: seq<nat>, g: seq<real>, b: seq<real>)
    requires OperandsBelow(nodes) && out < |nodes| && SweepInv(nodes, out, s, g, b) && s != []
    ensures SweepInv(nodes, out, s[..|s| - 1], Propagate(nodes, g, s[|s| - 1]), b)
  {
    var t := s[..|s| - 1];
    OperandsFirst(nodes, s);
    OrderedPrefix(nodes, s, |s| - 1);
    LastIsFinal(nodes, out, s, g, b);
    StepFinal(nodes, out, s, g, b);
    StepPending(nodes, out, s, g, b);
    assert forall p :: 0 <= p < |t| ==> t[p] == s[p];
  }

  /** A prefix of an ordered list is ordered. */
  lemma OrderedPrefix(nodes: seq<Node>, s: seq<nat>, n: nat)
    requires OperandsBelow(nodes) && Ordered(nodes, s) && n <= |s|
    ensures Ordered(nodes, s[..n])
  {
    var t := s[..n];
    forall p | 0 <= p < n
      ensures Reach(nodes, t[p]) - {t[p]} <= Elems(t[..p])
    {
      assert t[..p] == s[..p];
    }
  }

  /** In an ordered list, the last node is not repeated and its operands come first. */
  lemma OperandsFirst(nodes: seq<Node>, s: seq<nat>)
    requires OperandsBelow(nodes) && Ordered(nodes, s) && s != []
    ensures s[|s| - 1] !in s[..|s| - 1]
    ensures Children(nodes[s[|s| - 1]].rule) <= Elems(s[..|s| - 1])
  {
    var w := s[|s| - 1];
    ChildrenReached(nodes, w);
    assert Reach(nodes, w) - {w} <= Elems(s[..|s| - 1]);
    NotBefore(s, |s| - 1, |s| - 1);
  }

  /** A node of a list without repetitions does not occur before its position. */
  lemma NotBefore(s: seq<nat>, p: nat, n: nat)
    requires NoDup(s) && p < |s| && n <= p
    ensures s[p] !in s[..n] && s[p] !in Elems(s[..n])
  {
    assert forall q :: 0 <= q < n ==> s[..n][q] == s[q] != s[p];
  }

  /** In an ordered list, no node depends on the last one. */
  lemma NoneDependsOnLast(nodes: seq<Node>, s: seq<nat>)
    requires OperandsBelow(nodes) && Ordered(nodes, s) && s != []
    ensures forall p :: 0 <= p < |s| - 1 ==> Deriv(nodes, s[p], s[|s| - 1]) == 0.0
  {
    var w := s[|s| - 1];
    forall p | 0 <= p < |s| - 1
      ensures Deriv(nodes, s[p], w) == 0.0
    {
      var x := s[p];
      NotBefore(s, |s| - 1, p);
      assert x != w;
      assert w !in Reach(nodes, x);
      if Deriv(nodes, x, w) != 0.0 {
        DerivSupport(nodes, x, w);
      }
    }
  }

  /**
   * The last node of the unprocessed list already holds its final gradient,
   * because no other listed node depends on it.
   */
  lemma LastIsFinal(nodes: seq<Node>, out: nat, s: seq<nat>, g: seq<real>, b: seq<real>)
    requires OperandsBelow(nodes) && out < |nodes| && Ordered(nodes, s) && s != []
    requires |g| == |nodes| && |b| == |nodes|
    requires Pending(nodes, g, b, s, s[|s| - 1]) == Deriv(nodes, out, s[|s| - 1])
    ensures g[s[|s| - 1]] - b[s[|s| - 1]] == Deriv(nodes, out, s[|s| - 1])
  {
    NoneDependsOnLast(nodes, s);
    PendingVanishes(nodes, g, b, s[..|s| - 1], s[|s| - 1]);
  }

  /** After running the last rule, every node left unlisted holds its final gradient. */
  lemma StepFinal(nodes: seq<Node>, out: nat, s: seq<nat>, g: seq<real>, b: seq<real>)
    requires OperandsBelow(nodes) && out < |nodes| && (forall p :: 0 <= p < |s| ==> s[p] < |nodes|) && s != []
    requires |g| == |nodes| && |b| == |nodes|
    requires forall u :: 0 <= u < |nodes| && u !in s ==> g[u] == b[u] + Deriv(nodes, out, u)
    requires g[s[|s| - 1]] - b[s[|s| - 1]] == Deriv(nodes, out, s[|s| - 1])
    requires s[|s| - 1] !in s[..|s| - 1] && Children(nodes[s[|s| - 1]].rule) <= Elems(s[..|s| - 1])
    ensures forall u :: 0 <= u < |nodes| && u !in s[..|s| - 1] ==>
      Propagate(nodes, g, s[|s| - 1])[u] == b[u] + Deriv(nodes, out, u)
  {
    var w, t := s[|s| - 1], s[..|s| - 1];
    var h := Propagate(nodes, g, w);
    forall u | 0 <= u < |nodes| && u !in t
      ensures h[u] == b[u] + Deriv(nodes, out, u)
    {
      if u != w {
        assert u !in s by { assert s == t + [w]; }
        assert u !in Elems(t);
      }
    }
  }

  /** After running the last rule, the pending sums of the other listed nodes are unchanged. */
  lemma StepPending(nodes: seq<Node>, out: nat, s: seq<nat>, g: seq<real>, b: seq<real>)
    requires OperandsBelow(nodes) && out < |nodes| && Ordered(nodes, s) && s != []
    requires |g| == |nodes| && |b| == |nodes|
    requires forall p :: 0 <= p < |s| ==> Pending(nodes, g, b, s, s[p]) == Deriv(nodes, out, s[p])
    requires forall p :: 0 <= p < |s| && !nodes[s[p]].rule.Leaf? ==> b[s[p]] == 0.0
    requires s[|s| - 1] !in s[..|s| - 1] && Children(nodes[s[|s| - 1]].rule) <= Elems(s[..|s| - 1])
    ensures var t := s[..|s| - 1]; forall p :: 0 <= p < |t| ==>
      Pending(nodes, Propagate(nodes, g, s[|s| - 1]), b, t, t[p]) == Deriv(nodes, out, t[p])
  {
    var t := s[..|s| - 1];
    assert NoDup(t);
    forall p | 0 <= p < |t|
      ensures Pending(nodes, Propagate(nodes, g, s[|s| - 1]), b, t, t[p]) == Deriv(nodes, out, t[p])
    {
      assert t[p] == s[p];
      PendingStep(nodes, out, g, b, s, t[p]);
    }
  }

  /** One step of the sweep keeps the pending sum of an unprocessed node. */
  lemma PendingStep(nodes: seq<Node>, out: nat, g: seq<real>, b: seq<real>, s: seq<nat>, u: nat)
    requires OperandsBelow(nodes) && out < |nodes| && |g| == |nodes| && |b| == |nodes|
    requires forall p :: 0 <= p < |s| ==> s[p] < |nodes|
    requires s != [] && NoDup(s[..|s| - 1]) && u in s[..|s| - 1]
    requires s[|s| - 1] !in s[..|s| - 1] && Children(nodes[s[|s| - 1]].rule) <= Elems(s[..|s| - 1])
    requires !nodes[s[|s| - 1]].rule.Leaf? ==> b[s[|s| - 1]] == 0.0
    requires Pending(nodes, g, b, s, u) == Deriv(nodes, out, u)
    ensures Pending(nodes, Propagate(nodes, g, s[|s| - 1]), b, s[..|s| - 1], u) == Deriv(nodes, out, u)
  {
    var w := s[|s| - 1];
    PropagatePending(nodes, g, b, s[..|s| - 1], w, u);
    if nodes[w].rule.Leaf? {
      assert Deriv(nodes, w, u) == 0.0;
    }
  }

  /**
   * The gradient theorem: if the reset discipline holds, the sweep seeded
   * with 1 at `out` leaves in every node the derivative of `out` with
   * respect to it, added to whatever a leaf already held.
   */
  lemma SweepIsGradient(nodes: seq<Node>, out: nat, topo: seq<nat>, g0: seq<real>)
    requires OperandsBelow(nodes) && out < |nodes| == |g0|
    requires IsTopoOrder(nodes, out, topo) && ResetDone(nodes, out, g0)
    ensures forall u :: 0 <= u < |nodes| ==>
      Sweep(nodes, g0[out := 1.0], topo)[u] == (if u == out then 0.0 else g0[u]) + Deriv(nodes, out, u)
  {
    var g := g0[out := 1.0];
    var b := g0[out := 0.0];
    assert topo[..|topo|] == topo;
    assert out in Elems(topo);
    forall u | 0 <= u < |nodes| && u !in topo
      ensures g[u] == b[u] + Deriv(nodes, out, u)
    {
      assert u !in Reach(nodes, out);
      if Deriv(nodes, out, u) != 0.0 {
        DerivSupport(nodes, out, u);
      }
    }
    forall p | 0 <= p < |topo|
      ensures Pending(nodes, g, b, topo, topo[p]) == Deriv(nodes, out, topo[p])
    {
      PendingSingle(nodes, g, b, topo, out, topo[p]);
    }
    forall p | 0 <= p < |topo| && !nodes[topo[p]].rule.Leaf?
      ensures b[topo[p]] == 0.0
    {
      assert topo[p] in Elems(topo);
    }
    assert SweepInv(nodes, out, topo, g, b);
    SweepInvariant(nodes, out, topo, g, b);
  }
}
