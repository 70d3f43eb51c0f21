/**
 * `trace` of src/viz.py: the nodes and edges of the graph below a value,
 * collected by a depth-first search that expands every node once.
 */
module Viz {
  import opened ValueGraph
  import opened Backprop

  /** The edges `(child, v)` for every node `v` of `s` and every child in its `_prev`. */
  ghost function Edges(nodes: seq<Node>, s: set<nat>): set<(nat, nat)>
    requires forall w :: w in s ==> w < |nodes|
  {
    set w, c | w in s && c in Children(nodes[w].rule) :: (c, w)
  }

  /** The edges from the children `cs` up to `v`. */
  function Up(cs: set<nat>, v: nat): set<(nat, nat)>
  {
    set c | c in cs :: (c, v)
  }

  /** `u` has been fully expanded: everything below it, and every edge among those, is recorded. */
  ghost predicate Closed(nodes: seq<Node>, seen: set<nat>, edges: set<(nat, nat)>, u: nat)
    requires OperandsBelow(nodes) && u < |nodes|
  {
    Reach(nodes, u) <= seen && Edges(nodes, Reach(nodes, u)) <= edges
  }

  /**
   * The state of `build(v)` once the children `done` are explored: `v` and
   * everything the explored children reach are seen, and the edges recorded
   * are those up to `v` from `done` plus all edges below `done`.
   */
  ghost predicate Traced(nodes: seq<Node>, v: nat, seen0: set<nat>, edges0: set<(nat, nat)>,
                         done: set<nat>, seen: set<nat>, edges: set<(nat, nat)>)
    requires OperandsBelow(nodes) && v < |nodes|
  {
    && (forall c :: c in done ==> c < v)
    && (forall u :: u in seen0 && u < v ==> Closed(nodes, seen0, edges0, u))
    && seen == seen0 + {v} + ReachAll(nodes, done, v)
    && edges == edges0 + Up(done, v) + Edges(nodes, ReachAll(nodes, done, v))
  }

  lemma EdgesUnion(nodes: seq<Node>, a: set<nat>, b: set<nat>)
    requires forall w :: w in a + b ==> w < |nodes|
    ensures Edges(nodes, a + b) == Edges(nodes, a) + Edges(nodes, b)
  {
  }

  lemma EdgesGrow(nodes: seq<Node>, a: set<nat>, b: set<nat>)
    requires a <= b && forall w :: w in b ==> w < |nodes|
    ensures Edges(nodes, a) <= Edges(nodes, b)
  {
  }

  /** A node below a closed node is closed. */
  lemma ClosedBelow(nodes: seq<Node>, seen: set<nat>, edges: set<(nat, nat)>, d: nat, u: nat)
    requires OperandsBelow(nodes) && d < |nodes| && u in Reach(nodes, d)
    requires Reach(nodes, d) <= seen && Edges(nodes, Reach(nodes, d)) <= edges
    ensures Closed(nodes, seen, edges, u)
  {
    ReachTransitive(nodes, d, u);
    EdgesGrow(nodes, Reach(nodes, u), Reach(nodes, d));
  }

  /** While `v` is being expanded, every seen node at or below child `c` is closed. */
  lemma TracedCalls(nodes: seq<Node>, v: nat, seen0: set<nat>, edges0: set<(nat, nat)>,
                    done: set<nat>, seen: set<nat>, edges: set<(nat, nat)>, c: nat)
    requires OperandsBelow(nodes) && v < |nodes| && c < v
    requires Traced(nodes, v, seen0, edges0, done, seen, edges)
    ensures forall u :: u in seen && u <= c ==> Closed(nodes, seen, edges, u)
  {
    forall u | u in seen && u <= c
      ensures Closed(nodes, seen, edges, u)
    {
      if u in seen0 {
        assert Closed(nodes, seen0, edges0, u);
      } else {
        var d :| d in done && u in Reach(nodes, d);
        assert Reach(nodes, d) <= ReachAll(nodes, done, v);
        EdgesGrow(nodes, Reach(nodes, d), ReachAll(nodes, done, v));
        ClosedBelow(nodes, seen, edges, d, u);
      }
    }
  }

  /** Closedness survives recording more nodes and edges. */
  lemma ClosedGrows(nodes: seq<Node>, seen: set<nat>, edges: set<(nat, nat)>,
                    seen': set<nat>, edges': set<(nat, nat)>, bound: nat)
    requires OperandsBelow(nodes) && bound < |nodes| && seen <= seen' && edges <= edges'
    requires forall u :: u in seen && u <= bound ==> Closed(nodes, seen, edges, u)
    ensures forall u :: u in seen && u <= bound ==> Closed(nodes, seen', edges', u)
  {
  }

  lemma TracedStep(nodes: seq<Node>, v: nat, seen0: set<nat>, edges0: set<(nat, nat)>,
                   done: set<nat>, seen: set<nat>, edges: set<(nat, nat)>,
                   c: nat, seen': set<nat>, edges': set<(nat, nat)>)
    requires OperandsBelow(nodes) && v < |nodes| && c < v
    requires Traced(nodes, v, seen0, edges0, done, seen, edges)
    requires seen' == seen + Reach(nodes, c)
    requires edges' == edges + {(c, v)} + Edges(nodes, Reach(nodes, c))
    ensures Traced(nodes, v, seen0, edges0, done + {c}, seen', edges')
  {
    ReachAllAdd(nodes, done, c, v);
    var r := ReachAll(nodes, done, v);
    EdgesUnion(nodes, r, Reach(nodes, c));
    UpAdd(done, c, v);
    Regroup(seen0, {v}, r, seen, {}, Reach(nodes, c), seen');
    Regroup(edges0, Up(done, v), Edges(nodes, r), edges, {(c, v)}, Edges(nodes, Reach(nodes, c)), edges');
  }

  lemma UpAdd(cs: set<nat>, c: nat, v: nat)
    ensures Up(cs + {c}, v) == Up(cs, v) + {(c, v)}
  {
  }

  lemma Regroup<T>(a: set<T>, b: set<T>, c: set<T>, t: set<T>, x: set<T>, d: set<T>, t': set<T>)
    requires t == a + b + c && t' == t + x + d
    ensures t' == a + (b + x) + (c + d)
  {
  }

  /**
   * `build(v)` (src/viz.py:6-11): a node not yet seen is added, and for each
   * child in `_prev` the edge `(child, v)` is recorded and the child built.
   * Besides closed nodes, `seen0` holds only the nodes on the search path,
   * which lie above `v`.  The ghost `expanded` lists the nodes in the order
   * the search expands them: the guard `v not in nodes` makes it list every
   * newly seen node exactly once.
   */
  method Build(nodes: seq<Node>, v: nat, seen0: set<nat>, edges0: set<(nat, nat)>)
    returns (seen: set<nat>, edges: set<(nat, nat)>, ghost expanded: seq<nat>)
    requires OperandsBelow(nodes) && v < |nodes|
    requires forall u :: u in seen0 && u <= v ==> Closed(nodes, seen0, edges0, u)
    ensures seen == seen0 + Reach(nodes, v)
    ensures edges == edges0 + Edges(nodes, Reach(nodes, v))
    ensures NoDup(expanded) && Elems(expanded) == Reach(nodes, v) - seen0
    decreases v, 1
  {
    if v in seen0 {
      assert Closed(nodes, seen0, edges0, v);
      return seen0, edges0, [];
    }
    var kids := Children(nodes[v].rule);
    ReachUnfold(nodes, v);
    seen, edges, expanded := seen0 + {v}, edges0, [v];
    var rest := kids;
    assert kids - rest == {} && Up({}, v) == {};
    ExpandedStart(v, seen0);
    while rest != {}
      invariant rest <= kids
      invariant Traced(nodes, v, seen0, edges0, kids - rest, seen, edges)
      invariant Expanded(expanded, seen0, seen)
      decreases rest
    {
      var c :| c in rest;
      seen, edges, expanded := BuildChild(nodes, v, c, seen0, edges0, kids - rest, seen, edges, expanded);
      DoneGrows(kids, rest, c);
      rest := rest - {c};
    }
    assert kids - rest == kids;
    BuildFinish(nodes, v, seen0, edges0, seen, edges);
  }

  /** Once every child is explored, `build(v)` has recorded the nodes and edges below `v`. */
  lemma BuildFinish(nodes: seq<Node>, v: nat, seen0: set<nat>, edges0: set<(nat, nat)>,
                    seen: set<nat>, edges: set<(nat, nat)>)
    requires OperandsBelow(nodes) && v < |nodes|
    requires Traced(nodes, v, seen0, edges0, Children(nodes[v].rule), seen, edges)
    ensures seen == seen0 + Reach(nodes, v) && seen - seen0 == Reach(nodes, v) - seen0
    ensures edges == edges0 + Edges(nodes, Reach(nodes, v))
  {
    var kids := Children(nodes[v].rule);
    ReachUnfold(nodes, v);
    assert Edges(nodes, {v}) == Up(kids, v);
    EdgesUnion(nodes, {v}, ReachAll(nodes, kids, v));
  }

  lemma DoneGrows<T>(all: set<T>, rest: set<T>, c: T)
    requires rest <= all && c in rest
    ensures (all - rest) + {c} == all - (rest - {c})
  {
  }

  /** One turn of the loop of `build(v)`: records the edge `(c, v)` and builds child `c`. */
  method BuildChild(nodes: seq<Node>, v: nat, c: nat, seen0: set<nat>, edges0: set<(nat, nat)>,
                    done: set<nat>, seen: set<nat>, edges: set<(nat, nat)>, ghost expanded: seq<nat>)
    returns (seen': set<nat>, edges': set<(nat, nat)>, ghost expanded': seq<nat>)
    requires OperandsBelow(nodes) && v < |nodes| && c < v
    requires Traced(nodes, v, seen0, edges0, done, seen, edges) && Expanded(expanded, seen0, seen)
    ensures Traced(nodes, v, seen0, edges0, done + {c}, seen', edges') && Expanded(expanded', seen0, seen')
    decreases v, 0
  {
    TracedCalls(nodes, v, seen0, edges0, done, seen, edges, c);
    ClosedGrows(nodes, seen, edges, seen, edges + {(c, v)}, c);
    ghost var more;
    seen', edges', more := Build(nodes, c, seen, edges + {(c, v)});
    TracedStep(nodes, v, seen0, edges0, done, seen, edges, c, seen', edges');
    ExpandedStep(expanded, more, seen0, seen, Reach(nodes, c));
    expanded' := expanded + more;
  }

  /** `e` lists the nodes added to `seen0` to make `seen`, once each. */
  ghost predicate Expanded(e: seq<nat>, seen0: set<nat>, seen: set<nat>)
  {
    NoDup(e) && Elems(e) == seen - seen0
  }

  lemma ExpandedStart(v: nat, seen0: set<nat>)
    requires v !in seen0
    ensures Expanded([v], seen0, seen0 + {v})
  {
    assert Elems([v]) == {v};
  }

  /** The nodes a child's search expands are new, so the expansion list stays duplicate-free. */
  lemma ExpandedStep(e: seq<nat>, more: seq<nat>, seen0: set<nat>, seen: set<nat>, r: set<nat>)
    requires seen0 <= seen && Expanded(e, seen0, seen) && Expanded(more, seen, seen + r)
    ensures Expanded(e + more, seen0, seen + r)
  {
    var all := e + more;
    forall p, q | 0 <= p < q < |all|
      ensures all[p] != all[q]
    {
      if q >= |e| {
        if p < |e| {
          assert all[p] == e[p] && e[p] in Elems(e);
          assert all[q] == more[q - |e|] && more[q - |e|] in Elems(more);
        } else {
          assert all[p] == more[p - |e|] && all[q] == more[q - |e|];
        }
      }
    }
    assert Elems(all) == Elems(e) + Elems(more) by {
      assert forall x :: x in all <==> x in e || x in more;
    }
    assert (seen - seen0) + ((seen + r) - seen) == (seen + r) - seen0;
  }

  /**
   * `trace(root)`: the nodes reachable from `root`, and an edge
   * `(child, v)` for every such `v` and every child in its `_prev`; both
   * ends of every edge are among the nodes.
   */
  method Trace(nodes: seq<Node>, root: nat) returns (seen: set<nat>, edges: set<(nat, nat)>)
    requires OperandsBelow(nodes) && root < |nodes|
    ensures seen == Reach(nodes, root)
    ensures forall c, w :: (c, w) in edges <==> w in seen && c in Children(nodes[w].rule)
    ensures forall c, w :: (c, w) in edges ==> c in seen && c < w
    ensures nodes[root].rule.Leaf? ==> seen == {root} && edges == {}
  {
    ghost var expanded;
    seen, edges, expanded := Build(nodes, root, {}, {});
    forall c, w | (c, w) in edges
      ensures c in seen && c < w
    {
      ChildrenReached(nodes, w);
      ReachTransitive(nodes, root, w);
    }
    if nodes[root].rule.Leaf? {
      ReachUnfold(nodes, root);
    }
  }
}
