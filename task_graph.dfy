/**
 * The static wiring of a task graph, as the `add_edge` calls of a graph builder
 * declare it: START and END markers, named nodes, and edges from one or several
 * sources (several sources make a join that waits for all of them).
 */
module TaskGraph {

  datatype Vertex<N> = Start | End | Node(id: N)

  /** One `add_edge(sources, target)` call. */
  datatype EdgeDecl<N> = EdgeDecl(sources: seq<Vertex<N>>, target: Vertex<N>)

  /** The one-source edge `add_edge(source, target)`. */
  function Edge<N>(source: Vertex<N>, target: Vertex<N>): EdgeDecl<N>
  {
    EdgeDecl([source], target)
  }

  /** The dependency relation the declarations set up: one pair per source of each call. */
  function Edges<N(==, !new)>(decls: seq<EdgeDecl<N>>): set<(Vertex<N>, Vertex<N>)>
  {
    if decls == [] then {}
    else Into(decls[0].sources, decls[0].target) + Edges(decls[1..])
  }

  /** One pair from each of `sources` to `target`. */
  function Into<N(==)>(sources: seq<Vertex<N>>, target: Vertex<N>): set<(Vertex<N>, Vertex<N>)>
  {
    if sources == [] then {} else {(sources[0], target)} + Into(sources[1..], target)
  }

  /** `Into` holds a pair exactly when its source is one of the sources and its target is the target. */
  lemma {:induction false} IntoMembers<N(!new)>(sources: seq<Vertex<N>>, target: Vertex<N>)
    ensures forall u, v :: (u, v) in Into(sources, target) <==> u in sources && v == target
    decreases |sources|
  {
    if sources != [] {
      IntoMembers(sources[1..], target);
      assert forall u :: u in sources <==> u == sources[0] || u in sources[1..];
    }
  }

  /** An edge is declared exactly when some call lists its source among the call's sources and targets its target. */
  lemma {:induction false} EdgesMembers<N(!new)>(decls: seq<EdgeDecl<N>>)
    ensures forall u, v :: (u, v) in Edges(decls) <==> exists k :: 0 <= k < |decls| && u in decls[k].sources && v == decls[k].target
    decreases |decls|
  {
    if decls != [] {
      EdgesMembers(decls[1..]);
      IntoMembers(decls[0].sources, decls[0].target);
      forall u, v | (exists k :: 0 <= k < |decls| && u in decls[k].sources && v == decls[k].target)
        ensures (u, v) in Edges(decls)
      {
        var k :| 0 <= k < |decls| && u in decls[k].sources && v == decls[k].target;
        if k > 0 {
          assert decls[1..][k - 1] == decls[k];
        }
      }
      forall u, v | (u, v) in Edges(decls[1..])
        ensures exists k :: 0 <= k < |decls| && u in decls[k].sources && v == decls[k].target
      {
        var k :| 0 <= k < |decls[1..]| && u in decls[1..][k].sources && v == decls[1..][k].target;
        assert decls[k + 1] == decls[1..][k];
      }
    }
  }

  /** A call with one source adds exactly one edge to those of the calls after it. */
  lemma EdgesSingleCons<N(!new)>(source: Vertex<N>, target: Vertex<N>, rest: seq<EdgeDecl<N>>)
    ensures Edges([Edge(source, target)] + rest) == {(source, target)} + Edges(rest)
  {
    var decls := [Edge(source, target)] + rest;
    assert decls[1..] == rest;
    assert Into([source], target) == {(source, target)};
  }

  /** The declarations of two runs of calls, one after the other, are those of each run together. */
  lemma {:induction false} EdgesAppend<N(!new)>(xs: seq<EdgeDecl<N>>, ys: seq<EdgeDecl<N>>)
    ensures Edges(xs + ys) == Edges(xs) + Edges(ys)
    decreases |xs|
  {
    if xs != [] {
      assert (xs + ys)[1..] == xs[1..] + ys;
      EdgesAppend(xs[1..], ys);
    } else {
      assert xs + ys == ys;
    }
  }

  /** The vertices with an edge into `v`. */
  function Preds<N(==, !new)>(e: set<(Vertex<N>, Vertex<N>)>, v: Vertex<N>): (ps: set<Vertex<N>>)
    ensures forall u :: u in ps <==> (u, v) in e
  {
    set p | p in e && p.1 == v :: p.0
  }

  /** The vertices with an edge from `u`. */
  function Succs<N(==, !new)>(e: set<(Vertex<N>, Vertex<N>)>, u: Vertex<N>): (ss: set<Vertex<N>>)
    ensures forall v :: v in ss <==> (u, v) in e
  {
    set p | p in e && p.0 == u :: p.1
  }

  /** `p` follows edges of `e` from its first vertex to its last. */
  ghost predicate IsPath<N>(e: set<(Vertex<N>, Vertex<N>)>, p: seq<Vertex<N>>)
  {
    forall i :: 0 <= i < |p| - 1 ==> (p[i], p[i + 1]) in e
  }

  /** No path of one edge or more returns to where it started. */
  ghost predicate Acyclic<N(!new)>(e: set<(Vertex<N>, Vertex<N>)>)
  {
    forall p :: IsPath(e, p) && |p| >= 2 ==> p[0] != p[|p| - 1]
  }

  /** Every edge goes from a lower stage to a strictly higher one. */
  ghost predicate StagedBy<N(!new)>(e: set<(Vertex<N>, Vertex<N>)>, stage: Vertex<N> -> nat)
  {
    forall u, v :: (u, v) in e ==> stage(u) < stage(v)
  }

  /** Along any path of a staged graph the stage strictly increases. */
  lemma {:induction false} StageIncreasesAlongPath<N(!new)>(e: set<(Vertex<N>, Vertex<N>)>, stage: Vertex<N> -> nat, p: seq<Vertex<N>>)
    requires StagedBy(e, stage) && IsPath(e, p) && |p| >= 2
    ensures stage(p[0]) < stage(p[|p| - 1])
    decreases |p|
  {
    assert (p[0], p[1]) in e;
    if |p| > 2 {
      var q := p[1..];
      assert IsPath(e, q) by {
        forall i | 0 <= i < |q| - 1 ensures (q[i], q[i + 1]) in e {
          assert (p[i + 1], p[i + 2]) in e;
        }
      }
      StageIncreasesAlongPath(e, stage, q);
    }
  }

  /** A graph whose edges all go up in stage has no cycle. */
  lemma StagedIsAcyclic<N(!new)>(e: set<(Vertex<N>, Vertex<N>)>, stage: Vertex<N> -> nat)
    requires StagedBy(e, stage)
    ensures Acyclic(e)
  {
    forall p | IsPath(e, p) && |p| >= 2 ensures p[0] != p[|p| - 1] {
      StageIncreasesAlongPath(e, stage, p);
    }
  }

  /**
   * A field a node reads is available to it: it is an initial input, or some node
   * with a path to the reader writes it.
   */
  ghost predicate Available<N(!new), F>(e: set<(Vertex<N>, Vertex<N>)>, writes: N -> set<F>, inputs: set<F>, reader: N, f: F)
  {
    f in inputs
    || exists p: seq<Vertex<N>> :: IsPath(e, p) && |p| >= 2 && p[|p| - 1] == Node(reader) && p[0].Node? && f in writes(p[0].id)
  }

  /** A direct predecessor that writes a field makes it available. */
  lemma WrittenByPred<N(!new), F>(e: set<(Vertex<N>, Vertex<N>)>, writes: N -> set<F>, inputs: set<F>, writer: N, reader: N, f: F)
    requires (Node(writer), Node(reader)) in e && f in writes(writer)
    ensures Available(e, writes, inputs, reader, f)
  {
    var p := [Node(writer), Node(reader)];
    assert IsPath(e, p);
  }

  /** A field written two edges upstream is available too. */
  lemma WrittenTwoUp<N(!new), F>(e: set<(Vertex<N>, Vertex<N>)>, writes: N -> set<F>, inputs: set<F>, writer: N, via: N, reader: N, f: F)
    requires (Node(writer), Node(via)) in e && (Node(via), Node(reader)) in e && f in writes(writer)
    ensures Available(e, writes, inputs, reader, f)
  {
    var p := [Node(writer), Node(via), Node(reader)];
    assert IsPath(e, p);
  }
}
