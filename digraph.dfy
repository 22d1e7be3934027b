/** The directed graph both the engine's scheduler and the validator's cycle
    detector walk: an adjacency map from each node id to the targets of the
    edges that leave it (one entry per edge, in edge order). Edges whose
    source is not a node are not part of it. */
module Digraph {
  import opened Util
  import opened Types

  /** Targets of the edges leaving `u`, in edge order. */
  function Targets(edges: seq<Edge>, u: string): seq<string>
  {
    if edges == [] then []
    else
      var last := edges[|edges| - 1];
      Targets(edges[..|edges| - 1], u) + (if last.from == u then [last.to] else [])
  }

  /** Each target comes from an edge leaving `u`. */
  lemma {:induction false} TargetsSound(edges: seq<Edge>, u: string, v: string) returns (k: nat)
    requires v in Targets(edges, u)
    ensures k < |edges| && edges[k].from == u && edges[k].to == v
  {
    var p := edges[..|edges| - 1];
    if v in Targets(p, u) {
      k := TargetsSound(p, u, v);
    } else {
      k := |edges| - 1;
    }
  }

  /** Every edge leaving `u` contributes its target. */
  lemma {:induction false} TargetsComplete(edges: seq<Edge>, u: string, k: nat)
    requires k < |edges| && edges[k].from == u
    ensures edges[k].to in Targets(edges, u)
  {
    if k < |edges| - 1 {
      TargetsComplete(edges[..|edges| - 1], u, k);
    }
  }

  function Succ(adj: map<string, seq<string>>, u: string): seq<string>
  {
    if u in adj then adj[u] else []
  }

  /** The adjacency map `adjacency` / `outByNode` that the source builds. */
  function Adjacency(g: Graph): map<string, seq<string>>
  {
    map u | u in NodeIds(g.nodes) :: Targets(g.edges, u)
  }

  /** An arc u -> v of the adjacency graph is an edge from an existing node. */
  lemma ArcIff(g: Graph, u: string, v: string)
    ensures v in Succ(Adjacency(g), u) <==>
      u in NodeIds(g.nodes) && exists k :: 0 <= k < |g.edges| && g.edges[k].from == u && g.edges[k].to == v
  {
    if u in NodeIds(g.nodes) && exists k :: 0 <= k < |g.edges| && g.edges[k].from == u && g.edges[k].to == v {
      var k :| 0 <= k < |g.edges| && g.edges[k].from == u && g.edges[k].to == v;
      TargetsComplete(g.edges, u, k);
    }
    if v in Succ(Adjacency(g), u) {
      var k := TargetsSound(g.edges, u, v);
    }
  }

  ghost predicate IsWalk(adj: map<string, seq<string>>, w: seq<string>)
  {
    forall i :: 0 <= i < |w| - 1 ==> w[i + 1] in Succ(adj, w[i])
  }

  /** A closed walk of at least one arc; a self-loop is a cycle. */
  ghost predicate IsCycle(adj: map<string, seq<string>>, w: seq<string>)
  {
    |w| >= 2 && w[0] == w[|w| - 1] && IsWalk(adj, w)
  }

  ghost predicate HasCycle(adj: map<string, seq<string>>)
  {
    exists w :: IsCycle(adj, w)
  }

  /** A walk that closes a stack path: from `s[m]` along `s` to its last node, and back. */
  lemma CycleFromStack(adj: map<string, seq<string>>, s: seq<string>, m: nat)
    requires IsWalk(adj, s) && m < |s|
    requires s[m] in Succ(adj, s[|s| - 1])
    ensures HasCycle(adj)
  {
    var w := s[m..] + [s[m]];
    assert IsCycle(adj, w);
  }

  /** `v` has a predecessor inside `S`. */
  ghost predicate HasPredIn(adj: map<string, seq<string>>, S: set<string>, v: string)
  {
    exists u :: u in S && v in Succ(adj, u)
  }

  /** Backwards walks of any length stay inside a set where every node has a predecessor. */
  lemma {:induction false} BackWalk(adj: map<string, seq<string>>, S: set<string>, n: nat) returns (w: seq<string>)
    requires S != {}
    requires forall v {:trigger HasPredIn(adj, S, v)} :: v in S ==> HasPredIn(adj, S, v)
    ensures |w| == n + 1 && IsWalk(adj, w)
    ensures forall x :: x in w ==> x in S
  {
    if n == 0 {
      var v :| v in S;
      w := [v];
    } else {
      var w0 := BackWalk(adj, S, n - 1);
      assert HasPredIn(adj, S, w0[0]);
      var u :| u in S && w0[0] in Succ(adj, u);
      w := [u] + w0;
      forall i | 0 <= i < |w| - 1
        ensures w[i + 1] in Succ(adj, w[i])
      {
        if i > 0 {
          assert w[i + 1] == w0[i] && w[i] == w0[i - 1];
        }
      }
    }
  }

  /** If every node of a non-empty set has a predecessor inside the set, the graph has a cycle. */
  lemma StuckImpliesCycle(adj: map<string, seq<string>>, S: set<string>)
    requires S != {}
    requires forall v {:trigger HasPredIn(adj, S, v)} :: v in S ==> HasPredIn(adj, S, v)
    ensures HasCycle(adj)
  {
    var w := BackWalk(adj, S, |S|);
    var i, j := Pigeonhole(w, S);
    var c := w[i..j + 1];
    assert IsCycle(adj, c);
  }

  /** Finishing ranks of a depth-first search: every successor of a finished
      node is finished, with a smaller rank. */
  ghost predicate Finished(adj: map<string, seq<string>>, V: set<string>, rank: map<string, nat>)
  {
    V <= rank.Keys &&
    forall v, w :: v in V && w in Succ(adj, v) ==> w in V && rank[w] < rank[v]
  }

  lemma {:induction false} WalkDescends(adj: map<string, seq<string>>, V: set<string>, rank: map<string, nat>, w: seq<string>)
    requires Finished(adj, V, rank)
    requires IsWalk(adj, w) && |w| >= 2 && w[0] in V
    ensures w[|w| - 1] in V && rank[w[|w| - 1]] < rank[w[0]]
  {
    if |w| > 2 {
      var t := w[1..];
      assert IsWalk(adj, t);
      WalkDescends(adj, V, rank, t);
    }
  }

  /** Ranks that finish every node with a successor rule out every cycle. */
  lemma RankedAcyclic(adj: map<string, seq<string>>, V: set<string>, rank: map<string, nat>)
    requires Finished(adj, V, rank)
    requires adj.Keys <= V
    ensures !HasCycle(adj)
  {
    forall w ensures !IsCycle(adj, w) {
      if |w| >= 2 && IsWalk(adj, w) {
        assert w[1] in Succ(adj, w[0]);
        WalkDescends(adj, V, rank, w);
      }
    }
  }
}
