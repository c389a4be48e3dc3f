/** Finite directed graphs: a rank that falls along every edge exists exactly when there
    is no cycle. */
module ReferenceGraphs {

  type Graph = map<string, set<string>>

  ghost predicate ClosedGraph(g: Graph) {
    forall x | x in g :: g[x] <= g.Keys
  }

  ghost predicate IsRanking(g: Graph, rank: map<string, nat>) {
    && rank.Keys == g.Keys
    && forall x, y | x in g && y in g[x] :: y in rank && rank[y] < rank[x]
  }

  ghost predicate Edge(g: Graph, a: string, b: string) {
    a in g && b in g[a]
  }

  ghost predicate IsPath(g: Graph, p: seq<string>) {
    forall i | 0 <= i < |p| - 1 :: Edge(g, p[i], p[i + 1])
  }

  ghost predicate IsCycle(g: Graph, p: seq<string>) {
    |p| >= 2 && IsPath(g, p) && p[0] == p[|p| - 1]
  }

  ghost predicate Acyclic(g: Graph) {
    forall p :: !IsCycle(g, p)
  }

  lemma {:induction false} RanksFallAlongPaths(g: Graph, rank: map<string, nat>, p: seq<string>, i: nat)
    requires IsRanking(g, rank) && IsPath(g, p) && 1 <= i < |p|
    ensures p[0] in rank && p[i] in rank && rank[p[i]] < rank[p[0]]
  {
    assert Edge(g, p[i - 1], p[i]);
    if i > 1 {
      RanksFallAlongPaths(g, rank, p, i - 1);
    }
  }

  lemma RankingExcludesCycles(g: Graph, rank: map<string, nat>)
    requires IsRanking(g, rank)
    ensures Acyclic(g)
  {
    forall p ensures !IsCycle(g, p) {
      if IsCycle(g, p) {
        RanksFallAlongPaths(g, rank, p, |p| - 1);
        assert false;
      }
    }
  }

  ghost predicate Contains(r: set<string>, p: seq<string>) {
    forall i | 0 <= i < |p| :: p[i] in r
  }

  /** More names than the set can hold: two positions agree. */
  lemma {:induction false} Pigeonhole(p: seq<string>, r: set<string>) returns (i: nat, j: nat)
    requires |p| > |r| && Contains(r, p)
    ensures i < j < |p| && p[i] == p[j]
  {
    var front, last := p[..|p| - 1], p[|p| - 1];
    if last in front {
      i :| 0 <= i < |front| && front[i] == last;
      j := |p| - 1;
    } else {
      assert last in r;
      i, j := Pigeonhole(front, r - {last});
    }
  }

  ghost predicate LeadsBackInto(g: Graph, r: set<string>, x: string) {
    exists y :: y in r && Edge(g, x, y)
  }

  /** If every node of `r` has an edge into `r`, paths of any length stay inside it. */
  lemma {:induction false} LongPath(g: Graph, r: set<string>, start: string, n: nat) returns (p: seq<string>)
    requires start in r && forall x | x in r :: LeadsBackInto(g, r, x)
    ensures |p| == n + 1 && IsPath(g, p) && Contains(r, p)
  {
    if n == 0 {
      p := [start];
    } else {
      var q := LongPath(g, r, start, n - 1);
      assert LeadsBackInto(g, r, q[n - 1]);
      var y :| y in r && Edge(g, q[n - 1], y);
      p := q + [y];
    }
  }

  lemma NoSinkNoRank(g: Graph, r: set<string>, start: string)
    requires start in r && forall x | x in r :: LeadsBackInto(g, r, x)
    ensures !Acyclic(g)
  {
    var p := LongPath(g, r, start, |r|);
    var i, j := Pigeonhole(p, r);
    var q := p[i..j + 1];
    forall k | 0 <= k < |q| - 1 ensures Edge(g, q[k], q[k + 1]) {
      assert Edge(g, p[i + k], p[i + k + 1]);
    }
    assert IsCycle(g, q);
  }

  /** In an acyclic graph every non-empty set has a node with no edge back into it. */
  lemma FindSink(g: Graph, r: set<string>) returns (x: string)
    requires Acyclic(g) && r != {}
    ensures x in r && !LeadsBackInto(g, r, x)
  {
    if forall x | x in r :: LeadsBackInto(g, r, x) {
      var start :| start in r;
      NoSinkNoRank(g, r, start);
    }
    x :| x in r && !LeadsBackInto(g, r, x);
  }

  ghost predicate RankedSoFar(g: Graph, rank: map<string, nat>) {
    && rank.Keys <= g.Keys
    && (forall x | x in rank :: rank[x] < |rank|)
    && (forall x, y | x in rank && y in g[x] :: y in rank && rank[y] < rank[x])
  }

  lemma RankOneMore(g: Graph, rank: map<string, nat>, x: string)
    requires ClosedGraph(g) && RankedSoFar(g, rank)
    requires x in g && x !in rank && !LeadsBackInto(g, g.Keys - rank.Keys, x)
    ensures RankedSoFar(g, rank[x := |rank|])
  {
    forall y | y in g[x] ensures y in rank {
      assert Edge(g, x, y);
    }
    var next := rank[x := |rank|];
    assert next.Keys == rank.Keys + {x};
    assert |next| == |next.Keys| == |rank.Keys| + 1;
  }

  /** Rank the nodes one by one, always taking one whose successors are all ranked. */
  lemma {:induction false} RankAcyclic(g: Graph, rank: map<string, nat>) returns (full: map<string, nat>)
    requires ClosedGraph(g) && Acyclic(g) && RankedSoFar(g, rank)
    ensures IsRanking(g, full)
    decreases g.Keys - rank.Keys
  {
    var r := g.Keys - rank.Keys;
    if r == {} {
      full := rank;
      forall x | x in g ensures x in rank {
        assert x !in r;
      }
      assert rank.Keys == g.Keys;
    } else {
      var x := FindSink(g, r);
      RankOneMore(g, rank, x);
      assert g.Keys - rank[x := |rank|].Keys == r - {x};
      full := RankAcyclic(g, rank[x := |rank|]);
    }
  }
}
