/** Which schemas can be compiled: those from which every chain of references ends, at
    definitions that are objects. */
module SchemaTermination {
  import opened ReferenceGraphs
  import opened SchemaDialects
  import opened SchemaInlining

  // ------------------------------------------------------------ the recursion as it runs

  /** `_inline_refs` returns normally, following at most `depth` references one inside the
      other: each leads to a definition that is an object. */
  ghost predicate Returns(node: Json, defs: Fields, depth: nat)
    decreases depth, node
  {
    match node
    case Arr(items) => forall i | 0 <= i < |items| :: Returns(items[i], defs, depth)
    case Obj(f) =>
      if IsLocalRef(f) then
        && depth > 0 && RefName(f) in defs && defs[RefName(f)].Obj?
        && Returns(defs[RefName(f)], defs, depth - 1)
      else forall k | k in f :: Returns(f[k], defs, depth)
    case _ => true
  }

  ghost predicate Follows(name: string, defs: Fields, depth: nat) {
    depth > 0 && name in defs && defs[name].Obj? && Returns(defs[name], defs, depth - 1)
  }

  /** What it returns. */
  ghost function Inlined(node: Json, defs: Fields, depth: nat): Json
    requires Returns(node, defs, depth)
    decreases depth, node
  {
    match node
    case Arr(items) => Arr(seq(|items|, i requires 0 <= i < |items| => Inlined(items[i], defs, depth)))
    case Obj(f) =>
      if IsLocalRef(f) then Inlined(defs[RefName(f)], defs, depth - 1)
      else Obj(map k | k in f :: Inlined(f[k], defs, depth))
    case _ => node
  }

  lemma {:induction false} ReturnsFollows(node: Json, defs: Fields, depth: nat, x: string)
    requires Returns(node, defs, depth) && x in Mentions(node)
    ensures Follows(x, defs, depth)
    decreases node
  {
    match node
    case Arr(items) =>
      var i :| 0 <= i < |items| && x in Mentions(items[i]);
      ReturnsFollows(items[i], defs, depth, x);
    case Obj(f) =>
      if !IsLocalRef(f) {
        var k :| k in f && x in Mentions(f[k]);
        ReturnsFollows(f[k], defs, depth, x);
      }
  }

  lemma {:induction false} FollowsReturns(node: Json, defs: Fields, depth: nat)
    requires forall x | x in Mentions(node) :: Follows(x, defs, depth)
    ensures Returns(node, defs, depth)
    decreases node
  {
    match node
    case Arr(items) =>
      forall i | 0 <= i < |items| ensures Returns(items[i], defs, depth) {
        assert Mentions(items[i]) <= Mentions(node);
        FollowsReturns(items[i], defs, depth);
      }
    case Obj(f) =>
      if IsLocalRef(f) {
        assert Follows(RefName(f), defs, depth);
      } else {
        Children(f);
        forall k | k in f ensures Returns(f[k], defs, depth) {
          FollowsReturns(f[k], defs, depth);
        }
      }
    case _ =>
  }

  /** Under a ranking it returns. */
  lemma {:induction false} CoveredReturns(node: Json, e: Env)
    requires e.Covers(node)
    ensures Returns(node, e.defs, e.bound)
    decreases e.bound
  {
    forall x | x in Mentions(node) ensures Follows(x, e.defs, e.bound) {
      var inner := e.(bound := e.bound - 1);
      CoveredReturns(e.defs[x], inner);
    }
    FollowsReturns(node, e.defs, e.bound);
  }

  /** What it returns is the inlining that all results here are about. */
  lemma {:induction false} InlinedIsInlining(node: Json, e: Env, depth: nat)
    requires e.Covers(node) && Returns(node, e.defs, depth)
    ensures Inlined(node, e.defs, depth) == InlineRefs(node, e)
    decreases depth, node
  {
    match node
    case Arr(items) =>
      forall i | 0 <= i < |items|
        ensures e.Covers(items[i]) && Inlined(items[i], e.defs, depth) == InlineRefs(items[i], e)
      {
        assert Mentions(items[i]) <= Mentions(node);
        InlinedIsInlining(items[i], e, depth);
      }
      assert Inlined(node, e.defs, depth).items == InlineRefs(node, e).items;
    case Obj(f) =>
      if IsLocalRef(f) {
        InlinedIsInlining(e.defs[RefName(f)], e.At(RefName(f)), depth - 1);
      } else {
        Children(f);
        forall k | k in f ensures e.Covers(f[k]) && Inlined(f[k], e.defs, depth) == InlineRefs(f[k], e) {
          InlinedIsInlining(f[k], e, depth);
        }
        assert Inlined(node, e.defs, depth).fields == InlineFields(f, e);
      }
    case _ =>
  }

  // ---------------------------------------------------------- whole definition tables

  ghost predicate ClosedTable(defs: Fields) {
    forall x | x in defs :: defs[x].Obj? && Mentions(defs[x]) <= defs.Keys
  }

  ghost function ReferenceGraph(defs: Fields, names: set<string>): Graph {
    map x | x in defs && x in names :: Mentions(defs[x])
  }

  lemma RankedMeansRanking(defs: Fields, names: set<string>, rank: map<string, nat>, bound: nat)
    requires names <= defs.Keys && rank.Keys == names && forall x | x in names :: defs[x].Obj?
    ensures Env(defs, rank, bound).Ranked() <==> IsRanking(ReferenceGraph(defs, names), rank)
  {
  }

  ghost predicate RanksAll(defs: Fields, rank: map<string, nat>) {
    rank.Keys == defs.Keys && Env(defs, rank, 0).Ranked()
  }

  /** A closed definition table can be ranked as a whole iff no chain of references comes
      back to where it started. */
  lemma RankedIffAcyclic(defs: Fields)
    requires ClosedTable(defs)
    ensures (exists rank :: RanksAll(defs, rank)) <==> Acyclic(ReferenceGraph(defs, defs.Keys))
  {
    var g := ReferenceGraph(defs, defs.Keys);
    if rank :| RanksAll(defs, rank) {
      RankedMeansRanking(defs, defs.Keys, rank, 0);
      RankingExcludesCycles(g, rank);
    }
    if Acyclic(g) {
      var rank := RankAcyclic(g, map[]);
      RankedMeansRanking(defs, defs.Keys, rank, 0);
      assert RanksAll(defs, rank);
    }
  }

  lemma {:induction false} BoundRanks(rank: map<string, nat>) returns (bound: nat)
    ensures forall x | x in rank :: rank[x] < bound
    decreases |rank|
  {
    bound := 0;
    if x :| x in rank {
      var rest := rank - {x};
      assert |rest.Keys| < |rank.Keys| by { assert rest.Keys == rank.Keys - {x}; }
      var below := BoundRanks(rest);
      bound := if below > rank[x] then below else rank[x] + 1;
      forall y | y in rank ensures rank[y] < bound {
        assert y != x ==> y in rest && rest[y] == rank[y];
      }
    }
  }

  // ------------------------------------------------------- what a schema needs of it

  ghost predicate Refers(defs: Fields, x: string, y: string) {
    x in defs && defs[x].Obj? && y in Mentions(defs[x])
  }

  /** A chain of references: the first in the schema, each further one in the definition
      that the one before it leads to. */
  ghost predicate IsChain(schema: Json, p: seq<string>) {
    && p != [] && p[0] in Mentions(schema)
    && forall i | 0 <= i < |p| - 1 :: Refers(DefsOf(schema), p[i], p[i + 1])
  }

  predicate NoRepeat(p: seq<string>) {
    forall i, j | 0 <= i < j < |p| :: p[i] != p[j]
  }

  ghost predicate Defined(schema: Json, x: string) {
    x in DefsOf(schema) && DefsOf(schema)[x].Obj?
  }

  /** Every chain of references leads to a definition that is an object, and to none twice.
      Definitions that the schema does not need may be anything. */
  ghost predicate Resolves(schema: Json) {
    schema.Obj? && forall p | IsChain(schema, p) :: Defined(schema, p[|p| - 1]) && NoRepeat(p)
  }

  lemma PrefixIsChain(schema: Json, p: seq<string>, n: nat)
    requires IsChain(schema, p) && 1 <= n <= |p|
    ensures IsChain(schema, p[..n])
  {
    forall i | 0 <= i < n - 1 ensures Refers(DefsOf(schema), p[..n][i], p[..n][i + 1]) {
      assert Refers(DefsOf(schema), p[i], p[i + 1]);
    }
  }

  /** Along a chain the ranks fall. */
  lemma {:induction false} ChainFalls(schema: Json, e: Env, p: seq<string>)
    requires Closed(schema, e) && IsChain(schema, p)
    ensures forall i | 0 <= i < |p| :: p[i] in e.rank
    ensures forall i, j | 0 <= i < j < |p| :: e.rank[p[j]] < e.rank[p[i]]
  {
    if |p| > 1 {
      var n := |p| - 1;
      PrefixIsChain(schema, p, n);
      ChainFalls(schema, e, p[..n]);
      assert p[..n][n - 1] == p[n - 1] && Refers(DefsOf(schema), p[n - 1], p[n]);
    }
  }

  lemma ClosedResolves(schema: Json, e: Env)
    requires Closed(schema, e)
    ensures Resolves(schema)
  {
    forall p | IsChain(schema, p) ensures Defined(schema, p[|p| - 1]) && NoRepeat(p) {
      ChainFalls(schema, e, p);
    }
  }

  ghost predicate Reached(schema: Json, x: string) {
    exists p :: IsChain(schema, p) && p[|p| - 1] == x
  }

  ghost function ReachedNames(schema: Json): set<string> {
    set x | x in DefsOf(schema) && Reached(schema, x)
  }

  lemma ReachNext(schema: Json, x: string, y: string)
    requires Reached(schema, x) && Refers(DefsOf(schema), x, y)
    ensures Reached(schema, y)
  {
    var p :| IsChain(schema, p) && p[|p| - 1] == x;
    var q := p + [y];
    forall i | 0 <= i < |q| - 1 ensures Refers(DefsOf(schema), q[i], q[i + 1]) {
      if i < |p| - 1 {
        assert Refers(DefsOf(schema), p[i], p[i + 1]);
      }
    }
    assert IsChain(schema, q) && q[|q| - 1] == y;
  }

  lemma ReachedAreDefined(schema: Json, x: string)
    requires Resolves(schema) && Reached(schema, x)
    ensures Defined(schema, x) && x in ReachedNames(schema)
  {
  }

  lemma MentionedAreReached(schema: Json, x: string)
    requires Resolves(schema) && x in Mentions(schema)
    ensures x in ReachedNames(schema)
  {
    assert IsChain(schema, [x]) && [x][|[x]| - 1] == x;
    ReachedAreDefined(schema, x);
  }

  lemma ReferredAreReached(schema: Json, x: string, y: string)
    requires Resolves(schema) && x in ReachedNames(schema) && y in Mentions(DefsOf(schema)[x])
    ensures y in ReachedNames(schema)
  {
    ReachedAreDefined(schema, x);
    ReachNext(schema, x, y);
    ReachedAreDefined(schema, y);
  }

  /** A cycle that the schema reaches makes a chain with a repetition. */
  lemma CycleRepeats(schema: Json, c: seq<string>) returns (q: seq<string>)
    requires forall x | x in ReachedNames(schema) :: Defined(schema, x)
    requires IsCycle(ReferenceGraph(DefsOf(schema), ReachedNames(schema)), c)
    ensures IsChain(schema, q) && !NoRepeat(q)
  {
    var g := ReferenceGraph(DefsOf(schema), ReachedNames(schema));
    assert Edge(g, c[0], c[1]);
    var p :| IsChain(schema, p) && p[|p| - 1] == c[0];
    q := p + c[1..];
    forall i | 0 <= i < |q| - 1 ensures Refers(DefsOf(schema), q[i], q[i + 1]) {
      if i >= |p| - 1 {
        var k := i - (|p| - 1);
        assert q[i] == c[k] && q[i + 1] == c[k + 1] && Edge(g, c[k], c[k + 1]);
      }
    }
    assert q[|p| - 1] == q[|q| - 1];
  }

  lemma ReachedAcyclic(schema: Json)
    requires Resolves(schema)
    ensures Acyclic(ReferenceGraph(DefsOf(schema), ReachedNames(schema)))
  {
    forall c ensures !IsCycle(ReferenceGraph(DefsOf(schema), ReachedNames(schema)), c) {
      if IsCycle(ReferenceGraph(DefsOf(schema), ReachedNames(schema)), c) {
        var q := CycleRepeats(schema, c);
      }
    }
  }

  lemma ReachedClosed(schema: Json)
    requires Resolves(schema)
    ensures ClosedGraph(ReferenceGraph(DefsOf(schema), ReachedNames(schema)))
    ensures ReachedNames(schema) <= DefsOf(schema).Keys && forall x | x in ReachedNames(schema) :: Defined(schema, x)
    ensures Mentions(schema) <= ReachedNames(schema)
  {
    var names := ReachedNames(schema);
    forall x | x in names ensures Defined(schema, x) && Mentions(DefsOf(schema)[x]) <= names {
      ReachedAreDefined(schema, x);
      forall y | y in Mentions(DefsOf(schema)[x]) ensures y in names {
        ReferredAreReached(schema, x, y);
      }
    }
    forall x | x in Mentions(schema) ensures x in names {
      MentionedAreReached(schema, x);
    }
  }

  lemma RankSchema(schema: Json) returns (e: Env)
    requires Resolves(schema)
    ensures Closed(schema, e)
  {
    var defs, names := DefsOf(schema), ReachedNames(schema);
    ReachedClosed(schema);
    ReachedAcyclic(schema);
    var rank := RankAcyclic(ReferenceGraph(defs, names), map[]);
    var bound := BoundRanks(rank);
    assert rank.Keys == names;
    RankedMeansRanking(defs, names, rank, bound);
    e := Env(defs, rank, bound);
  }

  // -------------------------------------------------------------------- main results

  /** A recursion that returns follows no chain beyond its depth. */
  lemma {:induction false} ChainWithinDepth(schema: Json, p: seq<string>, depth: nat)
    requires Returns(schema, DefsOf(schema), depth) && IsChain(schema, p)
    ensures |p| <= depth && Follows(p[|p| - 1], DefsOf(schema), depth + 1 - |p|)
  {
    var n := |p| - 1;
    if n == 0 {
      ReturnsFollows(schema, DefsOf(schema), depth, p[0]);
    } else {
      PrefixIsChain(schema, p, n);
      ChainWithinDepth(schema, p[..n], depth);
      assert Refers(DefsOf(schema), p[n - 1], p[n]);
      ReturnsFollows(DefsOf(schema)[p[n - 1]], DefsOf(schema), depth - n, p[n]);
    }
  }

  /** A chain with a repetition can be made as long as one likes. */
  lemma {:induction false} Pump(schema: Json, p: seq<string>, i: nat, j: nat, n: nat) returns (q: seq<string>)
    requires IsChain(schema, p) && i < j < |p| && p[i] == p[j]
    ensures IsChain(schema, q) && |q| > n && q[|q| - 1] == p[j]
  {
    if n == 0 {
      q := p[..j + 1];
      PrefixIsChain(schema, p, j + 1);
    } else {
      var before := Pump(schema, p, i, j, n - 1);
      q := before + p[i + 1..j + 1];
      forall k | 0 <= k < |q| - 1 ensures Refers(DefsOf(schema), q[k], q[k + 1]) {
        if k >= |before| - 1 {
          var m := k - (|before| - 1) + i;
          assert q[k + 1] == p[m + 1] && q[k] == p[m] && Refers(DefsOf(schema), p[m], p[m + 1]);
        }
      }
    }
  }

  lemma ReturnsResolves(schema: Json, depth: nat)
    requires schema.Obj? && Returns(schema, DefsOf(schema), depth)
    ensures Resolves(schema)
  {
    forall p | IsChain(schema, p) ensures Defined(schema, p[|p| - 1]) && NoRepeat(p) {
      ChainWithinDepth(schema, p, depth);
      forall i, j | 0 <= i < j < |p| ensures p[i] != p[j] {
        if p[i] == p[j] {
          var q := Pump(schema, p, i, j, depth);
          ChainWithinDepth(schema, q, depth);
        }
      }
    }
  }

  /** `_inline_refs` on the schema returns normally. */
  ghost predicate Compiles(schema: Json) {
    schema.Obj? && exists depth :: Returns(schema, DefsOf(schema), depth)
  }

  lemma ClosedCompiles(schema: Json, e: Env)
    requires Closed(schema, e)
    ensures Compiles(schema)
  {
    CoveredReturns(schema, e);
    assert Returns(schema, DefsOf(schema), e.bound);
  }

  /** The recursion returns if and only if every chain of references ends, at objects; and
      that is exactly when there is a ranking to recurse on. */
  lemma CompilesIffResolves(schema: Json)
    ensures Compiles(schema) <==> Resolves(schema)
    ensures (exists e :: Closed(schema, e)) <==> Resolves(schema)
  {
    if Compiles(schema) {
      var depth :| Returns(schema, DefsOf(schema), depth);
      ReturnsResolves(schema, depth);
    }
    if e :| Closed(schema, e) {
      ClosedResolves(schema, e);
    }
    if Resolves(schema) {
      var e := RankSchema(schema);
      ClosedCompiles(schema, e);
    }
  }

  lemma SecondIsReferred(schema: Json, p: seq<string>)
    requires IsChain(schema, p) && |p| > 1
    ensures Refers(DefsOf(schema), p[0], p[1])
  {
    var i := 0;
    assert Refers(DefsOf(schema), p[i], p[i + 1]);
  }

  /** A reference to a definition that needs no other compiles, whatever else is defined. */
  lemma DefinedReferenceResolves(f: Fields, name: string)
    requires "$ref" in f && f["$ref"] == Str("#/$defs/" + name) && '/' !in name
    requires "$defs" in f && f["$defs"].Obj? && name in f["$defs"].fields
    requires f["$defs"].fields[name].Obj? && RefFree(f["$defs"].fields[name])
    ensures Resolves(Obj(f)) && Compiles(Obj(f))
  {
    LastSegmentIs("#/$defs", name);
    assert "#/$defs" + "/" + name == "#/$defs/" + name;
    assert Mentions(Obj(f)) == {name};
    forall p | IsChain(Obj(f), p) ensures Defined(Obj(f), p[|p| - 1]) && NoRepeat(p) {
      assert p[0] == name;
      if |p| > 1 {
        SecondIsReferred(Obj(f), p);
      }
    }
    CompilesIffResolves(Obj(f));
  }
}
