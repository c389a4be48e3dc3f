/** Which providers a request will try, and in which order (D15): the configured names that
    have an active row, by priority and then by their place in the configured list. */
module ChainResolution {
  import opened RouterModel

  /** The first active row carrying its name: `list_active_providers` hands the rows over
      best first, and later rows of the same name are ignored. */
  predicate IsBest(active: seq<Provider>, i: nat) {
    i < |active| && forall j :: 0 <= j < i ==> active[j].name != active[i].name
  }

  ghost predicate BestRow(active: seq<Provider>, p: Provider) {
    exists i: nat :: IsBest(active, i) && active[i] == p
  }

  /** The rows kept by name, the first one of each name winning. */
  function BestByName(active: seq<Provider>): map<string, Provider> {
    if active == [] then map[]
    else
      var n := |active| - 1;
      var best := BestByName(active[..n]);
      if active[n].name in best then best else best[active[n].name := active[n]]
  }

  /** Where each configured name stands, the last occurrence winning. */
  function OrderIndex(names: seq<string>): map<string, nat> {
    if names == [] then map[]
    else
      var n := |names| - 1;
      OrderIndex(names[..n])[names[n] := n]
  }

  function Place(p: Provider, order: map<string, nat>): nat {
    if p.name in order then order[p.name] else 0
  }

  predicate Precedes(p: Provider, q: Provider, order: map<string, nat>) {
    p.priority < q.priority || (p.priority == q.priority && Place(p, order) <= Place(q, order))
  }

  predicate Ordered(chain: Chain, order: map<string, nat>) {
    forall i, j :: 0 <= i < j < |chain| ==> Precedes(chain[i], chain[j], order)
  }

  /** The configured names that have a best row, in configured order. */
  function Selected(names: seq<string>, best: map<string, Provider>): Chain {
    if names == [] then []
    else
      var n := |names| - 1;
      var rest := Selected(names[..n], best);
      if names[n] in best then rest + [best[names[n]]] else rest
  }

  ghost predicate Permuted(c: Chain, d: Chain) {
    multiset(c) == multiset(d)
  }

  /** What a resolved chain is: the selected rows, sorted. */
  ghost predicate Resolves(chain: Chain, names: seq<string>, active: seq<Provider>) {
    && Permuted(chain, Selected(names, BestByName(active)))
    && Ordered(chain, OrderIndex(names))
  }

  // ------------------------------------------------------------------- the code

  /** Inserting one row where a stable sort would leave it. */
  function Insert(chain: Chain, p: Provider, order: map<string, nat>): Chain {
    if chain == [] then [p]
    else
      var n := |chain| - 1;
      if Precedes(chain[n], p, order) then chain + [p]
      else Insert(chain[..n], p, order) + [chain[n]]
  }

  lemma {:induction false} InsertMembers(chain: Chain, p: Provider, order: map<string, nat>)
    ensures Permuted(Insert(chain, p, order), chain + [p])
  {
    if chain != [] {
      var n := |chain| - 1;
      InsertMembers(chain[..n], p, order);
      assert chain == chain[..n] + [chain[n]];
    }
  }

  lemma MembersKept(c: Chain, d: Chain)
    requires Permuted(c, d)
    ensures |c| == |d|
    ensures forall p :: p in c <==> p in d
  {
    assert |c| == |multiset(c)| && |d| == |multiset(d)|;
    forall p ensures p in c <==> p in d {
      assert p in c <==> p in multiset(c);
      assert p in d <==> p in multiset(d);
    }
  }

  lemma {:induction false} InsertOrdered(chain: Chain, p: Provider, order: map<string, nat>)
    requires Ordered(chain, order)
    ensures Ordered(Insert(chain, p, order), order)
  {
    if chain != [] {
      var n := |chain| - 1;
      if !Precedes(chain[n], p, order) {
        InsertOrdered(chain[..n], p, order);
        InsertMembers(chain[..n], p, order);
        var front := Insert(chain[..n], p, order);
        MembersKept(front, chain[..n] + [p]);
        forall i | 0 <= i < |front| ensures Precedes(front[i], chain[n], order) {
          assert front[i] in front;
        }
      }
    }
  }

  method SortChain(chain: Chain, order: map<string, nat>) returns (sorted: Chain)
    ensures Permuted(sorted, chain)
    ensures Ordered(sorted, order)
  {
    sorted := [];
    for i := 0 to |chain|
      invariant Permuted(sorted, chain[..i])
      invariant Ordered(sorted, order)
    {
      assert chain[..i + 1] == chain[..i] + [chain[i]];
      InsertMembers(sorted, chain[i], order);
      InsertOrdered(sorted, chain[i], order);
      sorted := Insert(sorted, chain[i], order);
    }
    assert chain[..|chain|] == chain;
  }

  method ResolveChain(names: seq<string>, active: seq<Provider>) returns (chain: Chain)
    ensures Resolves(chain, names, active)
  {
    var best := map[];
    for i := 0 to |active|
      invariant best == BestByName(active[..i])
    {
      assert active[..i + 1][..i] == active[..i];
      if active[i].name !in best {
        best := best[active[i].name := active[i]];
      }
    }
    assert active[..|active|] == active;
    var order: map<string, nat> := map[];
    chain := [];
    for i := 0 to |names|
      invariant order == OrderIndex(names[..i])
      invariant chain == Selected(names[..i], best)
    {
      assert names[..i + 1][..i] == names[..i];
      order := order[names[i] := i];
      if names[i] in best {
        chain := chain + [best[names[i]]];
      }
    }
    assert names[..|names|] == names;
    chain := SortChain(chain, order);
  }

  // ------------------------------------------------------------- what the parts mean

  lemma {:induction false} BestByNameIsFirst(active: seq<Provider>, name: string)
    ensures name in BestByName(active) <==> exists i :: 0 <= i < |active| && active[i].name == name
    ensures name in BestByName(active) ==>
      BestByName(active)[name].name == name && BestRow(active, BestByName(active)[name])
  {
    if active != [] {
      var n := |active| - 1;
      var before := active[..n];
      BestByNameIsFirst(before, name);
      assert active == before + [active[n]];
      if name in BestByName(before) {
        var i: nat :| IsBest(before, i) && before[i] == BestByName(before)[name];
        assert IsBest(active, i) && active[i] == before[i];
      } else if active[n].name == name {
        assert forall j :: 0 <= j < n ==> before[j] == active[j] && active[j].name != name;
        assert IsBest(active, n);
      }
    }
  }

  lemma BestRowsAreKept(active: seq<Provider>, p: Provider)
    ensures BestRow(active, p) <==> p.name in BestByName(active) && BestByName(active)[p.name] == p
  {
    BestByNameIsFirst(active, p.name);
    if i: nat :| IsBest(active, i) && active[i] == p {
      var kept := BestByName(active)[p.name];
      var j: nat :| IsBest(active, j) && active[j] == kept;
      assert !(i < j) && !(j < i);
    }
  }

  lemma {:induction false} OrderIndexIsLast(names: seq<string>, k: nat)
    requires k < |names|
    ensures names[k] in OrderIndex(names)
    ensures k <= OrderIndex(names)[names[k]] < |names|
    ensures names[OrderIndex(names)[names[k]]] == names[k]
  {
    var n := |names| - 1;
    if names[k] != names[n] {
      assert names[..n][k] == names[k];
      OrderIndexIsLast(names[..n], k);
    }
  }

  lemma {:induction false} SelectedMembers(names: seq<string>, best: map<string, Provider>, p: Provider)
    requires forall name :: name in best ==> best[name].name == name
    ensures p in Selected(names, best) <==> p.name in names && p.name in best && best[p.name] == p
  {
    if names != [] {
      var n := |names| - 1;
      SelectedMembers(names[..n], best, p);
      assert names == names[..n] + [names[n]];
    }
  }

  // --------------------------------------------------------------------- uniqueness

  /** Only one row has a given key. */
  ghost predicate KeyDetermines(chain: Chain, order: map<string, nat>) {
    forall p, q :: p in chain && q in chain && Precedes(p, q, order) && Precedes(q, p, order) ==> p == q
  }

  lemma LastPrecedes(c: Chain, order: map<string, nat>, p: Provider)
    requires Ordered(c, order) && p in c
    ensures Precedes(p, c[|c| - 1], order)
  {
    var i :| 0 <= i < |c| && c[i] == p;
  }

  lemma RemoveLast(c: Chain)
    requires c != []
    ensures multiset(c[..|c| - 1]) == multiset(c) - multiset{c[|c| - 1]}
  {
    assert c == c[..|c| - 1] + [c[|c| - 1]];
  }

  lemma LastAgrees(c: Chain, d: Chain, order: map<string, nat>)
    requires Permuted(c, d) && Ordered(c, order) && Ordered(d, order) && KeyDetermines(c, order)
    requires c != []
    ensures d != [] && c[|c| - 1] == d[|d| - 1]
  {
    MembersKept(c, d);
    assert c[|c| - 1] in c && d[|d| - 1] in d;
    LastPrecedes(c, order, d[|d| - 1]);
    LastPrecedes(d, order, c[|c| - 1]);
  }

  lemma PrefixKeeps(c: Chain, order: map<string, nat>)
    requires c != [] && Ordered(c, order) && KeyDetermines(c, order)
    ensures Ordered(c[..|c| - 1], order) && KeyDetermines(c[..|c| - 1], order)
  {
    assert forall p :: p in c[..|c| - 1] ==> p in c;
  }

  lemma {:induction false} SortedUnique(c: Chain, d: Chain, order: map<string, nat>)
    requires Permuted(c, d) && Ordered(c, order) && Ordered(d, order) && KeyDetermines(c, order)
    ensures c == d
  {
    MembersKept(c, d);
    if c != [] {
      var n := |c| - 1;
      LastAgrees(c, d, order);
      PrefixKeeps(c, order);
      assert Ordered(d[..n], order);
      assert Permuted(c[..n], d[..n]) by {
        RemoveLast(c);
        RemoveLast(d);
      }
      SortedUnique(c[..n], d[..n], order);
      assert c == c[..n] + [c[n]] && d == d[..n] + [d[n]];
    }
  }

  lemma SelectedKeys(names: seq<string>, active: seq<Provider>, chain: Chain)
    requires Permuted(chain, Selected(names, BestByName(active)))
    ensures forall p :: p in chain <==> p.name in names && BestRow(active, p)
  {
    var best := BestByName(active);
    forall name | name in best ensures best[name].name == name {
      BestByNameIsFirst(active, name);
    }
    MembersKept(chain, Selected(names, best));
    forall p ensures p in chain <==> p.name in names && BestRow(active, p) {
      SelectedMembers(names, best, p);
      BestRowsAreKept(active, p);
    }
  }

  lemma SameName(names: seq<string>, active: seq<Provider>, p: Provider, q: Provider)
    requires p.name in names && q.name in names && BestRow(active, p) && BestRow(active, q)
    requires Place(p, OrderIndex(names)) == Place(q, OrderIndex(names))
    ensures p == q
  {
    var k :| 0 <= k < |names| && names[k] == p.name;
    var l :| 0 <= l < |names| && names[l] == q.name;
    OrderIndexIsLast(names, k);
    OrderIndexIsLast(names, l);
    BestRowsAreKept(active, p);
    BestRowsAreKept(active, q);
  }

  /** The specification leaves no choice: the key of a row determines the row, so a stable
      sort and any other sort give the same chain. */
  lemma ResolutionUnique(c: Chain, d: Chain, names: seq<string>, active: seq<Provider>)
    requires Resolves(c, names, active) && Resolves(d, names, active)
    ensures c == d
  {
    var order := OrderIndex(names);
    SelectedKeys(names, active, c);
    forall p, q | p in c && q in c && Precedes(p, q, order) && Precedes(q, p, order) ensures p == q {
      SameName(names, active, p, q);
    }
    SortedUnique(c, d, order);
  }

  // ---------------------------------------------------------- duplicate-free names

  predicate DistinctNames(names: seq<string>) {
    forall i, j :: 0 <= i < j < |names| ==> names[i] != names[j]
  }

  lemma {:induction false} SelectedOnce(names: seq<string>, best: map<string, Provider>)
    requires forall name :: name in best ==> best[name].name == name
    requires DistinctNames(names)
    ensures NoDuplicates(Selected(names, best))
  {
    if names != [] {
      var n := |names| - 1;
      SelectedOnce(names[..n], best);
      var front := Selected(names[..n], best);
      forall i | 0 <= i < |front| ensures front[i].name != names[n] {
        assert front[i] in front;
        SelectedMembers(names[..n], best, front[i]);
      }
    }
  }

  lemma {:induction false} OccursOnce(c: Chain, p: Provider)
    requires NoDuplicates(c)
    ensures multiset(c)[p] <= 1
  {
    if c != [] {
      var n := |c| - 1;
      OccursOnce(c[..n], p);
      RemoveLast(c);
      if p == c[n] {
        assert forall i :: 0 <= i < n ==> c[i] != p;
        assert p !in c[..n];
        assert p !in multiset(c[..n]);
      }
    }
  }

  lemma OccursTwice(c: Chain, i: nat, j: nat)
    requires i < j < |c| && c[i] == c[j]
    ensures multiset(c)[c[i]] >= 2
  {
    var p := c[i];
    assert c == c[..j] + c[j..];
    assert c[..j][i] == p && c[j..][0] == p;
    assert p in multiset(c[..j]) && p in multiset(c[j..]);
  }

  /** Configured without repetition, the chain holds exactly the first active row of every
      configured name, each once. */
  lemma ChainIsConfigured(chain: Chain, names: seq<string>, active: seq<Provider>)
    requires Resolves(chain, names, active) && DistinctNames(names)
    ensures NoDuplicates(chain)
    ensures forall p :: p in chain <==> p.name in names && BestRow(active, p)
  {
    var best := BestByName(active);
    SelectedKeys(names, active, chain);
    forall name | name in best ensures best[name].name == name {
      BestByNameIsFirst(active, name);
    }
    SelectedOnce(names, best);
    forall i, j | 0 <= i < j < |chain| ensures chain[i].name != chain[j].name {
      assert chain[i] in chain && chain[j] in chain;
      if chain[i].name == chain[j].name {
        SameName(names, active, chain[i], chain[j]);
        OccursTwice(chain, i, j);
        OccursOnce(Selected(names, best), chain[i]);
        assert false;
      }
    }
  }

  /** Earlier in the chain means smaller priority, or the same priority and an earlier place
      in the configured list. */
  lemma ChainOrder(chain: Chain, names: seq<string>, active: seq<Provider>, i: nat, j: nat, a: nat, b: nat)
    requires Resolves(chain, names, active) && DistinctNames(names)
    requires i < j < |chain| && a < |names| && b < |names|
    requires names[a] == chain[i].name && names[b] == chain[j].name
    ensures chain[i].priority < chain[j].priority || (chain[i].priority == chain[j].priority && a < b)
  {
    OrderIndexIsLast(names, a);
    OrderIndexIsLast(names, b);
    assert Precedes(chain[i], chain[j], OrderIndex(names));
    ChainIsConfigured(chain, names, active);
  }

  /** A name configured twice puts its provider on the chain twice. */
  lemma RepeatedNameRepeats(p: Provider, chain: Chain)
    requires Resolves(chain, [p.name, p.name], [p])
    ensures chain == [p, p]
  {
    var names, best := [p.name, p.name], BestByName([p]);
    assert [p][..0] == [] && BestByName([]) == map[];
    assert best == map[p.name := p];
    assert names[..1] == [p.name] && [p.name][..0] == [];
    assert Selected([p.name], best) == [p];
    assert Selected(names, best) == [p, p];
    MembersKept(chain, [p, p]);
    assert chain[0] in chain && chain[1] in chain;
  }
}
