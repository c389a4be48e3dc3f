/** The router drives the breakers as the breaker results suppose: over any sequence of routed
    requests, the row of a provider is what its visits, one after another, make of it. */
module RoutedBreakers {
  import opened Wrappers
  import opened CircuitBreaker
  import opened RouterModel
  import S = BreakerSequence

  // ------------------------------------------------------------- within one request

  /** What the breaker sees of a chain entry; a key that cannot be decrypted is an unusable
      answer. */
  function VisitOf(p: Provider, w: World, d: Deal): S.Visit {
    S.Visit(w.now, if p.key.BadKey? then Unusable else d.answer)
  }

  predicate Visits(p: Provider, w: World, name: string) {
    p.name == name && name in w.registered
  }

  /** The visits that the first n entries pay to a provider. */
  function VisitsIn(chain: Chain, w: World, deals: Deals, n: nat, name: string): seq<S.Visit>
    requires n <= |chain|
  {
    if n == 0 then []
    else
      VisitsIn(chain, w, deals, n - 1, name)
      + (if Visits(chain[n - 1], w, name) then [VisitOf(chain[n - 1], w, deals(n - 1))] else [])
  }

  function Replayed(row: Option<Row>, vs: seq<S.Visit>): Option<Row> {
    if vs == [] then row
    else AfterVisit(Replayed(row, vs[..|vs| - 1]), vs[|vs| - 1].now, vs[|vs| - 1].answer)
  }

  lemma ReplayOneMore(row: Option<Row>, vs: seq<S.Visit>, v: S.Visit)
    ensures Replayed(row, vs + [v]) == AfterVisit(Replayed(row, vs), v.now, v.answer)
  {
    assert (vs + [v])[..|vs|] == vs;
  }

  lemma {:induction false} ReplayConcat(row: Option<Row>, vs: seq<S.Visit>, us: seq<S.Visit>)
    ensures Replayed(row, vs + us) == Replayed(Replayed(row, vs), us)
    decreases |us|
  {
    if us == [] {
      assert vs + us == vs;
    } else {
      var front, last := us[..|us| - 1], us[|us| - 1];
      ReplayConcat(row, vs, front);
      assert us == front + [last] && vs + us == (vs + front) + [last];
      ReplayOneMore(row, vs + front, last);
      ReplayOneMore(Replayed(row, vs), front, last);
    }
  }

  /** An entry of the chain is one visit, unless its provider is not registered. */
  lemma EntryIsVisit(p: Provider, row: Option<Row>, w: World, d: Deal)
    ensures RowAfter(p, row, w, d) ==
      if Visits(p, w, p.name) then AfterVisit(row, w.now, VisitOf(p, w, d).answer) else row
  {
  }

  /** Within a request, every row is replayed by the visits paid to it. */
  lemma {:induction false} RowAtReplays(chain: Chain, t: Table, w: World, deals: Deals, n: nat, name: string)
    requires n <= |chain|
    ensures RowAt(chain, t, w, deals, n, name) == Replayed(RowIn(t, name), VisitsIn(chain, w, deals, n, name))
  {
    if n > 0 {
      RowAtReplays(chain, t, w, deals, n - 1, name);
      var vs := VisitsIn(chain, w, deals, n - 1, name);
      if Visits(chain[n - 1], w, name) {
        EntryIsVisit(chain[n - 1], Replayed(RowIn(t, name), vs), w, deals(n - 1));
        ReplayOneMore(RowIn(t, name), vs, VisitOf(chain[n - 1], w, deals(n - 1)));
      } else {
        assert vs + [] == vs;
        if chain[n - 1].name == name {
          EntryIsVisit(chain[n - 1], Replayed(RowIn(t, name), vs), w, deals(n - 1));
        }
      }
    }
  }

  // --------------------------------------------------------- over many requests

  /** A request in either lane. */
  datatype Routed = Routed(chain: Chain, w: World, deals: Deals)

  function EntriesReached(t: Table, q: Routed): nat {
    Reached(q.chain, Found(q.chain, t, q.w, q.deals), q.w, q.deals)
  }

  /** The request takes the breaker table from t to t'. */
  ghost predicate Routes(t: Table, t': Table, q: Routed) {
    Handled(t, t', q.chain, q.w, q.deals, EntriesReached(t, q))
  }

  /** As `TryChain` and `TryStructuredChain` promise. */
  lemma FinishedRoutes(b: Books, b': Books, chain: Chain, w: World, deals: Deals, r: RouteResult)
    requires Finished(b, b', chain, w, deals, r)
    ensures Routes(b.rows, b'.rows, Routed(chain, w, deals))
  {
  }

  /** Requests one after another, and the tables between them, from an empty one on. */
  ghost predicate History(tables: seq<Table>, requests: seq<Routed>) {
    && |tables| == |requests| + 1 && tables[0] == map[]
    && forall i | 0 <= i < |requests| :: Routes(tables[i], tables[i + 1], requests[i])
  }

  /** All the visits that the first n requests pay to a provider. */
  function VisitsUpTo(tables: seq<Table>, requests: seq<Routed>, n: nat, name: string): seq<S.Visit>
    requires n <= |requests| <= |tables|
  {
    if n == 0 then []
    else
      var q := requests[n - 1];
      VisitsUpTo(tables, requests, n - 1, name)
      + VisitsIn(q.chain, q.w, q.deals, EntriesReached(tables[n - 1], q), name)
  }

  lemma {:induction false} ReplayFromNothing(vs: seq<S.Visit>)
    ensures Replayed(None, vs) == S.RowAfter(vs)
  {
    if vs != [] {
      ReplayFromNothing(vs[..|vs| - 1]);
    }
  }

  lemma {:induction false} TablesReplay(tables: seq<Table>, requests: seq<Routed>, n: nat, name: string)
    requires History(tables, requests) && n <= |requests|
    ensures RowIn(tables[n], name) == Replayed(None, VisitsUpTo(tables, requests, n, name))
  {
    if n > 0 {
      var t, q := tables[n - 1], requests[n - 1];
      var k := EntriesReached(t, q);
      TablesReplay(tables, requests, n - 1, name);
      assert Routes(tables[n - 1], tables[n], q);
      RowAtReplays(q.chain, t, q.w, q.deals, k, name);
      ReplayConcat(None, VisitsUpTo(tables, requests, n - 1, name), VisitsIn(q.chain, q.w, q.deals, k, name));
    }
  }

  /** Over any requests with any chains, in either lane: a provider's row is the one that its
      visits lead to, one request after another. */
  lemma RowsFollowVisits(tables: seq<Table>, requests: seq<Routed>, n: nat, name: string)
    requires History(tables, requests) && n <= |requests|
    ensures RowIn(tables[n], name) == S.RowAfter(VisitsUpTo(tables, requests, n, name))
  {
    TablesReplay(tables, requests, n, name);
    ReplayFromNothing(VisitsUpTo(tables, requests, n, name));
  }

  /** So the counter of every provider is exact, and a row is CLOSED just when it has no
      cooldown and fewer than three counted failures. */
  lemma RoutedCounterExact(tables: seq<Table>, requests: seq<Routed>, n: nat, name: string)
    requires History(tables, requests) && n <= |requests|
    ensures S.RowOk(RowIn(tables[n], name), S.CountedSinceReset(VisitsUpTo(tables, requests, n, name)))
  {
    RowsFollowVisits(tables, requests, n, name);
    S.CounterExact(VisitsUpTo(tables, requests, n, name));
  }

  /** And the next request refuses a registered provider exactly while its cooldown lies
      ahead. */
  lemma RefusedIffCoolingDown(tables: seq<Table>, requests: seq<Routed>, n: nat, p: Provider, w: World)
    requires History(tables, requests) && n <= |requests|
    ensures var row := RowIn(tables[n], p.name);
      GateOf(p, row, w).Refused? <==>
        && p.name in w.registered && row.Some? && row.value.cooldown.Some? && row.value.cooldown.value > w.now
  {
    RowsFollowVisits(tables, requests, n, p.name);
    S.AdmittedIffDue(VisitsUpTo(tables, requests, n, p.name), w.now);
  }
}
