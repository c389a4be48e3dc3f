/** `merge_over`: a Door-4 section is merged over what earlier doors found. */
module SectionMerge {
  import opened Wrappers

  datatype Value =
    | Nothing
    | Scalar(n: real)
    | Text(s: string)
    | Items(xs: seq<Value>)
    | Dict(fields: map<string, Value>)

  type Fields = map<string, Value>

  /** `None`, `""`, `[]` and `{}` count as left empty; numbers never do. */
  predicate IsEmpty(v: Value) {
    v == Nothing || v == Text("") || v == Items([]) || v == Dict(map[])
  }

  function NonEmptyInner(d: Fields): Fields {
    map k | k in d && !IsEmpty(d[k]) :: d[k]
  }

  // ----------------------------------------------------------- specification

  function Lookup(f: Fields, k: string): Option<Value> {
    if k in f then Some(f[k]) else None
  }

  /** One key of the accumulator (if present) under one key of the section (if present). */
  function MergeKey(held: Option<Value>, given: Option<Value>): Option<Value> {
    if given.None? || IsEmpty(given.value) then held
    else if !given.value.Dict? then given
    else
      var inner := NonEmptyInner(given.value.fields);
      if inner == map[] then held
      else if held.Some? && held.value.Dict? then Some(Dict(held.value.fields + inner))
      else Some(Dict(inner))
  }

  function Merged(acc: Fields, sec: Fields): Fields {
    map k | k in acc.Keys + sec.Keys && MergeKey(Lookup(acc, k), Lookup(sec, k)).Some? ::
      MergeKey(Lookup(acc, k), Lookup(sec, k)).value
  }

  lemma MergedAt(acc: Fields, sec: Fields, k: string)
    ensures Lookup(Merged(acc, sec), k) == MergeKey(Lookup(acc, k), Lookup(sec, k))
  {
  }

  lemma SameLookups(f: Fields, g: Fields)
    requires forall k :: Lookup(f, k) == Lookup(g, k)
    ensures f == g
  {
    forall k ensures k in f <==> k in g { assert Lookup(f, k) == Lookup(g, k); }
    forall k | k in f ensures f[k] == g[k] { assert Lookup(f, k) == Lookup(g, k); }
  }

  // ------------------------------------------------------------- the method

  /** The accumulator dict, updated in place. */
  class Accumulator {
    var fields: Fields

    constructor ()
      ensures fields == map[]
    {
      fields := map[];
    }

    method MergeOver(section: Fields)
      modifies this
      ensures fields == Merged(old(fields), section)
    {
      ghost var before := fields;
      var todo := section.Keys;
      while todo != {}
        invariant todo <= section.Keys
        invariant forall k | k in todo || k !in section :: Lookup(fields, k) == Lookup(before, k)
        invariant forall k | k in section && k !in todo ::
                    Lookup(fields, k) == MergeKey(Lookup(before, k), Lookup(section, k))
      {
        var key :| key in todo;
        todo := todo - {key};
        var value := section[key];
        assert Lookup(fields, key) == Lookup(before, key);
        if IsEmpty(value) {
          continue;
        }
        if value.Dict? {
          var inner := NonEmptyInner(value.fields);
          if inner == map[] {
            continue;
          }
          if key in fields && fields[key].Dict? {
            fields := fields[key := Dict(fields[key].fields + inner)];
          } else {
            fields := fields[key := Dict(inner)];
          }
          continue;
        }
        fields := fields[key := value];
      }
      forall k ensures Lookup(fields, k) == Lookup(Merged(before, section), k) {
        MergedAt(before, section, k);
        assert k in section || k !in section;
      }
      SameLookups(fields, Merged(before, section));
    }
  }

  // --------------------------------------------------------------- the algebra

  lemma InnerOfUnion(b: Fields, c: Fields)
    ensures NonEmptyInner(b + NonEmptyInner(c)) == NonEmptyInner(b) + NonEmptyInner(c)
  {
  }

  lemma InnerTwice(b: Fields)
    ensures NonEmptyInner(NonEmptyInner(b)) == NonEmptyInner(b)
  {
  }

  /** Merging the same section again changes nothing. */
  lemma MergeIdempotent(acc: Fields, sec: Fields)
    ensures Merged(Merged(acc, sec), sec) == Merged(acc, sec)
  {
    forall k ensures Lookup(Merged(Merged(acc, sec), sec), k) == Lookup(Merged(acc, sec), k) {
      MergedAt(Merged(acc, sec), sec, k);
      MergedAt(acc, sec, k);
      var a, s := Lookup(acc, k), Lookup(sec, k);
      if s.Some? && s.value.Dict? && a.Some? && a.value.Dict? {
        var inner := NonEmptyInner(s.value.fields);
        assert (a.value.fields + inner) + inner == a.value.fields + inner;
      } else if s.Some? && s.value.Dict? {
        var inner := NonEmptyInner(s.value.fields);
        assert inner + inner == inner;
      }
    }
    SameLookups(Merged(Merged(acc, sec), sec), Merged(acc, sec));
  }

  /** Nothing found earlier is lost: keys stay, filled fields stay filled, a field the
      section left empty is untouched, and a filled plain field of the section wins. */
  lemma MergeKeepsAndWins(acc: Fields, sec: Fields, k: string)
    ensures k in acc ==> k in Merged(acc, sec)
    ensures k in acc && !IsEmpty(acc[k]) ==> !IsEmpty(Merged(acc, sec)[k])
    ensures k in acc && (k !in sec || IsEmpty(sec[k])) ==> Merged(acc, sec)[k] == acc[k]
    ensures k in sec && !IsEmpty(sec[k]) && !sec[k].Dict? ==> k in Merged(acc, sec) && Merged(acc, sec)[k] == sec[k]
    ensures k in acc && acc[k].Dict? && k in sec && sec[k].Dict? ==>
              && Merged(acc, sec)[k].Dict?
              && forall i | i in acc[k].fields ::
                   && i in Merged(acc, sec)[k].fields
                   && (i !in NonEmptyInner(sec[k].fields) ==> Merged(acc, sec)[k].fields[i] == acc[k].fields[i])
  {
    MergedAt(acc, sec, k);
    if k in sec && sec[k].Dict? && k in acc && acc[k].Dict? {
      var inner := NonEmptyInner(sec[k].fields);
      assert forall i | i in acc[k].fields :: i in acc[k].fields + inner;
      if !IsEmpty(acc[k]) {
        var i :| i in acc[k].fields;
        assert i in acc[k].fields + inner;
      }
    } else if k in sec && sec[k].Dict? && NonEmptyInner(sec[k].fields) != map[] {
      var i :| i in NonEmptyInner(sec[k].fields);
    }
  }

  /** What counts as left empty: nothing, and the empty text, list and object. */
  lemma KeptIfEmpty(acc: Fields, sec: Fields, k: string)
    requires k in sec ==> sec[k] == Nothing || sec[k] == Text("") || sec[k] == Items([]) || sec[k] == Dict(map[])
    ensures Lookup(Merged(acc, sec), k) == Lookup(acc, k)
  {
    MergedAt(acc, sec, k);
  }

  /** Every number wins, zero included, and so does every text and list that is not empty. */
  lemma PlainWins(acc: Fields, sec: Fields, k: string)
    requires k in sec
    requires sec[k].Scalar? || (sec[k].Text? && sec[k].s != "") || (sec[k].Items? && sec[k].xs != [])
    ensures Lookup(Merged(acc, sec), k) == Some(sec[k])
  {
    MergedAt(acc, sec, k);
  }

  predicate Filled(f: Fields, i: string) {
    i in f && f[i] != Nothing && f[i] != Text("") && f[i] != Items([]) && f[i] != Dict(map[])
  }

  /** An object is merged entry by entry: its filled entries win, the others keep what was
      there, and an object without filled entries changes nothing. */
  lemma ObjectMergesEntries(acc: Fields, sec: Fields, k: string, i: string)
    requires k in sec && sec[k].Dict?
    ensures var held := if k in acc && acc[k].Dict? then acc[k].fields else map[];
      var given := sec[k].fields;
      if exists e :: Filled(given, e)
      then
        && k in Merged(acc, sec) && Merged(acc, sec)[k].Dict?
        && Lookup(Merged(acc, sec)[k].fields, i) == (if Filled(given, i) then Some(given[i]) else Lookup(held, i))
      else Lookup(Merged(acc, sec), k) == Lookup(acc, k)
  {
    MergedAt(acc, sec, k);
    var given := sec[k].fields;
    forall e ensures e in NonEmptyInner(given) <==> Filled(given, e) {
    }
    if e :| Filled(given, e) {
      assert e in NonEmptyInner(given) && e in given;
    } else {
      assert NonEmptyInner(given) == map[];
    }
  }

  predicate FilledObject(v: Option<Value>) {
    v.Some? && v.value.Dict? && NonEmptyInner(v.value.fields) != map[]
  }

  predicate FilledPlain(v: Option<Value>) {
    v.Some? && !v.value.Dict? && !IsEmpty(v.value)
  }

  /** A plain value between two objects: grouping the last two first keeps parts of the
      first object that merging left to right has overwritten. */
  predicate Clash(a: Option<Value>, b: Option<Value>, c: Option<Value>) {
    && FilledPlain(b) && FilledObject(c)
    && a.Some? && a.value.Dict?
    && exists i :: i in a.value.fields && i !in NonEmptyInner(c.value.fields)
  }

  lemma KeyAssociative(a: Option<Value>, b: Option<Value>, c: Option<Value>)
    ensures MergeKey(MergeKey(a, b), c) == MergeKey(a, MergeKey(b, c)) <==> !Clash(a, b, c)
  {
    if FilledObject(c) {
      var ic := NonEmptyInner(c.value.fields);
      InnerTwice(c.value.fields);
      if b.Some? && b.value.Dict? {
        KeyAssociativeObjects(a, b.value.fields, c.value.fields);
      } else if FilledPlain(b) {
        assert MergeKey(MergeKey(a, b), c) == Some(Dict(ic));
        if a.Some? && a.value.Dict? {
          assert MergeKey(a, MergeKey(b, c)) == Some(Dict(a.value.fields + ic));
          if forall i | i in a.value.fields :: i in ic {
            assert a.value.fields + ic == ic;
          } else {
            var i :| i in a.value.fields && i !in ic;
            assert i in a.value.fields + ic;
          }
        }
      }
    }
  }

  /** Merging filled parts of an object into whatever is held. */
  lemma MergeObject(a: Option<Value>, f: Fields)
    requires NonEmptyInner(f) != map[]
    ensures MergeKey(a, Some(Dict(f))) ==
      Some(Dict((if a.Some? && a.value.Dict? then a.value.fields else map[]) + NonEmptyInner(f)))
  {
    var i :| i in NonEmptyInner(f);
    assert i in f;
    assert map[] + NonEmptyInner(f) == NonEmptyInner(f);
  }

  /** An object without filled parts changes nothing that is held. */
  lemma MergeHollow(a: Option<Value>, f: Fields)
    requires NonEmptyInner(f) == map[]
    ensures MergeKey(a, Some(Dict(f))) == a
  {
  }

  lemma UnionFilled(b: Fields, c: Fields)
    requires NonEmptyInner(c) != map[]
    ensures NonEmptyInner(b + NonEmptyInner(c)) == NonEmptyInner(b) + NonEmptyInner(c) != map[]
  {
    InnerOfUnion(b, c);
    var i :| i in NonEmptyInner(c);
    assert i in NonEmptyInner(b) + NonEmptyInner(c);
  }

  lemma UnionAssociative(x: Fields, y: Fields, z: Fields)
    ensures (x + y) + z == x + (y + z)
  {
  }

  lemma KeyAssociativeObjects(a: Option<Value>, b: Fields, c: Fields)
    requires NonEmptyInner(c) != map[]
    ensures MergeKey(MergeKey(a, Some(Dict(b))), Some(Dict(c))) == MergeKey(a, MergeKey(Some(Dict(b)), Some(Dict(c))))
  {
    var ib, ic := NonEmptyInner(b), NonEmptyInner(c);
    MergeObject(Some(Dict(b)), c);
    UnionFilled(b, c);
    MergeObject(a, b + ic);
    if ib == map[] {
      MergeHollow(a, b);
      MergeObject(a, c);
      assert ib + ic == ic;
    } else {
      MergeObject(a, b);
      MergeObject(MergeKey(a, Some(Dict(b))), c);
      UnionAssociative(if a.Some? && a.value.Dict? then a.value.fields else map[], ib, ic);
    }
  }

  /** Grouping does not matter exactly when no key puts a plain value between two objects
      that differ; in particular when each key is consistently an object or not. */
  lemma MergeAssociative(a: Fields, b: Fields, c: Fields)
    ensures Merged(Merged(a, b), c) == Merged(a, Merged(b, c))
       <==> forall k :: !Clash(Lookup(a, k), Lookup(b, k), Lookup(c, k))
  {
    forall k
      ensures Lookup(Merged(Merged(a, b), c), k) == Lookup(Merged(a, Merged(b, c)), k)
         <==> !Clash(Lookup(a, k), Lookup(b, k), Lookup(c, k))
    {
      MergedAt(Merged(a, b), c, k);
      MergedAt(a, b, k);
      MergedAt(a, Merged(b, c), k);
      MergedAt(b, c, k);
      KeyAssociative(Lookup(a, k), Lookup(b, k), Lookup(c, k));
    }
    if forall k :: !Clash(Lookup(a, k), Lookup(b, k), Lookup(c, k)) {
      SameLookups(Merged(Merged(a, b), c), Merged(a, Merged(b, c)));
    }
  }

  // -------------------------------------------------- the order of the sections

  function MergeAll(acc: Fields, secs: seq<Fields>): Fields {
    if secs == [] then acc
    else Merged(MergeAll(acc, secs[..|secs| - 1]), secs[|secs| - 1])
  }

  predicate Disjoint(secs: seq<Fields>) {
    forall i, j | 0 <= i < j < |secs| :: secs[i].Keys !! secs[j].Keys
  }

  /** With disjoint sections, each key is decided by the one section that has it. */
  lemma {:induction false} MergeAllAt(acc: Fields, secs: seq<Fields>, k: string)
    requires Disjoint(secs)
    ensures forall i | 0 <= i < |secs| && k in secs[i] ::
              Lookup(MergeAll(acc, secs), k) == MergeKey(Lookup(acc, k), Lookup(secs[i], k))
    ensures (forall i | 0 <= i < |secs| :: k !in secs[i]) ==> Lookup(MergeAll(acc, secs), k) == Lookup(acc, k)
  {
    if secs != [] {
      var front, last := secs[..|secs| - 1], secs[|secs| - 1];
      MergeAllAt(acc, front, k);
      MergedAt(MergeAll(acc, front), last, k);
      if k in last {
        assert forall i | 0 <= i < |front| :: k !in front[i];
      } else {
        forall i | 0 <= i < |secs| && k in secs[i]
          ensures Lookup(MergeAll(acc, secs), k) == MergeKey(Lookup(acc, k), Lookup(secs[i], k))
        {
          assert secs[i] == front[i];
        }
      }
    }
  }

  predicate IsOrder(order: seq<nat>, n: nat) {
    && |order| == n
    && (forall i | 0 <= i < n :: order[i] < n)
    && (forall i, j | 0 <= i < j < n :: order[i] != order[j])
    && (forall m: nat | m < n :: m in order)
  }

  function Reorder(secs: seq<Fields>, order: seq<nat>): seq<Fields>
    requires IsOrder(order, |secs|)
  {
    seq(|secs|, i requires 0 <= i < |secs| => secs[order[i]])
  }

  /** Sections with disjoint keys may be merged in any order. */
  lemma OrderIrrelevant(acc: Fields, secs: seq<Fields>, order: seq<nat>)
    requires Disjoint(secs) && IsOrder(order, |secs|)
    ensures MergeAll(acc, Reorder(secs, order)) == MergeAll(acc, secs)
  {
    var other := Reorder(secs, order);
    forall i, j | 0 <= i < j < |other| ensures other[i].Keys !! other[j].Keys {
      assert order[i] != order[j];
    }
    forall k ensures Lookup(MergeAll(acc, other), k) == Lookup(MergeAll(acc, secs), k) {
      MergeAllAt(acc, secs, k);
      MergeAllAt(acc, other, k);
      if i :| 0 <= i < |other| && k in other[i] {
        assert k in secs[order[i]];
      } else {
        forall m: nat | m < |secs| ensures k !in secs[m] {
          assert m in order;
          var i :| 0 <= i < |order| && order[i] == m;
          assert other[i] == secs[m];
        }
      }
    }
    SameLookups(MergeAll(acc, other), MergeAll(acc, secs));
  }

  /** The field names of the four section models. */
  const SECTION_KEYS: seq<set<string>> := [
    {"title", "company", "location", "remote_policy", "employment_type", "seniority",
     "experience_range", "salary", "education", "work_auth_visa"},
    {"responsibilities"},
    {"skills"},
    {"good_to_have", "screening_question_hints", "other"}]

  /** The Door-4 result does not depend on the order of its four sections; a section that
      failed contributes nothing. */
  lemma Door4OrderIrrelevant(acc: Fields, outputs: seq<Fields>, order: seq<nat>)
    requires |outputs| == 4 && IsOrder(order, 4)
    requires forall i | 0 <= i < 4 :: outputs[i].Keys <= SECTION_KEYS[i]
    ensures MergeAll(acc, Reorder(outputs, order)) == MergeAll(acc, outputs)
  {
    SectionKeysDisjoint();
    OrderIrrelevant(acc, outputs, order);
  }

  lemma SectionKeysDisjoint()
    ensures |SECTION_KEYS| == 4
    ensures forall i, j | 0 <= i < j < 4 :: SECTION_KEYS[i] !! SECTION_KEYS[j]
  {
  }
}
