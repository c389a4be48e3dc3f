/** Inlining `$ref`s: it terminates on acyclic tables, leaves no reference, and keeps the
    set of accepted values. */
module SchemaInlining {
  import opened SchemaDialects

  lemma RefFreeNode(f: Fields)
    ensures RefFree(Obj(f)) <==> !IsLocalRef(f) && forall k | k in f :: RefFree(f[k])
  {
    if IsLocalRef(f) {
      assert RefName(f) in Mentions(Obj(f));
    } else {
      Children(f);
      if forall k | k in f :: RefFree(f[k]) {
        assert forall x :: x !in Mentions(Obj(f));
      }
    }
  }

  lemma RefFreeList(items: seq<Json>)
    ensures RefFree(Arr(items)) <==> forall i | 0 <= i < |items| :: RefFree(items[i])
  {
    if RefFree(Arr(items)) {
      forall i | 0 <= i < |items| ensures RefFree(items[i]) {
        assert Mentions(items[i]) <= Mentions(Arr(items));
      }
    } else {
      var x :| x in Mentions(Arr(items));
    }
  }

  /** No local reference is left anywhere, at any depth. */
  lemma {:induction false} InlineRemovesRefs(node: Json, e: Env)
    requires e.Covers(node)
    ensures RefFree(InlineRefs(node, e))
    decreases e.bound, node
  {
    match node
    case Arr(items) =>
      forall i | 0 <= i < |items| ensures RefFree(InlineRefs(items[i], e)) {
        assert Mentions(items[i]) <= Mentions(node);
        InlineRemovesRefs(items[i], e);
      }
      RefFreeList(InlineRefs(node, e).items);
    case Obj(f) =>
      if IsLocalRef(f) {
        InlineRemovesRefs(e.defs[RefName(f)], e.At(RefName(f)));
      } else {
        Children(f);
        forall k | k in f ensures RefFree(InlineRefs(f[k], e)) {
          InlineRemovesRefs(f[k], e);
        }
        InlineKeepsPlain(f, e);
        RefFreeNode(InlineFields(f, e));
      }
    case _ =>
  }

  // --------------------------------------------------- which definition is meant

  /** What follows the last slash. */
  lemma {:induction false} LastSegmentIs(head: string, name: string)
    requires '/' !in name
    ensures LastSegment(head + "/" + name) == name
    decreases |head|
  {
    var s := head + "/" + name;
    if head == "" {
      assert s[0] == '/' && s[1..] == name;
    } else {
      LastSegmentIs(head[1..], name);
      assert s[1..] == head[1..] + "/" + name;
      assert s[|head|] == '/';
    }
  }

  /** A reference `#/$defs/…/name`, whatever stands beside it, mentions the definition it points to and no
      other, is inlined as that definition, and accepts what it accepts. */
  lemma ReferenceMeansDefinition(f: Fields, head: string, name: string, e: Env, v: Json)
    requires "$ref" in f && f["$ref"] == Str(head + "/" + name) && '/' !in name && "#/$defs/" <= head + "/"
    requires e.Covers(Obj(f))
    ensures Mentions(Obj(f)) == {name} && name in e.defs && name in e.rank && e.Covers(e.defs[name])
    ensures InlineRefs(Obj(f), e) == InlineRefs(e.defs[name], e)
    ensures Accepts(Obj(f), v, e) <==> Accepts(e.defs[name], v, e.At(name))
  {
    LastSegmentIs(head, name);
    assert (head + "/" + name)[..8] == (head + "/")[..8];
    assert name in Mentions(Obj(f));
    InlineIgnoresRank(e.defs[name], e.At(name), e);
  }

  /** Anything else under `$ref` is no reference: the node stays, key by key. */
  lemma OthersStay(f: Fields, e: Env)
    requires "$ref" in f && f["$ref"].Str? ==> !("#/$defs/" <= f["$ref"].s)
    requires e.Covers(Obj(f))
    ensures InlineRefs(Obj(f), e).Obj? && InlineRefs(Obj(f), e).fields.Keys == f.Keys
    ensures forall k | k in f :: e.Covers(f[k]) && InlineRefs(Obj(f), e).fields[k] == InlineRefs(f[k], e)
  {
    assert !IsLocalRef(f);
    Children(f);
  }

  /** A schema that is a reference to one of its own definitions compiles to that definition,
      inlined and rewritten. */
  lemma RootReference(d: Dialect, f: Fields, name: string, e: Env)
    requires "$ref" in f && f["$ref"] == Str("#/$defs/" + name) && '/' !in name
    requires "$defs" in f && f["$defs"].Obj? && Closed(Obj(f), e)
    ensures e.defs == f["$defs"].fields && name in f["$defs"].fields && e.Covers(f["$defs"].fields[name])
    ensures Compile(d, Obj(f), e) == Walk(d, InlineRefs(f["$defs"].fields[name], e))
  {
    assert "#/$defs" + "/" == "#/$defs/";
    ReferenceMeansDefinition(f, "#/$defs", name, e, Null);
  }

  /** The rank only drives termination: any two rankings of one table give one result. */
  lemma {:induction false} InlineIgnoresRank(node: Json, e: Env, e': Env)
    requires e.defs == e'.defs && e.Covers(node) && e'.Covers(node)
    ensures InlineRefs(node, e) == InlineRefs(node, e')
    decreases e.bound, node
  {
    match node
    case Arr(items) =>
      forall i | 0 <= i < |items| ensures InlineRefs(items[i], e) == InlineRefs(items[i], e') {
        assert Mentions(items[i]) <= Mentions(node);
        InlineIgnoresRank(items[i], e, e');
      }
      assert InlineRefs(node, e).items == InlineRefs(node, e').items;
    case Obj(f) =>
      if IsLocalRef(f) {
        InlineIgnoresRank(e.defs[RefName(f)], e.At(RefName(f)), e'.At(RefName(f)));
      } else {
        Children(f);
        forall k | k in f ensures InlineRefs(f[k], e) == InlineRefs(f[k], e') {
          InlineIgnoresRank(f[k], e, e');
        }
        assert InlineFields(f, e) == InlineFields(f, e');
      }
    case _ =>
  }

  lemma {:induction false} InlineGivesObjects(node: Json, e: Env)
    requires e.Covers(node)
    ensures InlineRefs(node, e).Obj? <==> node.Obj?
    ensures Scalar(InlineRefs(node, e)) <==> Scalar(node)
    decreases e.bound, node
  {
    if node.Obj? && IsLocalRef(node.fields) {
      InlineGivesObjects(e.defs[RefName(node.fields)], e.At(RefName(node.fields)));
    }
  }

  lemma InlineKeepsPlain(f: Fields, e: Env)
    requires !IsLocalRef(f) && e.Covers(Obj(f))
    ensures !IsLocalRef(InlineFields(f, e))
  {
    Children(f);
    if "$ref" in f {
      InlineGivesObjects(f["$ref"], e);
    }
  }

  lemma InlineKeepsScalars(x: Json, e: Env)
    requires e.Covers(x) && Scalars(x)
    ensures InlineRefs(x, e) == x
  {
    if x.Arr? {
      assert InlineRefs(x, e).items == x.items;
    }
  }

  /** A shaped node that is not itself a reference: the sub-schemas of the inlined node
      are the inlined sub-schemas, and the other keywords are unchanged. */
  lemma InlineChildren(f: Fields, e: Env)
    requires !IsLocalRef(f) && e.Covers(Obj(f)) && Shaped(Obj(f))
    ensures var g := InlineFields(f, e);
      && g.Keys == f.Keys && !IsLocalRef(g) && RefFree(Obj(g))
      && KeywordsShaped(g)
      && (forall k | k in {"type", "enum", "required"} && k in f :: g[k] == f[k])
      && RequiredNames(g) == RequiredNames(f)
      && (forall k | k in {"items", "additionalProperties"} && k in f ::
            e.Covers(f[k]) && g[k] == InlineRefs(f[k], e))
  {
    var g := InlineFields(f, e);
    Children(f);
    InlineRemovesRefs(Obj(f), e);
    InlineKeepsPlain(f, e);
    forall k | k in {"type", "enum", "required"} && k in f ensures g[k] == f[k] {
      InlineKeepsScalars(f[k], e);
    }
    if "properties" in f {
      InlineGivesObjects(f["properties"], e);
    }
  }

  lemma InlineAlternatives(f: Fields, e: Env)
    requires !IsLocalRef(f) && e.Covers(Obj(f)) && Shaped(Obj(f))
    ensures var g := InlineFields(f, e);
      && |Alternatives(g)| == |Alternatives(f)|
      && forall i | 0 <= i < |Alternatives(f)| ::
           e.Covers(Alternatives(f)[i]) && Alternatives(g)[i] == InlineRefs(Alternatives(f)[i], e)
  {
    Children(f);
  }

  lemma InlineTable(f: Fields, e: Env)
    requires !IsLocalRef(f) && e.Covers(Obj(f)) && Shaped(Obj(f))
    ensures var g := InlineFields(f, e);
      && PropertyTable(g).Keys == PropertyTable(f).Keys
      && ("properties" in f ==> "properties" in g && g["properties"].Obj? && !IsLocalRef(g["properties"].fields))
      && forall p | p in PropertyTable(f) ::
           e.Covers(PropertyTable(f)[p]) && PropertyTable(g)[p] == InlineRefs(PropertyTable(f)[p], e)
  {
    Children(f);
    if "properties" in f {
      InlineKeepsPlain(f["properties"].fields, e);
    }
  }

  lemma {:induction false} InlineKeepsShape(s: Json, e: Env)
    requires e.Covers(s) && Shaped(s) && ShapedDefs(e)
    ensures Shaped(InlineRefs(s, e))
    decreases e.bound, s
  {
    if s.Obj? && IsLocalRef(s.fields) {
      InlineKeepsShape(e.defs[RefName(s.fields)], e.At(RefName(s.fields)));
    } else if s.Obj? {
      var f, g := s.fields, InlineFields(s.fields, e);
      Children(f);
      InlineChildren(f, e);
      InlineAlternatives(f, e);
      InlineTable(f, e);
      forall k | k in {"items", "additionalProperties"} && k in f ensures Shaped(g[k]) {
        InlineKeepsShape(f[k], e);
      }
      forall i | 0 <= i < |Alternatives(f)| ensures Shaped(Alternatives(g)[i]) {
        InlineKeepsShape(Alternatives(f)[i], e);
      }
      forall p | p in PropertyTable(f) ensures Shaped(PropertyTable(g)[p]) {
        InlineKeepsShape(PropertyTable(f)[p], e);
      }
    }
  }

  lemma {:induction false} InlineKeepsDeclared(s: Json, e: Env)
    requires e.Covers(s) && Shaped(s) && ShapedDefs(e) && RequiresDeclared(s) && DeclaredDefs(e)
    ensures RequiresDeclared(InlineRefs(s, e))
    decreases e.bound, s
  {
    if s.Obj? && IsLocalRef(s.fields) {
      InlineKeepsDeclared(e.defs[RefName(s.fields)], e.At(RefName(s.fields)));
    } else if s.Obj? {
      var f, g := s.fields, InlineFields(s.fields, e);
      Children(f);
      InlineChildren(f, e);
      InlineAlternatives(f, e);
      InlineTable(f, e);
      forall k | k in {"items", "additionalProperties"} && k in f ensures RequiresDeclared(g[k]) {
        InlineKeepsDeclared(f[k], e);
      }
      forall i | 0 <= i < |Alternatives(f)| ensures RequiresDeclared(Alternatives(g)[i]) {
        InlineKeepsDeclared(Alternatives(f)[i], e);
      }
      forall p | p in PropertyTable(f) ensures RequiresDeclared(PropertyTable(g)[p]) {
        InlineKeepsDeclared(PropertyTable(f)[p], e);
      }
    }
  }

  /** Inlining keeps the meaning: the reference-free schema accepts exactly the values
      that the original accepts when each `$ref` is looked up in the definitions. */
  lemma {:induction false} InliningPreservesMeaning(s: Json, v: Json, e: Env)
    requires e.Covers(s) && Shaped(s) && ShapedDefs(e)
    ensures NO_DEFS.Covers(InlineRefs(s, e))
    ensures Accepts(InlineRefs(s, e), v, NO_DEFS) <==> Accepts(s, v, e)
    decreases e.bound, s, 2
  {
    InlineRemovesRefs(s, e);
    if s.Obj? && IsLocalRef(s.fields) {
      InliningPreservesMeaning(e.defs[RefName(s.fields)], v, e.At(RefName(s.fields)));
    } else if s.Obj? {
      InliningPreservesNode(s.fields, v, e);
    }
  }

  lemma {:induction false} InliningPreservesNode(f: Fields, v: Json, e: Env)
    requires !IsLocalRef(f) && e.Covers(Obj(f)) && Shaped(Obj(f)) && ShapedDefs(e)
    ensures var g := InlineFields(f, e);
      && !IsLocalRef(g) && NO_DEFS.Covers(Obj(g))
      && (Accepts(Obj(g), v, NO_DEFS) <==> Accepts(Obj(f), v, e))
    decreases e.bound, Obj(f), 1
  {
    InliningPreservesLeaves(f, v, e);
    InliningPreservesAnyOf(f, v, e);
    InliningPreservesItems(f, v, e);
    InliningPreservesObjects(f, v, e);
  }

  lemma InliningPreservesLeaves(f: Fields, v: Json, e: Env)
    requires !IsLocalRef(f) && e.Covers(Obj(f)) && Shaped(Obj(f))
    ensures LeafAccepts(InlineFields(f, e), v) <==> LeafAccepts(f, v)
  {
    InlineChildren(f, e);
  }

  lemma {:induction false} InliningPreservesAnyOf(f: Fields, v: Json, e: Env)
    requires !IsLocalRef(f) && e.Covers(Obj(f)) && Shaped(Obj(f)) && ShapedDefs(e)
    ensures var g := InlineFields(f, e);
      && !IsLocalRef(g) && NO_DEFS.Covers(Obj(g))
      && (AnyOfAccepts(g, v, NO_DEFS) <==> AnyOfAccepts(f, v, e))
    decreases e.bound, Obj(f), 0
  {
    var g := InlineFields(f, e);
    InlineChildren(f, e);
    InlineAlternatives(f, e);
    Children(f);
    Children(g);
    forall i | 0 <= i < |Alternatives(f)|
      ensures Accepts(Alternatives(g)[i], v, NO_DEFS) <==> Accepts(Alternatives(f)[i], v, e)
    {
      InliningPreservesMeaning(Alternatives(f)[i], v, e);
    }
  }

  lemma {:induction false} InliningPreservesItems(f: Fields, v: Json, e: Env)
    requires !IsLocalRef(f) && e.Covers(Obj(f)) && Shaped(Obj(f)) && ShapedDefs(e)
    ensures var g := InlineFields(f, e);
      && !IsLocalRef(g) && NO_DEFS.Covers(Obj(g))
      && (ItemsAccept(g, v, NO_DEFS) <==> ItemsAccept(f, v, e))
    decreases e.bound, Obj(f), 0
  {
    var g := InlineFields(f, e);
    InlineChildren(f, e);
    Children(g);
    if "items" in f && v.Arr? {
      forall i | 0 <= i < |v.items|
        ensures Accepts(g["items"], v.items[i], NO_DEFS) <==> Accepts(f["items"], v.items[i], e)
      {
        InliningPreservesMeaning(f["items"], v.items[i], e);
      }
    }
  }

  lemma {:induction false} InliningPreservesObjects(f: Fields, v: Json, e: Env)
    requires !IsLocalRef(f) && e.Covers(Obj(f)) && Shaped(Obj(f)) && ShapedDefs(e)
    ensures var g := InlineFields(f, e);
      && !IsLocalRef(g) && NO_DEFS.Covers(Obj(g))
      && (ObjectAccepts(g, v, NO_DEFS) <==> ObjectAccepts(f, v, e))
    decreases e.bound, Obj(f), 0
  {
    var g := InlineFields(f, e);
    InlineChildren(f, e);
    InlineTable(f, e);
    Children(f);
    Children(g);
    if v.Obj? {
      forall p | p in PropertyTable(f) && p in v.fields
        ensures Accepts(PropertyTable(g)[p], v.fields[p], NO_DEFS)
           <==> Accepts(PropertyTable(f)[p], v.fields[p], e)
      {
        InliningPreservesMeaning(PropertyTable(f)[p], v.fields[p], e);
      }
      if "additionalProperties" in f {
        forall p | p in v.fields
          ensures Accepts(g["additionalProperties"], v.fields[p], NO_DEFS)
             <==> Accepts(f["additionalProperties"], v.fields[p], e)
        {
          InliningPreservesMeaning(f["additionalProperties"], v.fields[p], e);
        }
      }
    }
  }
}
