/** What the two dialects accept, against the original schema:
    strict is contained in the original, and the original in Gemini. */
module DialectSandwich {
  import opened SchemaDialects
  import opened SchemaInlining
  import opened SchemaTermination

  // ---------------------------------------------------------------- the walk

  lemma RewriteKeepsRefFree(d: Dialect, h: Fields)
    requires !IsLocalRef(h) && forall k | k in h :: RefFree(h[k])
    ensures !IsLocalRef(Rewrite(d, h)) && RefFree(Obj(Rewrite(d, h)))
  {
    var g := Rewrite(d, h);
    assert "$ref" in g ==> "$ref" in h && g["$ref"] == h["$ref"];
    if d.OpenAiStrict? {
      if "properties" in h && h["properties"].Obj? {
        RefFreeList(KeyList(h["properties"].fields.Keys));
      }
    }
    RefFreeNode(g);
  }

  lemma WalkKeepsPlain(d: Dialect, f: Fields)
    requires !IsLocalRef(f)
    ensures !IsLocalRef(WalkFields(d, f))
  {
    if "$ref" in f {
      assert Walk(d, f["$ref"]).Str? ==> Walk(d, f["$ref"]) == f["$ref"];
    }
  }

  lemma {:induction false} WalkKeepsRefFree(d: Dialect, node: Json)
    requires RefFree(node)
    ensures RefFree(Walk(d, node))
  {
    match node
    case Arr(items) =>
      RefFreeList(items);
      forall i | 0 <= i < |items| ensures RefFree(Walk(d, items[i])) {
        WalkKeepsRefFree(d, items[i]);
      }
      RefFreeList(Walk(d, node).items);
    case Obj(f) =>
      RefFreeNode(f);
      forall k | k in f ensures RefFree(WalkFields(d, f)[k]) {
        WalkKeepsRefFree(d, f[k]);
      }
      WalkKeepsPlain(d, f);
      RewriteKeepsRefFree(d, WalkFields(d, f));
    case _ =>
  }

  lemma WalkKeepsScalars(d: Dialect, x: Json)
    requires Scalars(x)
    ensures Walk(d, x) == x
  {
    if x.Arr? {
      assert Walk(d, x).items == x.items;
    }
  }

  predicate Kept(k: string) {
    k == "type" || k == "enum" || k == "anyOf" || k == "items" || k == "properties"
  }

  lemma DropKeeps(h: Fields, other: string, k: string)
    requires Kept(k) && !Kept(other)
    ensures k in Drop(h, {other}) <==> k in h
    ensures k in h ==> Drop(h, {other})[k] == h[k]
  {
  }

  lemma RewriteKeepsKeyword(d: Dialect, h: Fields, k: string)
    requires Kept(k)
    ensures k in Rewrite(d, h) <==> k in h
    ensures k in h ==> Rewrite(d, h)[k] == h[k]
  {
    DropKeeps(h, "additionalProperties", k);
    DropKeeps(h, "default", k);
  }

  lemma RewriteKeepsKeywords(d: Dialect, h: Fields)
    ensures forall k | Kept(k) :: k in Rewrite(d, h) <==> k in h
    ensures forall k | Kept(k) && k in h :: Rewrite(d, h)[k] == h[k]
  {
    forall k | Kept(k)
      ensures k in Rewrite(d, h) <==> k in h
      ensures k in h ==> Rewrite(d, h)[k] == h[k]
    {
      RewriteKeepsKeyword(d, h, k);
    }
  }

  /** The keywords both dialects keep, on a shaped node without references. */
  lemma WalkChildren(d: Dialect, f: Fields)
    requires RefFree(Obj(f))
    ensures var g := Rewrite(d, WalkFields(d, f));
      && !IsLocalRef(f) && NO_DEFS.Covers(Obj(f))
      && !IsLocalRef(g) && NO_DEFS.Covers(Obj(g))
      && (forall k | Kept(k) :: k in g <==> k in f)
      && (forall k | Kept(k) && k in f :: g[k] == Walk(d, f[k]))
  {
    RefFreeNode(f);
    WalkKeepsRefFree(d, Obj(f));
    RefFreeNode(Rewrite(d, WalkFields(d, f)));
    RewriteKeepsKeywords(d, WalkFields(d, f));
  }

  lemma WalkKeepsLeaves(d: Dialect, f: Fields, v: Json)
    requires KeywordsShaped(f)
    ensures LeafAccepts(Rewrite(d, WalkFields(d, f)), v) <==> LeafAccepts(f, v)
  {
    RewriteKeepsKeywords(d, WalkFields(d, f));
    assert Kept("type") && Kept("enum");
    if "type" in f { WalkKeepsScalars(d, f["type"]); }
    if "enum" in f { WalkKeepsScalars(d, f["enum"]); }
  }

  lemma WalkKeepsRequired(d: Dialect, f: Fields)
    requires KeywordsShaped(f) && (d.OpenAiStrict? ==> "properties" !in f)
    ensures RequiredNames(Rewrite(d, WalkFields(d, f))) == RequiredNames(f)
  {
    if "required" in f { WalkKeepsScalars(d, f["required"]); }
  }

  lemma WalkAlternatives(d: Dialect, f: Fields)
    ensures var g := Rewrite(d, WalkFields(d, f));
      && |Alternatives(g)| == |Alternatives(f)|
      && ("anyOf" in g && g["anyOf"].Arr? <==> "anyOf" in f && f["anyOf"].Arr?)
      && forall i | 0 <= i < |Alternatives(f)| :: Alternatives(g)[i] == Walk(d, Alternatives(f)[i])
  {
    RewriteKeepsKeywords(d, WalkFields(d, f));
    assert Kept("anyOf");
  }

  /** How a dialect's verdict relates to the original one. */
  ghost predicate Bounds(d: Dialect, original: bool, walked: bool) {
    match d
    case Gemini => original ==> walked
    case OpenAiStrict => walked ==> original
  }

  ghost predicate Fit(d: Dialect, s: Json) {
    RefFree(s) && Shaped(s) && (d.OpenAiStrict? ==> RequiresDeclared(s))
  }

  /** A node whose sub-schemas fit, whatever it requires itself. */
  ghost predicate PartsFit(d: Dialect, f: Fields) {
    RefFree(Obj(f)) && Shaped(Obj(f)) && (d.OpenAiStrict? ==> RequiresDeclared(Obj(f - {"required"})))
  }

  lemma PartsOf(d: Dialect, f: Fields)
    requires PartsFit(d, f)
    ensures !IsLocalRef(f)
    ensures forall i | 0 <= i < |Alternatives(f)| :: Fit(d, Alternatives(f)[i])
    ensures "items" in f ==> Fit(d, f["items"])
    ensures d.OpenAiStrict? && RequiredSurvive(f) ==> RequiresDeclared(Obj(f))
  {
    var g := f - {"required"};
    RefFreeNode(f);
    Children(f);
    if d.OpenAiStrict? {
      assert PropertyTable(g) == PropertyTable(f) && Alternatives(g) == Alternatives(f);
    }
  }

  lemma FitParts(d: Dialect, f: Fields)
    requires Fit(d, Obj(f))
    ensures PartsFit(d, f)
  {
    var g := f - {"required"};
    RefFreeNode(f);
    if d.OpenAiStrict? {
      assert PropertyTable(g) == PropertyTable(f) && Alternatives(g) == Alternatives(f);
    }
  }

  /** On reference-free schemas: what the strict form accepts, the original accepts;
      what the original accepts, the Gemini form accepts. */
  lemma {:induction false} WalkBounds(d: Dialect, s: Json, v: Json)
    requires Fit(d, s)
    ensures NO_DEFS.Covers(s) && NO_DEFS.Covers(Walk(d, s))
    ensures Bounds(d, Accepts(s, v, NO_DEFS), Accepts(Walk(d, s), v, NO_DEFS))
    decreases s, 2
  {
    WalkKeepsRefFree(d, s);
    if s.Obj? {
      WalkChildren(d, s.fields);
      WalkKeepsLeaves(d, s.fields, v);
      FitParts(d, s.fields);
      WalkBoundsAnyOf(d, s.fields, v);
      WalkBoundsItems(d, s.fields, v);
      if d.Gemini? {
        GeminiBoundsObjects(s.fields, v);
      } else {
        StrictBoundsObjects(s.fields, v);
      }
    }
  }

  lemma {:induction false} WalkBoundsAnyOf(d: Dialect, f: Fields, v: Json)
    requires PartsFit(d, f)
    ensures var g := Rewrite(d, WalkFields(d, f));
      && !IsLocalRef(f) && NO_DEFS.Covers(Obj(f)) && !IsLocalRef(g) && NO_DEFS.Covers(Obj(g))
      && Bounds(d, AnyOfAccepts(f, v, NO_DEFS), AnyOfAccepts(g, v, NO_DEFS))
    decreases Obj(f), 0
  {
    var g := Rewrite(d, WalkFields(d, f));
    WalkChildren(d, f);
    WalkAlternatives(d, f);
    PartsOf(d, f);
    Children(f);
    Children(g);
    if "anyOf" in f {
      forall i | 0 <= i < |Alternatives(f)|
        ensures Bounds(d, Accepts(Alternatives(f)[i], v, NO_DEFS), Accepts(Alternatives(g)[i], v, NO_DEFS))
      {
        WalkBounds(d, Alternatives(f)[i], v);
      }
    }
  }

  lemma {:induction false} WalkBoundsItems(d: Dialect, f: Fields, v: Json)
    requires PartsFit(d, f)
    ensures var g := Rewrite(d, WalkFields(d, f));
      && !IsLocalRef(f) && NO_DEFS.Covers(Obj(f)) && !IsLocalRef(g) && NO_DEFS.Covers(Obj(g))
      && Bounds(d, ItemsAccept(f, v, NO_DEFS), ItemsAccept(g, v, NO_DEFS))
    decreases Obj(f), 0
  {
    var g := Rewrite(d, WalkFields(d, f));
    WalkChildren(d, f);
    PartsOf(d, f);
    Children(f);
    Children(g);
    assert Kept("items");
    if "items" in f && v.Arr? {
      forall i | 0 <= i < |v.items|
        ensures Bounds(d, Accepts(f["items"], v.items[i], NO_DEFS), Accepts(g["items"], v.items[i], NO_DEFS))
      {
        WalkBounds(d, f["items"], v.items[i]);
      }
    }
  }

  /** The Gemini table: walked entries of the original one. */
  lemma GeminiTable(f: Fields)
    requires RefFree(Obj(f)) && KeywordsShaped(f)
    ensures var g := Rewrite(Gemini, WalkFields(Gemini, f));
      forall p | p in PropertyTable(g) ::
        p in PropertyTable(f) && PropertyTable(g)[p] == Walk(Gemini, PropertyTable(f)[p])
  {
    var g := Rewrite(Gemini, WalkFields(Gemini, f));
    WalkChildren(Gemini, f);
    RefFreeNode(f);
    assert Kept("properties");
    if "properties" in f {
      RefFreeNode(f["properties"].fields);
      assert g["properties"].fields == Drop(WalkFields(Gemini, PropertyTable(f)), {"additionalProperties"});
    }
  }

  lemma {:induction false} GeminiBoundsObjects(f: Fields, v: Json)
    requires Fit(Gemini, Obj(f))
    ensures var g := Rewrite(Gemini, WalkFields(Gemini, f));
      && !IsLocalRef(f) && NO_DEFS.Covers(Obj(f)) && !IsLocalRef(g) && NO_DEFS.Covers(Obj(g))
      && (ObjectAccepts(f, v, NO_DEFS) ==> ObjectAccepts(g, v, NO_DEFS))
    decreases Obj(f), 0
  {
    var g := Rewrite(Gemini, WalkFields(Gemini, f));
    WalkChildren(Gemini, f);
    WalkKeepsRequired(Gemini, f);
    GeminiTable(f);
    Children(f);
    Children(g);
    if v.Obj? && ObjectAccepts(f, v, NO_DEFS) {
      forall p | p in PropertyTable(g) && p in v.fields
        ensures Accepts(PropertyTable(g)[p], v.fields[p], NO_DEFS)
      {
        WalkBounds(Gemini, PropertyTable(f)[p], v.fields[p]);
      }
    }
  }

  /** A property table after the strict rewriting: every surviving name is still there,
      and the table is the walked one unless it was itself mistaken for an object node,
      in which case it holds a schema no value satisfies. */
  lemma StrictTable(t: Fields)
    ensures var w := Rewrite(OpenAiStrict, WalkFields(OpenAiStrict, t));
      && (forall p | p in t && Survives(p) :: p in w)
      && ((forall p | p in w :: p in t && w[p] == Walk(OpenAiStrict, t[p]))
          || ("additionalProperties" in w && w["additionalProperties"] == Bool(false)))
  {
    var h := Drop(WalkFields(OpenAiStrict, t), {"default"});
    assert forall p | p in h :: p in t && h[p] == Walk(OpenAiStrict, t[p]);
  }

  /** What `strictify` writes on a node with properties. */
  lemma StrictifyWrites(h: Fields)
    requires "properties" in h && h["properties"].Obj?
    ensures var g := Strictify(h);
      && "properties" in g && g["properties"] == h["properties"]
      && "additionalProperties" in g && g["additionalProperties"] == Bool(false)
      && RequiredNames(g) == KeyList(h["properties"].fields.Keys)
  {
  }

  lemma StrictKeywords(f: Fields)
    requires RefFree(Obj(f)) && KeywordsShaped(f) && "properties" in f
    ensures var g := Rewrite(OpenAiStrict, WalkFields(OpenAiStrict, f));
      var w := Rewrite(OpenAiStrict, WalkFields(OpenAiStrict, f["properties"].fields));
      && PropertyTable(g) == w
      && "additionalProperties" in g && g["additionalProperties"] == Bool(false)
      && RequiredNames(g) == KeyList(w.Keys)
  {
    var h := Drop(WalkFields(OpenAiStrict, f), {"default"});
    assert h["properties"] == Walk(OpenAiStrict, f["properties"]);
    StrictifyWrites(h);
    StrictTableIsPlain(f);
  }

  /** The rewritten table is no reference. */
  lemma StrictTableIsPlain(f: Fields)
    requires RefFree(Obj(f)) && KeywordsShaped(f) && "properties" in f
    ensures !IsLocalRef(Rewrite(OpenAiStrict, WalkFields(OpenAiStrict, f["properties"].fields)))
  {
    RefFreeNode(f);
    WalkKeepsRefFree(OpenAiStrict, f["properties"]);
    RefFreeNode(Rewrite(OpenAiStrict, WalkFields(OpenAiStrict, f["properties"].fields)));
  }

  /** The strict form of an object node with properties: its values carry exactly the
      names of the rewritten table. */
  lemma StrictObjectKeys(g: Fields, v: Json)
    requires !IsLocalRef(g) && NO_DEFS.Covers(Obj(g)) && v.Obj?
    requires "additionalProperties" in g && g["additionalProperties"] == Bool(false)
    requires RequiredNames(g) == KeyList(PropertyTable(g).Keys)
    requires ObjectAccepts(g, v, NO_DEFS)
    ensures v.fields.Keys == PropertyTable(g).Keys
  {
    forall p | p in PropertyTable(g) ensures p in v.fields {
      assert Str(p) in RequiredNames(g);
    }
    forall p | p in v.fields ensures p in PropertyTable(g) {
      Children(g);
      assert p !in PropertyTable(g) ==> Accepts(g["additionalProperties"], v.fields[p], NO_DEFS);
    }
  }

  lemma {:induction false} StrictBoundsObjects(f: Fields, v: Json)
    requires Fit(OpenAiStrict, Obj(f))
    ensures var g := Rewrite(OpenAiStrict, WalkFields(OpenAiStrict, f));
      && !IsLocalRef(f) && NO_DEFS.Covers(Obj(f)) && !IsLocalRef(g) && NO_DEFS.Covers(Obj(g))
      && (ObjectAccepts(g, v, NO_DEFS) ==> ObjectAccepts(f, v, NO_DEFS))
    decreases Obj(f), 1
  {
    WalkChildren(OpenAiStrict, f);
    var g := Rewrite(OpenAiStrict, WalkFields(OpenAiStrict, f));
    if v.Obj? && ObjectAccepts(g, v, NO_DEFS) {
      if "properties" in f {
        StrictBoundsClosedObjects(f, v);
      } else {
        StrictBoundsOpenObjects(f, v);
      }
    }
  }

  /** An object the strict form of a node with properties accepts: it meets the original's
      required names, and each of its fields is declared and passes the walked schema. */
  lemma StrictClosedFields(f: Fields, v: Json)
    requires Fit(OpenAiStrict, Obj(f)) && v.Obj? && "properties" in f
    requires var g := Rewrite(OpenAiStrict, WalkFields(OpenAiStrict, f));
      !IsLocalRef(g) && NO_DEFS.Covers(Obj(g)) && ObjectAccepts(g, v, NO_DEFS)
    ensures HasRequired(f, v.fields)
    ensures forall p | p in v.fields ::
      && p in PropertyTable(f) && NO_DEFS.Covers(Walk(OpenAiStrict, PropertyTable(f)[p]))
      && Accepts(Walk(OpenAiStrict, PropertyTable(f)[p]), v.fields[p], NO_DEFS)
  {
    var g := Rewrite(OpenAiStrict, WalkFields(OpenAiStrict, f));
    StrictKeywords(f);
    StrictObjectKeys(g, v);
    StrictTable(PropertyTable(f));
    Children(g);
    assert "additionalProperties" !in PropertyTable(g)
        || Accepts(PropertyTable(g)["additionalProperties"], v.fields["additionalProperties"], NO_DEFS);
    forall p | p in v.fields ensures Accepts(PropertyTable(g)[p], v.fields[p], NO_DEFS) {
    }
  }

  lemma {:induction false} StrictBoundsClosedObjects(f: Fields, v: Json)
    requires Fit(OpenAiStrict, Obj(f)) && v.Obj? && "properties" in f
    requires var g := Rewrite(OpenAiStrict, WalkFields(OpenAiStrict, f));
      !IsLocalRef(g) && NO_DEFS.Covers(Obj(g)) && ObjectAccepts(g, v, NO_DEFS)
    ensures !IsLocalRef(f) && NO_DEFS.Covers(Obj(f)) && ObjectAccepts(f, v, NO_DEFS)
    decreases Obj(f), 0
  {
    var t := PropertyTable(f);
    RefFreeNode(f);
    StrictClosedFields(f, v);
    Children(f);
    forall p | p in v.fields ensures Accepts(t[p], v.fields[p], NO_DEFS) {
      WalkBounds(OpenAiStrict, t[p], v.fields[p]);
    }
  }

  lemma {:induction false} StrictBoundsOpenObjects(f: Fields, v: Json)
    requires Fit(OpenAiStrict, Obj(f)) && v.Obj? && "properties" !in f
    requires var g := Rewrite(OpenAiStrict, WalkFields(OpenAiStrict, f));
      !IsLocalRef(g) && NO_DEFS.Covers(Obj(g)) && ObjectAccepts(g, v, NO_DEFS)
    ensures !IsLocalRef(f) && NO_DEFS.Covers(Obj(f)) && ObjectAccepts(f, v, NO_DEFS)
    decreases Obj(f), 0
  {
    var g := Rewrite(OpenAiStrict, WalkFields(OpenAiStrict, f));
    RefFreeNode(f);
    WalkKeepsRequired(OpenAiStrict, f);
    Children(f);
    Children(g);
    if "additionalProperties" in f {
      assert g["additionalProperties"] == Walk(OpenAiStrict, f["additionalProperties"]);
      forall p | p in v.fields ensures Accepts(f["additionalProperties"], v.fields[p], NO_DEFS) {
        WalkBounds(OpenAiStrict, f["additionalProperties"], v.fields[p]);
      }
    }
  }

  // ------------------------------------------------------------ main results

  ghost predicate ShapedSchema(schema: Json, e: Env) {
    Closed(schema, e) && Shaped(schema) && ShapedDefs(e)
  }

  /** Every value of the schema is accepted by its Gemini form. */
  lemma OriginalWithinGemini(schema: Json, e: Env, v: Json)
    requires ShapedSchema(schema, e)
    ensures NO_DEFS.Covers(Compile(Gemini, schema, e))
    ensures Accepts(schema, v, e) ==> Accepts(Compile(Gemini, schema, e), v, NO_DEFS)
  {
    InliningPreservesMeaning(schema, v, e);
    InlineKeepsShape(schema, e);
    WalkBounds(Gemini, InlineRefs(schema, e), v);
  }

  /** Every value of the strict form is accepted by the schema. */
  lemma StrictWithinOriginal(schema: Json, e: Env, v: Json)
    requires ShapedSchema(schema, e) && RequiresDeclared(schema) && DeclaredDefs(e)
    ensures NO_DEFS.Covers(Compile(OpenAiStrict, schema, e))
    ensures Accepts(Compile(OpenAiStrict, schema, e), v, NO_DEFS) ==> Accepts(schema, v, e)
  {
    InliningPreservesMeaning(schema, v, e);
    InlineKeepsShape(schema, e);
    InlineKeepsDeclared(schema, e);
    WalkBounds(OpenAiStrict, InlineRefs(schema, e), v);
  }

  /** Both at once, for every schema of this shape that can be compiled: some ranking exists, and whichever is
      taken, strict lies within the original and the original within Gemini. */
  lemma Sandwich(schema: Json, e: Env, v: Json)
    requires Resolves(schema) && Shaped(schema) && RequiresDeclared(schema)
    requires forall n | n in DefsOf(schema) :: Shaped(DefsOf(schema)[n]) && RequiresDeclared(DefsOf(schema)[n])
    ensures exists ranked :: Closed(schema, ranked)
    ensures Closed(schema, e) ==>
      && NO_DEFS.Covers(Compile(OpenAiStrict, schema, e)) && NO_DEFS.Covers(Compile(Gemini, schema, e))
      && (Accepts(Compile(OpenAiStrict, schema, e), v, NO_DEFS) ==> Accepts(schema, v, e))
      && (Accepts(schema, v, e) ==> Accepts(Compile(Gemini, schema, e), v, NO_DEFS))
  {
    CompilesIffResolves(schema);
    if Closed(schema, e) {
      StrictWithinOriginal(schema, e, v);
      OriginalWithinGemini(schema, e, v);
    }
  }

  /** The condition is the exact one: at an object node with properties whose sub-schemas
      meet it, the strict form stays within the original just when every required name
      survives (or when the strict form accepts no object at all). */
  lemma StrictNodeExact(f: Fields)
    requires PartsFit(OpenAiStrict, f) && "properties" in f
    ensures NO_DEFS.Covers(Obj(f)) && NO_DEFS.Covers(Walk(OpenAiStrict, Obj(f)))
    ensures (forall v: Json | Accepts(Walk(OpenAiStrict, Obj(f)), v, NO_DEFS) :: Accepts(Obj(f), v, NO_DEFS))
       <==> RequiredSurvive(f) || forall v: Json | v.Obj? :: !Accepts(Walk(OpenAiStrict, Obj(f)), v, NO_DEFS)
  {
    WalkKeepsRefFree(OpenAiStrict, Obj(f));
    PartsOf(OpenAiStrict, f);
    forall v: Json | Accepts(Walk(OpenAiStrict, Obj(f)), v, NO_DEFS)
      ensures v.Obj? && Accepts(Obj(f), v, NO_DEFS) ==> RequiredSurvive(f)
      ensures RequiredSurvive(f) || !v.Obj? ==> Accepts(Obj(f), v, NO_DEFS)
    {
      if RequiredSurvive(f) {
        WalkBounds(OpenAiStrict, Obj(f), v);
      } else if v.Obj? {
        StrictMissesRequired(f, v);
      } else {
        StrictBoundsOthers(f, v);
      }
    }
  }

  /** For values that are no objects the names do not matter. */
  lemma StrictBoundsOthers(f: Fields, v: Json)
    requires PartsFit(OpenAiStrict, f) && !v.Obj?
    ensures NO_DEFS.Covers(Obj(f)) && NO_DEFS.Covers(Walk(OpenAiStrict, Obj(f)))
    ensures Accepts(Walk(OpenAiStrict, Obj(f)), v, NO_DEFS) ==> Accepts(Obj(f), v, NO_DEFS)
  {
    WalkKeepsRefFree(OpenAiStrict, Obj(f));
    WalkChildren(OpenAiStrict, f);
    WalkKeepsLeaves(OpenAiStrict, f, v);
    WalkBoundsAnyOf(OpenAiStrict, f, v);
    WalkBoundsItems(OpenAiStrict, f, v);
  }

  /** An object the strict form accepts has only surviving, declared names. */
  lemma StrictValueNames(f: Fields, v: Json)
    requires RefFree(Obj(f)) && KeywordsShaped(f) && "properties" in f && v.Obj?
    requires var g := Rewrite(OpenAiStrict, WalkFields(OpenAiStrict, f));
      !IsLocalRef(g) && NO_DEFS.Covers(Obj(g)) && ObjectAccepts(g, v, NO_DEFS)
    ensures forall p | p in v.fields :: p in PropertyTable(f) && Survives(p)
  {
    var g := Rewrite(OpenAiStrict, WalkFields(OpenAiStrict, f));
    RefFreeNode(f);
    RefFreeNode(f["properties"].fields);
    StrictKeywords(f);
    StrictObjectKeys(g, v);
    StrictTable(PropertyTable(f));
    StrictTableSurvives(PropertyTable(f));
    Children(g);
    assert "additionalProperties" !in PropertyTable(g)
        || Accepts(PropertyTable(g)["additionalProperties"], v.fields["additionalProperties"], NO_DEFS);
  }

  lemma StrictTableSurvives(t: Fields)
    ensures forall p | p in Rewrite(OpenAiStrict, WalkFields(OpenAiStrict, t)) :: Survives(p)
  {
  }

  lemma StrictMissesRequired(f: Fields, v: Json)
    requires RefFree(Obj(f)) && Shaped(Obj(f)) && "properties" in f && v.Obj?
    requires NO_DEFS.Covers(Walk(OpenAiStrict, Obj(f))) && Accepts(Walk(OpenAiStrict, Obj(f)), v, NO_DEFS)
    requires !RequiredSurvive(f)
    ensures NO_DEFS.Covers(Obj(f)) && !Accepts(Obj(f), v, NO_DEFS)
  {
    RefFreeNode(f);
    WalkChildren(OpenAiStrict, f);
    StrictValueNames(f, v);
    assert !HasRequired(f, v.fields);
  }

  /** A property named `default` is a concrete witness: the strict form of
      {properties: {default: {}}, required: [default]} accepts the empty object. */
  lemma PropertyNamedDefaultEscapes()
    ensures var s := DefaultProperty();
      && RefFree(s) && Shaped(s) && NO_DEFS.Covers(s) && NO_DEFS.Covers(Walk(OpenAiStrict, s))
      && Accepts(Walk(OpenAiStrict, s), Obj(map[]), NO_DEFS)
      && !Accepts(s, Obj(map[]), NO_DEFS)
  {
    DefaultPropertyShape();
    DefaultTableVanishes();
    EmptiedTableEscapes(DefaultProperty().fields);
  }

  lemma EmptiedTableEscapes(f: Fields)
    requires RefFree(Obj(f)) && Shaped(Obj(f)) && "properties" in f && !RequiredSurvive(f)
    requires "type" !in f && "enum" !in f && "anyOf" !in f
    requires Rewrite(OpenAiStrict, WalkFields(OpenAiStrict, f["properties"].fields)).Keys == {}
    ensures NO_DEFS.Covers(Obj(f)) && NO_DEFS.Covers(Walk(OpenAiStrict, Obj(f)))
    ensures Accepts(Walk(OpenAiStrict, Obj(f)), Obj(map[]), NO_DEFS)
    ensures !Accepts(Obj(f), Obj(map[]), NO_DEFS)
  {
    RefFreeNode(f);
    StrictKeywords(f);
    WalkChildren(OpenAiStrict, f);
    assert Kept("anyOf") && Kept("type") && Kept("enum");
    AcceptsEmptyObject(Rewrite(OpenAiStrict, WalkFields(OpenAiStrict, f)));
    StrictMissesRequired(f, Obj(map[]));
  }

  lemma AcceptsEmptyObject(g: Fields)
    requires !IsLocalRef(g) && NO_DEFS.Covers(Obj(g))
    requires "type" !in g && "enum" !in g && "anyOf" !in g && RequiredNames(g) == []
    ensures Accepts(Obj(g), Obj(map[]), NO_DEFS)
  {
    Children(g);
    assert LeafAccepts(g, Obj(map[])) && AnyOfAccepts(g, Obj(map[]), NO_DEFS);
    assert ItemsAccept(g, Obj(map[]), NO_DEFS) && ObjectAccepts(g, Obj(map[]), NO_DEFS);
  }

  lemma DefaultTableVanishes()
    ensures Rewrite(OpenAiStrict, WalkFields(OpenAiStrict, map["default" := Obj(map[])])).Keys == {}
  {
    var h := WalkFields(OpenAiStrict, map["default" := Obj(map[])]);
    assert Drop(h, {"default"}) == map[];
  }

  const DEFAULT_TABLE: Fields := map["default" := Obj(map[])]

  function DefaultProperty(): Json {
    Obj(map["properties" := Obj(DEFAULT_TABLE), "required" := Arr([Str("default")])])
  }

  lemma EmptySchema()
    ensures RefFree(Obj(map[])) && Shaped(Obj(map[]))
  {
    RefFreeNode(map[]);
    Children(map[]);
  }

  lemma DefaultTablePlain()
    ensures !IsLocalRef(DEFAULT_TABLE) && RefFree(Obj(DEFAULT_TABLE))
  {
    EmptySchema();
    RefFreeNode(DEFAULT_TABLE);
  }

  lemma DefaultPropertyRefFree()
    ensures RefFree(DefaultProperty()) && !RequiredSurvive(DefaultProperty().fields)
  {
    var f := DefaultProperty().fields;
    DefaultTablePlain();
    RefFreeList(f["required"].items);
    RefFreeNode(f);
    assert RequiredNames(f)[0] == Str("default");
  }

  lemma DefaultPropertyShape()
    ensures RefFree(DefaultProperty()) && Shaped(DefaultProperty()) && !RequiredSurvive(DefaultProperty().fields)
  {
    var f := DefaultProperty().fields;
    DefaultPropertyRefFree();
    DefaultTablePlain();
    EmptySchema();
    assert PropertyTable(f) == DEFAULT_TABLE && Alternatives(f) == [];
    assert KeywordsShaped(f);
  }
}
