/** The form each dialect promises for every object node, and idempotence. */
module DialectForms {
  import opened SchemaDialects
  import opened SchemaInlining
  import opened DialectSandwich

  // -------------------------------------------------- what each dialect promises

  ghost predicate NodeInForm(d: Dialect, f: Fields) {
    match d
    case Gemini => "$defs" !in f && "additionalProperties" !in f
    case OpenAiStrict =>
      && "$defs" !in f && "default" !in f
      && ("properties" in f && f["properties"].Obj? ==>
            && "additionalProperties" in f && f["additionalProperties"] == Bool(false)
            && "required" in f && f["required"] == Arr(KeyList(f["properties"].fields.Keys)))
  }

  /** Every object node, at any depth, meets the dialect's demands. */
  ghost predicate InForm(d: Dialect, node: Json) {
    match node
    case Arr(items) => forall i | 0 <= i < |items| :: InForm(d, items[i])
    case Obj(f) => NodeInForm(d, f) && forall k | k in f :: InForm(d, f[k])
    case _ => true
  }

  lemma RewriteGivesForm(d: Dialect, h: Fields)
    ensures NodeInForm(d, Rewrite(d, h))
  {
  }

  /** What a rewriting adds to a node has no nodes of its own. */
  lemma RewriteAddsLeaves(d: Dialect, h: Fields, k: string)
    requires k in Rewrite(d, h) && (k in h ==> Rewrite(d, h)[k] != h[k])
    ensures InForm(d, Rewrite(d, h)[k])
  {
  }

  lemma {:induction false} WalkReachesForm(d: Dialect, node: Json)
    ensures InForm(d, Walk(d, node))
  {
    match node
    case Arr(items) =>
      forall i | 0 <= i < |items| ensures InForm(d, Walk(d, items[i])) {
        WalkReachesForm(d, items[i]);
      }
    case Obj(f) =>
      var h := WalkFields(d, f);
      var g := Rewrite(d, h);
      RewriteGivesForm(d, h);
      forall k | k in g ensures InForm(d, g[k]) {
        if k in f && g[k] == h[k] {
          WalkReachesForm(d, f[k]);
        } else {
          RewriteAddsLeaves(d, h, k);
        }
      }
    case _ =>
  }

  /** What becomes of one object node: every other key is kept, with its value walked. */
  lemma GeminiNode(f: Fields)
    ensures Walk(Gemini, Obj(f)).Obj?
    ensures var g := Walk(Gemini, Obj(f)).fields;
      && g.Keys == f.Keys - {"$defs", "additionalProperties"}
      && forall k | k in g :: g[k] == Walk(Gemini, f[k])
  {
  }

  lemma StrictNode(f: Fields)
    ensures Walk(OpenAiStrict, Obj(f)).Obj?
    ensures var g := Walk(OpenAiStrict, Obj(f)).fields;
      var added := if "properties" in f && f["properties"].Obj? then {"additionalProperties", "required"} else {};
      && g.Keys == f.Keys - {"$defs", "default"} + added
      && (forall k | k in g && k !in added :: g[k] == Walk(OpenAiStrict, f[k]))
      && (added != {} ==> g["additionalProperties"] == Bool(false) && g["properties"].Obj?
                          && g["required"] == Arr(KeyList(g["properties"].fields.Keys)))
  {
    var h := Drop(WalkFields(OpenAiStrict, f), {"default"});
    assert h.Keys == f.Keys - {"$defs", "default"};
    assert forall k | k in h :: h[k] == Walk(OpenAiStrict, f[k]);
    assert "properties" in h <==> "properties" in f;
    StrictifiedNode(h);
  }

  lemma StrictifiedNode(g: Fields)
    ensures var h := Strictify(g);
      var added := if "properties" in g && g["properties"].Obj? then {"additionalProperties", "required"} else {};
      && h.Keys == g.Keys + added && (forall k | k in g && k !in added :: h[k] == g[k])
      && (added != {} ==> h["additionalProperties"] == Bool(false)
                          && h["required"] == Arr(KeyList(g["properties"].fields.Keys)))
  {
  }

  /** Lists are walked element by element, and anything else is left alone. */
  lemma WalkedLeaf(d: Dialect, node: Json)
    requires !node.Obj?
    ensures node.Arr? ==> Walk(d, node) == Arr(seq(|node.items|, i requires 0 <= i < |node.items| => Walk(d, node.items[i])))
    ensures !node.Arr? ==> Walk(d, node) == node
  {
  }

  lemma RewriteFixesForm(d: Dialect, f: Fields)
    requires NodeInForm(d, f)
    ensures Rewrite(d, f) == f
  {
    if d.OpenAiStrict? {
      assert Drop(f, {"default"}) == f;
      assert Strictify(f) == f;
    }
  }

  lemma {:induction false} WalkFixesForm(d: Dialect, node: Json)
    requires InForm(d, node)
    ensures Walk(d, node) == node
  {
    match node
    case Arr(items) =>
      forall i | 0 <= i < |items| ensures Walk(d, items[i]) == items[i] {
        WalkFixesForm(d, items[i]);
      }
      assert Walk(d, node).items == items;
    case Obj(f) =>
      forall k | k in f ensures Walk(d, f[k]) == f[k] {
        WalkFixesForm(d, f[k]);
      }
      assert WalkFields(d, f) == f;
      RewriteFixesForm(d, f);
    case _ =>
  }

  lemma {:induction false} InlineFixesRefFree(node: Json)
    requires RefFree(node)
    ensures NO_DEFS.Covers(node) && InlineRefs(node, NO_DEFS) == node
  {
    match node
    case Arr(items) =>
      RefFreeList(items);
      forall i | 0 <= i < |items| ensures InlineRefs(items[i], NO_DEFS) == items[i] {
        InlineFixesRefFree(items[i]);
      }
      assert InlineRefs(node, NO_DEFS).items == items;
    case Obj(f) =>
      RefFreeNode(f);
      forall k | k in f ensures InlineRefs(f[k], NO_DEFS) == f[k] {
        InlineFixesRefFree(f[k]);
      }
      assert InlineFields(f, NO_DEFS) == f;
    case _ =>
  }

  /** For every closed schema of any shape: the result has no local reference and is in
      the dialect's form throughout. */
  lemma CompileReachesForm(d: Dialect, schema: Json, e: Env)
    requires Closed(schema, e)
    ensures RefFree(Compile(d, schema, e))
    ensures InForm(d, Compile(d, schema, e))
  {
    InlineRemovesRefs(schema, e);
    WalkKeepsRefFree(d, InlineRefs(schema, e));
    WalkReachesForm(d, InlineRefs(schema, e));
  }

  /** Compiling a compiled schema changes nothing. */
  lemma CompileIdempotent(d: Dialect, schema: Json, e: Env)
    requires Closed(schema, e)
    ensures Closed(Compile(d, schema, e), NO_DEFS)
    ensures Compile(d, Compile(d, schema, e), NO_DEFS) == Compile(d, schema, e)
  {
    CompileReachesForm(d, schema, e);
    InlineGivesObjects(schema, e);
    InlineFixesRefFree(Compile(d, schema, e));
    WalkFixesForm(d, Compile(d, schema, e));
  }
}
