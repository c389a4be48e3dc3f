/** What the denotation of schemas says, keyword by keyword (JSON Schema draft-07, validation,
    sections 6.1, 6.4, 6.5 and 6.7). */
module SchemaMeaning {
  import opened SchemaDialects

  /** The seven type names; an integer is a number without a fraction. */
  predicate IsOfType(t: string, v: Json) {
    match v
    case Null => t == "null"
    case Bool(_) => t == "boolean"
    case Num(n) => t == "number" || (t == "integer" && n.Floor as real == n)
    case Str(_) => t == "string"
    case Arr(_) => t == "array"
    case Obj(_) => t == "object"
  }

  /** `type`, a name or a list of names, and `enum`. */
  lemma TypeAndEnumMean(f: Fields, v: Json)
    requires LeafAccepts(f, v)
    ensures "type" in f && f["type"].Str? ==> IsOfType(f["type"].s, v)
    ensures "type" in f && f["type"].Arr? ==>
      exists i | 0 <= i < |f["type"].items| :: f["type"].items[i].Str? && IsOfType(f["type"].items[i].s, v)
    ensures "enum" in f && f["enum"].Arr? ==> v in f["enum"].items
  {
    if "type" in f && f["type"].Arr? {
      var i :| 0 <= i < |f["type"].items| && f["type"].items[i].Str? && HasType(f["type"].items[i].s, v);
      assert IsOfType(f["type"].items[i].s, v);
    }
  }

  /** Nothing else is asked of a value by these two. */
  lemma TypeAndEnumSuffice(f: Fields, v: Json)
    requires "type" in f && f["type"].Str? ==> IsOfType(f["type"].s, v)
    requires "type" in f && f["type"].Arr? ==>
      exists i | 0 <= i < |f["type"].items| :: f["type"].items[i].Str? && IsOfType(f["type"].items[i].s, v)
    requires "enum" in f && f["enum"].Arr? ==> v in f["enum"].items
    ensures LeafAccepts(f, v)
  {
    if "type" in f && f["type"].Arr? {
      var i :| 0 <= i < |f["type"].items| && f["type"].items[i].Str? && IsOfType(f["type"].items[i].s, v);
      assert HasType(f["type"].items[i].s, v);
    }
  }

  /** `anyOf`: one of its schemas accepts the value. */
  lemma AnyOfMeans(f: Fields, v: Json, e: Env)
    requires !IsLocalRef(f) && e.Covers(Obj(f)) && "anyOf" in f && f["anyOf"].Arr?
    ensures forall i | 0 <= i < |f["anyOf"].items| :: e.Covers(f["anyOf"].items[i])
    ensures AnyOfAccepts(f, v, e) <==>
      exists i | 0 <= i < |f["anyOf"].items| :: e.Covers(f["anyOf"].items[i]) && Accepts(f["anyOf"].items[i], v, e)
  {
    Children(f);
    assert Alternatives(f) == f["anyOf"].items;
  }

  /** `items`: every element of a list is accepted. */
  lemma ItemsMean(f: Fields, v: Json, e: Env)
    requires !IsLocalRef(f) && e.Covers(Obj(f)) && "items" in f
    ensures e.Covers(f["items"])
    ensures ItemsAccept(f, v, e) <==> (v.Arr? ==> forall i | 0 <= i < |v.items| :: Accepts(f["items"], v.items[i], e))
  {
    Children(f);
  }

  /** `properties`, `additionalProperties` and `required`, of an object. */
  lemma ObjectMeans(f: Fields, v: Fields, e: Env, p: string)
    requires !IsLocalRef(f) && e.Covers(Obj(f)) && ObjectAccepts(f, Obj(v), e)
    ensures "required" in f && f["required"].Arr? && Str(p) in f["required"].items ==> p in v
    ensures p in v && p in PropertyTable(f) ==> e.Covers(PropertyTable(f)[p]) && Accepts(PropertyTable(f)[p], v[p], e)
    ensures p in v && p !in PropertyTable(f) && "additionalProperties" in f ==>
      e.Covers(f["additionalProperties"]) && Accepts(f["additionalProperties"], v[p], e)
  {
    Children(f);
    if "required" in f && f["required"].Arr? && Str(p) in f["required"].items {
      var j :| 0 <= j < |RequiredNames(f)| && RequiredNames(f)[j] == Str(p);
    }
  }

  /** Nothing else is asked of an object by these three. */
  lemma ObjectSuffices(f: Fields, v: Fields, e: Env)
    requires !IsLocalRef(f) && e.Covers(Obj(f))
    requires "required" in f && f["required"].Arr? ==> forall p | Str(p) in f["required"].items :: p in v
    requires forall p | p in v && p in PropertyTable(f) ::
      e.Covers(PropertyTable(f)[p]) && Accepts(PropertyTable(f)[p], v[p], e)
    requires "additionalProperties" in f ==> forall p | p in v && p !in PropertyTable(f) ::
      e.Covers(f["additionalProperties"]) && Accepts(f["additionalProperties"], v[p], e)
    ensures ObjectAccepts(f, Obj(v), e)
  {
    Children(f);
    forall j | 0 <= j < |RequiredNames(f)| && RequiredNames(f)[j].Str? ensures RequiredNames(f)[j].s in v {
      assert Str(RequiredNames(f)[j].s) in f["required"].items;
    }
  }

  /** Other values pass the keywords that are not about them. */
  lemma OthersPass(f: Fields, v: Json, e: Env)
    requires !IsLocalRef(f) && e.Covers(Obj(f))
    ensures !v.Obj? ==> ObjectAccepts(f, v, e)
    ensures !v.Arr? || "items" !in f ==> ItemsAccept(f, v, e)
    ensures "anyOf" !in f ==> AnyOfAccepts(f, v, e)
    ensures "required" !in f && "properties" !in f && "additionalProperties" !in f ==> ObjectAccepts(f, v, e)
  {
  }

  /** A node without a reference accepts what all its keywords accept; `true` accepts
      everything and `false` nothing. */
  lemma AllKeywordsDecide(f: Fields, v: Json, e: Env)
    requires !IsLocalRef(f) && e.Covers(Obj(f))
    ensures Accepts(Obj(f), v, e) <==>
      LeafAccepts(f, v) && AnyOfAccepts(f, v, e) && ItemsAccept(f, v, e) && ObjectAccepts(f, v, e)
    ensures e.Covers(Bool(true)) && e.Covers(Bool(false)) && Accepts(Bool(true), v, e) && !Accepts(Bool(false), v, e)
  {
  }

  /** The schemas that the containment results cover: booleans, references, scalar types, and
      lists, alternatives and objects of such schemas. */
  lemma EverydayShapes(b: bool, name: string, t: string, s: Json, xs: seq<Json>, table: Fields, names: seq<string>)
    requires Shaped(s) && (forall i | 0 <= i < |xs| :: Shaped(xs[i]))
    requires !IsLocalRef(table) && forall p | p in table :: Shaped(table[p])
    ensures Shaped(Bool(b)) && Shaped(Obj(map["$ref" := Str("#/$defs/" + name)])) && Shaped(Obj(map["type" := Str(t)]))
    ensures Shaped(Obj(map["items" := s])) && Shaped(Obj(map["anyOf" := Arr(xs)]))
    ensures Shaped(Obj(map["properties" := Obj(table),
                           "required" := Arr(seq(|names|, i requires 0 <= i < |names| => Str(names[i])))]))
  {
    assert IsLocalRef(map["$ref" := Str("#/$defs/" + name)]);
    assert Alternatives(map["anyOf" := Arr(xs)]) == xs;
    ObjectShape(table, names);
  }

  lemma ObjectShape(table: Fields, names: seq<string>)
    requires !IsLocalRef(table) && forall p | p in table :: Shaped(table[p])
    ensures Shaped(Obj(map["properties" := Obj(table),
                           "required" := Arr(seq(|names|, i requires 0 <= i < |names| => Str(names[i])))]))
  {
    var f := map["properties" := Obj(table), "required" := Arr(seq(|names|, i requires 0 <= i < |names| => Str(names[i])))];
    assert f["properties"] == Obj(table) && !IsLocalRef(f) && PropertyTable(f) == table && Alternatives(f) == [];
    assert Scalars(f["required"]);
  }
}
