/** The schema-dialect compiler: local `$ref`s are inlined, then every object node is
    rewritten into the Gemini or the strict OpenAI dialect. */
module SchemaDialects {

  datatype Json =
    | Null
    | Bool(b: bool)
    | Num(n: real)
    | Str(s: string)
    | Arr(items: seq<Json>)
    | Obj(fields: map<string, Json>)

  type Fields = map<string, Json>

  datatype Dialect = Gemini | OpenAiStrict

  // ------------------------------------------------------------ references

  const REF_PREFIX := "#/$defs/"

  predicate IsLocalRef(f: Fields) {
    "$ref" in f && f["$ref"].Str? && REF_PREFIX <= f["$ref"].s
  }

  /** `ref.rsplit("/", 1)[-1]` */
  function LastSegment(s: string): (r: string)
    ensures '/' !in r
    ensures '/' !in s ==> r == s
  {
    if '/' in s then LastSegment(s[1..]) else s
  }

  function RefName(f: Fields): string
    requires IsLocalRef(f)
  {
    LastSegment(f["$ref"].s)
  }

  /** The definitions a node needs: a reference stands for itself and hides its siblings. */
  ghost function Mentions(node: Json): set<string> {
    match node
    case Arr(items) => set i, x | 0 <= i < |items| && x in Mentions(items[i]) :: x
    case Obj(f) =>
      if IsLocalRef(f) then {RefName(f)}
      else set k, x | k in f && x in Mentions(f[k]) :: x
    case _ => {}
  }

  ghost predicate RefFree(node: Json) {
    Mentions(node) == {}
  }

  /** A definition table, a rank for each definition in use, and a bound on those ranks. */
  datatype Env = Env(defs: Fields, rank: map<string, nat>, bound: nat) {
    ghost predicate Below(names: set<string>, limit: nat) {
      forall x | x in names :: x in rank && rank[x] < limit
    }

    /** Each definition in use is an object and only refers to definitions of lower rank. */
    ghost predicate Ranked() {
      && rank.Keys <= defs.Keys
      && forall x | x in rank :: defs[x].Obj? && Below(Mentions(defs[x]), rank[x])
    }

    ghost predicate Covers(node: Json) {
      Ranked() && Below(Mentions(node), bound)
    }

    function At(name: string): Env
      requires name in rank
    {
      Env(defs, rank, rank[name])
    }
  }

  const NO_DEFS := Env(map[], map[], 0)

  // ----------------------------------------------------------- the compiler

  ghost function InlineRefs(node: Json, e: Env): Json
    requires e.Covers(node)
    decreases e.bound, node, 1
  {
    match node
    case Arr(items) => Arr(seq(|items|, i requires 0 <= i < |items| => InlineRefs(items[i], e)))
    case Obj(f) =>
      if IsLocalRef(f) then InlineRefs(e.defs[RefName(f)], e.At(RefName(f)))
      else Obj(InlineFields(f, e))
    case _ => node
  }

  ghost function InlineFields(f: Fields, e: Env): Fields
    requires !IsLocalRef(f) && e.Covers(Obj(f))
    decreases e.bound, Obj(f), 0
  {
    map k | k in f :: InlineRefs(f[k], e)
  }

  function Drop(f: Fields, keys: set<string>): Fields {
    f - (keys + {"$defs"})
  }

  /** `list(props)`: the keys of a dict, each once (their order is not modelled). */
  ghost function KeyList(keys: set<string>): (r: seq<Json>)
    ensures forall j | 0 <= j < |r| :: r[j].Str? && r[j].s in keys
    ensures forall k | k in keys :: Str(k) in r
    ensures |r| == |keys|
  {
    if keys == {} then []
    else
      var k :| k in keys;
      [Str(k)] + KeyList(keys - {k})
  }

  /** The function each dialect hands to the walk. */
  ghost function Rewrite(d: Dialect, f: Fields): Fields {
    match d
    case Gemini => Drop(f, {"additionalProperties"})
    case OpenAiStrict => Strictify(Drop(f, {"default"}))
  }

  ghost function Strictify(g: Fields): Fields {
    if "properties" in g && g["properties"].Obj? then
      g["additionalProperties" := Bool(false)]
       ["required" := Arr(KeyList(g["properties"].fields.Keys))]
    else g
  }

  /** `_walk`: apply the rewriting to every object node, deepest first. */
  ghost function Walk(d: Dialect, node: Json): Json
    decreases node, 1
  {
    match node
    case Arr(items) => Arr(seq(|items|, i requires 0 <= i < |items| => Walk(d, items[i])))
    case Obj(f) => Obj(Rewrite(d, WalkFields(d, f)))
    case _ => node
  }

  ghost function WalkFields(d: Dialect, f: Fields): Fields
    decreases Obj(f), 0
  {
    map k | k in f :: Walk(d, f[k])
  }

  function DefsOf(schema: Json): Fields {
    if schema.Obj? && "$defs" in schema.fields && schema.fields["$defs"].Obj?
    then schema.fields["$defs"].fields else map[]
  }

  /** The definitions that the schema needs are ranked. */
  ghost predicate Closed(schema: Json, e: Env) {
    schema.Obj? && e.defs == DefsOf(schema) && e.Covers(schema)
  }

  /** `gemini_response_schema` and `openai_compatible_schema`. */
  ghost function Compile(d: Dialect, schema: Json, e: Env): Json
    requires Closed(schema, e)
  {
    Walk(d, InlineRefs(schema, e))
  }

  // ------------------------------------------------- which values a schema accepts

  ghost predicate HasType(t: string, v: Json) {
    || (t == "null" && v.Null?)
    || (t == "boolean" && v.Bool?)
    || (t == "number" && v.Num?)
    || (t == "integer" && v.Num? && v.n == v.n.Floor as real)
    || (t == "string" && v.Str?)
    || (t == "array" && v.Arr?)
    || (t == "object" && v.Obj?)
  }

  ghost predicate TypeAllows(t: Json, v: Json) {
    match t
    case Str(s) => HasType(s, v)
    case Arr(ts) => exists i | 0 <= i < |ts| :: ts[i].Str? && HasType(ts[i].s, v)
    case _ => true
  }

  function PropertyTable(f: Fields): Fields {
    if "properties" in f && f["properties"].Obj? && !IsLocalRef(f["properties"].fields)
    then f["properties"].fields else map[]
  }

  function Alternatives(f: Fields): seq<Json> {
    if "anyOf" in f && f["anyOf"].Arr? then f["anyOf"].items else []
  }

  function RequiredNames(f: Fields): seq<Json> {
    if "required" in f && f["required"].Arr? then f["required"].items else []
  }

  ghost predicate HasRequired(f: Fields, v: Fields) {
    forall j | 0 <= j < |RequiredNames(f)| ::
      RequiredNames(f)[j].Str? ==> RequiredNames(f)[j].s in v
  }

  /** The sub-schemas of a node lie below it and mention no more than it does. */
  lemma Children(f: Fields)
    requires !IsLocalRef(f)
    ensures forall k | k in f :: Mentions(f[k]) <= Mentions(Obj(f))
    ensures forall i | 0 <= i < |Alternatives(f)| ::
              Alternatives(f)[i] < Obj(f) && Mentions(Alternatives(f)[i]) <= Mentions(Obj(f))
    ensures forall p | p in PropertyTable(f) ::
              PropertyTable(f)[p] < Obj(f) && Mentions(PropertyTable(f)[p]) <= Mentions(Obj(f))
  {
    if Alternatives(f) != [] {
      assert f["anyOf"] < Obj(f);
      assert forall i | 0 <= i < |Alternatives(f)| :: Mentions(Alternatives(f)[i]) <= Mentions(f["anyOf"]);
    }
    if PropertyTable(f) != map[] {
      assert f["properties"] < Obj(f);
      assert forall p | p in PropertyTable(f) :: Mentions(PropertyTable(f)[p]) <= Mentions(f["properties"]);
    }
  }

  /** Draft-07 reading of type, enum, anyOf, items, properties, required,
      additionalProperties and `$ref`; a `$ref` overrides its siblings and any other
      keyword is an annotation. */
  ghost predicate Accepts(s: Json, v: Json, e: Env)
    requires e.Covers(s)
    decreases e.bound, s, 1
  {
    match s
    case Bool(b) => b
    case Obj(f) =>
      if IsLocalRef(f) then Accepts(e.defs[RefName(f)], v, e.At(RefName(f)))
      else
        && LeafAccepts(f, v)
        && AnyOfAccepts(f, v, e)
        && ItemsAccept(f, v, e)
        && ObjectAccepts(f, v, e)
    case _ => true
  }

  ghost predicate LeafAccepts(f: Fields, v: Json) {
    && ("type" in f ==> TypeAllows(f["type"], v))
    && ("enum" in f && f["enum"].Arr? ==> v in f["enum"].items)
  }

  ghost predicate AnyOfAccepts(f: Fields, v: Json, e: Env)
    requires !IsLocalRef(f) && e.Covers(Obj(f))
    decreases e.bound, Obj(f), 0
  {
    Children(f);
    "anyOf" in f && f["anyOf"].Arr? ==>
      exists i | 0 <= i < |Alternatives(f)| :: Accepts(Alternatives(f)[i], v, e)
  }

  ghost predicate ItemsAccept(f: Fields, v: Json, e: Env)
    requires !IsLocalRef(f) && e.Covers(Obj(f))
    decreases e.bound, Obj(f), 0
  {
    Children(f);
    v.Arr? && "items" in f ==>
      forall i | 0 <= i < |v.items| :: Accepts(f["items"], v.items[i], e)
  }

  ghost predicate ObjectAccepts(f: Fields, v: Json, e: Env)
    requires !IsLocalRef(f) && e.Covers(Obj(f))
    decreases e.bound, Obj(f), 0
  {
    Children(f);
    v.Obj? ==>
      && HasRequired(f, v.fields)
      && (forall p | p in PropertyTable(f) && p in v.fields ::
            Accepts(PropertyTable(f)[p], v.fields[p], e))
      && ("additionalProperties" in f ==>
            forall p | p in v.fields && p !in PropertyTable(f) ::
              Accepts(f["additionalProperties"], v.fields[p], e))
  }

  // ------------------------------------------------------------ schema shapes

  predicate Scalar(x: Json) {
    !x.Arr? && !x.Obj?
  }

  predicate Scalars(x: Json) {
    Scalar(x) || (x.Arr? && forall i | 0 <= i < |x.items| :: Scalar(x.items[i]))
  }

  /** Each keyword that holds no sub-schema is scalar or a list of scalars; the others
      hold an object or a list of the expected kind. */
  predicate KeywordsShaped(f: Fields) {
    && (forall k | k in {"type", "enum", "required"} && k in f :: Scalars(f[k]))
    && ("anyOf" in f ==> f["anyOf"].Arr?)
    && ("properties" in f ==> f["properties"].Obj?)
  }

  /** Every keyword of every sub-schema holds a value of its kind (as pydantic writes them). */
  ghost predicate Shaped(s: Json) {
    match s
    case Bool(_) => true
    case Obj(f) =>
      IsLocalRef(f) ||
      (Children(f);
       && KeywordsShaped(f)
       && ("properties" in f ==> !IsLocalRef(f["properties"].fields))
       && ("items" in f ==> Shaped(f["items"]))
       && ("additionalProperties" in f ==> Shaped(f["additionalProperties"]))
       && (forall i | 0 <= i < |Alternatives(f)| :: Shaped(Alternatives(f)[i]))
       && (forall p | p in PropertyTable(f) :: Shaped(PropertyTable(f)[p])))
    case _ => false
  }

  predicate Survives(name: string) {
    name != "default" && name != "$defs"
  }

  /** The node requires only declared properties that the strict rewriting keeps: it drops
      the dict keys `default` and `$defs`, and a property table is a dict like any other. */
  ghost predicate RequiredSurvive(f: Fields) {
    "properties" in f ==>
      forall j | 0 <= j < |RequiredNames(f)| :: RequiredNames(f)[j].Str? ==>
        RequiredNames(f)[j].s in PropertyTable(f) && Survives(RequiredNames(f)[j].s)
  }

  ghost predicate RequiresDeclared(s: Json) {
    match s
    case Obj(f) =>
      IsLocalRef(f) ||
      (Children(f);
       && RequiredSurvive(f)
       && ("items" in f ==> RequiresDeclared(f["items"]))
       && ("additionalProperties" in f ==> RequiresDeclared(f["additionalProperties"]))
       && (forall i | 0 <= i < |Alternatives(f)| :: RequiresDeclared(Alternatives(f)[i]))
       && (forall p | p in PropertyTable(f) :: RequiresDeclared(PropertyTable(f)[p])))
    case _ => true
  }

  ghost predicate ShapedDefs(e: Env) {
    forall n | n in e.rank && n in e.defs :: Shaped(e.defs[n])
  }

  ghost predicate DeclaredDefs(e: Env) {
    forall n | n in e.rank && n in e.defs :: RequiresDeclared(e.defs[n])
  }
}
