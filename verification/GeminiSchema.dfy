/** Translating JSON Schema to a response-schema subset (src/orchestra/providers/_gemini_schema.py). */
module GeminiSchema {
  import opened Wrappers

  datatype Json =
    | Null | Bool(b: bool) | Num(n: real) | Str(s: string) | Arr(items: seq<Json>) | Obj(fields: map<string, Json>)

  datatype SchemaError =
    | UnsupportedRef(ref: string) | DanglingRef(ref: string) | UnsupportedAnyOf
    | TupleTooShort | HeterogeneousTuple
    | PropertyError         // whatever a property's schema raised
    | TypeError | RecursionError

  const BANNED_KEYS: set<string> := {"additionalProperties", "$defs", "$ref", "title", "description", "default"}

  const REF_PREFIX := "#/$defs/"

  function Field(m: map<string, Json>, k: string): Option<Json> {
    if k in m then Some(m[k]) else None
  }

  function Strip(m: map<string, Json>): map<string, Json> {
    map k | k in m && k !in BANNED_KEYS :: m[k]
  }

  // ---- The translation ----

  /** The schema a local reference names. */
  function Resolve(ref: Json, defs: map<string, Json>): Result<Json, SchemaError> {
    if !ref.Str? then Err(TypeError)
    else if !(REF_PREFIX <= ref.s) then Err(UnsupportedRef(ref.s))
    else
      var name := ref.s[|REF_PREFIX|..];
      if name !in defs || defs[name].Null? then Err(DanglingRef(ref.s)) else Ok(defs[name])
  }

  predicate IsNullVariant(v: Json) {
    v.Obj? && Field(v.fields, "type") == Some(Str("null"))
  }

  /** The variants that are not of type null, in order. */
  function NonNull(variants: seq<Json>): seq<Json> {
    if variants == [] then []
    else (if IsNullVariant(variants[0]) then [] else [variants[0]]) + NonNull(variants[1..])
  }

  predicate AllObjects(variants: seq<Json>) {
    forall v :: v in variants ==> v.Obj?
  }

  /** The value of the key "type" of a tuple's elements; elements that are not objects are skipped. */
  function ElementTypes(prefix: seq<Json>): set<Option<Json>> {
    set p | p in prefix && p.Obj? :: Field(p.fields, "type")
  }

  /** _convert; the fuel stands for the interpreter's recursion limit. */
  function Convert(node: Json, defs: map<string, Json>, fuel: nat): Result<Json, SchemaError>
    decreases fuel, 2
  {
    if !node.Obj? then Ok(node)
    else if fuel == 0 then Err(RecursionError)
    else if "$ref" in node.fields then
      match Resolve(node.fields["$ref"], defs)
      case Err(e) => Err(e)
      case Ok(target) => Convert(target, defs, fuel - 1)
    else if "anyOf" in node.fields then ConvertOptional(node.fields, defs, fuel)
    else ConvertPlain(node.fields, defs, fuel)
  }

  /** anyOf: [X, null] becomes X, nullable; keys beside it are taken over unless X has them. */
  function ConvertOptional(m: map<string, Json>, defs: map<string, Json>, fuel: nat): Result<Json, SchemaError>
    requires "anyOf" in m && fuel > 0
    decreases fuel, 1
  {
    if !m["anyOf"].Arr? || !AllObjects(m["anyOf"].items) then Err(TypeError) else
    var variants := m["anyOf"].items;
    var nonNull := NonNull(variants);
    if |variants| != 2 || |nonNull| != 1 then Err(UnsupportedAnyOf) else
    match Convert(nonNull[0], defs, fuel - 1)
    case Err(e) => Err(e)
    case Ok(x) =>
      if !x.Obj? then Err(TypeError) else
      Ok(Obj(Strip((m - {"anyOf"}) + x.fields["nullable" := Bool(true)])))
  }

  function ConvertProperties(props: map<string, Json>, defs: map<string, Json>, fuel: nat): Result<Json, SchemaError>
    requires fuel > 0
    decreases fuel, 0
  {
    if forall p :: p in props ==> Convert(props[p], defs, fuel - 1).Ok?
    then Ok(Obj(map p | p in props :: Convert(props[p], defs, fuel - 1).value))
    else Err(PropertyError)
  }

  function ConvertPlain(m: map<string, Json>, defs: map<string, Json>, fuel: nat): Result<Json, SchemaError>
    requires fuel > 0
    decreases fuel, 1
  {
    var base := Strip(m);
    var props := if "properties" in m && m["properties"].Obj?
                 then ConvertProperties(m["properties"].fields, defs, fuel) else Ok(Null);
    if props.Err? then props else
    var items := if "items" in m then Convert(m["items"], defs, fuel - 1) else Ok(Null);
    if items.Err? then items else
    var withProps := if "properties" in m && m["properties"].Obj? then base["properties" := props.value] else base;
    var out := if "items" in m then withProps["items" := items.value] else withProps;
    if "prefixItems" in m then FlattenTuple(m["prefixItems"], out, defs, fuel) else Ok(Obj(out))
  }

  /** The values Python takes as false. */
  predicate Falsy(v: Json) {
    v == Null || v == Bool(false) || v == Num(0.0) || v == Str("") || v == Arr([]) || v == Obj(map[])
  }

  /** prefixItems: a homogeneous tuple becomes an array of its first element's schema. */
  function FlattenTuple(
    prefix: Json, out: map<string, Json>, defs: map<string, Json>, fuel: nat): Result<Json, SchemaError>
    requires fuel > 0
    decreases fuel, 0
  {
    if !prefix.Arr? then Err(TypeError)
    else if |prefix.items| < 2 then Err(TupleTooShort)
    else if |ElementTypes(prefix.items)| > 1 then Err(HeterogeneousTuple)
    else
      match Convert(prefix.items[0], defs, fuel - 1)
      case Err(e) => Err(e)
      case Ok(item) =>
        var flat := (out - {"prefixItems"})["type" := Str("array")];
        Ok(Obj(if Falsy(item) then flat else flat["items" := item]))
  }

  // ---- What the two kinds of schema accept ----

  predicate HasType(t: string, v: Json) {
    match t
    case "null" => v.Null?
    case "boolean" => v.Bool?
    case "number" => v.Num?
    case "integer" => v.Num? && v.n.Floor as real == v.n
    case "string" => v.Str?
    case "array" => v.Arr?
    case "object" => v.Obj?
    case _ => false
  }

  /** The keywords type, enum and required, which both kinds share. */
  predicate SharedKeywords(m: map<string, Json>, v: Json) {
    TypeAccepts(Field(m, "type"), v) && EnumAccepts(Field(m, "enum"), v) && RequiredAccepts(Field(m, "required"), v)
  }

  predicate TypeAccepts(t: Option<Json>, v: Json) {
    t.Some? && t.value.Str? ==> HasType(t.value.s, v)
  }

  predicate EnumAccepts(values: Option<Json>, v: Json) {
    values.Some? && values.value.Arr? ==> v in values.value.items
  }

  predicate RequiredAccepts(names: Option<Json>, v: Json) {
    names.Some? && names.value.Arr? && v.Obj? ==>
      forall r :: r in names.value.items && r.Str? ==> r.s in v.fields
  }

  /**
   JSON Schema Draft 2020-12 (Core, sections 8.2.3.1, 10.2.1.2 and 10.3): references, anyOf, properties, items and, in
   the full meaning, additionalProperties. The fuel bounds how far references are followed.
   */
  predicate Accepts(schema: Json, defs: map<string, Json>, v: Json, fuel: nat, full: bool)
    decreases fuel, 1
  {
    match schema
    case Bool(b) => b
    case Obj(m) =>
      && fuel > 0
      && SharedKeywords(m, v)
      && ("$ref" in m ==>
            && Resolve(m["$ref"], defs).Ok?
            && Accepts(Resolve(m["$ref"], defs).value, defs, v, fuel - 1, full))
      && ("anyOf" in m && m["anyOf"].Arr? ==> AcceptsAny(m["anyOf"].items, defs, v, fuel - 1, full))
      && AcceptsProperties(m, defs, v, fuel, full)
      && AcceptsItems(m, defs, v, fuel, full)
      && (full ==> AcceptsOthers(m, defs, v, fuel))
    case _ => false
  }

  predicate AcceptsAny(variants: seq<Json>, defs: map<string, Json>, v: Json, fuel: nat, full: bool)
    decreases fuel, 2
  {
    exists x :: x in variants && Accepts(x, defs, v, fuel, full)
  }

  predicate AcceptsProperties(m: map<string, Json>, defs: map<string, Json>, v: Json, fuel: nat, full: bool)
    requires fuel > 0
    decreases fuel, 0
  {
    "properties" in m && m["properties"].Obj? && v.Obj? ==>
      forall p :: p in m["properties"].fields && p in v.fields ==>
        Accepts(m["properties"].fields[p], defs, v.fields[p], fuel - 1, full)
  }

  predicate AcceptsItems(m: map<string, Json>, defs: map<string, Json>, v: Json, fuel: nat, full: bool)
    requires fuel > 0
    decreases fuel, 0
  {
    "items" in m && v.Arr? ==> forall i :: 0 <= i < |v.items| ==> Accepts(m["items"], defs, v.items[i], fuel - 1, full)
  }

  predicate Declares(m: map<string, Json>, p: string) {
    "properties" in m && m["properties"].Obj? && p in m["properties"].fields
  }

  /** additionalProperties, a schema like any other: it applies to the values of undeclared properties. */
  predicate AcceptsOthers(m: map<string, Json>, defs: map<string, Json>, v: Json, fuel: nat)
    requires fuel > 0
    decreases fuel, 0
  {
    "additionalProperties" in m && v.Obj? ==>
      forall p :: p in v.fields && !Declares(m, p) ==>
        Accepts(m["additionalProperties"], defs, v.fields[p], fuel - 1, true)
  }

  predicate Nullable(m: map<string, Json>) {
    Field(m, "nullable") == Some(Bool(true))
  }

  /** The response-schema subset: no references, no anyOf; null is accepted under nullable. */
  predicate AcceptsSubset(schema: Json, v: Json)
    decreases v, 1
  {
    match schema
    case Bool(b) => b
    case Obj(m) =>
      || (Nullable(m) && v.Null?)
      || (SharedKeywords(m, v) && PropertiesSubset(m, v) && ItemsSubset(m, v))
    case _ => false
  }

  predicate PropertiesSubset(m: map<string, Json>, v: Json)
    decreases v, 0
  {
    "properties" in m && m["properties"].Obj? && v.Obj? ==>
      forall p :: p in m["properties"].fields && p in v.fields ==>
        AcceptsSubset(m["properties"].fields[p], v.fields[p])
  }

  predicate ItemsSubset(m: map<string, Json>, v: Json)
    decreases v, 0
  {
    "items" in m && v.Arr? ==> forall i :: 0 <= i < |v.items| ==> AcceptsSubset(m["items"], v.items[i])
  }

  // ---- The fragment ----

  const ANNOTATIONS: set<string> := {"$defs", "title", "description", "default"}
  const KEYWORDS: set<string> := {"type", "enum", "required", "properties", "items", "additionalProperties"}

  /** Following references from here leads to an object schema. */
  predicate LeadsToObject(node: Json, defs: map<string, Json>, fuel: nat)
    decreases fuel
  {
    && node.Obj?
    && fuel > 0
    && ("$ref" in node.fields ==>
          && Resolve(node.fields["$ref"], defs).Ok?
          && LeadsToObject(Resolve(node.fields["$ref"], defs).value, defs, fuel - 1))
  }

  predicate PureNull(v: Json) {
    IsNullVariant(v) && v.fields.Keys <= ANNOTATIONS + {"type"}
  }

  /** The variant of an optional that is not null. */
  function Wanted(variants: seq<Json>): Json
    requires |variants| == 2
  {
    if PureNull(variants[1]) && !IsNullVariant(variants[0]) then variants[0] else variants[1]
  }

  /** An anyOf of one pure null and one schema of the fragment. */
  predicate Optional(variants: seq<Json>, defs: map<string, Json>, fuel: nat)
    decreases fuel, 1
  {
    && |variants| == 2
    && (|| (PureNull(variants[1]) && !IsNullVariant(variants[0]))
        || (PureNull(variants[0]) && !IsNullVariant(variants[1])))
    && LeadsToObject(Wanted(variants), defs, fuel)
    && InFragment(Wanted(variants), defs, fuel)
  }

  /**
   Schemas of type, enum, properties, required, items, references and optional anyOf, with annotations;
   true within some fuel only if the references followed are not cyclic.
   */
  predicate InFragment(node: Json, defs: map<string, Json>, fuel: nat)
    decreases fuel, 0
  {
    match node
    case Bool(_) => true
    case Obj(m) =>
      && fuel > 0
      && if "$ref" in m then
           && m.Keys <= ANNOTATIONS + {"$ref"}
           && Resolve(m["$ref"], defs).Ok? && InFragment(Resolve(m["$ref"], defs).value, defs, fuel - 1)
         else if "anyOf" in m then
           m.Keys <= ANNOTATIONS + {"anyOf"} && m["anyOf"].Arr? && Optional(m["anyOf"].items, defs, fuel - 1)
         else
           PlainFragment(m, defs, fuel - 1)
    case _ => false
  }

  predicate PlainFragment(m: map<string, Json>, defs: map<string, Json>, fuel: nat)
    decreases fuel, 1
  {
    && m.Keys <= ANNOTATIONS + KEYWORDS
    && ("properties" in m ==>
          && m["properties"].Obj?
          && forall p :: p in m["properties"].fields ==> InFragment(m["properties"].fields[p], defs, fuel))
    && ("items" in m ==> InFragment(m["items"], defs, fuel))
  }

  // ---- The translation preserves meaning ----

  /** Nothing at the top of a translated schema is left for a second translation to resolve. */
  predicate Settled(m: map<string, Json>) {
    m.Keys !! BANNED_KEYS + {"anyOf", "prefixItems"}
  }

  /** The parts of an object schema that are translated in turn can be. */
  predicate PartsConvert(m: map<string, Json>, defs: map<string, Json>, fuel: nat)
    requires fuel > 0
  {
    && ("properties" in m ==>
          && m["properties"].Obj?
          && forall p :: p in m["properties"].fields ==> Convert(m["properties"].fields[p], defs, fuel - 1).Ok?)
    && ("items" in m ==> Convert(m["items"], defs, fuel - 1).Ok?)
  }

  /** out is m without the banned keys, its parts translated and the rest as it was. */
  predicate Rewritten(m: map<string, Json>, out: map<string, Json>, defs: map<string, Json>, fuel: nat)
    requires fuel > 0 && PartsConvert(m, defs, fuel)
  {
    && out.Keys == m.Keys - BANNED_KEYS
    && (forall k :: k in out && k !in {"properties", "items"} ==> out[k] == m[k])
    && ("properties" in m ==>
          && out["properties"].Obj?
          && out["properties"].fields.Keys == m["properties"].fields.Keys
          && forall p :: p in m["properties"].fields ==>
               out["properties"].fields[p] == Convert(m["properties"].fields[p], defs, fuel - 1).value)
    && ("items" in m ==> out["items"] == Convert(m["items"], defs, fuel - 1).value)
  }

  lemma PlainRewrites(m: map<string, Json>, defs: map<string, Json>, fuel: nat)
    requires fuel > 0 && PartsConvert(m, defs, fuel) && "prefixItems" !in m
    ensures ConvertPlain(m, defs, fuel).Ok? && ConvertPlain(m, defs, fuel).value.Obj?
    ensures Rewritten(m, ConvertPlain(m, defs, fuel).value.fields, defs, fuel)
  {
    if "properties" in m {
      assert ConvertProperties(m["properties"].fields, defs, fuel).Ok?;
    }
  }

  /** The translation of an optional: the wanted variant's, and null besides. */
  lemma OptionalRewrites(m: map<string, Json>, defs: map<string, Json>, fuel: nat)
    requires fuel > 0 && "anyOf" in m && m.Keys <= ANNOTATIONS + {"anyOf"}
    requires m["anyOf"].Arr? && Optional(m["anyOf"].items, defs, fuel - 1)
    requires var x := Convert(Wanted(m["anyOf"].items), defs, fuel - 1);
             x.Ok? && x.value.Obj? && Settled(x.value.fields)
    ensures ConvertOptional(m, defs, fuel) ==
            Ok(Obj(Convert(Wanted(m["anyOf"].items), defs, fuel - 1).value.fields["nullable" := Bool(true)]))
  {
    OneWanted(m["anyOf"].items, defs, fuel - 1);
    var x := Convert(Wanted(m["anyOf"].items), defs, fuel - 1).value.fields["nullable" := Bool(true)];
    assert Strip((m - {"anyOf"}) + x) == x;
  }

  lemma {:induction false} Converts(node: Json, defs: map<string, Json>, fuel: nat)
    requires InFragment(node, defs, fuel)
    ensures Convert(node, defs, fuel).Ok?
    ensures LeadsToObject(node, defs, fuel) ==> Convert(node, defs, fuel).value.Obj?
    ensures Convert(node, defs, fuel).value.Obj? ==> Settled(Convert(node, defs, fuel).value.fields)
    decreases fuel, 1
  {
    if node.Obj? {
      var m := node.fields;
      if "$ref" in m {
        Converts(Resolve(m["$ref"], defs).value, defs, fuel - 1);
      } else if "anyOf" in m {
        Converts(Wanted(m["anyOf"].items), defs, fuel - 1);
        OptionalRewrites(m, defs, fuel);
      } else {
        PartsOfFragment(m, defs, fuel);
        PlainRewrites(m, defs, fuel);
      }
    }
  }

  lemma {:induction false} PartsOfFragment(m: map<string, Json>, defs: map<string, Json>, fuel: nat)
    requires fuel > 0 && PlainFragment(m, defs, fuel - 1)
    ensures PartsConvert(m, defs, fuel)
    decreases fuel, 0
  {
    if "properties" in m {
      forall p | p in m["properties"].fields
        ensures Convert(m["properties"].fields[p], defs, fuel - 1).Ok?
      {
        Converts(m["properties"].fields[p], defs, fuel - 1);
      }
    }
    if "items" in m {
      Converts(m["items"], defs, fuel - 1);
    }
  }

  lemma OneWanted(variants: seq<Json>, defs: map<string, Json>, fuel: nat)
    requires Optional(variants, defs, fuel)
    ensures AllObjects(variants) && NonNull(variants) == [Wanted(variants)]
  {
    assert NonNull(variants[1..]) ==
           (if IsNullVariant(variants[1]) then [] else [variants[1]]) + NonNull(variants[1..][1..]);
  }

  /** A value is accepted by the translated schema exactly when it is accepted by the source. */
  lemma {:induction false} TranslationPreservesMeaning(node: Json, defs: map<string, Json>, v: Json, fuel: nat)
    requires InFragment(node, defs, fuel)
    ensures Convert(node, defs, fuel).Ok?
    ensures AcceptsSubset(Convert(node, defs, fuel).value, v) <==> Accepts(node, defs, v, fuel, false)
    decreases fuel, 2
  {
    Converts(node, defs, fuel);
    if node.Obj? {
      var m := node.fields;
      if "$ref" in m {
        TranslationPreservesMeaning(Resolve(m["$ref"], defs).value, defs, v, fuel - 1);
        ReferenceAlone(m, defs, v, fuel);
      } else if "anyOf" in m {
        OptionalPreserves(m, defs, v, fuel);
      } else {
        PartsOfFragment(m, defs, fuel);
        PlainRewrites(m, defs, fuel);
        PlainPreserves(m, Convert(node, defs, fuel).value.fields, defs, v, fuel);
      }
    }
  }

  lemma {:induction false} OptionalPreserves(m: map<string, Json>, defs: map<string, Json>, v: Json, fuel: nat)
    requires fuel > 0 && m.Keys <= ANNOTATIONS + {"anyOf"} && "anyOf" in m && m["anyOf"].Arr?
    requires Optional(m["anyOf"].items, defs, fuel - 1)
    ensures ConvertOptional(m, defs, fuel).Ok?
    ensures AcceptsSubset(ConvertOptional(m, defs, fuel).value, v) <==> Accepts(Obj(m), defs, v, fuel, false)
    decreases fuel, 1
  {
    var x := Wanted(m["anyOf"].items);
    Converts(x, defs, fuel - 1);
    OptionalRewrites(m, defs, fuel);
    TranslationPreservesMeaning(x, defs, v, fuel - 1);
    NullableAddsNull(Convert(x, defs, fuel - 1).value.fields, v);
    OptionalAccepts(m, defs, v, fuel);
  }

  lemma NullableAddsNull(m: map<string, Json>, v: Json)
    ensures AcceptsSubset(Obj(m["nullable" := Bool(true)]), v) <==> v.Null? || AcceptsSubset(Obj(m), v)
  {
    var n := m["nullable" := Bool(true)];
    assert SharedKeywords(n, v) == SharedKeywords(m, v);
    assert PropertiesSubset(n, v) == PropertiesSubset(m, v);
    assert ItemsSubset(n, v) == ItemsSubset(m, v);
  }

  lemma PureNullAcceptsNull(schema: Json, defs: map<string, Json>, v: Json, fuel: nat)
    requires PureNull(schema) && fuel > 0
    ensures Accepts(schema, defs, v, fuel, false) <==> v.Null?
  {
  }

  lemma OptionalAccepts(m: map<string, Json>, defs: map<string, Json>, v: Json, fuel: nat)
    requires fuel > 0 && m.Keys <= ANNOTATIONS + {"anyOf"} && "anyOf" in m && m["anyOf"].Arr?
    requires Optional(m["anyOf"].items, defs, fuel - 1)
    ensures Accepts(Obj(m), defs, v, fuel, false) <==>
            v.Null? || Accepts(Wanted(m["anyOf"].items), defs, v, fuel - 1, false)
  {
    var variants := m["anyOf"].items;
    var other := if Wanted(variants) == variants[0] then variants[1] else variants[0];
    PureNullAcceptsNull(other, defs, v, fuel - 1);
    assert forall x :: x in variants <==> x == Wanted(variants) || x == other;
    AnyOfAlone(m, defs, v, fuel);
  }

  lemma AnyOfAlone(m: map<string, Json>, defs: map<string, Json>, v: Json, fuel: nat)
    requires fuel > 0 && m.Keys <= ANNOTATIONS + {"anyOf"} && "anyOf" in m && m["anyOf"].Arr?
    ensures Accepts(Obj(m), defs, v, fuel, false) <==> AcceptsAny(m["anyOf"].items, defs, v, fuel - 1, false)
  {
    assert "$ref" !in m && "properties" !in m && "items" !in m;
    assert SharedKeywords(m, v) && AcceptsProperties(m, defs, v, fuel, false) && AcceptsItems(m, defs, v, fuel, false);
  }

  lemma {:induction false} PlainPreserves(
    m: map<string, Json>, out: map<string, Json>, defs: map<string, Json>, v: Json, fuel: nat)
    requires fuel > 0 && PlainFragment(m, defs, fuel - 1)
    requires PartsConvert(m, defs, fuel) && Rewritten(m, out, defs, fuel)
    ensures AcceptsSubset(Obj(out), v) <==> Accepts(Obj(m), defs, v, fuel, false)
    decreases fuel, 1
  {
    PropertiesPreserve(m, out, defs, v, fuel);
    ItemsPreserve(m, out, defs, v, fuel);
    SharedPreserved(m, out, defs, v, fuel);
    PlainSubset(out, v);
    PlainAccepts(m, defs, v, fuel);
  }

  lemma PlainSubset(out: map<string, Json>, v: Json)
    requires "nullable" !in out
    ensures AcceptsSubset(Obj(out), v) <==> SharedKeywords(out, v) && PropertiesSubset(out, v) && ItemsSubset(out, v)
  {
  }

  lemma PlainAccepts(m: map<string, Json>, defs: map<string, Json>, v: Json, fuel: nat)
    requires fuel > 0 && "$ref" !in m && "anyOf" !in m
    ensures Accepts(Obj(m), defs, v, fuel, false) <==>
            SharedKeywords(m, v) && AcceptsProperties(m, defs, v, fuel, false) && AcceptsItems(m, defs, v, fuel, false)
  {
  }

  lemma ReferenceAlone(m: map<string, Json>, defs: map<string, Json>, v: Json, fuel: nat)
    requires fuel > 0 && "$ref" in m && m.Keys <= ANNOTATIONS + {"$ref"} && Resolve(m["$ref"], defs).Ok?
    ensures Accepts(Obj(m), defs, v, fuel, false) <==>
            Accepts(Resolve(m["$ref"], defs).value, defs, v, fuel - 1, false)
  {
    assert "anyOf" !in m && "properties" !in m && "items" !in m;
    assert SharedKeywords(m, v);
  }

  lemma SharedPreserved(m: map<string, Json>, out: map<string, Json>, defs: map<string, Json>, v: Json, fuel: nat)
    requires fuel > 0 && PartsConvert(m, defs, fuel) && Rewritten(m, out, defs, fuel)
    ensures SharedKeywords(out, v) <==> SharedKeywords(m, v)
  {
    assert forall k :: k in {"type", "enum", "required"} ==> Field(out, k) == Field(m, k);
  }

  lemma {:induction false} PropertiesPreserve(
    m: map<string, Json>, out: map<string, Json>, defs: map<string, Json>, v: Json, fuel: nat)
    requires fuel > 0 && PlainFragment(m, defs, fuel - 1)
    requires PartsConvert(m, defs, fuel) && Rewritten(m, out, defs, fuel)
    ensures PropertiesSubset(out, v) <==> AcceptsProperties(m, defs, v, fuel, false)
    decreases fuel, 0
  {
    assert "properties" in out <==> "properties" in m;
    if "properties" in m && v.Obj? {
      forall p | p in m["properties"].fields && p in v.fields
        ensures AcceptsSubset(out["properties"].fields[p], v.fields[p]) <==>
                Accepts(m["properties"].fields[p], defs, v.fields[p], fuel - 1, false)
      {
        TranslationPreservesMeaning(m["properties"].fields[p], defs, v.fields[p], fuel - 1);
      }
    }
  }

  lemma {:induction false} ItemsPreserve(
    m: map<string, Json>, out: map<string, Json>, defs: map<string, Json>, v: Json, fuel: nat)
    requires fuel > 0 && PlainFragment(m, defs, fuel - 1)
    requires PartsConvert(m, defs, fuel) && Rewritten(m, out, defs, fuel)
    ensures ItemsSubset(out, v) <==> AcceptsItems(m, defs, v, fuel, false)
    decreases fuel, 0
  {
    assert "items" in out <==> "items" in m;
    if "items" in m && v.Arr? {
      forall i | 0 <= i < |v.items|
        ensures AcceptsSubset(out["items"], v.items[i]) <==> Accepts(m["items"], defs, v.items[i], fuel - 1, false)
      {
        TranslationPreservesMeaning(m["items"], defs, v.items[i], fuel - 1);
      }
    }
  }

  /** Leaving additionalProperties out of the meaning only widens what is accepted, for every schema. */
  lemma {:induction false} FullIsNarrower(schema: Json, defs: map<string, Json>, v: Json, fuel: nat)
    requires Accepts(schema, defs, v, fuel, true)
    ensures Accepts(schema, defs, v, fuel, false)
    decreases fuel
  {
    if schema.Obj? {
      forall s: Json, w: Json {:trigger Accepts(s, defs, w, fuel - 1, false)} | Accepts(s, defs, w, fuel - 1, true)
        ensures Accepts(s, defs, w, fuel - 1, false)
      {
        FullIsNarrower(s, defs, w, fuel - 1);
      }
    }
  }

  /** What the full meaning of the source accepts, the translation does: dropping additionalProperties only widens. */
  lemma TranslationOnlyWidens(node: Json, defs: map<string, Json>, v: Json, fuel: nat)
    requires InFragment(node, defs, fuel) && Accepts(node, defs, v, fuel, true)
    ensures Convert(node, defs, fuel).Ok? && AcceptsSubset(Convert(node, defs, fuel).value, v)
  {
    FullIsNarrower(node, defs, v, fuel);
    TranslationPreservesMeaning(node, defs, v, fuel);
  }

  /** additionalProperties does not occur, or only as true, in any schema that validation reaches. */
  predicate Open(node: Json, defs: map<string, Json>, fuel: nat)
    decreases fuel
  {
    node.Obj? && fuel > 0 ==>
      var m := node.fields;
      && Field(m, "additionalProperties") in {None, Some(Bool(true))}
      && ("$ref" in m && Resolve(m["$ref"], defs).Ok? ==> Open(Resolve(m["$ref"], defs).value, defs, fuel - 1))
      && ("anyOf" in m && m["anyOf"].Arr? ==>
            forall i :: 0 <= i < |m["anyOf"].items| ==> Open(m["anyOf"].items[i], defs, fuel - 1))
      && ("properties" in m && m["properties"].Obj? ==>
            forall p :: p in m["properties"].fields ==> Open(m["properties"].fields[p], defs, fuel - 1))
      && ("items" in m ==> Open(m["items"], defs, fuel - 1))
  }

  lemma {:induction false} OpenMeansSame(schema: Json, defs: map<string, Json>, v: Json, fuel: nat)
    requires Open(schema, defs, fuel) && Accepts(schema, defs, v, fuel, false)
    ensures Accepts(schema, defs, v, fuel, true)
    decreases fuel, 0, 1
  {
    if schema.Obj? {
      var m := schema.fields;
      if "$ref" in m {
        OpenMeansSame(Resolve(m["$ref"], defs).value, defs, v, fuel - 1);
      }
      if "anyOf" in m && m["anyOf"].Arr? {
        OpenAny(m["anyOf"].items, defs, v, fuel - 1);
      }
      OpenParts(m, defs, v, fuel);
      assert AcceptsOthers(m, defs, v, fuel);
    }
  }

  lemma {:induction false} OpenAny(variants: seq<Json>, defs: map<string, Json>, v: Json, fuel: nat)
    requires AcceptsAny(variants, defs, v, fuel, false)
    requires forall i :: 0 <= i < |variants| ==> Open(variants[i], defs, fuel)
    ensures AcceptsAny(variants, defs, v, fuel, true)
    decreases fuel, 1
  {
    var x :| x in variants && Accepts(x, defs, v, fuel, false);
    OpenMeansSame(x, defs, v, fuel);
  }

  lemma {:induction false} OpenParts(m: map<string, Json>, defs: map<string, Json>, v: Json, fuel: nat)
    requires fuel > 0 && Open(Obj(m), defs, fuel)
    requires AcceptsProperties(m, defs, v, fuel, false) && AcceptsItems(m, defs, v, fuel, false)
    ensures AcceptsProperties(m, defs, v, fuel, true) && AcceptsItems(m, defs, v, fuel, true)
    decreases fuel, 0, 0
  {
    if "properties" in m && m["properties"].Obj? && v.Obj? {
      forall p | p in m["properties"].fields && p in v.fields
        ensures Accepts(m["properties"].fields[p], defs, v.fields[p], fuel - 1, true)
      {
        OpenMeansSame(m["properties"].fields[p], defs, v.fields[p], fuel - 1);
      }
    }
    if "items" in m && v.Arr? {
      forall i | 0 <= i < |v.items|
        ensures Accepts(m["items"], defs, v.items[i], fuel - 1, true)
      {
        OpenMeansSame(m["items"], defs, v.items[i], fuel - 1);
      }
    }
  }

  /** Where additionalProperties does not occur, the translation accepts exactly what the full meaning does. */
  lemma TranslationExactWhenOpen(node: Json, defs: map<string, Json>, v: Json, fuel: nat)
    requires InFragment(node, defs, fuel) && Open(node, defs, fuel)
    ensures Convert(node, defs, fuel).Ok?
    ensures AcceptsSubset(Convert(node, defs, fuel).value, v) <==> Accepts(node, defs, v, fuel, true)
  {
    TranslationPreservesMeaning(node, defs, v, fuel);
    if Accepts(node, defs, v, fuel, true) {
      FullIsNarrower(node, defs, v, fuel);
    } else if Accepts(node, defs, v, fuel, false) {
      OpenMeansSame(node, defs, v, fuel);
    }
  }

  // ---- Translating twice ----

  predicate Steady(node: Json, defs: map<string, Json>, fuel: nat, more: nat) {
    Convert(node, defs, fuel).Ok? ==> Convert(node, defs, more) == Convert(node, defs, fuel)
  }

  /** More room to recurse changes nothing once a translation succeeds. */
  lemma {:induction false} ConvertIgnoresFuel(node: Json, defs: map<string, Json>, fuel: nat, more: nat)
    requires Convert(node, defs, fuel).Ok? && fuel <= more
    ensures Convert(node, defs, more) == Convert(node, defs, fuel)
    decreases fuel
  {
    if node.Obj? {
      var m, low, high := node.fields, fuel - 1, more - 1;
      forall n: Json
        ensures Steady(n, defs, low, high)
      {
        if Convert(n, defs, low).Ok? {
          ConvertIgnoresFuel(n, defs, low, high);
        }
      }
      if "$ref" in m {
        assert Steady(Resolve(m["$ref"], defs).value, defs, low, high);
      } else if "anyOf" in m {
        assert Steady(NonNull(m["anyOf"].items)[0], defs, low, high);
      } else {
        PlainIgnoresFuel(m, defs, low, high);
      }
    }
  }

  lemma PropertiesIgnoreFuel(props: map<string, Json>, defs: map<string, Json>, low: nat, high: nat)
    requires ConvertProperties(props, defs, low + 1).Ok?
    requires forall n: Json :: Steady(n, defs, low, high)
    ensures ConvertProperties(props, defs, high + 1) == ConvertProperties(props, defs, low + 1)
  {
    forall p | p in props
      ensures Convert(props[p], defs, low).Ok? && Convert(props[p], defs, high) == Convert(props[p], defs, low)
    {
      assert Steady(props[p], defs, low, high);
    }
    assert ConvertProperties(props, defs, high + 1).value.fields ==
           ConvertProperties(props, defs, low + 1).value.fields;
  }

  lemma PlainIgnoresFuel(m: map<string, Json>, defs: map<string, Json>, low: nat, high: nat)
    requires ConvertPlain(m, defs, low + 1).Ok?
    requires forall n: Json :: Steady(n, defs, low, high)
    ensures ConvertPlain(m, defs, high + 1) == ConvertPlain(m, defs, low + 1)
  {
    if "properties" in m && m["properties"].Obj? {
      PropertiesIgnoreFuel(m["properties"].fields, defs, low, high);
    }
    if "items" in m {
      assert Steady(m["items"], defs, low, high);
    }
    if "prefixItems" in m {
      assert Steady(m["prefixItems"].items[0], defs, low, high);
    }
  }

  /** A schema whose translation leaves everything as it is. */
  predicate Fixed(m: map<string, Json>, defs: map<string, Json>, fuel: nat)
    requires fuel > 0
  {
    && m.Keys !! BANNED_KEYS + {"anyOf", "prefixItems"}
    && ("properties" in m ==>
          && m["properties"].Obj?
          && forall p :: p in m["properties"].fields ==>
               Convert(m["properties"].fields[p], defs, fuel - 1) == Ok(m["properties"].fields[p]))
    && ("items" in m ==> Convert(m["items"], defs, fuel - 1) == Ok(m["items"]))
  }

  lemma FixedIsUnchanged(m: map<string, Json>, defs: map<string, Json>, fuel: nat)
    requires fuel > 0 && Fixed(m, defs, fuel)
    ensures Convert(Obj(m), defs, fuel) == Ok(Obj(m))
  {
    PlainRewrites(m, defs, fuel);
    var out := ConvertPlain(m, defs, fuel).value.fields;
    assert out.Keys == m.Keys;
    if "properties" in m {
      assert out["properties"].fields == m["properties"].fields;
    }
    assert out == m;
  }

  predicate FixedResult(r: Json, defs: map<string, Json>, fuel: nat)
    requires fuel > 0
  {
    r.Obj? ==> Fixed(r.fields, defs, fuel)
  }

  lemma {:induction false} TranslationsAreFixed(
    node: Json, defs: map<string, Json>, later: map<string, Json>, fuel: nat)
    requires InFragment(node, defs, fuel) && fuel > 0
    ensures Convert(node, defs, fuel).Ok?
    ensures FixedResult(Convert(node, defs, fuel).value, later, fuel)
    decreases fuel, 1
  {
    if node.Obj? {
      var m := node.fields;
      if "$ref" in m {
        FixedAbove(Resolve(m["$ref"], defs).value, defs, later, fuel);
      } else if "anyOf" in m {
        Converts(Wanted(m["anyOf"].items), defs, fuel - 1);
        OptionalRewrites(m, defs, fuel);
        FixedAbove(Wanted(m["anyOf"].items), defs, later, fuel);
      } else {
        PlainIsFixed(m, defs, later, fuel);
      }
    }
  }

  lemma {:induction false} FixedAbove(node: Json, defs: map<string, Json>, later: map<string, Json>, fuel: nat)
    requires fuel > 0 && InFragment(node, defs, fuel - 1)
    ensures Convert(node, defs, fuel - 1).Ok?
    ensures FixedResult(Convert(node, defs, fuel - 1).value, later, fuel)
    decreases fuel, 0
  {
    if node.Obj? {
      TranslationsAreFixed(node, defs, later, fuel - 1);
      var r := Convert(node, defs, fuel - 1).value;
      if r.Obj? {
        FixedIgnoresFuel(r.fields, later, fuel - 1);
      }
    }
  }

  lemma FixedIgnoresFuel(m: map<string, Json>, defs: map<string, Json>, fuel: nat)
    requires fuel > 0 && Fixed(m, defs, fuel)
    ensures Fixed(m, defs, fuel + 1)
  {
    if "properties" in m {
      forall p | p in m["properties"].fields
        ensures Convert(m["properties"].fields[p], defs, fuel) == Ok(m["properties"].fields[p])
      {
        ConvertIgnoresFuel(m["properties"].fields[p], defs, fuel - 1, fuel);
      }
    }
    if "items" in m {
      ConvertIgnoresFuel(m["items"], defs, fuel - 1, fuel);
    }
  }

  lemma {:induction false} PlainIsFixed(
    m: map<string, Json>, defs: map<string, Json>, later: map<string, Json>, fuel: nat)
    requires fuel > 0 && PlainFragment(m, defs, fuel - 1)
    ensures ConvertPlain(m, defs, fuel).Ok? && ConvertPlain(m, defs, fuel).value.Obj?
    ensures Fixed(ConvertPlain(m, defs, fuel).value.fields, later, fuel)
    decreases fuel, 0
  {
    PartsOfFragment(m, defs, fuel);
    PlainRewrites(m, defs, fuel);
    PartsAgain(m, defs, later, fuel - 1);
    RewrittenIsFixed(m, ConvertPlain(m, defs, fuel).value.fields, defs, later, fuel);
  }

  lemma {:induction false} PartsAgain(
    m: map<string, Json>, defs: map<string, Json>, later: map<string, Json>, fuel: nat)
    requires PlainFragment(m, defs, fuel)
    ensures "properties" in m ==>
              forall p :: p in m["properties"].fields ==> Again(m["properties"].fields[p], defs, later, fuel)
    ensures "items" in m ==> Again(m["items"], defs, later, fuel)
    decreases fuel, 3
  {
    if "properties" in m {
      forall p | p in m["properties"].fields
        ensures Again(m["properties"].fields[p], defs, later, fuel)
      {
        TranslationIsIdempotent(m["properties"].fields[p], defs, later, fuel);
      }
    }
    if "items" in m {
      TranslationIsIdempotent(m["items"], defs, later, fuel);
    }
  }

  /** A second translation, whatever its definitions, gives what the first did. */
  predicate Again(node: Json, defs: map<string, Json>, later: map<string, Json>, fuel: nat) {
    Convert(node, defs, fuel).Ok? && Convert(Convert(node, defs, fuel).value, later, fuel) == Convert(node, defs, fuel)
  }

  lemma RewrittenIsFixed(
    m: map<string, Json>, out: map<string, Json>, defs: map<string, Json>, later: map<string, Json>, fuel: nat)
    requires fuel > 0 && m.Keys <= ANNOTATIONS + KEYWORDS
    requires PartsConvert(m, defs, fuel) && Rewritten(m, out, defs, fuel)
    requires "properties" in m ==>
               forall p :: p in m["properties"].fields ==> Again(m["properties"].fields[p], defs, later, fuel - 1)
    requires "items" in m ==> Again(m["items"], defs, later, fuel - 1)
    ensures Fixed(out, later, fuel)
  {
  }

  /** Translating twice is translating once. */
  lemma {:induction false} TranslationIsIdempotent(
    node: Json, defs: map<string, Json>, later: map<string, Json>, fuel: nat)
    requires InFragment(node, defs, fuel)
    ensures Again(node, defs, later, fuel)
    decreases fuel, 2
  {
    Converts(node, defs, fuel);
    if node.Obj? {
      TranslationsAreFixed(node, defs, later, fuel);
      if Convert(node, defs, fuel).value.Obj? {
        FixedIsUnchanged(Convert(node, defs, fuel).value.fields, later, fuel);
      }
    }
  }

  // ---- How far references are followed does not matter ----

  lemma {:induction false} FragmentIgnoresFuel(node: Json, defs: map<string, Json>, fuel: nat, more: nat)
    requires InFragment(node, defs, fuel) && fuel <= more
    ensures InFragment(node, defs, more)
    decreases fuel
  {
    if node.Obj? {
      var m := node.fields;
      if "$ref" in m {
        FragmentIgnoresFuel(Resolve(m["$ref"], defs).value, defs, fuel - 1, more - 1);
      } else if "anyOf" in m {
        FragmentIgnoresFuel(Wanted(m["anyOf"].items), defs, fuel - 1, more - 1);
        ObjectIgnoresFuel(Wanted(m["anyOf"].items), defs, fuel - 1, more - 1);
      } else {
        if "properties" in m {
          forall p | p in m["properties"].fields
            ensures InFragment(m["properties"].fields[p], defs, more - 1)
          {
            FragmentIgnoresFuel(m["properties"].fields[p], defs, fuel - 1, more - 1);
          }
        }
        if "items" in m {
          FragmentIgnoresFuel(m["items"], defs, fuel - 1, more - 1);
        }
      }
    }
  }

  lemma {:induction false} ObjectIgnoresFuel(node: Json, defs: map<string, Json>, fuel: nat, more: nat)
    requires LeadsToObject(node, defs, fuel) && fuel <= more
    ensures LeadsToObject(node, defs, more)
    decreases fuel
  {
    if "$ref" in node.fields {
      ObjectIgnoresFuel(Resolve(node.fields["$ref"], defs).value, defs, fuel - 1, more - 1);
    }
  }

  /** Once the references are acyclic within some fuel, what a schema accepts does not depend on the fuel. */
  lemma MeaningIgnoresFuel(node: Json, defs: map<string, Json>, v: Json, fuel: nat, more: nat)
    requires InFragment(node, defs, fuel) && fuel <= more
    ensures Accepts(node, defs, v, more, false) <==> Accepts(node, defs, v, fuel, false)
  {
    FragmentIgnoresFuel(node, defs, fuel, more);
    TranslationPreservesMeaning(node, defs, v, fuel);
    TranslationPreservesMeaning(node, defs, v, more);
    ConvertIgnoresFuel(node, defs, fuel, more);
  }

  // ---- Outside the fragment ----

  /** Keywords beside a reference are lost: the result accepts what the reference alone accepts. */
  lemma ReferenceDropsSiblings(m: map<string, Json>, defs: map<string, Json>, v: Json, fuel: nat)
    requires "$ref" in m && Resolve(m["$ref"], defs).Ok? && fuel > 0
    requires InFragment(Resolve(m["$ref"], defs).value, defs, fuel - 1)
    ensures Convert(Obj(m), defs, fuel).Ok?
    ensures AcceptsSubset(Convert(Obj(m), defs, fuel).value, v) <==>
            Accepts(Obj(map["$ref" := m["$ref"]]), defs, v, fuel, false)
    ensures Accepts(Obj(m), defs, v, fuel, false) ==> AcceptsSubset(Convert(Obj(m), defs, fuel).value, v)
  {
    TranslationPreservesMeaning(Resolve(m["$ref"], defs).value, defs, v, fuel - 1);
  }

  const TITLED: Json := Obj(map["title" := Str("x")])
  const OBJECT: Json := Obj(map["type" := Str("object")])
  const NOTHING: Json := Obj(map["type" := Str("null")])

  /** An optional object beside a raw items schema. */
  const OPTIONAL_WITH_ITEMS: Json := Obj(map["anyOf" := Arr([OBJECT, NOTHING]), "items" := TITLED])

  /** An optional object that keeps items as its items schema. */
  function OptionalObject(items: Json): map<string, Json> {
    map["type" := Str("object"), "nullable" := Bool(true), "items" := items]
  }

  /** Keywords beside anyOf are taken over as they are, so a second translation still changes them. */
  lemma SiblingsOfOptionalStayRaw(fuel: nat)
    requires fuel >= 2
    ensures Convert(OPTIONAL_WITH_ITEMS, map[], fuel) == Ok(Obj(OptionalObject(TITLED)))
    ensures Convert(Obj(OptionalObject(TITLED)), map[], fuel) == Ok(Obj(OptionalObject(Obj(map[]))))
    ensures OptionalObject(TITLED) != OptionalObject(Obj(map[]))
  {
    FirstTranslation(fuel);
    SecondTranslation(fuel);
    assert "title" in OptionalObject(TITLED)["items"].fields;
  }

  lemma FirstTranslation(fuel: nat)
    requires fuel >= 2
    ensures Convert(OPTIONAL_WITH_ITEMS, map[], fuel) == Ok(Obj(OptionalObject(TITLED)))
  {
    var variants := [OBJECT, NOTHING];
    var m := OPTIONAL_WITH_ITEMS.fields;
    assert variants[1..] == [NOTHING] && IsNullVariant(NOTHING) && NonNull([NOTHING][1..]) == [];
    assert NonNull(variants) == [OBJECT];
    assert Strip(OBJECT.fields) == OBJECT.fields;
    assert ConvertPlain(OBJECT.fields, map[], fuel - 1) == Ok(OBJECT);
    assert Strip((m - {"anyOf"}) + OBJECT.fields["nullable" := Bool(true)]) == OptionalObject(TITLED);
    assert "$ref" !in m && m["anyOf"] == Arr(variants) && AllObjects(variants);
    assert Convert(OBJECT, map[], fuel - 1) == Ok(OBJECT);
  }

  lemma SecondTranslation(fuel: nat)
    requires fuel >= 2
    ensures Convert(Obj(OptionalObject(TITLED)), map[], fuel) == Ok(Obj(OptionalObject(Obj(map[]))))
  {
    var out := OptionalObject(TITLED);
    assert Strip(TITLED.fields) == map[];
    assert ConvertPlain(TITLED.fields, map[], fuel - 1) == Ok(Obj(map[]));
    assert Strip(out) == out;
    assert out["items" := Obj(map[])] == OptionalObject(Obj(map[]));
    assert "$ref" !in out && "anyOf" !in out && "prefixItems" !in out && "properties" !in out;
    assert Convert(out["items"], map[], fuel - 1) == Ok(Obj(map[]));
  }
}
