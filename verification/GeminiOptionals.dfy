/** Optional schemas with keywords beside anyOf (src/orchestra/providers/_gemini_schema.py). */
module GeminiOptionals {
  import opened Wrappers
  import opened GeminiSchema

  // ---- Which schemas a second translation leaves as they are ----

  /** No reference, no anyOf and no banned key at the top. */
  predicate Resolved(m: map<string, Json>) {
    m.Keys !! BANNED_KEYS + {"anyOf"}
  }

  /** The translation of every schema is resolved at the top. */
  lemma {:induction false} TranslationsAreResolved(node: Json, defs: map<string, Json>, fuel: nat)
    requires Convert(node, defs, fuel).Ok? && Convert(node, defs, fuel).value.Obj?
    ensures Resolved(Convert(node, defs, fuel).value.fields)
    decreases fuel
  {
    var m := node.fields;
    if "$ref" in m {
      TranslationsAreResolved(Resolve(m["$ref"], defs).value, defs, fuel - 1);
    } else if "anyOf" in m {
      var x := NonNull(m["anyOf"].items)[0];
      TranslationsAreResolved(x, defs, fuel - 1);
    } else {
      PlainIsResolved(m, defs, fuel);
    }
  }

  lemma PlainIsResolved(m: map<string, Json>, defs: map<string, Json>, fuel: nat)
    requires fuel > 0 && "anyOf" !in m && ConvertPlain(m, defs, fuel).Ok? && ConvertPlain(m, defs, fuel).value.Obj?
    ensures Resolved(ConvertPlain(m, defs, fuel).value.fields)
  {
    assert ConvertPlain(m, defs, fuel).value.fields.Keys <= Strip(m).Keys + {"properties", "items", "type"};
  }

  /** No tuple at the top, and properties and items that the translation leaves as they are. */
  predicate Unchanged(m: map<string, Json>, defs: map<string, Json>, fuel: nat)
    requires fuel > 0
  {
    && "prefixItems" !in m
    && ("properties" in m ==> PropertiesUnchanged(m["properties"], defs, fuel))
    && ("items" in m ==> Convert(m["items"], defs, fuel - 1) == Ok(m["items"]))
  }

  predicate PropertiesUnchanged(props: Json, defs: map<string, Json>, fuel: nat)
    requires fuel > 0
  {
    props.Obj? ==> forall p :: p in props.fields ==> Convert(props.fields[p], defs, fuel - 1) == Ok(props.fields[p])
  }

  lemma PropertiesUnchangedExactly(props: map<string, Json>, defs: map<string, Json>, fuel: nat)
    requires fuel > 0
    ensures ConvertProperties(props, defs, fuel) == Ok(Obj(props)) <==> PropertiesUnchanged(Obj(props), defs, fuel)
  {
    if PropertiesUnchanged(Obj(props), defs, fuel) {
      assert ConvertProperties(props, defs, fuel).value.fields == props;
    }
  }

  /** A resolved schema is left as it is exactly when its parts are and it has no tuple. */
  lemma ObjectUnchangedExactly(m: map<string, Json>, defs: map<string, Json>, fuel: nat)
    requires fuel > 0 && Resolved(m)
    ensures Convert(Obj(m), defs, fuel) == Ok(Obj(m)) <==> Unchanged(m, defs, fuel)
  {
    assert Strip(m) == m && "$ref" !in m && "anyOf" !in m;
    assert Convert(Obj(m), defs, fuel) == ConvertPlain(m, defs, fuel);
    if "prefixItems" in m {
      TuplesChange(m, defs, fuel);
    } else {
      if "properties" in m && m["properties"].Obj? {
        PropertiesUnchangedExactly(m["properties"].fields, defs, fuel);
      }
      PartsDecide(m, defs, fuel);
    }
  }

  lemma TuplesChange(m: map<string, Json>, defs: map<string, Json>, fuel: nat)
    requires fuel > 0 && "prefixItems" in m
    ensures ConvertPlain(m, defs, fuel) != Ok(Obj(m))
  {
    forall out ensures FlattenTuple(m["prefixItems"], out, defs, fuel) != Ok(Obj(m)) {
      FlatHasNoTuple(m["prefixItems"], out, defs, fuel);
    }
  }

  lemma FlatHasNoTuple(prefix: Json, out: map<string, Json>, defs: map<string, Json>, fuel: nat)
    requires fuel > 0
    ensures var r := FlattenTuple(prefix, out, defs, fuel); r.Ok? ==> r.value.Obj? && "prefixItems" !in r.value.fields
  {
  }

  lemma PartsDecide(m: map<string, Json>, defs: map<string, Json>, fuel: nat)
    requires fuel > 0 && Strip(m) == m && "prefixItems" !in m
    requires "properties" in m && m["properties"].Obj? ==>
               (ConvertProperties(m["properties"].fields, defs, fuel) == Ok(m["properties"]) <==>
                PropertiesUnchanged(m["properties"], defs, fuel))
    ensures ConvertPlain(m, defs, fuel) == Ok(Obj(m)) <==> Unchanged(m, defs, fuel)
  {
    var r := ConvertPlain(m, defs, fuel);
    if Unchanged(m, defs, fuel) {
      assert r.Ok? && r.value.fields == m;
    }
  }

  // ---- Translating an optional twice ----

  /** What an optional becomes: X with null, and the keywords beside anyOf that X does not have, as they are. */
  function Beside(m: map<string, Json>, x: map<string, Json>): map<string, Json> {
    Strip((m - {"anyOf"}) + x["nullable" := Bool(true)])
  }

  /** No tuple beside anyOf, and properties and items beside it either X's or left as they are by a translation. */
  predicate SiblingsUnchanged(m: map<string, Json>, x: map<string, Json>, defs: map<string, Json>, fuel: nat)
    requires fuel > 0
  {
    && "prefixItems" !in m
    && ("properties" in m && "properties" !in x ==> PropertiesUnchanged(m["properties"], defs, fuel))
    && ("items" in m && "items" !in x ==> Convert(m["items"], defs, fuel - 1) == Ok(m["items"]))
  }

  lemma BesideAt(m: map<string, Json>, x: map<string, Json>, k: string)
    requires k !in BANNED_KEYS + {"anyOf", "nullable"}
    ensures Field(Beside(m, x), k) == if k in x then Some(x[k]) else Field(m, k)
  {
  }

  lemma BesideUnchangedExactly(m: map<string, Json>, x: map<string, Json>, defs: map<string, Json>, fuel: nat)
    requires fuel > 0 && Resolved(x)
    ensures Resolved(Beside(m, x))
    ensures Unchanged(Beside(m, x), defs, fuel) <==>
            Unchanged(x, defs, fuel) && ("prefixItems" !in x ==> SiblingsUnchanged(m, x, defs, fuel))
  {
    BesideAt(m, x, "prefixItems");
    BesideAt(m, x, "properties");
    BesideAt(m, x, "items");
  }

  /**
   For every optional, whatever stands beside anyOf: translating twice is translating once if and only if that holds of
   X, prefixItems does not stand beside anyOf, and neither do properties or items that X does not override and that a
   translation changes.
   */
  lemma OptionalTwiceExactly(
    m: map<string, Json>, defs: map<string, Json>, later: map<string, Json>, fuel: nat, fuel': nat)
    requires "anyOf" in m && "$ref" !in m && fuel > 0 && fuel' > 0 && Convert(Obj(m), defs, fuel).Ok?
    ensures m["anyOf"].Arr? && NonNull(m["anyOf"].items) != []
    ensures var x := Convert(NonNull(m["anyOf"].items)[0], defs, fuel - 1);
            && x.Ok? && x.value.Obj?
            && (Convert(Convert(Obj(m), defs, fuel).value, later, fuel') == Convert(Obj(m), defs, fuel) <==>
                Convert(x.value, later, fuel') == x && SiblingsUnchanged(m, x.value.fields, later, fuel'))
  {
    var node := NonNull(m["anyOf"].items)[0];
    var x := Convert(node, defs, fuel - 1);
    assert x.Ok? && x.value.Obj?;
    TranslationsAreResolved(node, defs, fuel - 1);
    var out := Beside(m, x.value.fields);
    assert Convert(Obj(m), defs, fuel) == Ok(Obj(out));
    BesideUnchangedExactly(m, x.value.fields, later, fuel');
    ObjectUnchangedExactly(out, later, fuel');
    ObjectUnchangedExactly(x.value.fields, later, fuel');
  }

  // ---- What an optional accepts ----

  /** The keywords beside anyOf that X does not override. */
  function Left(m: map<string, Json>, x: map<string, Json>): map<string, Json> {
    m - ({"anyOf", "nullable"} + x.Keys)
  }

  lemma LeftAt(m: map<string, Json>, x: map<string, Json>, k: string)
    requires k !in {"anyOf", "nullable"}
    ensures Field(Left(m, x), k) == if k in x then None else Field(m, k)
  {
  }

  /** At most one of a and b has the keyword, and whole has it as they do. */
  predicate Joins(whole: map<string, Json>, a: map<string, Json>, b: map<string, Json>, k: string) {
    && (Field(a, k).None? || Field(b, k).None?)
    && Field(whole, k) == if Field(a, k).Some? then Field(a, k) else Field(b, k)
  }

  /** Beside is X where X has the keyword, and what is left of the siblings elsewhere. */
  lemma OneOfTwo(m: map<string, Json>, x: map<string, Json>, k: string)
    requires k !in BANNED_KEYS + {"anyOf", "nullable"}
    ensures Joins(Beside(m, x), x, Left(m, x), k)
  {
    BesideAt(m, x, k);
    LeftAt(m, x, k);
  }

  /** A schema whose shared keywords are those of two others accepts by them what both do. */
  lemma SharedTogether(whole: map<string, Json>, a: map<string, Json>, b: map<string, Json>, v: Json)
    requires Joins(whole, a, b, "type") && Joins(whole, a, b, "enum") && Joins(whole, a, b, "required")
    ensures SharedKeywords(whole, v) <==> SharedKeywords(a, v) && SharedKeywords(b, v)
  {
  }

  lemma SharedSplits(m: map<string, Json>, x: map<string, Json>, v: Json)
    ensures SharedKeywords(Beside(m, x), v) <==> SharedKeywords(x, v) && SharedKeywords(Left(m, x), v)
  {
    OneOfTwo(m, x, "type");
    OneOfTwo(m, x, "enum");
    OneOfTwo(m, x, "required");
    SharedTogether(Beside(m, x), x, Left(m, x), v);
  }

  lemma PartsSplit(m: map<string, Json>, x: map<string, Json>, v: Json)
    ensures PropertiesSubset(Beside(m, x), v) <==> PropertiesSubset(x, v) && PropertiesSubset(Left(m, x), v)
    ensures ItemsSubset(Beside(m, x), v) <==> ItemsSubset(x, v) && ItemsSubset(Left(m, x), v)
  {
    BesideAt(m, x, "properties");
    BesideAt(m, x, "items");
  }

  /** The translated optional accepts null whatever stands beside it, and else what X and the other siblings do. */
  lemma BesideAccepts(m: map<string, Json>, x: map<string, Json>, v: Json)
    ensures AcceptsSubset(Obj(Beside(m, x)), v) <==>
            v.Null? || (AcceptsSubset(Obj(x), v) && AcceptsSubset(Obj(Left(m, x)), v))
  {
    SharedSplits(m, x, v);
    PartsSplit(m, x, v);
    assert Nullable(Beside(m, x));
  }

  /** The target reads every schema more widely than the source: it knows no references and no anyOf. */
  lemma {:induction false} TargetReadsWider(schema: Json, defs: map<string, Json>, v: Json, fuel: nat)
    requires Accepts(schema, defs, v, fuel, false)
    ensures AcceptsSubset(schema, v)
    decreases fuel
  {
    if schema.Obj? {
      var m := schema.fields;
      if "properties" in m && m["properties"].Obj? && v.Obj? {
        forall p | p in m["properties"].fields && p in v.fields
          ensures AcceptsSubset(m["properties"].fields[p], v.fields[p])
        {
          TargetReadsWider(m["properties"].fields[p], defs, v.fields[p], fuel - 1);
        }
      }
      if "items" in m && v.Arr? {
        forall i | 0 <= i < |v.items|
          ensures AcceptsSubset(m["items"], v.items[i])
        {
          TargetReadsWider(m["items"], defs, v.items[i], fuel - 1);
        }
      }
      assert PropertiesSubset(m, v) && ItemsSubset(m, v);
    }
  }

  lemma LeftAccepts(m: map<string, Json>, x: map<string, Json>, v: Json)
    requires AcceptsSubset(Obj(m), v) && !v.Null?
    ensures AcceptsSubset(Obj(Left(m, x)), v)
  {
    assert SharedKeywords(Left(m, x), v) && PropertiesSubset(Left(m, x), v) && ItemsSubset(Left(m, x), v);
  }

  /** The schemas of an anyOf of one pure null and one X of the fragment, whatever stands beside it. */
  predicate OptionalNode(m: map<string, Json>, defs: map<string, Json>, fuel: nat) {
    fuel > 0 && "anyOf" in m && "$ref" !in m && m["anyOf"].Arr? && Optional(m["anyOf"].items, defs, fuel - 1)
  }

  lemma OptionalBecomes(m: map<string, Json>, defs: map<string, Json>, fuel: nat)
    requires OptionalNode(m, defs, fuel)
    ensures var x := Convert(Wanted(m["anyOf"].items), defs, fuel - 1);
            && x.Ok? && x.value.Obj?
            && Convert(Obj(m), defs, fuel) == Ok(Obj(Beside(m, x.value.fields)))
  {
    OneWanted(m["anyOf"].items, defs, fuel - 1);
    Converts(Wanted(m["anyOf"].items), defs, fuel - 1);
  }

  /** What stands beside anyOf in the source is an extra condition on what the optional accepts. */
  lemma SourceSplits(m: map<string, Json>, defs: map<string, Json>, v: Json, fuel: nat)
    requires OptionalNode(m, defs, fuel)
    ensures Accepts(Obj(m), defs, v, fuel, false) <==>
            && (v.Null? || Accepts(Wanted(m["anyOf"].items), defs, v, fuel - 1, false))
            && Accepts(Obj(m - {"anyOf"}), defs, v, fuel, false)
  {
    var alone := map["anyOf" := m["anyOf"]];
    OptionalAccepts(alone, defs, v, fuel);
    AnyOfAlone(alone, defs, v, fuel);
    RestSplits(m, defs, v, fuel);
  }

  lemma RestSplits(m: map<string, Json>, defs: map<string, Json>, v: Json, fuel: nat)
    requires fuel > 0 && "anyOf" in m && "$ref" !in m && m["anyOf"].Arr?
    ensures Accepts(Obj(m), defs, v, fuel, false) <==>
            AcceptsAny(m["anyOf"].items, defs, v, fuel - 1, false) && Accepts(Obj(m - {"anyOf"}), defs, v, fuel, false)
  {
    var rest := m - {"anyOf"};
    assert SharedKeywords(rest, v) == SharedKeywords(m, v);
    assert AcceptsProperties(rest, defs, v, fuel, false) == AcceptsProperties(m, defs, v, fuel, false);
    assert AcceptsItems(rest, defs, v, fuel, false) == AcceptsItems(m, defs, v, fuel, false);
  }

  /**
   With keywords beside anyOf the translation accepts null, and what X and those of the keywords that X does not have
   accept as the target reads them. It never rejects what the source accepts.
   */
  lemma SiblingsOnlyWiden(m: map<string, Json>, defs: map<string, Json>, v: Json, fuel: nat)
    requires OptionalNode(m, defs, fuel)
    ensures var x := Convert(Wanted(m["anyOf"].items), defs, fuel - 1);
            && x.Ok? && x.value.Obj? && Convert(Obj(m), defs, fuel).Ok?
            && (AcceptsSubset(Convert(Obj(m), defs, fuel).value, v) <==>
                || v.Null?
                || (Accepts(Wanted(m["anyOf"].items), defs, v, fuel - 1, false) &&
                    AcceptsSubset(Obj(Left(m, x.value.fields)), v)))
            && (Accepts(Obj(m), defs, v, fuel, false) ==> AcceptsSubset(Convert(Obj(m), defs, fuel).value, v))
  {
    OptionalBecomes(m, defs, fuel);
    var x := Convert(Wanted(m["anyOf"].items), defs, fuel - 1).value.fields;
    BesideAccepts(m, x, v);
    TranslationPreservesMeaning(Wanted(m["anyOf"].items), defs, v, fuel - 1);
    if Accepts(Obj(m), defs, v, fuel, false) && !v.Null? {
      SourceSplits(m, defs, v, fuel);
      TargetReadsWider(Obj(m), defs, v, fuel);
      LeftAccepts(m, x, v);
    }
  }

  // ---- Keywords that do not survive ----

  lemma ObjectsAccepted(v: Json)
    requires v.Obj?
    ensures AcceptsSubset(OBJECT, v)
  {
    var m := OBJECT.fields;
    assert Field(m, "type") == Some(Str("object")) && HasType("object", v);
    assert SharedKeywords(m, v) && PropertiesSubset(m, v) && ItemsSubset(m, v);
  }

  /** A reference beside an empty enum: the source accepts nothing, the translation every object. */
  lemma DroppedEnumWidens(v: Json, fuel: nat)
    requires fuel >= 2 && v.Obj?
    ensures var defs := map["T" := OBJECT];
            var m := map["$ref" := Str("#/$defs/T"), "enum" := Arr([])];
            && !Accepts(Obj(m), defs, v, fuel, true)
            && Convert(Obj(m), defs, fuel) == Ok(OBJECT) && AcceptsSubset(OBJECT, v)
  {
    var defs := map["T" := OBJECT];
    var m := map["$ref" := Str("#/$defs/T"), "enum" := Arr([])];
    assert "#/$defs/T"[|REF_PREFIX|..] == "T" && REF_PREFIX <= "#/$defs/T";
    assert Resolve(m["$ref"], defs) == Ok(OBJECT);
    assert Strip(OBJECT.fields) == OBJECT.fields;
    assert Convert(OBJECT, defs, fuel - 1) == Ok(OBJECT);
    assert Field(m, "enum") == Some(Arr([]));
    ObjectsAccepted(v);
  }

  /** An optional beside a type: the source rejects null, the translation accepts it. */
  lemma SiblingTypeAdmitsNull(fuel: nat)
    requires fuel >= 3
    ensures var m := map["anyOf" := Arr([OBJECT, NOTHING]), "type" := Str("object")];
            && !Accepts(Obj(m), map[], Null, fuel, true)
            && Convert(Obj(m), map[], fuel).Ok? && AcceptsSubset(Convert(Obj(m), map[], fuel).value, Null)
  {
    var m := map["anyOf" := Arr([OBJECT, NOTHING]), "type" := Str("object")];
    assert Field(m, "type") == Some(Str("object"));
    assert PureNull(NOTHING) && !IsNullVariant(OBJECT);
    assert InFragment(OBJECT, map[], fuel - 1) && LeadsToObject(OBJECT, map[], fuel - 1);
    assert OptionalNode(m, map[], fuel);
    SiblingsOnlyWiden(m, map[], Null, fuel);
  }
}
