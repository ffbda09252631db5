/** Which translated schemas the target's keywords can express (src/orchestra/providers/_gemini_schema.py). */
module GeminiTarget {
  import opened Wrappers
  import opened GeminiSchema
  import opened GeminiOptionals

  /** The keywords the target accepts. */
  const TARGET_KEYS: set<string> := {"type", "format", "enum", "properties", "required", "items", "nullable"}

  /** No other keyword at any depth. */
  predicate InTarget(r: Json)
    decreases r
  {
    r.Obj? ==>
      && r.fields.Keys <= TARGET_KEYS
      && ("properties" in r.fields && r.fields["properties"].Obj? ==>
            forall p :: p in r.fields["properties"].fields ==> InTarget(r.fields["properties"].fields[p]))
      && ("items" in r.fields ==> InTarget(r.fields["items"]))
  }

  /** The schemas of the properties, if they are given as an object. */
  predicate PropertiesInTarget(props: Json) {
    props.Obj? ==> forall p :: p in props.fields ==> InTarget(props.fields[p])
  }

  // ---- The condition on the source ----

  /** The translation is a value Python takes as false. */
  predicate Blank(node: Json, defs: map<string, Json>, fuel: nat)
    decreases fuel
  {
    if !node.Obj? then Falsy(node)
    else if fuel == 0 then false
    else if "$ref" in node.fields then
      Resolve(node.fields["$ref"], defs).Ok? && Blank(Resolve(node.fields["$ref"], defs).value, defs, fuel - 1)
    else "anyOf" !in node.fields && node.fields.Keys <= BANNED_KEYS
  }

  /** An anyOf of which one variant is not null. */
  predicate HasWanted(m: map<string, Json>) {
    "anyOf" in m && m["anyOf"].Arr? && |NonNull(m["anyOf"].items)| == 1
  }

  /** A tuple with a first element. */
  predicate HasElement(m: map<string, Json>) {
    "prefixItems" in m && m["prefixItems"].Arr? && m["prefixItems"].items != []
  }

  /** The schema from which the items of a translated plain schema are translated. */
  function ItemSource(m: map<string, Json>, defs: map<string, Json>, fuel: nat): Option<Json>
    requires fuel > 0
  {
    if HasElement(m) && !Blank(m["prefixItems"].items[0], defs, fuel - 1) then Some(m["prefixItems"].items[0])
    else Field(m, "items")
  }

  /** The translation has the keyword properties or items. */
  predicate Carries(k: string, node: Json, defs: map<string, Json>, fuel: nat)
    decreases fuel
  {
    node.Obj? && fuel > 0 &&
    if "$ref" in node.fields then
      && Resolve(node.fields["$ref"], defs).Ok?
      && Carries(k, Resolve(node.fields["$ref"], defs).value, defs, fuel - 1)
    else if "anyOf" in node.fields then
      || k in node.fields
      || (HasWanted(node.fields) && Carries(k, NonNull(node.fields["anyOf"].items)[0], defs, fuel - 1))
    else
      k in node.fields || (k == "items" && ItemSource(node.fields, defs, fuel).Some?)
  }

  /** The source schemas that the target can express once they are translated. */
  predicate Expressible(node: Json, defs: map<string, Json>, fuel: nat)
    decreases fuel, 1
  {
    node.Obj? ==>
      && fuel > 0
      && if "$ref" in node.fields then
           && Resolve(node.fields["$ref"], defs).Ok?
           && Expressible(Resolve(node.fields["$ref"], defs).value, defs, fuel - 1)
         else if "anyOf" in node.fields then OptionalExpressible(node.fields, defs, fuel)
         else PlainExpressible(node.fields, defs, fuel)
  }

  /** X is expressible, and the keywords beside anyOf that X does not override are of the target as they stand. */
  predicate OptionalExpressible(m: map<string, Json>, defs: map<string, Json>, fuel: nat)
    requires fuel > 0
    decreases fuel, 0
  {
    && HasWanted(m)
    && var x := NonNull(m["anyOf"].items)[0];
       && Expressible(x, defs, fuel - 1)
       && m.Keys <= TARGET_KEYS + BANNED_KEYS + {"anyOf"}
       && ("properties" in m && !Carries("properties", x, defs, fuel - 1) ==> PropertiesInTarget(m["properties"]))
       && ("items" in m && !Carries("items", x, defs, fuel - 1) ==> InTarget(m["items"]))
  }

  /** The keywords are of the target or banned, and the parts that are translated are expressible. */
  predicate PlainExpressible(m: map<string, Json>, defs: map<string, Json>, fuel: nat)
    requires fuel > 0
    decreases fuel, 0
  {
    && m.Keys <= TARGET_KEYS + BANNED_KEYS + {"prefixItems"}
    && ("properties" in m && m["properties"].Obj? ==>
          forall p :: p in m["properties"].fields ==> Expressible(m["properties"].fields[p], defs, fuel - 1))
    && (ItemSource(m, defs, fuel).Some? ==> Expressible(ItemSource(m, defs, fuel).value, defs, fuel - 1))
  }

  // ---- It is exact ----

  lemma {:induction false} BlankExactly(node: Json, defs: map<string, Json>, fuel: nat)
    requires Convert(node, defs, fuel).Ok?
    ensures Falsy(Convert(node, defs, fuel).value) <==> Blank(node, defs, fuel)
    decreases fuel
  {
    if node.Obj? {
      var m := node.fields;
      if "$ref" in m {
        BlankExactly(Resolve(m["$ref"], defs).value, defs, fuel - 1);
      } else if "anyOf" in m {
        assert "nullable" in Convert(node, defs, fuel).value.fields;
      } else {
        PlainKeys(m, defs, fuel);
        var out := Convert(node, defs, fuel).value.fields;
        assert out.Keys == {} <==> out == map[];
      }
    }
  }

  /** The keywords of a translated plain schema. */
  lemma PlainKeys(m: map<string, Json>, defs: map<string, Json>, fuel: nat)
    requires fuel > 0 && ConvertPlain(m, defs, fuel).Ok?
    ensures "prefixItems" in m ==> HasElement(m) && Convert(m["prefixItems"].items[0], defs, fuel - 1).Ok?
    ensures ConvertPlain(m, defs, fuel).value.Obj?
    ensures var out := ConvertPlain(m, defs, fuel).value.fields;
            out.Keys ==
              if "prefixItems" in m
              then (m.Keys - BANNED_KEYS - {"prefixItems"}) + {"type"} +
                   (if Falsy(Convert(m["prefixItems"].items[0], defs, fuel - 1).value) then {} else {"items"})
              else m.Keys - BANNED_KEYS
  {
  }

  lemma {:induction false} CarriesExactly(k: string, node: Json, defs: map<string, Json>, fuel: nat)
    requires k == "properties" || k == "items"
    requires Convert(node, defs, fuel).Ok? && Convert(node, defs, fuel).value.Obj?
    ensures k in Convert(node, defs, fuel).value.fields <==> Carries(k, node, defs, fuel)
    decreases fuel
  {
    var m := node.fields;
    if "$ref" in m {
      CarriesExactly(k, Resolve(m["$ref"], defs).value, defs, fuel - 1);
    } else if "anyOf" in m {
      CarriesExactly(k, NonNull(m["anyOf"].items)[0], defs, fuel - 1);
    } else {
      PlainKeys(m, defs, fuel);
      if "prefixItems" in m {
        BlankExactly(m["prefixItems"].items[0], defs, fuel - 1);
      }
    }
  }

  /**
   For every schema that is translated at all: the result keeps to the target's keywords, at every depth, if and only if
   the source is expressible.
   */
  lemma {:induction false} StaysInTargetExactly(node: Json, defs: map<string, Json>, fuel: nat)
    requires Convert(node, defs, fuel).Ok?
    ensures InTarget(Convert(node, defs, fuel).value) <==> Expressible(node, defs, fuel)
    decreases fuel, 1
  {
    if node.Obj? {
      var m := node.fields;
      if "$ref" in m {
        StaysInTargetExactly(Resolve(m["$ref"], defs).value, defs, fuel - 1);
      } else if "anyOf" in m {
        OptionalInTarget(m, defs, fuel);
      } else {
        PlainInTarget(m, defs, fuel);
      }
    }
  }

  lemma {:induction false} OptionalInTarget(m: map<string, Json>, defs: map<string, Json>, fuel: nat)
    requires fuel > 0 && "anyOf" in m && "$ref" !in m && ConvertOptional(m, defs, fuel).Ok?
    ensures InTarget(ConvertOptional(m, defs, fuel).value) <==> OptionalExpressible(m, defs, fuel)
    decreases fuel, 0
  {
    var node := NonNull(m["anyOf"].items)[0];
    StaysInTargetExactly(node, defs, fuel - 1);
    CarriesExactly("properties", node, defs, fuel - 1);
    CarriesExactly("items", node, defs, fuel - 1);
    TranslationsAreResolved(node, defs, fuel - 1);
    BesideInTarget(m, Convert(node, defs, fuel - 1).value.fields);
  }

  lemma BesideInTarget(m: map<string, Json>, x: map<string, Json>)
    requires "anyOf" in m && Resolved(x)
    ensures InTarget(Obj(Beside(m, x))) <==>
            && InTarget(Obj(x))
            && m.Keys <= TARGET_KEYS + BANNED_KEYS + {"anyOf"}
            && ("properties" in m && "properties" !in x ==> PropertiesInTarget(m["properties"]))
            && ("items" in m && "items" !in x ==> InTarget(m["items"]))
  {
    BesideAt(m, x, "properties");
    BesideAt(m, x, "items");
    assert Beside(m, x).Keys == (m.Keys - {"anyOf"} - BANNED_KEYS) + x.Keys + {"nullable"};
  }

  lemma ItemsAreTranslated(m: map<string, Json>, defs: map<string, Json>, fuel: nat)
    requires fuel > 0 && ConvertPlain(m, defs, fuel).Ok?
    ensures ConvertPlain(m, defs, fuel).value.Obj?
    ensures var out, from := ConvertPlain(m, defs, fuel).value.fields, ItemSource(m, defs, fuel);
            && ("items" in out <==> from.Some?)
            && (from.Some? ==> Convert(from.value, defs, fuel - 1) == Ok(out["items"]))
  {
    PlainKeys(m, defs, fuel);
    if "prefixItems" in m {
      BlankExactly(m["prefixItems"].items[0], defs, fuel - 1);
    }
  }

  lemma PropertiesAreTranslated(m: map<string, Json>, defs: map<string, Json>, fuel: nat)
    requires fuel > 0 && ConvertPlain(m, defs, fuel).Ok?
    ensures ConvertPlain(m, defs, fuel).value.Obj?
    ensures var out := ConvertPlain(m, defs, fuel).value.fields;
            && ("properties" in m <==> "properties" in out)
            && ("properties" in m ==>
                  if m["properties"].Obj?
                  then ConvertProperties(m["properties"].fields, defs, fuel) == Ok(out["properties"])
                  else out["properties"] == m["properties"])
  {
  }

  lemma {:induction false} PropertiesInTargetExactly(props: map<string, Json>, defs: map<string, Json>, fuel: nat)
    requires fuel > 0 && ConvertProperties(props, defs, fuel).Ok?
    ensures PropertiesInTarget(ConvertProperties(props, defs, fuel).value) <==>
            forall p :: p in props ==> Expressible(props[p], defs, fuel - 1)
    decreases fuel, 0, 0
  {
    var out := ConvertProperties(props, defs, fuel).value.fields;
    forall p | p in props
      ensures InTarget(out[p]) <==> Expressible(props[p], defs, fuel - 1)
    {
      StaysInTargetExactly(props[p], defs, fuel - 1);
    }
  }

  lemma {:induction false} PlainInTarget(m: map<string, Json>, defs: map<string, Json>, fuel: nat)
    requires fuel > 0 && "anyOf" !in m && "$ref" !in m && ConvertPlain(m, defs, fuel).Ok?
    ensures InTarget(ConvertPlain(m, defs, fuel).value) <==> PlainExpressible(m, defs, fuel)
    decreases fuel, 0, 1
  {
    var out := ConvertPlain(m, defs, fuel).value.fields;
    assert out.Keys <= TARGET_KEYS <==> m.Keys <= TARGET_KEYS + BANNED_KEYS + {"prefixItems"} by {
      PlainKeys(m, defs, fuel);
    }
    PropertiesAreTranslated(m, defs, fuel);
    if "properties" in m && m["properties"].Obj? {
      PropertiesInTargetExactly(m["properties"].fields, defs, fuel);
    }
    ItemsAreTranslated(m, defs, fuel);
    var from := ItemSource(m, defs, fuel);
    if from.Some? {
      StaysInTargetExactly(from.value, defs, fuel - 1);
    }
  }

  // ---- On the fragment it holds ----

  lemma {:induction false} FragmentIsExpressible(node: Json, defs: map<string, Json>, fuel: nat)
    requires InFragment(node, defs, fuel)
    ensures Expressible(node, defs, fuel)
    decreases fuel, 1
  {
    if node.Obj? {
      var m := node.fields;
      if "$ref" in m {
        FragmentIsExpressible(Resolve(m["$ref"], defs).value, defs, fuel - 1);
      } else if "anyOf" in m {
        OneWanted(m["anyOf"].items, defs, fuel - 1);
        FragmentIsExpressible(Wanted(m["anyOf"].items), defs, fuel - 1);
      } else {
        PlainFragmentIsExpressible(m, defs, fuel);
      }
    }
  }

  lemma {:induction false} PlainFragmentIsExpressible(m: map<string, Json>, defs: map<string, Json>, fuel: nat)
    requires fuel > 0 && PlainFragment(m, defs, fuel - 1)
    ensures PlainExpressible(m, defs, fuel)
    decreases fuel, 0
  {
    if "properties" in m {
      forall p | p in m["properties"].fields
        ensures Expressible(m["properties"].fields[p], defs, fuel - 1)
      {
        FragmentIsExpressible(m["properties"].fields[p], defs, fuel - 1);
      }
    }
    if "items" in m {
      FragmentIsExpressible(m["items"], defs, fuel - 1);
    }
  }

  /** The translation of a schema of the fragment uses the target's keywords only, at every depth. */
  lemma FragmentStaysInTarget(node: Json, defs: map<string, Json>, fuel: nat)
    requires InFragment(node, defs, fuel)
    ensures Convert(node, defs, fuel).Ok? && InTarget(Convert(node, defs, fuel).value)
  {
    Converts(node, defs, fuel);
    FragmentIsExpressible(node, defs, fuel);
    StaysInTargetExactly(node, defs, fuel);
  }

  // ---- Elsewhere it may not ----

  /** Any other keyword passes through the translation as it is. */
  lemma UnknownKeywordPasses(k: string, v: Json, defs: map<string, Json>, fuel: nat)
    requires k !in TARGET_KEYS + BANNED_KEYS + {"anyOf", "prefixItems"} && fuel > 0
    ensures Convert(Obj(map[k := v]), defs, fuel) == Ok(Obj(map[k := v]))
    ensures !InTarget(Obj(map[k := v]))
  {
    var m := map[k := v];
    assert k in m && Strip(m) == m;
  }

  /** So do const, pattern, oneOf and allOf, which the target does not accept. */
  lemma ConstPasses(v: Json, defs: map<string, Json>, fuel: nat)
    requires fuel > 0
    ensures forall k :: k in {"const", "pattern", "oneOf", "allOf"} ==>
              Convert(Obj(map[k := v]), defs, fuel) == Ok(Obj(map[k := v])) && !InTarget(Obj(map[k := v]))
  {
    forall k | k in {"const", "pattern", "oneOf", "allOf"}
      ensures Convert(Obj(map[k := v]), defs, fuel) == Ok(Obj(map[k := v])) && !InTarget(Obj(map[k := v]))
    {
      UnknownKeywordPasses(k, v, defs, fuel);
    }
  }
}
