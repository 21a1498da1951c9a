/** Which parameter model a schema describes, told as a relation on the members of the schema, and how a model is
    written as one. */
module SchemaReading {
  import opened Wrappers
  import opened Json
  import opened ToolSpec

  // ---------- members of a schema ----------

  function Held(v: Value, key: string): (r: Option<Value>)
    ensures r.Some? ==> r.value < v
  {
    match v
    case Object(ms) => Lookup(ms, key)
    case _ => None
  }

  function HeldText(v: Value, key: string): Option<string> {
    match Held(v, key)
    case Some(String(s)) => Some(s)
    case _ => None
  }

  /** The strings of an array in order, whatever else it lists. */
  function TextsOf(items: seq<Value>): seq<string> {
    if items == [] then []
    else (match items[0] case String(s) => [s] case _ => []) + TextsOf(items[1..])
  }

  function HeldTexts(v: Value, key: string): Option<seq<string>> {
    match Held(v, key)
    case Some(Array(items)) => Some(TextsOf(items))
    case _ => None
  }

  /** The key is among the strings under `required`. */
  predicate Requires(v: Value, key: string) {
    match Held(v, "required")
    case Some(Array(items)) => exists i | 0 <= i < |items| :: items[i] == String(key)
    case _ => false
  }

  /** The type a schema names; a schema that names none describes a string. */
  function NamedType(v: Value): string {
    match HeldText(v, "type")
    case Some(t) => t
    case None => "string"
  }

  // ---------- the relation ----------

  /** This model is what the schema describes, where the parameter is required or not. */
  predicate Describes(v: Value, required: bool, m: ParamModel)
    decreases m
  {
    match m
    case StringParam(d, r, default, enums) =>
      && NamedType(v) == "string" && r == required && d == HeldText(v, "description")
      && default == Held(v, "default") && enums == HeldTexts(v, "enum")
    case NumberParam(d, r, default) =>
      NamedType(v) == "number" && r == required && d == HeldText(v, "description") && default == Held(v, "default")
    case BooleanParam(d, r, default) =>
      NamedType(v) == "boolean" && r == required && d == HeldText(v, "description") && default == Held(v, "default")
    case IntegerParam(d, r, default) =>
      NamedType(v) == "integer" && r == required && d == HeldText(v, "description") && default == Held(v, "default")
    case ObjectParam(d, r, ps) =>
      && NamedType(v) == "object" && r == required && d == HeldText(v, "description")
      && var props := Held(v, "properties");
         if props.None? then ps == []
         else
           && props.value.Object? && |ps| == |props.value.members|
           && forall i | 0 <= i < |ps| ::
                && ps[i].name == props.value.members[i].key
                && Describes(props.value.members[i].value, Requires(v, props.value.members[i].key), ps[i].model)
    case ArrayParam(d, r, items) =>
      && NamedType(v) == "array" && r == required && d == HeldText(v, "description")
      && var inner := Held(v, "items");
         if inner.None? then items == Unsupported("any") else Describes(inner.value, true, items)
    case Unsupported(t) =>
      NamedType(v) == t && t !in {"string", "number", "boolean", "integer", "object", "array"}
  }

  // ---------- the parser reads by it ----------

  lemma {:induction false} HeldIs(v: Value, key: string)
    ensures Held(v, key) == Get(v, key) && HeldText(v, key) == GetString(v, key)
  {
    hide Lookup;
  }

  lemma {:induction false} TypeIs(v: Value)
    ensures NamedType(v) == TypeOf(v)
  {
    HeldIs(v, "type");
    hide Lookup;
  }

  lemma {:induction false} TextsAre(items: seq<Value>, n: nat)
    requires n <= |items|
    ensures Strings(items, n) + TextsOf(items[n..]) == TextsOf(items)
  {
    if n > 0 {
      TextsAre(items, n - 1);
      assert items[n - 1..][1..] == items[n..];
      assert items[n - 1..][0] == items[n - 1];
    } else {
      assert items[0..] == items;
    }
  }

  lemma {:induction false} TextsHeld(v: Value, key: string)
    ensures HeldTexts(v, key) == GetStrings(v, key)
  {
    hide Lookup;
    HeldIs(v, key);
    if Get(v, key).Some? && Get(v, key).value.Array? {
      var items := Get(v, key).value.items;
      TextsAre(items, |items|);
      assert items[|items|..] == [] && TextsOf([]) == [];
      assert Strings(items, |items|) + [] == Strings(items, |items|);
    }
  }

  lemma {:induction false} InStrings(items: seq<Value>, n: nat, key: string)
    requires n <= |items|
    ensures key in Strings(items, n) <==> exists i | 0 <= i < n :: items[i] == String(key)
  {
    if n > 0 {
      InStrings(items, n - 1, key);
    }
  }

  lemma {:induction false} RequiresIs(v: Value, key: string)
    ensures Requires(v, key) <==> key in RequiredOf(v)
  {
    hide Lookup, Strings;
    HeldIs(v, "required");
    if Get(v, "required").Some? && Get(v, "required").value.Array? {
      InStrings(Get(v, "required").value.items, |Get(v, "required").value.items|, key);
    }
  }

  /** The first `n` properties, read one by one. */
  predicate FieldsDescribe(v: Value, props: Value, ps: seq<Property>, n: nat)
    requires props.Object? && n <= |props.members|
  {
    && |ps| == n
    && forall i | 0 <= i < n ::
         && ps[i].name == props.members[i].key
         && Describes(props.members[i].value, Requires(v, props.members[i].key), ps[i].model)
  }

  lemma {:induction false} FieldsExactly(v: Value, props: Value, n: nat, ps: seq<Property>)
    requires props.Object? && n <= |props.members|
    ensures ParseFields(props, RequiredOf(v), n) == Ok(ps) <==> FieldsDescribe(v, props, ps, n)
    decreases props, 0, n
  {
    hide RequiredOf, ParseSingle, Describes, Requires;
    if n > 0 {
      var key, value := props.members[n - 1].key, props.members[n - 1].value;
      RequiresIs(v, key);
      var front := if ps == [] then [] else ps[..|ps| - 1];
      FieldsExactly(v, props, n - 1, front);
      if ps != [] {
        ParsesExactly(value, Requires(v, key), ps[|ps| - 1].model);
        assert ps == front + [ps[|ps| - 1]];
      }
      FieldsSplit(v, props, n, ps, front);
      var before := ParseFields(props, RequiredOf(v), n - 1);
      if before.Ok? && ParseSingle(value, key in RequiredOf(v)).Ok? {
        var all := before.value + [Property(key, ParseSingle(value, key in RequiredOf(v)).value)];
        assert ParseFields(props, RequiredOf(v), n) == Ok(all);
        assert all[..|all| - 1] == before.value;
      }
    }
  }

  lemma {:induction false} FieldsSplit(v: Value, props: Value, n: nat, ps: seq<Property>, front: seq<Property>)
    requires props.Object? && 0 < n <= |props.members| && front == if ps == [] then [] else ps[..|ps| - 1]
    ensures FieldsDescribe(v, props, ps, n)
            <==> && ps != [] && FieldsDescribe(v, props, front, n - 1) && ps[|ps| - 1].name == props.members[n - 1].key
                 && Describes(props.members[n - 1].value, Requires(v, props.members[n - 1].key), ps[|ps| - 1].model)
  {
    hide Describes, Requires;
    assert ps != [] ==> forall i | 0 <= i < |front| :: front[i] == ps[i];
  }

  /** What the helpers of the parser read off a schema is what the relation reads off it. */
  predicate ReadAlike(v: Value) {
    && NamedType(v) == TypeOf(v) && HeldText(v, "description") == GetString(v, "description")
    && Held(v, "default") == Get(v, "default") && HeldTexts(v, "enum") == GetStrings(v, "enum")
    && Held(v, "properties") == Get(v, "properties") && Held(v, "items") == Get(v, "items")
  }

  lemma {:induction false} ReadsAlike(v: Value)
    ensures ReadAlike(v)
  {
    TypeIs(v);
    HeldIs(v, "description");
    HeldIs(v, "default");
    TextsHeld(v, "enum");
    HeldIs(v, "properties");
    HeldIs(v, "items");
    hide Held, HeldText, HeldTexts, NamedType, TypeOf, Get, GetString, GetStrings;
  }

  /** The parser succeeds with a model exactly when the schema describes it. */
  lemma {:induction false} ParsesExactly(v: Value, required: bool, m: ParamModel)
    ensures ParseSingle(v, required) == Ok(m) <==> Describes(v, required, m)
    decreases v, 1
  {
    hide *;
    if TypeOf(v) == "object" {
      ReadsAlike(v);
      var props := Get(v, "properties");
      if props.Some? && props.value.Object? {
        PartOf(v, "properties");
        if m.ObjectParam? {
          FieldsExactly(v, props.value, |props.value.members|, m.properties);
        }
      }
      ObjectExactly(v, required, m);
    } else if TypeOf(v) == "array" {
      ReadsAlike(v);
      var items := Get(v, "items");
      if items.Some? && m.ArrayParam? {
        PartOf(v, "items");
        ParsesExactly(items.value, true, m.items);
      }
      ArrayExactly(v, required, m);
    } else {
      PlainExactly(v, required, m);
    }
  }

  lemma {:induction false} PartOf(v: Value, key: string)
    requires Get(v, key).Some?
    ensures Get(v, key).value < v
  {
  }

  lemma {:induction false} PlainExactly(v: Value, required: bool, m: ParamModel)
    requires TypeOf(v) !in {"object", "array"}
    ensures ParseSingle(v, required) == Ok(m) <==> Describes(v, required, m)
  {
    ReadsAlike(v);
    hide Held, HeldText, HeldTexts, NamedType, TypeOf, Get, GetString, GetStrings, ParseFields, RequiredOf, Requires;
  }

  lemma {:induction false} ArrayExactly(v: Value, required: bool, m: ParamModel)
    requires TypeOf(v) == "array" && ReadAlike(v)
    requires var items := Get(v, "items");
             items.Some? && m.ArrayParam?
             ==> (ParseSingle(items.value, true) == Ok(m.items) <==> Describes(items.value, true, m.items))
    ensures ParseSingle(v, required) == Ok(m) <==> Describes(v, required, m)
  {
    hide Held, HeldText, HeldTexts, NamedType, TypeOf, Get, GetString, GetStrings, ParseFields, RequiredOf, Requires;
  }

  lemma {:induction false} ObjectExactly(v: Value, required: bool, m: ParamModel)
    requires TypeOf(v) == "object" && ReadAlike(v)
    requires var props := Get(v, "properties");
             props.Some? && props.value.Object? && m.ObjectParam?
             ==> (ParseFields(props.value, RequiredOf(v), |props.value.members|) == Ok(m.properties)
                  <==> FieldsDescribe(v, props.value, m.properties, |props.value.members|))
    ensures ParseSingle(v, required) == Ok(m) <==> Describes(v, required, m)
  {
    hide Held, HeldText, HeldTexts, NamedType, TypeOf, Get, GetString, GetStrings, ParseFields, RequiredOf, Requires;
  }

  // ---------- where the parser fails ----------

  /** Some object in the schema, along properties and items, has properties that are no object. */
  predicate Broken(v: Value)
    decreases v
  {
    || (NamedType(v) == "object" && Held(v, "properties").Some? && BrokenProperties(Held(v, "properties").value))
    || (NamedType(v) == "array" && Held(v, "items").Some? && Broken(Held(v, "items").value))
  }

  predicate BrokenProperties(props: Value)
    decreases props
  {
    !props.Object? || exists i | 0 <= i < |props.members| :: Broken(props.members[i].value)
  }

  lemma {:induction false} FieldsFail(props: Value, required: seq<string>, n: nat)
    requires props.Object? && n <= |props.members|
    ensures ParseFields(props, required, n).Err? <==> exists i | 0 <= i < n :: Broken(props.members[i].value)
    ensures ParseFields(props, required, n).Err?
            ==> ParseFields(props, required, n).error == "nested properties must be an object"
    decreases props, 0, n
  {
    hide ParseSingle, Broken;
    if n > 0 {
      FieldsFail(props, required, n - 1);
      var m := props.members[n - 1];
      FailsExactly(m.value, m.key in required);
    }
  }

  /** The parser fails exactly on those schemas, and always in the same words. */
  lemma {:induction false} FailsExactly(v: Value, required: bool)
    ensures ParseSingle(v, required).Err? <==> Broken(v)
    ensures ParseSingle(v, required).Err? ==> ParseSingle(v, required).error == "nested properties must be an object"
    decreases v, 1
  {
    ReadsAlike(v);
    hide Held, HeldText, HeldTexts, NamedType, TypeOf, Get, GetString, GetStrings, RequiredOf, ParseFields;
    var props, items := Get(v, "properties"), Get(v, "items");
    if TypeOf(v) == "object" && props.Some? && props.value.Object? {
      FieldsFail(props.value, RequiredOf(v), |props.value.members|);
    } else if TypeOf(v) == "array" && items.Some? {
      FailsExactly(items.value, true);
    }
  }

  /** The parameters of a whole tool: an object without description that is required and has what `properties` holds,
      nothing where the schema has no `properties`, and a refusal where that is no object. */
  lemma {:induction false} ToolReadsExactly(schema: Value, m: ParamModel)
    ensures var props := Held(schema, "properties");
            && (FromSchema(schema) == Ok(m)
                <==> && m.ObjectParam? && m.required && m.description == None
                     && if props.None? then m.properties == []
                        else props.value.Object?
                             && FieldsDescribe(schema, props.value, m.properties, |props.value.members|))
            && (FromSchema(schema) == Err("properties must be an object") <==> props.Some? && !props.value.Object?)
            && (FromSchema(schema).Err? <==> props.Some? && BrokenProperties(props.value))
  {
    ReadsAlike(schema);
    hide Held, HeldText, HeldTexts, NamedType, TypeOf, Get, GetString, GetStrings, RequiredOf, ParseFields, Requires;
    var props := Get(schema, "properties");
    if props.Some? && props.value.Object? {
      FieldsFail(props.value, RequiredOf(schema), |props.value.members|);
      if m.ObjectParam? {
        FieldsExactly(schema, props.value, |props.value.members|, m.properties);
      }
    } else {
      EmptyFields(RequiredOf(schema));
    }
  }

  lemma {:induction false} EmptyFields(required: seq<string>)
    ensures ParseFields(Object([]), required, 0) == Ok([])
  {
  }

  // ---------- what is printed ----------

  function Place(key: string): nat {
    if key == "type" then 0 else if key == "description" then 1 else if key == "enum" then 2
    else if key == "default" then 3 else if key == "properties" then 4 else if key == "required" then 5
    else if key == "items" then 6 else 7
  }

  /** The keys come in that order, none twice and no others. */
  predicate InOrder(ms: seq<Member>) {
    && (forall i | 0 <= i < |ms| :: Place(ms[i].key) < 7)
    && forall i, j | 0 <= i < j < |ms| :: Place(ms[i].key) < Place(ms[j].key)
  }

  predicate Has(ms: seq<Member>, key: string) {
    exists i | 0 <= i < |ms| :: ms[i].key == key
  }

  /** Some property has to be given. */
  predicate AnyRequired(ps: seq<Property>) {
    exists i | 0 <= i < |ps| :: !ps[i].model.Unsupported? && ps[i].model.required
  }

  function DescriptionOf(m: ParamModel): Option<string> {
    if m.Unsupported? then None else m.description
  }

  function DefaultOf(m: ParamModel): Option<Value> {
    if m.StringParam? || m.NumberParam? || m.BooleanParam? || m.IntegerParam? then m.default else None
  }

  /** The keys of a printed schema: a type; a description, an enumeration and a default where the model has one;
      properties for an object and items for an array; and `required` only where it lists something. */
  predicate Printed(m: ParamModel, key: string) {
    || key == "type"
    || (DescriptionOf(m).Some? && key == "description")
    || (m.StringParam? && m.enumValues.Some? && key == "enum")
    || (DefaultOf(m).Some? && key == "default")
    || (m.ObjectParam? && key == "properties")
    || (m.ObjectParam? && AnyRequired(m.properties) && key == "required")
    || (m.ArrayParam? && key == "items")
  }

  /** A printed schema has exactly those keys, in their order. */
  lemma {:induction false} PrintedInOrder(m: ParamModel)
    ensures var v := PrintSingle(m);
            v.Object? && InOrder(v.members) && forall key :: Has(v.members, key) <==> Printed(m, key)
  {
    hide *;
    KeysInOrder(m);
    forall key: string ensures Has(PrintSingle(m).members, key) <==> Printed(m, key) {
      KeysMean(m, key);
    }
  }

  lemma {:induction false} KeysInOrder(m: ParamModel)
    ensures PrintSingle(m).Object? && InOrder(PrintSingle(m).members)
  {
    Places();
    hide Place, StringArray, PrintFields, RequiredNames;
  }

  lemma {:induction false} HasConcat(a: seq<Member>, b: seq<Member>, key: string)
    ensures Has(a + b, key) <==> Has(a, key) || Has(b, key)
  {
    if Has(a, key) {
      var i :| 0 <= i < |a| && a[i].key == key;
      assert (a + b)[i].key == key;
    }
    if Has(b, key) {
      var i :| 0 <= i < |b| && b[i].key == key;
      assert (a + b)[|a| + i].key == key;
    }
  }

  lemma {:induction false} OptionalHas(k: string, v: Option<Value>, key: string)
    ensures Has(Optional(k, v), key) <==> v.Some? && key == k
    ensures v.Some? ==> (Has([Member(k, v.value)], key) <==> key == k)
  {
    if v.Some? {
      assert [Member(k, v.value)][0].key == k;
    }
  }

  lemma {:induction false} HeaderHas(t: string, d: Option<string>, rest: seq<Member>, key: string)
    ensures Has(Header(t, d) + rest, key)
            <==> key == "type" || (d.Some? && key == "description") || Has(rest, key)
  {
    OptionalHas("type", Some(String(t)), key);
    OptionalHas("description", Text(d), key);
    hide Has, Optional;
    HasConcat([Member("type", String(t))], Optional("description", Text(d)), key);
    HasConcat(Header(t, d), rest, key);
  }

  lemma {:induction false} KeysMean(m: ParamModel, key: string)
    ensures PrintSingle(m).Object? && (Has(PrintSingle(m).members, key) <==> Printed(m, key))
  {
    hide Has, Header, Optional, StringArray, RequiredNames, PrintFields, PrintSingle, AnyRequired;
    match m
    case StringParam(d, _, default, enums) =>
      var listed := if enums.Some? then Some(StringArray(enums.value)) else None;
      PrintedString(m, listed);
      PairHas("enum", listed, "default", default, key);
      HeaderHas("string", d, Optional("enum", listed) + Optional("default", default), key);
    case ObjectParam(d, _, ps) =>
      var fields, list := Some(Object(PrintFields(m, |ps|))), RequiredList(ps);
      PrintedObject(m);
      AnyName(ps, |ps|);
      assert ps[..|ps|] == ps;
      PairHas("properties", fields, "required", list, key);
      HeaderHas("object", d, Optional("properties", fields) + Optional("required", list), key);
    case ArrayParam(d, _, items) =>
      PrintedPlain(m);
      OptionalHas("items", Some(PrintSingle(items)), key);
      HeaderHas("array", d, [Member("items", PrintSingle(items))], key);
    case Unsupported(t) =>
      PrintedPlain(m);
      OptionalHas("type", Some(String(t)), key);
    case _ =>
      PrintedPlain(m);
      OptionalHas("default", m.default, key);
      HeaderHas(PlainType(m), m.description, Optional("default", m.default), key);
  }

  function PlainType(m: ParamModel): string {
    if m.NumberParam? then "number" else if m.BooleanParam? then "boolean" else "integer"
  }

  lemma {:induction false} PrintedPlain(m: ParamModel)
    ensures m.NumberParam? || m.BooleanParam? || m.IntegerParam?
            ==> PrintSingle(m) == Object(Header(PlainType(m), m.description) + Optional("default", m.default))
    ensures m.ArrayParam?
            ==> PrintSingle(m) == Object(Header("array", m.description) + [Member("items", PrintSingle(m.items))])
    ensures m.Unsupported? ==> PrintSingle(m) == Object([Member("type", String(m.typeName))])
  {
    hide Header, Optional;
  }

  lemma {:induction false} PairHas(k: string, v: Option<Value>, l: string, w: Option<Value>, key: string)
    ensures Has(Optional(k, v) + Optional(l, w), key) <==> (v.Some? && key == k) || (w.Some? && key == l)
  {
    hide Has, Optional;
    OptionalHas(k, v, key);
    OptionalHas(l, w, key);
    HasConcat(Optional(k, v), Optional(l, w), key);
  }

  lemma {:induction false} Places()
    ensures Place("type") == 0 && Place("description") == 1 && Place("enum") == 2 && Place("default") == 3
    ensures Place("properties") == 4 && Place("required") == 5 && Place("items") == 6
  {
  }

  lemma {:induction false} AnyName(ps: seq<Property>, n: nat)
    requires n <= |ps|
    ensures RequiredNames(ps, n) == [] <==> !AnyRequired(ps[..n])
  {
    if n > 0 {
      AnyName(ps, n - 1);
      assert ps[..n] == ps[..n - 1] + [ps[n - 1]];
      assert AnyRequired(ps[..n]) <==> AnyRequired(ps[..n - 1]) || IsRequired(ps[n - 1].model) by {
        if AnyRequired(ps[..n - 1]) {
          var i :| 0 <= i < n - 1 && IsRequired(ps[..n - 1][i].model);
          assert ps[..n][i] == ps[..n - 1][i];
        }
        assert ps[..n][n - 1] == ps[n - 1];
      }
    }
  }

  /** A printed list of required names comes in the order of the properties, each named once. */
  lemma {:induction false} RequiredInARow(ps: seq<Property>, p: Property)
    ensures RequiredNames([], 0) == []
    ensures RequiredNames(ps + [p], |ps| + 1)
            == RequiredNames(ps, |ps|) + if !p.model.Unsupported? && p.model.required then [p.name] else []
  {
    RequiredBefore(ps, p, |ps|);
  }

  lemma {:induction false} RequiredBefore(ps: seq<Property>, p: Property, n: nat)
    requires n <= |ps|
    ensures RequiredNames(ps + [p], n) == RequiredNames(ps, n)
  {
    if n > 0 {
      RequiredBefore(ps, p, n - 1);
    }
  }

  /** The schema of a whole tool: an object with its properties in order, and with a list of the required ones where the
      parameters themselves are required and the list is not empty. Parameters that are no object have no properties. */
  lemma {:induction false} ReconstructedExactly(m: ParamModel)
    ensures var v := Reconstruct(m);
            && v.Object? && |v.members| >= 2 && v.members[0] == Member("type", String("object"))
            && v.members[1].key == "properties" && v.members[1].value.Object?
            && (m.ObjectParam? ==>
                  var fields := v.members[1].value.members;
                  && |fields| == |m.properties|
                  && forall i | 0 <= i < |fields| ::
                       fields[i] == Member(m.properties[i].name, PrintSingle(m.properties[i].model)))
            && (!m.ObjectParam? ==> v.members[1].value.members == [])
            && v.members[2..] == (if m.ObjectParam? && m.required && AnyRequired(m.properties)
                                  then [Member("required", StringArray(RequiredNames(m.properties, |m.properties|)))]
                                  else [])
  {
    hide PrintSingle, StringArray, RequiredNames, PrintFields, AnyRequired;
    if m.ObjectParam? {
      PrintedFields(m, |m.properties|);
      AnyName(m.properties, |m.properties|);
      assert m.properties[..|m.properties|] == m.properties;
    }
  }
}
