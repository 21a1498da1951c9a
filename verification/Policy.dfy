/** The argument validator: which positions of a call's arguments are missing, mistyped,
    outside their enumeration, or not allowed at all. */
module Policy {
  import opened Wrappers
  import opened Response
  import opened Json
  import opened ToolSpec
  import Decimal
  import V = ResponseValidator

  datatype Kind =
    | MissingRequired
    | WrongType(expected: string, actual: string)
    | ExtraArgument
    | EnumMismatch(allowed: seq<string>)

  datatype PathStep = Field(name: string) | Index(index: nat)

  type Path = seq<PathStep>

  /** A fault and where it is, seen from the value being validated. */
  datatype Found = Found(path: Path, kind: Kind)

  datatype ArgError = ArgError(tool: string, path: Path, kind: Kind)

  // ---------- schemas ----------

  type Schema = Option<Value>

  predicate NotNullType(v: Value) {
    GetString(v, "type") != Some("null")
  }

  /** The first candidate at or after `i` whose type is not null. */
  function FirstNonNull(vs: seq<Value>, i: nat): (p: nat)
    requires i <= |vs|
    ensures i <= p <= |vs| && (p < |vs| ==> NotNullType(vs[p]))
    ensures forall j | i <= j < p :: !NotNullType(vs[j])
    decreases |vs| - i
  {
    if i == |vs| || NotNullType(vs[i]) then i else FirstNonNull(vs, i + 1)
  }

  function StripPrefix(s: string, prefix: string): Option<string> {
    if prefix <= s then Some(s[|prefix|..]) else None
  }

  /** A reference is looked up among the root's definitions, and what it names is not resolved further here. */
  function ResolveRef(reference: string, root: Schema): Schema {
    var name := StripPrefix(reference, "#/$defs/");
    if name.None? || root.None? then None
    else match Get(root.value, "$defs")
      case Some(defs) => Get(defs, name.value)
      case None => None
  }

  function Resolve(schema: Value, root: Schema): Schema
    decreases schema
  {
    match GetString(schema, "$ref")
    case Some(reference) => ResolveRef(reference, root)
    case None =>
      match Get(schema, "anyOf")
      case Some(Array(candidates)) =>
        var p := FirstNonNull(candidates, 0);
        if p < |candidates| then Resolve(candidates[p], root) else None
      case _ => Some(schema)
  }

  function ResolveSchema(schema: Schema, root: Schema): Schema {
    if schema.None? then None else Resolve(schema.value, root)
  }

  predicate AdditionalPropertiesFalse(schema: Schema) {
    schema.Some? && Get(schema.value, "additionalProperties") == Some(Bool(false))
  }

  function PropertySchema(schema: Schema, name: string, root: Schema): Schema {
    match ResolveSchema(schema, root)
    case None => None
    case Some(s) =>
      match Get(s, "properties")
      case None => None
      case Some(properties) => Get(properties, name)
  }

  function ItemSchema(schema: Schema, root: Schema): Schema {
    match ResolveSchema(schema, root)
    case None => None
    case Some(s) => Get(s, "items")
  }

  /** A schema that is neither a reference nor a choice stands for itself. */
  predicate Direct(t: Value) {
    t.Object? && GetString(t, "$ref").None? && Get(t, "anyOf").None?
  }

  /** An optional type is a choice between the type and null, in either order, and resolves to the type. */
  lemma OptionalMeansItsType(t: Value, root: Schema)
    requires Direct(t) && NotNullType(t)
    ensures var nullType := Object([Member("type", String("null"))]);
            && Resolve(Object([Member("anyOf", Array([t, nullType]))]), root) == Some(t)
            && Resolve(Object([Member("anyOf", Array([nullType, t]))]), root) == Some(t)
  {
    var nullType := Object([Member("type", String("null"))]);
    OnlyMember("type", String("null"));
    assert !NotNullType(nullType);
    assert Resolve(t, root) == Some(t);
    assert FirstNonNull([t, nullType], 0) == 0;
    assert FirstNonNull([nullType, t], 1) == 1;
    OnlyMember("anyOf", Array([t, nullType]));
    OnlyMember("anyOf", Array([nullType, t]));
    hide NotNullType, Get;
  }

  lemma OnlyMember(key: string, v: Value)
    ensures forall sought :: Get(Object([Member(key, v)]), sought) == if sought == key then Some(v) else None
  {
    forall sought ensures Lookup([Member(key, v)], sought) == if sought == key then Some(v) else None {
      LookupOne(key, Some(v), sought);
    }
  }

  // ---------- types of values ----------

  function ActualType(v: Value): string {
    match v
    case Null => "null"
    case Bool(_) => "boolean"
    case Number(_) => "number"
    case String(_) => "string"
    case Array(_) => "array"
    case Object(_) => "object"
  }

  /** Digits without a zero in front. */
  predicate PlainDigits(s: string) {
    s != "" && (s[0] == '0' ==> |s| == 1) && forall i | 0 <= i < |s| :: '0' <= s[i] <= '9'
  }

  /** A number that fits a signed or an unsigned 64-bit integer; the reader takes a negative zero for a float. */
  predicate IsInteger(v: Value) {
    v.Number? && v.text != ""
    && if v.text[0] == '-' then PlainDigits(v.text[1..]) && 0 < Decimal.ValueOf(v.text[1..]) <= 0x8000_0000_0000_0000
       else PlainDigits(v.text) && Decimal.ValueOf(v.text) <= 0xffff_ffff_ffff_ffff
  }

  // ---------- the validator as functions ----------

  function Under(step: PathStep, found: seq<Found>): seq<Found> {
    seq(|found|, i requires 0 <= i < |found| => Found([step] + found[i].path, found[i].kind))
  }

  function Mistyped(expected: string, v: Value): seq<Found> {
    [Found([], WrongType(expected, ActualType(v)))]
  }

  function ValueFaults(v: Value, m: ParamModel, schema: Schema, root: Schema): seq<Found>
    decreases m, 1
  {
    match m
    case StringParam(_, _, _, enums) =>
      if !v.String? then Mistyped("string", v)
      else if enums.Some? && v.s !in enums.value then [Found([], EnumMismatch(enums.value))]
      else []
    case NumberParam(_, _, _) => if v.Number? then [] else Mistyped("number", v)
    case BooleanParam(_, _, _) => if v.Bool? then [] else Mistyped("boolean", v)
    case IntegerParam(_, _, _) => if IsInteger(v) then [] else Mistyped("integer", v)
    case ObjectParam(_, _, _) => if !v.Object? then Mistyped("object", v) else ObjectFaults(v.members, m, schema, root)
    case ArrayParam(_, _, _) =>
      if !v.Array? then Mistyped("array", v) else ItemFaults(v.items, m, ItemSchema(schema, root), root, |v.items|)
    case Unsupported(_) => []
  }

  function ItemFaults(vs: seq<Value>, m: ParamModel, itemSchema: Schema, root: Schema, n: nat): seq<Found>
    requires m.ArrayParam? && n <= |vs|
    decreases m, 0, n
  {
    if n == 0 then []
    else
      ItemFaults(vs, m, itemSchema, root, n - 1)
      + Under(Index(n - 1), ValueFaults(vs[n - 1], m.items, itemSchema, root))
  }

  function ObjectFaults(args: Args, m: ParamModel, schema: Schema, root: Schema): seq<Found>
    requires m.ObjectParam?
    decreases m, 0, |m.properties| + 1
  {
    var resolved := ResolveSchema(schema, root);
    PropertyFaults(args, m, resolved, root, |m.properties|)
    + if AdditionalPropertiesFalse(resolved) then Extras(args, m.properties, |args|) else []
  }

  /** The faults of the first `n` properties. */
  function PropertyFaults(args: Args, m: ParamModel, schema: Schema, root: Schema, n: nat): seq<Found>
    requires m.ObjectParam? && n <= |m.properties|
    decreases m, 0, n
  {
    if n == 0 then []
    else PropertyFaults(args, m, schema, root, n - 1) + PropertyFault(args, m, schema, root, n - 1)
  }

  function PropertyFault(args: Args, m: ParamModel, schema: Schema, root: Schema, i: nat): seq<Found>
    requires m.ObjectParam? && i < |m.properties|
    decreases m, 0, i
  {
    var p := m.properties[i];
    match Lookup(args, p.name)
    case Some(v) => Under(Field(p.name), ValueFaults(v, p.model, PropertySchema(schema, p.name, root), root))
    case None => if IsRequired(p.model) then [Found([Field(p.name)], MissingRequired)] else []
  }

  predicate Declares(ps: seq<Property>, name: string) {
    exists i | 0 <= i < |ps| :: ps[i].name == name
  }

  /** The first `n` arguments that no property declares. */
  function Extras(args: Args, ps: seq<Property>, n: nat): seq<Found>
    requires n <= |args|
  {
    if n == 0 then [] else Extras(args, ps, n - 1) + Extra(ps, args[n - 1].key)
  }

  function Extra(ps: seq<Property>, key: string): seq<Found> {
    if Declares(ps, key) then [] else [Found([Field(key)], ExtraArgument)]
  }

  /** A tool's parameter model and the schema it was read from. */
  datatype Spec = Spec(parameters: ParamModel, jsonSchema: Schema)

  function CallFaults(call: ToolCall, spec: Spec): seq<Found> {
    if spec.parameters.ObjectParam?
        then ObjectFaults(call.args, spec.parameters, spec.jsonSchema, spec.jsonSchema) else []
  }

  function Located(tool: string, base: Path, found: seq<Found>): seq<ArgError> {
    seq(|found|, i requires 0 <= i < |found| => ArgError(tool, base + found[i].path, found[i].kind))
  }

  /** The errors of the first `n` calls; calls to tools without a spec have none. */
  function BatchErrors(calls: seq<ToolCall>, specs: map<string, Spec>, n: nat): seq<ArgError>
    requires n <= |calls|
  {
    if n == 0 then []
    else
      var call := calls[n - 1];
      BatchErrors(calls, specs, n - 1)
      + if call.tool in specs then Located(call.tool, [], CallFaults(call, specs[call.tool])) else []
  }

  // ---------- the validator as it runs ----------

  method ValidateValue(tool: string, path: Path, v: Value, m: ParamModel, schema: Schema, root: Schema,
                       errors: seq<ArgError>)
    returns (errors': seq<ArgError>)
    ensures errors' == errors + Located(tool, path, ValueFaults(v, m, schema, root))
    decreases m, 2
  {
    hide Located, ObjectFaults, ItemFaults, IsInteger;
    LocatedNothing(tool, path);
    errors' := errors;
    match m
    case StringParam(_, _, _, enums) =>
      if !v.String? {
        errors' := PushWrongType(tool, path, "string", v, errors);
      } else if enums.Some? && v.s !in enums.value {
        LocatedOne(tool, path, Found([], EnumMismatch(enums.value)));
        errors' := errors + [ArgError(tool, path + [], EnumMismatch(enums.value))];
      }
    case NumberParam(_, _, _) =>
      if !v.Number? {
        errors' := PushWrongType(tool, path, "number", v, errors);
      }
    case BooleanParam(_, _, _) =>
      if !v.Bool? {
        errors' := PushWrongType(tool, path, "boolean", v, errors);
      }
    case IntegerParam(_, _, _) =>
      if !IsInteger(v) {
        errors' := PushWrongType(tool, path, "integer", v, errors);
      }
    case ObjectParam(_, _, _) =>
      if !v.Object? {
        errors' := PushWrongType(tool, path, "object", v, errors);
      } else {
        errors' := ValidateObject(tool, path, v.members, m, schema, root, errors);
      }
    case ArrayParam(_, _, _) =>
      if !v.Array? {
        errors' := PushWrongType(tool, path, "array", v, errors);
      } else {
        errors' := ValidateItems(tool, path, v.items, m, ItemSchema(schema, root), root, errors);
      }
    case Unsupported(_) =>
  }

  method PushWrongType(tool: string, path: Path, expected: string, v: Value, errors: seq<ArgError>)
    returns (errors': seq<ArgError>)
    ensures errors' == errors + Located(tool, path, Mistyped(expected, v))
    decreases 0
  {
    LocatedOne(tool, path, Found([], WrongType(expected, ActualType(v))));
    errors' := errors + [ArgError(tool, path + [], WrongType(expected, ActualType(v)))];
  }

  method ValidateItems(tool: string, path: Path, vs: seq<Value>, m: ParamModel, itemSchema: Schema, root: Schema,
                       errors: seq<ArgError>)
    returns (errors': seq<ArgError>)
    requires m.ArrayParam?
    ensures errors' == errors + Located(tool, path, ItemFaults(vs, m, itemSchema, root, |vs|))
    decreases m, 0
  {
    hide ValueFaults, Located, Under;
    LocatedNothing(tool, path);
    errors' := errors;
    for i := 0 to |vs|
      invariant errors' == errors + Located(tool, path, ItemFaults(vs, m, itemSchema, root, i))
    {
      ghost var inner := ValueFaults(vs[i], m.items, itemSchema, root);
      LocatedMore(errors, tool, path, ItemFaults(vs, m, itemSchema, root, i), Under(Index(i), inner));
      LocatedUnder(tool, path, Index(i), inner);
      errors' := ValidateValue(tool, path + [Index(i)], vs[i], m.items, itemSchema, root, errors');
    }
  }

  method ValidateProperty(tool: string, base: Path, args: Args, m: ParamModel, schema: Schema, root: Schema, i: nat,
                          errors: seq<ArgError>)
    returns (errors': seq<ArgError>)
    requires m.ObjectParam? && i < |m.properties|
    ensures errors' == errors + Located(tool, base, PropertyFault(args, m, schema, root, i))
    decreases m, 0
  {
    hide ValueFaults, Located, Under, PropertySchema;
    var p := m.properties[i];
    match Lookup(args, p.name)
    case Some(v) =>
      var inner := PropertySchema(schema, p.name, root);
      LocatedUnder(tool, base, Field(p.name), ValueFaults(v, p.model, inner, root));
      errors' := ValidateValue(tool, base + [Field(p.name)], v, p.model, inner, root, errors);
    case None =>
      LocatedNothing(tool, base);
      LocatedOne(tool, base, Found([Field(p.name)], MissingRequired));
      errors' := errors + if IsRequired(p.model) then [ArgError(tool, base + [Field(p.name)], MissingRequired)] else [];
  }

  method ValidateObject(tool: string, base: Path, args: Args, m: ParamModel, schema: Schema, root: Schema,
                        errors: seq<ArgError>)
    returns (errors': seq<ArgError>)
    requires m.ObjectParam?
    ensures errors' == errors + Located(tool, base, ObjectFaults(args, m, schema, root))
    decreases m, 1
  {
    hide PropertyFault, ResolveSchema, AdditionalPropertiesFalse, Declares, Located;
    var resolved := ResolveSchema(schema, root);
    LocatedNothing(tool, base);
    errors' := errors;
    for i := 0 to |m.properties|
      invariant errors' == errors + Located(tool, base, PropertyFaults(args, m, resolved, root, i))
    {
      LocatedMore(errors, tool, base, PropertyFaults(args, m, resolved, root, i),
                  PropertyFault(args, m, resolved, root, i));
      errors' := ValidateProperty(tool, base, args, m, resolved, root, i, errors');
    }
    ghost var found := PropertyFaults(args, m, resolved, root, |m.properties|);
    LocatedMore(errors, tool, base, found, Extras(args, m.properties, |args|));
    assert found + [] == found;
    if AdditionalPropertiesFalse(resolved) {
      errors' := ForbidExtras(tool, base, args, m.properties, errors');
    }
  }

  method ForbidExtras(tool: string, base: Path, args: Args, ps: seq<Property>, errors: seq<ArgError>)
    returns (errors': seq<ArgError>)
    ensures errors' == errors + Located(tool, base, Extras(args, ps, |args|))
  {
    hide Declares, Located;
    LocatedNothing(tool, base);
    errors' := errors;
    for i := 0 to |args|
      invariant errors' == errors + Located(tool, base, Extras(args, ps, i))
    {
      var key := args[i].key;
      LocatedMore(errors, tool, base, Extras(args, ps, i), Extra(ps, key));
      LocatedOne(tool, base, Found([Field(key)], ExtraArgument));
      errors' := errors' + if Declares(ps, key) then [] else [ArgError(tool, base + [Field(key)], ExtraArgument)];
    }
  }

  lemma LocatedMore(errors: seq<ArgError>, tool: string, base: Path, a: seq<Found>, b: seq<Found>)
    ensures errors + Located(tool, base, a + b) == errors + Located(tool, base, a) + Located(tool, base, b)
  {
    hide Located;
    LocatedConcat(tool, base, a, b);
  }

  lemma LocatedNothing(tool: string, base: Path)
    ensures Located(tool, base, []) == []
  {
  }

  lemma LocatedOne(tool: string, base: Path, f: Found)
    ensures Located(tool, base, [f]) == [ArgError(tool, base + f.path, f.kind)]
  {
  }

  lemma LocatedConcat(tool: string, base: Path, a: seq<Found>, b: seq<Found>)
    ensures Located(tool, base, a + b) == Located(tool, base, a) + Located(tool, base, b)
  {
  }

  lemma LocatedUnder(tool: string, base: Path, step: PathStep, found: seq<Found>)
    ensures Located(tool, base, Under(step, found)) == Located(tool, base + [step], found)
  {
    forall i | 0 <= i < |found| ensures base + ([step] + found[i].path) == base + [step] + found[i].path {
    }
  }

  method ValidateToolCallBatch(calls: seq<ToolCall>, specs: map<string, Spec>) returns (errors: seq<ArgError>)
    ensures errors == BatchErrors(calls, specs, |calls|)
  {
    hide ObjectFaults;
    errors := [];
    for i := 0 to |calls|
      invariant errors == BatchErrors(calls, specs, i)
    {
      var call := calls[i];
      if call.tool in specs && specs[call.tool].parameters.ObjectParam? {
        var spec := specs[call.tool];
        errors := ValidateObject(call.tool, [], call.args, spec.parameters, spec.jsonSchema, spec.jsonSchema, errors);
      }
    }
  }

  // ---------- what counts as a fault ----------

  /** A value of the wrong type, or a string outside its enumeration. */
  predicate FaultyHere(v: Value, m: ParamModel, kind: Kind) {
    match m
    case StringParam(_, _, _, enums) =>
      if v.String? then enums.Some? && v.s !in enums.value && kind == EnumMismatch(enums.value)
      else kind == WrongType("string", ActualType(v))
    case NumberParam(_, _, _) => !v.Number? && kind == WrongType("number", ActualType(v))
    case BooleanParam(_, _, _) => !v.Bool? && kind == WrongType("boolean", ActualType(v))
    case IntegerParam(_, _, _) => !IsInteger(v) && kind == WrongType("integer", ActualType(v))
    case ObjectParam(_, _, _) => !v.Object? && kind == WrongType("object", ActualType(v))
    case ArrayParam(_, _, _) => !v.Array? && kind == WrongType("array", ActualType(v))
    case Unsupported(_) => false
  }

  /** The value has this fault at this path below it. */
  predicate Faulty(v: Value, m: ParamModel, schema: Schema, root: Schema, path: Path, kind: Kind)
    decreases m, 1
  {
    if path == [] then FaultyHere(v, m, kind)
    else if m.ObjectParam? && v.Object? then FaultyMember(v.members, m, ResolveSchema(schema, root), root, path, kind)
    else
      m.ArrayParam? && v.Array? && path[0].Index? && path[0].index < |v.items|
      && Faulty(v.items[path[0].index], m.items, ItemSchema(schema, root), root, path[1..], kind)
  }

  /** An argument that is faulty itself, that is required and missing, or that nothing declares where nothing more is
      allowed. */
  predicate FaultyMember(args: Args, m: ParamModel, resolved: Schema, root: Schema, path: Path, kind: Kind)
    requires m.ObjectParam? && path != []
    decreases m, 0
  {
    path[0].Field?
    && var name, rest := path[0].name, path[1..];
       if Declares(m.properties, name) then
         exists i | 0 <= i < |m.properties| ::
           var p := m.properties[i];
           p.name == name
           && match Lookup(args, name)
              case Some(v) => Faulty(v, p.model, PropertySchema(resolved, name, root), root, rest, kind)
              case None => IsRequired(p.model) && rest == [] && kind == MissingRequired
       else AdditionalPropertiesFalse(resolved) && Lookup(args, name).Some? && rest == [] && kind == ExtraArgument
  }

  lemma UnderExactly(step: PathStep, found: seq<Found>, path: Path, kind: Kind)
    ensures Found(path, kind) in Under(step, found)
            <==> path != [] && path[0] == step && Found(path[1..], kind) in found
  {
    var u := Under(step, found);
    if Found(path, kind) in u {
      var i :| 0 <= i < |u| && u[i] == Found(path, kind);
      assert path[1..] == found[i].path;
    }
    if path != [] && path[0] == step && Found(path[1..], kind) in found {
      var i :| 0 <= i < |found| && found[i] == Found(path[1..], kind);
      assert u[i].path == [step] + path[1..] == path;
    }
  }

  lemma InConcat(a: seq<Found>, b: seq<Found>, f: Found)
    ensures f in a + b <==> f in a || f in b
  {
  }

  lemma {:induction false} ItemFaultsExactly(vs: seq<Value>, m: ParamModel, itemSchema: Schema, root: Schema, n: nat,
                                             path: Path, kind: Kind)
    requires m.ArrayParam? && n <= |vs|
    ensures Found(path, kind) in ItemFaults(vs, m, itemSchema, root, n)
            <==> path != [] && path[0].Index? && path[0].index < n
                 && Found(path[1..], kind) in ValueFaults(vs[path[0].index], m.items, itemSchema, root)
  {
    hide ValueFaults, Under;
    if n > 0 {
      var inner := ValueFaults(vs[n - 1], m.items, itemSchema, root);
      ItemFaultsExactly(vs, m, itemSchema, root, n - 1, path, kind);
      UnderExactly(Index(n - 1), inner, path, kind);
      InConcat(ItemFaults(vs, m, itemSchema, root, n - 1), Under(Index(n - 1), inner), Found(path, kind));
    }
  }

  /** The fault is one that property `i` reports. */
  predicate ReportsProperty(args: Args, m: ParamModel, schema: Schema, root: Schema, i: nat, path: Path, kind: Kind)
    requires m.ObjectParam? && i < |m.properties|
  {
    var p := m.properties[i];
    path != [] && path[0] == Field(p.name)
    && match Lookup(args, p.name)
       case Some(v) => Found(path[1..], kind) in ValueFaults(v, p.model, PropertySchema(schema, p.name, root), root)
       case None => IsRequired(p.model) && path[1..] == [] && kind == MissingRequired
  }

  lemma PropertyFaultExactly(args: Args, m: ParamModel, schema: Schema, root: Schema, i: nat, path: Path, kind: Kind)
    requires m.ObjectParam? && i < |m.properties|
    ensures Found(path, kind) in PropertyFault(args, m, schema, root, i)
            <==> ReportsProperty(args, m, schema, root, i, path, kind)
  {
    hide ValueFaults, Under, PropertySchema;
    var p := m.properties[i];
    if Lookup(args, p.name).Some? {
      UnderExactly(Field(p.name),
                   ValueFaults(Lookup(args, p.name).value, p.model, PropertySchema(schema, p.name, root), root), path,
                       kind);
    } else {
      assert path != [] ==> (path == [path[0]] <==> path[1..] == []);
    }
  }

  lemma {:induction false} PropertyFaultsExactly(args: Args, m: ParamModel, schema: Schema, root: Schema, n: nat,
                                                 path: Path, kind: Kind)
    requires m.ObjectParam? && n <= |m.properties|
    ensures Found(path, kind) in PropertyFaults(args, m, schema, root, n)
            <==> exists i | 0 <= i < n :: ReportsProperty(args, m, schema, root, i, path, kind)
  {
    hide PropertyFault, ReportsProperty;
    if n > 0 {
      PropertyFaultsExactly(args, m, schema, root, n - 1, path, kind);
      PropertyFaultExactly(args, m, schema, root, n - 1, path, kind);
      InConcat(PropertyFaults(args, m, schema, root, n - 1), PropertyFault(args, m, schema, root, n - 1),
               Found(path, kind));
    }
  }

  predicate IsExtra(args: Args, ps: seq<Property>, n: nat, path: Path, kind: Kind)
    requires n <= |args|
  {
    kind == ExtraArgument && |path| == 1 && path[0].Field? && !Declares(ps, path[0].name)
    && exists i | 0 <= i < n :: args[i].key == path[0].name
  }

  lemma {:induction false} ExtrasExactly(args: Args, ps: seq<Property>, n: nat, path: Path, kind: Kind)
    requires n <= |args|
    ensures Found(path, kind) in Extras(args, ps, n) <==> IsExtra(args, ps, n, path, kind)
  {
    hide Declares;
    if n > 0 {
      ExtrasExactly(args, ps, n - 1, path, kind);
      InConcat(Extras(args, ps, n - 1), Extra(ps, args[n - 1].key), Found(path, kind));
      assert |path| == 1 ==> path == [path[0]];
    }
  }

  lemma GivenExactly(args: Args, name: string)
    ensures Lookup(args, name).Some? <==> exists i | 0 <= i < |args| :: args[i].key == name
  {
  }

  /** The fault is one that property `i` has. */
  predicate HasProperty(args: Args, m: ParamModel, resolved: Schema, root: Schema, i: nat, path: Path, kind: Kind)
    requires m.ObjectParam? && i < |m.properties|
  {
    var p := m.properties[i];
    path != [] && path[0] == Field(p.name)
    && match Lookup(args, p.name)
       case Some(v) => Faulty(v, p.model, PropertySchema(resolved, p.name, root), root, path[1..], kind)
       case None => IsRequired(p.model) && path[1..] == [] && kind == MissingRequired
  }

  lemma FaultyMemberIs(args: Args, m: ParamModel, resolved: Schema, root: Schema, path: Path, kind: Kind)
    requires m.ObjectParam? && path != []
    ensures FaultyMember(args, m, resolved, root, path, kind) <==>
              || (exists i | 0 <= i < |m.properties| :: HasProperty(args, m, resolved, root, i, path, kind))
              || (AdditionalPropertiesFalse(resolved) && IsExtra(args, m.properties, |args|, path, kind))
  {
    hide Faulty, PropertySchema, AdditionalPropertiesFalse, Lookup;
    if path[0].Field? {
      GivenExactly(args, path[0].name);
      MemberByName(args, m, resolved, root, path, kind);
    }
    hide FaultyMember;
  }

  lemma MemberByName(args: Args, m: ParamModel, resolved: Schema, root: Schema, path: Path, kind: Kind)
    requires m.ObjectParam? && path != [] && path[0].Field?
    ensures FaultyMember(args, m, resolved, root, path, kind) <==>
              if Declares(m.properties, path[0].name)
              then exists i | 0 <= i < |m.properties| :: HasProperty(args, m, resolved, root, i, path, kind)
              else AdditionalPropertiesFalse(resolved) && Lookup(args, path[0].name).Some? && |path| == 1
                   && kind == ExtraArgument
    ensures !Declares(m.properties, path[0].name) ==>
              forall i | 0 <= i < |m.properties| :: !HasProperty(args, m, resolved, root, i, path, kind)
  {
    hide PropertySchema, AdditionalPropertiesFalse, Lookup;
    var name, rest := path[0].name, path[1..];
    if Declares(m.properties, name) && FaultyMember(args, m, resolved, root, path, kind) {
      var i :| 0 <= i < |m.properties| && m.properties[i].name == name
               && match Lookup(args, name)
                  case Some(v) => Faulty(v, m.properties[i].model, PropertySchema(resolved, name, root), root, rest,
                                         kind)
                  case None => IsRequired(m.properties[i].model) && rest == [] && kind == MissingRequired;
      assert HasProperty(args, m, resolved, root, i, path, kind);
    }
    if i: int :| 0 <= i < |m.properties| && HasProperty(args, m, resolved, root, i, path, kind) {
      assert m.properties[i].name == name;
    }
  }

  /** Where every property's own faults are exact, the object's are. */
  lemma MemberExactly(args: Args, m: ParamModel, schema: Schema, root: Schema, path: Path, kind: Kind)
    requires m.ObjectParam? && path != []
    requires var resolved := ResolveSchema(schema, root);
             forall i | 0 <= i < |m.properties| ::
               ReportsProperty(args, m, resolved, root, i, path, kind)
               <==> HasProperty(args, m, resolved, root, i, path, kind)
    ensures Found(path, kind) in ObjectFaults(args, m, schema, root)
            <==> FaultyMember(args, m, ResolveSchema(schema, root), root, path, kind)
  {
    hide PropertySchema, ResolveSchema, AdditionalPropertiesFalse, PropertyFaults, Extras, Lookup, ReportsProperty,
         HasProperty, IsExtra, FaultyMember;
    var resolved := ResolveSchema(schema, root);
    var ps := m.properties;
    PropertyFaultsExactly(args, m, resolved, root, |ps|, path, kind);
    ExtrasExactly(args, ps, |args|, path, kind);
    InConcat(PropertyFaults(args, m, resolved, root, |ps|), Extras(args, ps, |args|), Found(path, kind));
    assert PropertyFaults(args, m, resolved, root, |ps|) + [] == PropertyFaults(args, m, resolved, root, |ps|);
    FaultyMemberIs(args, m, resolved, root, path, kind);
  }

  lemma ReportsIffHas(args: Args, m: ParamModel, resolved: Schema, root: Schema, i: nat, path: Path, kind: Kind)
    requires m.ObjectParam? && i < |m.properties| && path != []
    requires var p := m.properties[i];
             Lookup(args, p.name).Some? ==>
               var v, inner := Lookup(args, p.name).value, PropertySchema(resolved, p.name, root);
               (Found(path[1..], kind) in ValueFaults(v, p.model, inner, root)
                <==> Faulty(v, p.model, inner, root, path[1..], kind))
    ensures ReportsProperty(args, m, resolved, root, i, path, kind)
            <==> HasProperty(args, m, resolved, root, i, path, kind)
  {
    hide ValueFaults, Faulty, PropertySchema, Lookup;
  }

  /** The list is exactly the faults: nothing is reported that is not there, and nothing that is there is left out. */
  lemma {:induction false} FaultsExactly(v: Value, m: ParamModel, schema: Schema, root: Schema, path: Path, kind: Kind)
    ensures Found(path, kind) in ValueFaults(v, m, schema, root) <==> Faulty(v, m, schema, root, path, kind)
    decreases m
  {
    if m.ObjectParam? && v.Object? {
      if path != [] {
        var resolved := ResolveSchema(schema, root);
        forall i | 0 <= i < |m.properties|
          ensures ReportsProperty(v.members, m, resolved, root, i, path, kind)
                  <==> HasProperty(v.members, m, resolved, root, i, path, kind)
        {
          var p := m.properties[i];
          var w := Lookup(v.members, p.name);
          if w.Some? {
            FaultsExactly(w.value, p.model, PropertySchema(resolved, p.name, root), root, path[1..], kind);
          }
          ReportsIffHas(v.members, m, resolved, root, i, path, kind);
        }
        MemberExactly(v.members, m, schema, root, path, kind);
        hide ObjectFaults, FaultyMember;
      } else {
        NoFaultHere(v.members, m, schema, root, kind);
        hide ObjectFaults;
      }
    } else if m.ArrayParam? && v.Array? {
      ItemFaultsExactly(v.items, m, ItemSchema(schema, root), root, |v.items|, path, kind);
      if path != [] && path[0].Index? && path[0].index < |v.items| {
        FaultsExactly(v.items[path[0].index], m.items, ItemSchema(schema, root), root, path[1..], kind);
      }
      hide ItemFaults, ItemSchema;
    } else {
      hide ObjectFaults, ItemFaults;
    }
  }

  lemma NoFaultHere(args: Args, m: ParamModel, schema: Schema, root: Schema, kind: Kind)
    requires m.ObjectParam?
    ensures Found([], kind) !in ObjectFaults(args, m, schema, root)
  {
    hide PropertyFaults, Extras, ResolveSchema, AdditionalPropertiesFalse;
    var resolved := ResolveSchema(schema, root);
    PropertyFaultsExactly(args, m, resolved, root, |m.properties|, [], kind);
    ExtrasExactly(args, m.properties, |args|, [], kind);
  }

  // ---------- which scalars are faulty ----------

  /** The text of an integer: its sign and the decimal digits of its size. */
  function IntegerText(n: int): string {
    if n < 0 then "-" + Decimal.Digits(-n) else Decimal.Digits(n)
  }

  ghost predicate TextOfInteger(text: string) {
    exists n: int :: -0x8000_0000_0000_0000 <= n < 0x1_0000_0000_0000_0000 && text == IntegerText(n)
  }

  lemma IntegerTextIsInteger(n: int)
    requires -0x8000_0000_0000_0000 <= n < 0x1_0000_0000_0000_0000
    ensures IsInteger(Number(IntegerText(n)))
  {
    var size := if n < 0 then -n else n;
    Decimal.ValueOfDigits(size);
    Decimal.DigitsPlain(size);
    assert forall i | 0 <= i < |Decimal.Digits(size)| :: Decimal.Digits(size)[i] in Decimal.Digits(size);
    assert n < 0 ==> IntegerText(n)[1..] == Decimal.Digits(size);
  }

  lemma IntegerHasText(text: string)
    requires IsInteger(Number(text))
    ensures TextOfInteger(text)
  {
    var digits := if text[0] == '-' then text[1..] else text;
    var size: int := Decimal.ValueOf(digits);
    Decimal.DigitsOfValue(digits);
    var n := if text[0] == '-' then -size else size;
    assert text[0] == '-' ==> text == "-" + text[1..];
    assert text == IntegerText(n);
  }

  /** A number is free of faults as an integer exactly when it is the text of a 64-bit integer, signed or unsigned;
      otherwise its one fault is that it is a number and no integer. */
  lemma IntegersExactly(text: string, m: ParamModel, schema: Schema, root: Schema)
    requires m.IntegerParam?
    ensures ValueFaults(Number(text), m, schema, root)
            == if TextOfInteger(text) then [] else [Found([], WrongType("integer", "number"))]
  {
    if IsInteger(Number(text)) {
      IntegerHasText(text);
    }
    if TextOfInteger(text) {
      var n: int :| -0x8000_0000_0000_0000 <= n < 0x1_0000_0000_0000_0000 && text == IntegerText(n);
      IntegerTextIsInteger(n);
    }
  }

  /** A fraction or an exponent makes no integer, whatever its value. */
  lemma FractionsAreNoIntegers(text: string, m: ParamModel, schema: Schema, root: Schema)
    requires m.IntegerParam? && exists c | c in text :: c in ".eE"
    ensures ValueFaults(Number(text), m, schema, root) == [Found([], WrongType("integer", "number"))]
  {
    if IsInteger(Number(text)) {
      IntegerHasNoPoint(text);
    }
  }

  lemma IntegerHasNoPoint(text: string)
    requires IsInteger(Number(text))
    ensures forall c | c in text :: c !in ".eE"
  {
    assert text[0] == '-' ==> forall i | 1 <= i < |text| :: text[i] == text[1..][i - 1];
  }

  /** Which JSON values each scalar type takes, and what any other is reported as. */
  lemma ScalarFaultsExactly(v: Value, m: ParamModel, schema: Schema, root: Schema)
    ensures var actual := match v
              case Null => "null" case Bool(_) => "boolean" case Number(_) => "number"
              case String(_) => "string" case Array(_) => "array" case Object(_) => "object";
            var found := ValueFaults(v, m, schema, root);
            match m
            case StringParam(_, _, _, None) => found == if v.String?
                then [] else [Found([], WrongType("string", actual))]
            case StringParam(_, _, _, Some(allowed)) =>
              found == if !v.String? then [Found([], WrongType("string", actual))]
                       else if v.s in allowed then [] else [Found([], EnumMismatch(allowed))]
            case NumberParam(_, _, _) => found == if v.Number? then [] else [Found([], WrongType("number", actual))]
            case BooleanParam(_, _, _) => found == if v.Bool? then [] else [Found([], WrongType("boolean", actual))]
            case IntegerParam(_, _, _) => !v.Number? ==> found == [Found([], WrongType("integer", actual))]
            case ObjectParam(_, _, _) => !v.Object? ==> found == [Found([], WrongType("object", actual))]
            case ArrayParam(_, _, _) => !v.Array? ==> found == [Found([], WrongType("array", actual))]
            case Unsupported(_) => found == []
  {
    hide ItemFaults, ObjectFaults;
  }

  // ---------- conforming arguments ----------

  /** The value is of its type, its strings are among those allowed, nothing required is missing,
      nothing extra is given where extras are forbidden, and all this holds at every depth. */
  predicate Conforms(v: Value, m: ParamModel, schema: Schema, root: Schema)
    decreases m, 1
  {
    match m
    case StringParam(_, _, _, enums) => v.String? && (enums.Some? ==> v.s in enums.value)
    case NumberParam(_, _, _) => v.Number?
    case BooleanParam(_, _, _) => v.Bool?
    case IntegerParam(_, _, _) => IsInteger(v)
    case ObjectParam(_, _, _) => v.Object? && ObjectConforms(v.members, m, schema, root)
    case ArrayParam(_, _, items) =>
      v.Array? && forall i | 0 <= i < |v.items| :: Conforms(v.items[i], items, ItemSchema(schema, root), root)
    case Unsupported(_) => true
  }

  predicate ObjectConforms(args: Args, m: ParamModel, schema: Schema, root: Schema)
    requires m.ObjectParam?
    decreases m, 0
  {
    var resolved := ResolveSchema(schema, root);
    && (forall i | 0 <= i < |m.properties| ::
          var p := m.properties[i];
          match Lookup(args, p.name)
          case Some(v) => Conforms(v, p.model, PropertySchema(resolved, p.name, root), root)
          case None => !IsRequired(p.model))
    && (AdditionalPropertiesFalse(resolved) ==> forall i | 0 <= i < |args| :: Declares(m.properties, args[i].key))
  }

  lemma {:induction false} NoItemFaults(vs: seq<Value>, m: ParamModel, itemSchema: Schema, root: Schema, n: nat)
    requires m.ArrayParam? && n <= |vs|
    ensures ItemFaults(vs, m, itemSchema, root, n) == [] <==>
            forall i | 0 <= i < n :: ValueFaults(vs[i], m.items, itemSchema, root) == []
  {
    hide ValueFaults;
    if n > 0 {
      NoItemFaults(vs, m, itemSchema, root, n - 1);
      var inner := ValueFaults(vs[n - 1], m.items, itemSchema, root);
      assert |Under(Index(n - 1), inner)| == |inner|;
    }
  }

  predicate PropertyClean(args: Args, m: ParamModel, schema: Schema, root: Schema, i: nat)
    requires m.ObjectParam? && i < |m.properties|
  {
    PropertyFault(args, m, schema, root, i) == []
  }

  lemma {:induction false} NoPropertyFaults(args: Args, m: ParamModel, schema: Schema, root: Schema, n: nat)
    requires m.ObjectParam? && n <= |m.properties|
    ensures PropertyFaults(args, m, schema, root, n) == [] <==>
            forall i | 0 <= i < n :: PropertyClean(args, m, schema, root, i)
  {
    if n > 0 {
      NoPropertyFaults(args, m, schema, root, n - 1);
      var a, b := PropertyFaults(args, m, schema, root, n - 1), PropertyFault(args, m, schema, root, n - 1);
      assert PropertyFaults(args, m, schema, root, n) == a + b;
      NothingInConcat(a, b);
      assert PropertyClean(args, m, schema, root, n - 1) <==> b == [];
    }
  }

  lemma NothingInConcat(a: seq<Found>, b: seq<Found>)
    ensures a + b == [] <==> a == [] && b == []
  {
    assert |a + b| == |a| + |b|;
  }

  lemma ExtraNone(ps: seq<Property>, key: string)
    ensures Extra(ps, key) == [] <==> Declares(ps, key)
  {
    hide Declares;
  }

  lemma {:induction false} NoExtras(args: Args, ps: seq<Property>, n: nat)
    requires n <= |args|
    ensures Extras(args, ps, n) == [] <==> forall i | 0 <= i < n :: Declares(ps, args[i].key)
  {
    hide Declares, Extra;
    if n > 0 {
      NoExtras(args, ps, n - 1);
      ExtraNone(ps, args[n - 1].key);
      NothingInConcat(Extras(args, ps, n - 1), Extra(ps, args[n - 1].key));
    }
  }

  /** There is nothing to report exactly when the value conforms. */
  lemma {:induction false} CleanIffConforms(v: Value, m: ParamModel, schema: Schema, root: Schema)
    ensures ValueFaults(v, m, schema, root) == [] <==> Conforms(v, m, schema, root)
    decreases m, 1
  {
    match m
    case ObjectParam(_, _, _) =>
      if v.Object? {
        ObjectCleanIffConforms(v.members, m, schema, root);
        hide ObjectFaults, ObjectConforms;
      }
    case ArrayParam(_, _, items) =>
      if v.Array? {
        var inner := ItemSchema(schema, root);
        NoItemFaults(v.items, m, inner, root, |v.items|);
        forall i | 0 <= i < |v.items| ensures ValueFaults(v.items[i], items, inner, root) == []
            <==> Conforms(v.items[i], items, inner, root) {
          CleanIffConforms(v.items[i], items, inner, root);
        }
        hide ItemFaults, ItemSchema;
      }
    case _ =>
  }

  predicate PropertyConforms(args: Args, m: ParamModel, schema: Schema, root: Schema, i: nat)
    requires m.ObjectParam? && i < |m.properties|
  {
    var p := m.properties[i];
    match Lookup(args, p.name)
    case Some(v) => Conforms(v, p.model, PropertySchema(schema, p.name, root), root)
    case None => !IsRequired(p.model)
  }

  lemma {:induction false} ObjectConformsIs(args: Args, m: ParamModel, schema: Schema, root: Schema)
    requires m.ObjectParam?
    ensures var resolved := ResolveSchema(schema, root);
            ObjectConforms(args, m, schema, root) <==>
              && (forall i | 0 <= i < |m.properties| :: PropertyConforms(args, m, resolved, root, i))
              && (AdditionalPropertiesFalse(resolved) ==>
                  forall i | 0 <= i < |args| :: Declares(m.properties, args[i].key))
  {
    hide PropertySchema, ResolveSchema, AdditionalPropertiesFalse, Declares, Lookup;
    var resolved := ResolveSchema(schema, root);
    if ObjectConforms(args, m, schema, root) {
      assert forall i | 0 <= i < |m.properties| :: PropertyConforms(args, m, resolved, root, i);
    }
    if forall i | 0 <= i < |m.properties| :: PropertyConforms(args, m, resolved, root, i) {
      forall i | 0 <= i < |m.properties|
        ensures match Lookup(args, m.properties[i].name)
                case Some(v) => Conforms(v, m.properties[i].model,
                                         PropertySchema(resolved, m.properties[i].name, root), root)
                case None => !IsRequired(m.properties[i].model)
      {
        assert PropertyConforms(args, m, resolved, root, i);
      }
    }
  }

  lemma {:induction false} ObjectCleanIffConforms(args: Args, m: ParamModel, schema: Schema, root: Schema)
    requires m.ObjectParam?
    ensures ObjectFaults(args, m, schema, root) == [] <==> ObjectConforms(args, m, schema, root)
    decreases m, 0
  {
    hide PropertySchema, ResolveSchema, AdditionalPropertiesFalse, Declares, PropertyFaults, Extras, Lookup,
         PropertyClean, PropertyConforms, ObjectConforms;
    var resolved := ResolveSchema(schema, root);
    NoPropertyFaults(args, m, resolved, root, |m.properties|);
    NoExtras(args, m.properties, |args|);
    ObjectConformsIs(args, m, schema, root);
    forall i | 0 <= i < |m.properties|
      ensures PropertyClean(args, m, resolved, root, i) <==> PropertyConforms(args, m, resolved, root, i)
    {
      var p := m.properties[i];
      if Lookup(args, p.name).Some? {
        CleanIffConforms(Lookup(args, p.name).value, p.model, PropertySchema(resolved, p.name, root), root);
      }
      PropertyCleanIffConforms(args, m, resolved, root, i);
    }
  }

  lemma PropertyCleanIffConforms(args: Args, m: ParamModel, schema: Schema, root: Schema, i: nat)
    requires m.ObjectParam? && i < |m.properties|
    requires var p := m.properties[i];
             Lookup(args, p.name).Some? ==>
               var v, inner := Lookup(args, p.name).value, PropertySchema(schema, p.name, root);
               (ValueFaults(v, p.model, inner, root) == [] <==> Conforms(v, p.model, inner, root))
    ensures PropertyClean(args, m, schema, root, i) <==> PropertyConforms(args, m, schema, root, i)
  {
    hide ValueFaults, Conforms, PropertySchema, Lookup, Under;
    var p := m.properties[i];
    if Lookup(args, p.name).Some? {
      UnderLength(Field(p.name),
                  ValueFaults(Lookup(args, p.name).value, p.model, PropertySchema(schema, p.name, root), root));
    }
  }

  lemma UnderLength(step: PathStep, found: seq<Found>)
    ensures Under(step, found) == [] <==> found == []
  {
    assert |Under(step, found)| == |found|;
  }

  // ---------- calls and batches ----------

  predicate CallConforms(call: ToolCall, spec: Spec) {
    spec.parameters.ObjectParam? ==> ObjectConforms(call.args, spec.parameters, spec.jsonSchema, spec.jsonSchema)
  }

  /** The faults of a call are those of its arguments taken as one object. */
  lemma CallFaultsExactly(call: ToolCall, spec: Spec, path: Path, kind: Kind)
    ensures Found(path, kind) in CallFaults(call, spec)
            <==> spec.parameters.ObjectParam?
                 && Faulty(Object(call.args), spec.parameters, spec.jsonSchema, spec.jsonSchema, path, kind)
  {
    if spec.parameters.ObjectParam? {
      FaultsExactly(Object(call.args), spec.parameters, spec.jsonSchema, spec.jsonSchema, path, kind);
      assert ValueFaults(Object(call.args), spec.parameters, spec.jsonSchema, spec.jsonSchema)
          == ObjectFaults(call.args, spec.parameters, spec.jsonSchema, spec.jsonSchema);
    }
  }

  /** A batch is clean exactly when every call to a known tool conforms to its tool's parameters. */
  lemma {:induction false} BatchCleanIffConforms(calls: seq<ToolCall>, specs: map<string, Spec>, n: nat)
    requires n <= |calls|
    ensures BatchErrors(calls, specs, n) == []
            <==> forall i | 0 <= i < n && calls[i].tool in specs :: CallConforms(calls[i], specs[calls[i].tool])
  {
    hide ObjectFaults, ObjectConforms;
    if n > 0 {
      BatchCleanIffConforms(calls, specs, n - 1);
      var call := calls[n - 1];
      if call.tool in specs {
        var spec := specs[call.tool];
        assert |Located(call.tool, [], CallFaults(call, spec))| == |CallFaults(call, spec)|;
        if spec.parameters.ObjectParam? {
          ObjectCleanIffConforms(call.args, spec.parameters, spec.jsonSchema, spec.jsonSchema);
        }
      }
    }
  }

  /** The errors of a batch name exactly the faults of its calls to known tools. */
  lemma {:induction false} BatchErrorsExactly(calls: seq<ToolCall>, specs: map<string, Spec>, n: nat, e: ArgError)
    requires n <= |calls|
    ensures e in BatchErrors(calls, specs, n)
            <==> exists i | 0 <= i < n ::
                   calls[i].tool == e.tool && e.tool in specs
                       && Found(e.path, e.kind) in CallFaults(calls[i], specs[e.tool])
  {
    hide CallFaults;
    if n > 0 {
      BatchErrorsExactly(calls, specs, n - 1, e);
      var call := calls[n - 1];
      if call.tool in specs {
        LocatedExactly(call.tool, CallFaults(call, specs[call.tool]), e);
      }
    }
  }

  lemma LocatedExactly(tool: string, found: seq<Found>, e: ArgError)
    ensures e in Located(tool, [], found) <==> e.tool == tool && Found(e.path, e.kind) in found
  {
    var l := Located(tool, [], found);
    assert forall i | 0 <= i < |l| :: l[i] == ArgError(tool, found[i].path, found[i].kind);
    if e.tool == tool && Found(e.path, e.kind) in found {
      var i :| 0 <= i < |found| && found[i] == Found(e.path, e.kind);
      assert l[i] == e;
    }
  }

  /** The validator the runner builds from its tools' specs. */
  function SchemaAware(specs: map<string, Spec>, rescueEnabled: bool, rescue: string -> seq<ToolCall>): V.Validator {
    V.Validator(specs.Keys, (calls: seq<ToolCall>) => BatchErrors(calls, specs, |calls|) == [], rescueEnabled, rescue)
  }

  /** An answer of calls gets past that validator exactly when it is not empty, every tool is known, and every
      call conforms; of rescued text nothing of the kind holds. */
  lemma AcceptedCallsConform(specs: map<string, Spec>, rescueEnabled: bool, rescue: string -> seq<ToolCall>,
                             calls: seq<ToolCall>)
    requires calls != []
    ensures V.Validate(SchemaAware(specs, rescueEnabled, rescue), ToolCalls(calls)) == Ok(calls)
            <==> forall i | 0 <= i < |calls| :: calls[i].tool in specs && CallConforms(calls[i], specs[calls[i].tool])
  {
    hide BatchErrors, CallConforms;
    BatchCleanIffConforms(calls, specs, |calls|);
    V.ValidExactly(SchemaAware(specs, rescueEnabled, rescue), ToolCalls(calls));
    hide V.Validate;
  }
}
