/** What the keywords of a schema mean to the argument validator, read off the members of the schema. */
module Keywords {
  import opened Wrappers
  import opened Response
  import opened Json
  import opened ToolSpec
  import opened Policy
  import Flatten

  /** What an object lists under a name, in the object it has under a key. */
  function Listed(ms: seq<Member>, key: string, name: string): Schema {
    match Lookup(ms, key)
    case Some(Object(listed)) => Lookup(listed, name)
    case _ => None
  }

  // ---------- resolving ----------

  predicate TypedNull(v: Value) {
    v.Object? && Lookup(v.members, "type") == Some(String("null"))
  }

  predicate IsReference(s: seq<Member>) {
    Lookup(s, "$ref").Some? && Lookup(s, "$ref").value.String?
  }

  predicate IsChoice(s: seq<Member>) {
    !IsReference(s) && Lookup(s, "anyOf").Some? && Lookup(s, "anyOf").value.Array?
  }

  /** A reference into the definitions stands for what is defined under its name, and any other for nothing. */
  lemma ReferencesMean(s: seq<Member>, reference: string, root: seq<Member>)
    requires Lookup(s, "$ref") == Some(String(reference))
    ensures Resolve(Object(s), None) == None
    ensures !("#/$defs/" <= reference) ==> Resolve(Object(s), Some(Object(root))) == None
    ensures forall name | reference == "#/$defs/" + name ::
              Resolve(Object(s), Some(Object(root))) == Listed(root, "$defs", name)
  {
    hide Lookup;
    forall name | reference == "#/$defs/" + name
      ensures Resolve(Object(s), Some(Object(root))) == Listed(root, "$defs", name)
    {
      assert reference[|"#/$defs/"|..] == name;
    }
  }

  /** A choice stands for what its first candidate of another type than null stands for. */
  lemma ChoicesMean(s: seq<Member>, candidates: seq<Value>, i: nat, root: Schema)
    requires !IsReference(s) && Lookup(s, "anyOf") == Some(Array(candidates)) && i <= |candidates|
    requires forall k | 0 <= k < i :: TypedNull(candidates[k])
    ensures i == |candidates| ==> Resolve(Object(s), root) == None
    ensures i < |candidates| && !TypedNull(candidates[i]) ==> Resolve(Object(s), root) == Resolve(candidates[i], root)
  {
    hide Lookup;
    forall k | 0 <= k < |candidates| ensures NotNullType(candidates[k]) <==> !TypedNull(candidates[k]) {
    }
    hide NotNullType, TypedNull;
    if i == |candidates| || NotNullType(candidates[i]) {
      FirstIs(candidates, i);
    }
  }

  lemma FirstIs(vs: seq<Value>, i: nat)
    requires i <= |vs| && (i < |vs| ==> NotNullType(vs[i])) && forall k | 0 <= k < i :: !NotNullType(vs[k])
    ensures FirstNonNull(vs, 0) == i
  {
    hide NotNullType;
    assert FirstNonNull(vs, 0) == i;
  }

  /** Every other object stands for itself. */
  lemma OthersMeanThemselves(s: seq<Member>, root: Schema)
    requires !IsReference(s) && !IsChoice(s)
    ensures Resolve(Object(s), root) == Some(Object(s))
  {
    hide Lookup;
  }

  // ---------- objects and arrays ----------

  /** What property `i` contributes: the faults of the argument it is given, or that it is required and missing. */
  predicate Contributes(args: Args, p: Property, s: seq<Member>, root: Schema, rest: Path, kind: Kind) {
    match Lookup(args, p.name)
    case Some(v) => Found(rest, kind) in ValueFaults(v, p.model, Listed(s, "properties", p.name), root)
    case None => !p.model.Unsupported? && p.model.required && rest == [] && kind == MissingRequired
  }

  lemma ContributesIs(args: Args, m: ParamModel, s: seq<Member>, root: Schema, i: nat, rest: Path, kind: Kind)
    requires m.ObjectParam? && i < |m.properties| && !IsReference(s) && !IsChoice(s)
    ensures var p := m.properties[i];
            ReportsProperty(args, m, Some(Object(s)), root, i, [Field(p.name)] + rest, kind)
            <==> Contributes(args, p, s, root, rest, kind)
  {
    OthersMeanThemselves(s, root);
    var p := m.properties[i];
    assert ([Field(p.name)] + rest)[1..] == rest;
    hide Lookup, ValueFaults, Resolve;
    assert PropertySchema(Some(Object(s)), p.name, root) == Listed(s, "properties", p.name);
  }

  /** Every fault of an object is below one of its keys: of a declared one, what its properties contribute; of any
      other, that it was given although `additionalProperties` is false. */
  lemma ObjectFaultsMean(args: Args, m: ParamModel, s: seq<Member>, root: Schema, key: string, rest: Path, kind: Kind)
    requires m.ObjectParam? && !IsReference(s) && !IsChoice(s)
    ensures Found([Field(key)] + rest, kind) in ObjectFaults(args, m, Some(Object(s)), root) <==>
              || (exists i | 0 <= i < |m.properties| ::
                    m.properties[i].name == key && Contributes(args, m.properties[i], s, root, rest, kind))
              || (&& (forall i | 0 <= i < |m.properties| :: m.properties[i].name != key)
                  && rest == [] && kind == ExtraArgument && (exists i | 0 <= i < |args| :: args[i].key == key)
                  && Lookup(s, "additionalProperties") == Some(Bool(false)))
  {
    var path, t := [Field(key)] + rest, Some(Object(s));
    OthersMeanThemselves(s, root);
    PropertyFaultsExactly(args, m, t, root, |m.properties|, path, kind);
    ExtrasExactly(args, m.properties, |args|, path, kind);
    assert path[0] == Field(key) && (|path| == 1 <==> rest == []);
    forall i | 0 <= i < |m.properties|
      ensures ReportsProperty(args, m, t, root, i, path, kind)
              <==> m.properties[i].name == key && Contributes(args, m.properties[i], s, root, rest, kind)
    {
      if m.properties[i].name == key {
        ContributesIs(args, m, s, root, i, rest, kind);
      } else {
        OtherProperty(args, m, t, root, i, path, kind);
      }
    }
    hide ReportsProperty, Contributes, PropertyFaults, Extras, Lookup, Resolve;
    assert AdditionalPropertiesFalse(t) <==> Lookup(s, "additionalProperties") == Some(Bool(false));
    ObjectFaultsAre(args, m, t, root, Found(path, kind));
  }

  lemma OtherProperty(args: Args, m: ParamModel, schema: Schema, root: Schema, i: nat, path: Path, kind: Kind)
    requires m.ObjectParam? && i < |m.properties| && (path == [] || path[0] != Field(m.properties[i].name))
    ensures !ReportsProperty(args, m, schema, root, i, path, kind)
  {
  }

  lemma ObjectFaultsAre(args: Args, m: ParamModel, schema: Schema, root: Schema, f: Found)
    requires m.ObjectParam? && ResolveSchema(schema, root) == schema
    ensures f in ObjectFaults(args, m, schema, root)
            <==> f in PropertyFaults(args, m, schema, root, |m.properties|)
                 || (AdditionalPropertiesFalse(schema) && f in Extras(args, m.properties, |args|))
  {
    hide PropertyFaults, Extras, AdditionalPropertiesFalse, ResolveSchema;
  }

  /** And none is anywhere else. */
  lemma ObjectFaultsAreBelowKeys(args: Args, m: ParamModel, schema: Schema, root: Schema, path: Path, kind: Kind)
    requires m.ObjectParam? && Found(path, kind) in ObjectFaults(args, m, schema, root)
    ensures path != [] && path[0].Field?
  {
    var resolved := ResolveSchema(schema, root);
    hide ResolveSchema;
    PropertyFaultsExactly(args, m, resolved, root, |m.properties|, path, kind);
    ExtrasExactly(args, m.properties, |args|, path, kind);
    hide PropertyFaults, Extras, AdditionalPropertiesFalse;
  }

  /** The faults of an array are those of its items by the schema under `items`, each below its own index. */
  lemma ArrayFaultsMean(vs: seq<Value>, m: ParamModel, s: seq<Member>, root: Schema, path: Path, kind: Kind)
    requires m.ArrayParam? && !IsReference(s) && !IsChoice(s)
    ensures Found(path, kind) in ValueFaults(Array(vs), m, Some(Object(s)), root)
            <==> path != [] && path[0].Index? && path[0].index < |vs|
                 && Found(path[1..], kind) in ValueFaults(vs[path[0].index], m.items, Lookup(s, "items"), root)
  {
    OthersMeanThemselves(s, root);
    assert ItemSchema(Some(Object(s)), root) == Lookup(s, "items");
    hide Lookup, Resolve;
    ItemFaultsExactly(vs, m, Lookup(s, "items"), root, |vs|, path, kind);
  }

  // ---------- the order of the faults ----------

  /** The faults that property or argument `k` gives rise to, each once: what a given property is at fault with, that a
      required one is missing, or that an argument is extra. */
  function Share(args: Args, m: ParamModel, s: seq<Member>, root: Schema, k: nat): seq<Found>
    requires m.ObjectParam? && k < |m.properties| + |args|
  {
    if k < |m.properties| then
      var p := m.properties[k];
      match Lookup(args, p.name)
      case Some(v) => Under(Field(p.name), ValueFaults(v, p.model, Listed(s, "properties", p.name), root))
      case None => if !p.model.Unsupported? && p.model.required then [Found([Field(p.name)], MissingRequired)] else []
    else
      var key := args[k - |m.properties|].key;
      if Lookup(s, "additionalProperties") != Some(Bool(false)) || exists p | p in m.properties :: p.name == key then []
      else [Found([Field(key)], ExtraArgument)]
  }

  function Shares(args: Args, m: ParamModel, s: seq<Member>, root: Schema): (parts: seq<seq<Found>>)
    requires m.ObjectParam?
    ensures |parts| == |m.properties| + |args|
  {
    seq(|m.properties| + |args|, k requires 0 <= k < |m.properties| + |args| => Share(args, m, s, root, k))
  }

  /** The faults of an object come property by property in the order of the model, then argument by argument. */
  lemma {:induction false} ObjectFaultsInOrder(args: Args, m: ParamModel, s: seq<Member>, root: Schema)
    requires m.ObjectParam? && !IsReference(s) && !IsChoice(s)
    ensures ObjectFaults(args, m, Some(Object(s)), root) == Flatten.Concat(Shares(args, m, s, root))
  {
    hide *;
    SharesOfProperties(args, m, s, root, |m.properties|);
    SharesOfArguments(args, m, s, root, |args|);
    ObjectFaultsParts(args, m, s, root);
    WholeIs(Shares(args, m, s, root));
  }

  lemma {:induction false} WholeIs<T>(parts: seq<seq<T>>)
    ensures Flatten.Concat(parts) == Flatten.UpTo(parts, |parts|)
  {
    hide Flatten.UpTo;
  }

  lemma {:induction false} ObjectFaultsParts(args: Args, m: ParamModel, s: seq<Member>, root: Schema)
    requires m.ObjectParam? && !IsReference(s) && !IsChoice(s)
    ensures ObjectFaults(args, m, Some(Object(s)), root)
            == PropertyFaults(args, m, Some(Object(s)), root, |m.properties|)
               + if Lookup(s, "additionalProperties") == Some(Bool(false))
                   then Extras(args, m.properties, |args|) else []
  {
    OthersMeanThemselves(s, root);
    assert AdditionalPropertiesFalse(Some(Object(s))) <==> Lookup(s, "additionalProperties") == Some(Bool(false));
    hide PropertyFaults, Extras, Lookup, Resolve, AdditionalPropertiesFalse;
  }

  lemma {:induction false} SharesNext(args: Args, m: ParamModel, s: seq<Member>, root: Schema, k: nat)
    requires m.ObjectParam? && k < |m.properties| + |args|
    ensures var parts := Shares(args, m, s, root);
            Flatten.UpTo(parts, 0) == [] && Flatten.UpTo(parts, k + 1)
                == Flatten.UpTo(parts, k) + Share(args, m, s, root, k)
  {
    hide Share;
  }

  lemma {:induction false} SharesOfProperties(args: Args, m: ParamModel, s: seq<Member>, root: Schema, n: nat)
    requires m.ObjectParam? && !IsReference(s) && !IsChoice(s) && n <= |m.properties|
    ensures PropertyFaults(args, m, Some(Object(s)), root, n) == Flatten.UpTo(Shares(args, m, s, root), n)
  {
    hide PropertyFault, Share, Shares, Flatten.UpTo, IsReference, IsChoice;
    if n > 0 {
      SharesOfProperties(args, m, s, root, n - 1);
      ShareOfProperty(args, m, s, root, n - 1);
      SharesNext(args, m, s, root, n - 1);
    } else {
      NoParts(Shares(args, m, s, root));
    }
  }

  lemma {:induction false} NoParts<T>(parts: seq<seq<T>>)
    ensures Flatten.UpTo(parts, 0) == []
  {
  }

  lemma {:induction false} ShareOfProperty(args: Args, m: ParamModel, s: seq<Member>, root: Schema, i: nat)
    requires m.ObjectParam? && !IsReference(s) && !IsChoice(s) && i < |m.properties|
    ensures PropertyFault(args, m, Some(Object(s)), root, i) == Share(args, m, s, root, i)
  {
    var p := m.properties[i];
    OthersMeanThemselves(s, root);
    hide Lookup, ValueFaults, Resolve;
    assert PropertySchema(Some(Object(s)), p.name, root) == Listed(s, "properties", p.name);
    hide PropertySchema, Listed, Under;
  }

  lemma {:induction false} SharesOfArguments(args: Args, m: ParamModel, s: seq<Member>, root: Schema, n: nat)
    requires m.ObjectParam? && n <= |args|
    ensures var parts := Shares(args, m, s, root);
            Flatten.UpTo(parts, |m.properties| + n)
            == Flatten.UpTo(parts, |m.properties|)
               + if Lookup(s, "additionalProperties") == Some(Bool(false)) then Extras(args, m.properties, n) else []
  {
    hide Share, Shares, Extra, Lookup, Flatten.UpTo;
    if n > 0 {
      SharesOfArguments(args, m, s, root, n - 1);
      ShareOfArgument(args, m, s, root, n - 1);
      SharesNext(args, m, s, root, |m.properties| + n - 1);
    }
  }

  lemma {:induction false} ShareOfArgument(args: Args, m: ParamModel, s: seq<Member>, root: Schema, i: nat)
    requires m.ObjectParam? && i < |args|
    ensures Share(args, m, s, root, |m.properties| + i)
            == if Lookup(s, "additionalProperties") == Some(Bool(false)) then Extra(m.properties, args[i].key) else []
  {
    hide Lookup;
  }

  /** The faults of an array come item by item. */
  lemma {:induction false} ArrayFaultsInOrder(vs: seq<Value>, m: ParamModel, s: seq<Member>, root: Schema)
    requires m.ArrayParam? && !IsReference(s) && !IsChoice(s)
    ensures ValueFaults(Array(vs), m, Some(Object(s)), root)
            == Flatten.Concat(Portions(vs, m, Lookup(s, "items"), root))
  {
    OthersMeanThemselves(s, root);
    assert ItemSchema(Some(Object(s)), root) == Lookup(s, "items");
    PortionsOfItems(vs, m, Lookup(s, "items"), root, |vs|);
    hide Lookup, Resolve, ItemFaults, Portions, Flatten.UpTo;
  }

  /** The faults of every item, each below its index. */
  function Portions(vs: seq<Value>, m: ParamModel, itemSchema: Schema, root: Schema): (parts: seq<seq<Found>>)
    requires m.ArrayParam?
    ensures |parts| == |vs|
  {
    seq(|vs|, k requires 0 <= k < |vs| => Under(Index(k), ValueFaults(vs[k], m.items, itemSchema, root)))
  }

  lemma {:induction false} PortionsOfItems(vs: seq<Value>, m: ParamModel, itemSchema: Schema, root: Schema, n: nat)
    requires m.ArrayParam? && n <= |vs|
    ensures ItemFaults(vs, m, itemSchema, root, n) == Flatten.UpTo(Portions(vs, m, itemSchema, root), n)
  {
    hide ValueFaults, Under;
    if n > 0 {
      PortionsOfItems(vs, m, itemSchema, root, n - 1);
    }
  }

  /** What a call is at fault with, under its tool's name; nothing where the tool is not known. */
  function Errors(call: ToolCall, specs: map<string, Spec>): (r: seq<ArgError>)
    ensures call.tool !in specs ==> r == []
    ensures call.tool in specs ==>
              var found := CallFaults(call, specs[call.tool]);
              |r| == |found| && forall i | 0 <= i < |r| :: r[i] == ArgError(call.tool, found[i].path, found[i].kind)
  {
    if call.tool in specs then Located(call.tool, [], CallFaults(call, specs[call.tool])) else []
  }

  /** The errors of a batch come call by call. */
  lemma {:induction false} BatchErrorsInOrder(calls: seq<ToolCall>, specs: map<string, Spec>, n: nat)
    requires n <= |calls|
    ensures BatchErrors(calls, specs, n)
            == Flatten.UpTo(seq(|calls|, k requires 0 <= k < |calls| => Errors(calls[k], specs)), n)
  {
    hide CallFaults, Located;
    if n > 0 {
      BatchErrorsInOrder(calls, specs, n - 1);
    }
  }
}
