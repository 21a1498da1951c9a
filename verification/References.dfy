/** When two schemas fault the same arguments, and what becomes of that where one is a reference to the other. */
module References {
  import opened Wrappers
  import opened Response
  import opened Json
  import opened ToolSpec
  import opened Policy

  // ---------- lists of faults that can be told apart ----------

  /** Every fault lies below a step of this kind. */
  predicate Below(found: seq<Found>, kind: PathStep -> bool) {
    forall i | 0 <= i < |found| :: found[i].path != [] && kind(found[i].path[0])
  }

  function Other(kind: PathStep -> bool): PathStep -> bool {
    (step: PathStep) => !kind(step)
  }

  lemma Apart(a: seq<Found>, b: seq<Found>, x: seq<Found>, y: seq<Found>, kind: PathStep -> bool)
    requires Below(a, kind) && Below(b, kind) && Below(x, Other(kind)) && Below(y, Other(kind))
    ensures a + x == b + y <==> a == b && x == y
  {
    if a + x == b + y {
      NotShorter(a, b, x, y, kind);
      NotShorter(b, a, y, x, kind);
      assert a == (a + x)[..|a|] && b == (b + y)[..|b|];
      assert x == (a + x)[|a|..] && y == (b + y)[|b|..];
    }
  }

  lemma NotShorter(a: seq<Found>, b: seq<Found>, x: seq<Found>, y: seq<Found>, kind: PathStep -> bool)
    requires Below(b, kind) && Below(x, Other(kind)) && a + x == b + y
    ensures |a| >= |b|
  {
    assert |a| + |x| == |b| + |y|;
    assert forall i | 0 <= i < |b| :: (a + x)[i] == b[i];
    assert x != [] ==> (a + x)[|a|] == x[0];
  }

  lemma UnderIsBelow(step: PathStep, found: seq<Found>, kind: PathStep -> bool)
    requires kind(step)
    ensures Below(Under(step, found), kind)
  {
  }

  lemma UnderApart(step: PathStep, a: seq<Found>, b: seq<Found>)
    ensures Under(step, a) == Under(step, b) <==> a == b
  {
    var u, w := Under(step, a), Under(step, b);
    if u == w {
      assert |a| == |u| == |w| == |b|;
      forall i | 0 <= i < |a| ensures a[i] == b[i] {
        assert u[i] == w[i];
        assert ([step] + a[i].path)[1..] == a[i].path && ([step] + b[i].path)[1..] == b[i].path;
      }
    }
  }

  lemma BelowConcat(a: seq<Found>, b: seq<Found>, kind: PathStep -> bool)
    requires Below(a, kind) && Below(b, kind)
    ensures Below(a + b, kind)
  {
  }

  // ---------- properties, items, extras ----------

  function NotField(name: string): PathStep -> bool {
    (step: PathStep) => step != Field(name)
  }

  lemma PropertyIsBelow(args: Args, m: ParamModel, schema: Schema, root: Schema, i: nat, kind: PathStep -> bool)
    requires m.ObjectParam? && i < |m.properties| && kind(Field(m.properties[i].name))
    ensures Below(PropertyFault(args, m, schema, root, i), kind)
  {
    hide ValueFaults, PropertySchema, Under, Lookup;
    var p := m.properties[i];
    match Lookup(args, p.name)
    case Some(v) =>
      UnderIsBelow(Field(p.name), ValueFaults(v, p.model, PropertySchema(schema, p.name, root), root), kind);
    case None =>
  }

  lemma {:induction false} PropertiesAreBelow(args: Args, m: ParamModel, schema: Schema, root: Schema, n: nat,
                                              kind: PathStep -> bool)
    requires m.ObjectParam? && n <= |m.properties| && forall i | 0 <= i < n :: kind(Field(m.properties[i].name))
    ensures Below(PropertyFaults(args, m, schema, root, n), kind)
  {
    hide PropertyFault, Below;
    if n == 0 {
      NothingBelow(kind);
    } else {
      PropertiesAreBelow(args, m, schema, root, n - 1, kind);
      PropertyIsBelow(args, m, schema, root, n - 1, kind);
      BelowConcat(PropertyFaults(args, m, schema, root, n - 1), PropertyFault(args, m, schema, root, n - 1), kind);
    }
  }

  lemma NothingBelow(kind: PathStep -> bool)
    ensures Below([], kind)
  {
  }

  /** Under two schemas the properties are faulted alike exactly when each of them is. */
  lemma {:induction false} PropertiesApart(args: Args, m: ParamModel, a: Schema, b: Schema, root: Schema, n: nat)
    requires m.ObjectParam? && n <= |m.properties| && DistinctNames(m.properties)
    ensures PropertyFaults(args, m, a, root, n) == PropertyFaults(args, m, b, root, n)
            <==> forall i | 0 <= i < n :: PropertyFault(args, m, a, root, i) == PropertyFault(args, m, b, root, i)
  {
    hide PropertyFault, Below;
    if n > 0 {
      PropertiesApart(args, m, a, b, root, n - 1);
      var kind := NotField(m.properties[n - 1].name);
      PropertiesAreBelow(args, m, a, root, n - 1, kind);
      PropertiesAreBelow(args, m, b, root, n - 1, kind);
      PropertyIsBelow(args, m, a, root, n - 1, Other(kind));
      PropertyIsBelow(args, m, b, root, n - 1, Other(kind));
      Apart(PropertyFaults(args, m, a, root, n - 1), PropertyFaults(args, m, b, root, n - 1),
            PropertyFault(args, m, a, root, n - 1), PropertyFault(args, m, b, root, n - 1), kind);
    }
  }

  lemma PropertyApart(args: Args, m: ParamModel, a: Schema, b: Schema, root: Schema, i: nat)
    requires m.ObjectParam? && i < |m.properties|
    ensures var p := m.properties[i];
            PropertyFault(args, m, a, root, i) == PropertyFault(args, m, b, root, i)
            <==> (Lookup(args, p.name).Some? ==>
                    var v := Lookup(args, p.name).value;
                    ValueFaults(v, p.model, PropertySchema(a, p.name, root), root)
                    == ValueFaults(v, p.model, PropertySchema(b, p.name, root), root))
  {
    hide ValueFaults, PropertySchema, Under, Lookup;
    var p := m.properties[i];
    if Lookup(args, p.name).Some? {
      var v := Lookup(args, p.name).value;
      UnderApart(Field(p.name), ValueFaults(v, p.model, PropertySchema(a, p.name, root), root),
                 ValueFaults(v, p.model, PropertySchema(b, p.name, root), root));
    }
  }

  lemma {:induction false} ItemsAreBelow(vs: seq<Value>, m: ParamModel, itemSchema: Schema, root: Schema, n: nat,
                                         kind: PathStep -> bool)
    requires m.ArrayParam? && n <= |vs| && forall i: nat | i < n :: kind(Index(i))
    ensures Below(ItemFaults(vs, m, itemSchema, root, n), kind)
  {
    hide ValueFaults, Below, Under;
    if n == 0 {
      NothingBelow(kind);
    } else {
      ItemsAreBelow(vs, m, itemSchema, root, n - 1, kind);
      var last := ValueFaults(vs[n - 1], m.items, itemSchema, root);
      UnderIsBelow(Index(n - 1), last, kind);
      BelowConcat(ItemFaults(vs, m, itemSchema, root, n - 1), Under(Index(n - 1), last), kind);
    }
  }

  function NotIndex(n: nat): PathStep -> bool {
    (step: PathStep) => step != Index(n)
  }

  /** Under two schemas the items are faulted alike exactly when each of them is. */
  lemma {:induction false} ItemsApart(vs: seq<Value>, m: ParamModel, a: Schema, b: Schema, root: Schema, n: nat)
    requires m.ArrayParam? && n <= |vs|
    ensures ItemFaults(vs, m, a, root, n) == ItemFaults(vs, m, b, root, n)
            <==> forall i | 0 <= i < n :: ValueFaults(vs[i], m.items, a, root) == ValueFaults(vs[i], m.items, b, root)
  {
    hide ValueFaults, Below, Under;
    if n > 0 {
      ItemsApart(vs, m, a, b, root, n - 1);
      var kind := NotIndex(n - 1);
      var x, y := ValueFaults(vs[n - 1], m.items, a, root), ValueFaults(vs[n - 1], m.items, b, root);
      ItemsAreBelow(vs, m, a, root, n - 1, kind);
      ItemsAreBelow(vs, m, b, root, n - 1, kind);
      UnderIsBelow(Index(n - 1), x, Other(kind));
      UnderIsBelow(Index(n - 1), y, Other(kind));
      Apart(ItemFaults(vs, m, a, root, n - 1), ItemFaults(vs, m, b, root, n - 1),
            Under(Index(n - 1), x), Under(Index(n - 1), y), kind);
      UnderApart(Index(n - 1), x, y);
    }
  }

  function Declared(ps: seq<Property>): PathStep -> bool {
    (step: PathStep) => step.Field? && Declares(ps, step.name)
  }

  /** Extra arguments are undeclared, and there are none exactly when all are declared. */
  lemma {:induction false} ExtrasAreBelow(args: Args, ps: seq<Property>, n: nat)
    requires n <= |args|
    ensures Below(Extras(args, ps, n), Other(Declared(ps)))
  {
    hide Declares;
    if n > 0 {
      ExtrasAreBelow(args, ps, n - 1);
    }
  }

  lemma ObjectFaultsOf(args: Args, m: ParamModel, schema: Schema, root: Schema)
    requires m.ObjectParam?
    ensures var resolved := ResolveSchema(schema, root);
            ObjectFaults(args, m, schema, root)
            == PropertyFaults(args, m, resolved, root, |m.properties|)
               + (if AdditionalPropertiesFalse(resolved) then Extras(args, m.properties, |args|) else [])
  {
  }

  /** Under two schemas an object is faulted alike exactly when its properties are, and extra arguments are forbidden
      alike or absent. */
  lemma ObjectApart(args: Args, m: ParamModel, a: Schema, b: Schema, root: Schema)
    requires m.ObjectParam? && DistinctNames(m.properties)
    ensures var ra, rb := ResolveSchema(a, root), ResolveSchema(b, root);
            ObjectFaults(args, m, a, root) == ObjectFaults(args, m, b, root)
            <==> && ((AdditionalPropertiesFalse(ra) <==> AdditionalPropertiesFalse(rb))
                     || forall i | 0 <= i < |args| :: Declares(m.properties, args[i].key))
                 && forall i | 0 <= i < |m.properties| ::
                      PropertyFault(args, m, ra, root, i) == PropertyFault(args, m, rb, root, i)
  {
    hide *;
    var ra, rb, n, kind := ResolveSchema(a, root), ResolveSchema(b, root), |m.properties|, Declared(m.properties);
    var more := Extras(args, m.properties, |args|);
    ObjectFaultsOf(args, m, a, root);
    ObjectFaultsOf(args, m, b, root);
    DeclaredNames(m.properties);
    PropertiesAreBelow(args, m, ra, root, n, kind);
    PropertiesAreBelow(args, m, rb, root, n, kind);
    ExtrasAreBelow(args, m.properties, |args|);
    NothingBelow(Other(kind));
    Apart(PropertyFaults(args, m, ra, root, n), PropertyFaults(args, m, rb, root, n),
          if AdditionalPropertiesFalse(ra) then more else [], if AdditionalPropertiesFalse(rb) then more else [], kind);
    PropertiesApart(args, m, ra, rb, root, n);
    NoExtras(args, m.properties, |args|);
  }

  lemma DeclaredNames(ps: seq<Property>)
    ensures forall i | 0 <= i < |ps| :: Declared(ps)(Field(ps[i].name))
  {
  }

  // ---------- one value ----------

  /** On this value the two schemas say the same: where arguments are met that nothing declares, both forbid them or
      neither does; and so on for every property and item that is there. */
  predicate AlikeOn(v: Value, m: ParamModel, a: Schema, b: Schema, root: Schema) {
    match m
    case ObjectParam(_, _, ps) =>
      v.Object? ==>
        var ra, rb := ResolveSchema(a, root), ResolveSchema(b, root);
        && ((AdditionalPropertiesFalse(ra) <==> AdditionalPropertiesFalse(rb))
            || forall i | 0 <= i < |v.members| :: Declares(ps, v.members[i].key))
        && forall i | 0 <= i < |ps| && Lookup(v.members, ps[i].name).Some? ::
             AlikeOn(Lookup(v.members, ps[i].name).value, ps[i].model,
                     PropertySchema(ra, ps[i].name, root), PropertySchema(rb, ps[i].name, root), root)
    case ArrayParam(_, _, items) =>
      v.Array? ==>
        forall i | 0 <= i < |v.items| :: AlikeOn(v.items[i], items, ItemSchema(a, root), ItemSchema(b, root), root)
    case _ => true
  }

  /** The claim for one property that is there. */
  predicate PropertyDecided(args: Args, p: Property, ra: Schema, rb: Schema, root: Schema) {
    Lookup(args, p.name).Some? ==>
      var v, x, y := Lookup(args, p.name).value, PropertySchema(ra, p.name, root), PropertySchema(rb, p.name, root);
      ValueFaults(v, p.model, x, root) == ValueFaults(v, p.model, y, root) <==> AlikeOn(v, p.model, x, y, root)
  }

  predicate PropertyAlikeOn(args: Args, p: Property, ra: Schema, rb: Schema, root: Schema) {
    Lookup(args, p.name).Some? ==>
      AlikeOn(Lookup(args, p.name).value, p.model, PropertySchema(ra, p.name, root), PropertySchema(rb, p.name, root),
              root)
  }

  lemma ObjectAlikeOn(v: Value, m: ParamModel, a: Schema, b: Schema, root: Schema)
    requires m.ObjectParam? && v.Object?
    ensures var ra, rb := ResolveSchema(a, root), ResolveSchema(b, root);
            AlikeOn(v, m, a, b, root)
            <==> && ((AdditionalPropertiesFalse(ra) <==> AdditionalPropertiesFalse(rb))
                     || forall i | 0 <= i < |v.members| :: Declares(m.properties, v.members[i].key))
                 && forall i | 0 <= i < |m.properties| :: PropertyAlikeOn(v.members, m.properties[i], ra, rb, root)
  {
    hide ResolveSchema, PropertySchema, AdditionalPropertiesFalse, Declares, Lookup;
  }

  lemma PropertyFaultDecided(args: Args, m: ParamModel, ra: Schema, rb: Schema, root: Schema, i: nat)
    requires m.ObjectParam? && i < |m.properties| && PropertyDecided(args, m.properties[i], ra, rb, root)
    ensures PropertyFault(args, m, ra, root, i) == PropertyFault(args, m, rb, root, i)
            <==> PropertyAlikeOn(args, m.properties[i], ra, rb, root)
  {
    hide PropertySchema, Lookup, PropertyFault, ValueFaults, AlikeOn;
    PropertyApart(args, m, ra, rb, root, i);
  }

  lemma ObjectDecided(v: Value, m: ParamModel, a: Schema, b: Schema, root: Schema)
    requires m.ObjectParam? && DistinctNames(m.properties) && v.Object?
    requires forall i | 0 <= i < |m.properties| ::
               PropertyDecided(v.members, m.properties[i], ResolveSchema(a, root), ResolveSchema(b, root), root)
    ensures ObjectFaults(v.members, m, a, root) == ObjectFaults(v.members, m, b, root) <==> AlikeOn(v, m, a, b, root)
  {
    hide *;
    var ra, rb := ResolveSchema(a, root), ResolveSchema(b, root);
    ObjectApart(v.members, m, a, b, root);
    ObjectAlikeOn(v, m, a, b, root);
    if AlikeOn(v, m, a, b, root) {
      forall i | 0 <= i < |m.properties|
        ensures PropertyFault(v.members, m, ra, root, i) == PropertyFault(v.members, m, rb, root, i)
      {
        PropertyFaultDecided(v.members, m, ra, rb, root, i);
      }
    }
    if ObjectFaults(v.members, m, a, root) == ObjectFaults(v.members, m, b, root) {
      forall i | 0 <= i < |m.properties| ensures PropertyAlikeOn(v.members, m.properties[i], ra, rb, root) {
        PropertyFaultDecided(v.members, m, ra, rb, root, i);
      }
    }
  }

  lemma ArrayDecided(v: Value, m: ParamModel, a: Schema, b: Schema, root: Schema)
    requires m.ArrayParam? && v.Array?
    requires var x, y := ItemSchema(a, root), ItemSchema(b, root);
             forall i | 0 <= i < |v.items| ::
               ValueFaults(v.items[i], m.items, x, root) == ValueFaults(v.items[i], m.items, y, root)
               <==> AlikeOn(v.items[i], m.items, x, y, root)
    ensures var x, y := ItemSchema(a, root), ItemSchema(b, root);
            ItemFaults(v.items, m, x, root, |v.items|) == ItemFaults(v.items, m, y, root, |v.items|)
            <==> AlikeOn(v, m, a, b, root)
  {
    hide ItemSchema, ItemFaults, ValueFaults;
    ItemsApart(v.items, m, ItemSchema(a, root), ItemSchema(b, root), root, |v.items|);
  }

  /** A value is faulted alike under two schemas exactly when they say the same on it. */
  lemma {:induction false} FaultedAlikeExactly(v: Value, m: ParamModel, a: Schema, b: Schema, root: Schema)
    requires Legal(m)
    ensures ValueFaults(v, m, a, root) == ValueFaults(v, m, b, root) <==> AlikeOn(v, m, a, b, root)
    decreases m
  {
    hide ResolveSchema, PropertySchema, ItemSchema, Lookup, ObjectFaults, ItemFaults;
    if m.ObjectParam? && v.Object? {
      var ra, rb := ResolveSchema(a, root), ResolveSchema(b, root);
      forall i | 0 <= i < |m.properties| ensures PropertyDecided(v.members, m.properties[i], ra, rb, root) {
        var p := m.properties[i];
        if Lookup(v.members, p.name).Some? {
          FaultedAlikeExactly(Lookup(v.members, p.name).value, p.model, PropertySchema(ra, p.name, root),
                              PropertySchema(rb, p.name, root), root);
        }
      }
      hide PropertyDecided, AlikeOn;
      ObjectDecided(v, m, a, b, root);
    } else if m.ArrayParam? && v.Array? {
      forall i | 0 <= i < |v.items| {
        FaultedAlikeExactly(v.items[i], m.items, ItemSchema(a, root), ItemSchema(b, root), root);
      }
      hide AlikeOn;
      ArrayDecided(v, m, a, b, root);
    }
  }

  // ---------- all values ----------

  /** As far as the model goes, the two schemas say the same. */
  predicate Alike(m: ParamModel, a: Schema, b: Schema, root: Schema) {
    match m
    case ObjectParam(_, _, ps) =>
      var ra, rb := ResolveSchema(a, root), ResolveSchema(b, root);
      && (AdditionalPropertiesFalse(ra) <==> AdditionalPropertiesFalse(rb))
      && forall i | 0 <= i < |ps| ::
           Alike(ps[i].model, PropertySchema(ra, ps[i].name, root), PropertySchema(rb, ps[i].name, root), root)
    case ArrayParam(_, _, items) => Alike(items, ItemSchema(a, root), ItemSchema(b, root), root)
    case _ => true
  }

  lemma {:induction false} AlikeOnAll(v: Value, m: ParamModel, a: Schema, b: Schema, root: Schema)
    requires Alike(m, a, b, root)
    ensures AlikeOn(v, m, a, b, root)
    decreases m
  {
    match m
    case ObjectParam(_, _, ps) =>
      if v.Object? {
        var ra, rb := ResolveSchema(a, root), ResolveSchema(b, root);
        hide ResolveSchema, PropertySchema, AdditionalPropertiesFalse, Declares, Lookup;
        forall i | 0 <= i < |ps| && Lookup(v.members, ps[i].name).Some? {
          AlikeOnAll(Lookup(v.members, ps[i].name).value, ps[i].model, PropertySchema(ra, ps[i].name, root),
                     PropertySchema(rb, ps[i].name, root), root);
        }
      }
    case ArrayParam(_, _, items) =>
      if v.Array? {
        forall i | 0 <= i < |v.items| {
          AlikeOnAll(v.items[i], items, ItemSchema(a, root), ItemSchema(b, root), root);
        }
      }
    case _ =>
  }

  /** A name longer than those of the first `n` properties. */
  function Unused(ps: seq<Property>, n: nat): (name: string)
    requires n <= |ps|
    ensures forall i | 0 <= i < n :: |ps[i].name| < |name|
  {
    if n == 0 then ""
    else
      var name := Unused(ps, n - 1);
      if |ps[n - 1].name| < |name| then name else ps[n - 1].name + "_"
  }

  /** Where the schemas differ, some well-formed value shows it. */
  lemma {:induction false} Telling(m: ParamModel, a: Schema, b: Schema, root: Schema) returns (v: Value)
    requires !Alike(m, a, b, root)
    ensures WellFormed(v) && !AlikeOn(v, m, a, b, root)
    decreases m
  {
    match m
    case ObjectParam(_, _, ps) =>
      var ra, rb := ResolveSchema(a, root), ResolveSchema(b, root);
      hide ResolveSchema, PropertySchema, AdditionalPropertiesFalse;
      if AdditionalPropertiesFalse(ra) <==> AdditionalPropertiesFalse(rb) {
        var i :| 0 <= i < |ps|
          && !Alike(ps[i].model, PropertySchema(ra, ps[i].name, root), PropertySchema(rb, ps[i].name, root), root);
        var inner := Telling(ps[i].model, PropertySchema(ra, ps[i].name, root), PropertySchema(rb, ps[i].name, root),
                             root);
        v := Object([Member(ps[i].name, inner)]);
        LookupOne(ps[i].name, Some(inner), ps[i].name);
        assert Lookup(v.members, ps[i].name) == Some(inner);
      } else {
        v := Object([Member(Unused(ps, |ps|), Null)]);
        assert !Declares(ps, v.members[0].key);
      }
    case ArrayParam(_, _, items) =>
      var inner := Telling(items, ItemSchema(a, root), ItemSchema(b, root), root);
      v := Array([inner]);
      assert v.items[0] == inner;
  }

  /** Two schemas fault every value alike exactly when they say the same as far as the model goes. */
  lemma {:induction false} AlikeExactly(m: ParamModel, a: Schema, b: Schema, root: Schema)
    requires Legal(m)
    ensures (forall v :: ValueFaults(v, m, a, root) == ValueFaults(v, m, b, root)) <==> Alike(m, a, b, root)
    ensures !Alike(m, a, b, root) ==>
              exists v :: WellFormed(v) && ValueFaults(v, m, a, root) != ValueFaults(v, m, b, root)
  {
    hide ValueFaults, AlikeOn, Alike, Legal, WellFormed;
    if Alike(m, a, b, root) {
      forall v ensures ValueFaults(v, m, a, root) == ValueFaults(v, m, b, root) {
        AlikeOnAll(v, m, a, b, root);
        FaultedAlikeExactly(v, m, a, b, root);
      }
    } else {
      var v := Telling(m, a, b, root);
      FaultedAlikeExactly(v, m, a, b, root);
    }
  }

  // ---------- references ----------

  function RefTo(name: string): Value {
    Object([Member("$ref", String("#/$defs/" + name))])
  }

  predicate Defines(root: Value, name: string, definition: Value) {
    Get(root, "$defs").Some? && Get(Get(root, "$defs").value, name) == Some(definition)
  }

  lemma RefResolves(name: string, definition: Value, root: Value)
    requires Defines(root, name, definition)
    ensures ResolveSchema(Some(RefTo(name)), Some(root)) == Some(definition)
  {
    OnlyMember("$ref", String("#/$defs/" + name));
    assert ("#/$defs/" + name)[|"#/$defs/"|..] == name;
    hide Get;
  }

  /** A value is faulted by a reference as by the definition it names exactly when the two say the same on it, and
      every value is exactly when they do as far as the model goes: at each object, what the definition is and what it
      resolves to forbid further arguments alike, and so on below, where the reference always lags one step behind. */
  lemma {:induction false} ReferenceAgreesExactly(m: ParamModel, name: string, definition: Value, root: Value)
    requires Legal(m) && Defines(root, name, definition)
    ensures forall v ::
              ValueFaults(v, m, Some(RefTo(name)), Some(root)) == ValueFaults(v, m, Some(definition), Some(root))
              <==> AlikeOn(v, m, Some(RefTo(name)), Some(definition), Some(root))
    ensures (forall v ::
              ValueFaults(v, m, Some(RefTo(name)), Some(root)) == ValueFaults(v, m, Some(definition), Some(root)))
            <==> Alike(m, Some(RefTo(name)), Some(definition), Some(root))
    ensures m.ObjectParam? ==>
              (Alike(m, Some(RefTo(name)), Some(definition), Some(root)) <==>
                 Lags(m, definition, ResolveSchema(Some(definition), Some(root)), Some(root)))
  {
    hide ValueFaults, AlikeOn, Alike, Legal, Defines, Lags, ResolveSchema;
    forall v
      ensures ValueFaults(v, m, Some(RefTo(name)), Some(root)) == ValueFaults(v, m, Some(definition), Some(root))
              <==> AlikeOn(v, m, Some(RefTo(name)), Some(definition), Some(root))
    {
      FaultedAlikeExactly(v, m, Some(RefTo(name)), Some(definition), Some(root));
    }
    AlikeExactly(m, Some(RefTo(name)), Some(definition), Some(root));
    if m.ObjectParam? {
      LagsExactly(m, name, definition, root);
    }
  }

  /** Read off the definition and what it resolves to: further arguments are forbidden alike, and the schemas of every
      property, found one step apart, say the same. */
  predicate Lags(m: ParamModel, definition: Value, once: Schema, root: Schema)
    requires m.ObjectParam?
  {
    && (AdditionalPropertiesFalse(Some(definition)) <==> AdditionalPropertiesFalse(once))
    && forall i | 0 <= i < |m.properties| ::
         var p := m.properties[i];
         Alike(p.model, PropertySchema(Some(definition), p.name, root), PropertySchema(once, p.name, root), root)
  }

  lemma LagsExactly(m: ParamModel, name: string, definition: Value, root: Value)
    requires m.ObjectParam? && Defines(root, name, definition)
    ensures Alike(m, Some(RefTo(name)), Some(definition), Some(root))
            <==> Lags(m, definition, ResolveSchema(Some(definition), Some(root)), Some(root))
  {
    RefResolves(name, definition, root);
    hide ResolveSchema, PropertySchema, AdditionalPropertiesFalse, Defines, RefTo;
  }

  /** Such a case: an optional object that forbids more arguments, referred to, lets them pass. */
  lemma ReferenceForgets(t: Value, name: string, key: string, v: Value, root: Value)
    requires Direct(t) && NotNullType(t) && AdditionalPropertiesFalse(Some(t))
    requires Defines(root, name, Object([Member("anyOf", Array([t, Object([Member("type", String("null"))])]))]))
    ensures var optional := Object([Member("anyOf", Array([t, Object([Member("type", String("null"))])]))]);
            var m := ObjectParam(None, true, []);
            && ObjectFaults([Member(key, v)], m, Some(optional), Some(root)) == [Found([Field(key)], ExtraArgument)]
            && ObjectFaults([Member(key, v)], m, Some(RefTo(name)), Some(root)) == []
  {
    var optional := Object([Member("anyOf", Array([t, Object([Member("type", String("null"))])]))]);
    OptionalMeansItsType(t, Some(root));
    RefResolves(name, optional, root);
    OnlyMember("anyOf", Array([t, Object([Member("type", String("null"))])]));
    assert Extras([Member(key, v)], [], 0) == [];
    assert Extras([Member(key, v)], [], 1) == [Found([Field(key)], ExtraArgument)];
    hide Resolve, Get, Defines, RefTo;
  }

  const ANY_OBJECT: ParamModel := ObjectParam(None, true, [])

  /** One extra argument of an object without properties. */
  lemma OneExtra(key: string, v: Value, schema: Schema, root: Schema)
    ensures ObjectFaults([Member(key, v)], ANY_OBJECT, schema, root)
            == if AdditionalPropertiesFalse(ResolveSchema(schema, root)) then [Found([Field(key)], ExtraArgument)]
               else []
  {
    hide ResolveSchema;
    assert Extras([Member(key, v)], [], 0) == [];
    assert Extras([Member(key, v)], [], 1) == [Found([Field(key)], ExtraArgument)];
  }

  function OneFieldModel(p: string): ParamModel {
    ObjectParam(None, true, [Property(p, ANY_OBJECT)])
  }

  lemma OnePropertyFault(p: string, inner: Args, schema: Schema, root: Schema)
    ensures PropertyFaults([Member(p, Object(inner))], OneFieldModel(p), schema, root, 1)
            == Under(Field(p), ObjectFaults(inner, ANY_OBJECT, PropertySchema(schema, p, root), root))
  {
    var m, args := OneFieldModel(p), [Member(p, Object(inner))];
    LookupOne(p, Some(Object(inner)), p);
    assert Lookup(args, p) == Some(Object(inner));
    var own := PropertySchema(schema, p, root);
    hide PropertySchema, ResolveSchema, Under, Lookup;
    assert ValueFaults(Object(inner), ANY_OBJECT, own, root) == ObjectFaults(inner, ANY_OBJECT, own, root);
    assert PropertyFaults(args, m, schema, root, 0) == [];
  }

  /** The faults of an object with one property, an object itself. */
  lemma OneProperty(p: string, inner: Args, schema: Schema, root: Schema)
    requires !AdditionalPropertiesFalse(ResolveSchema(schema, root))
    ensures var own := PropertySchema(ResolveSchema(schema, root), p, root);
            ObjectFaults([Member(p, Object(inner))], OneFieldModel(p), schema, root)
            == Under(Field(p), ObjectFaults(inner, ANY_OBJECT, own, root))
  {
    hide ResolveSchema, PropertySchema, Under, AdditionalPropertiesFalse, PropertyFaults, ObjectFaults;
    ObjectFaultsOf([Member(p, Object(inner))], OneFieldModel(p), schema, root);
    OnePropertyFault(p, inner, ResolveSchema(schema, root), root);
  }

  lemma RefHasOnlyRef(name: string)
    ensures !AdditionalPropertiesFalse(Some(RefTo(name))) && Get(RefTo(name), "properties") == None
  {
    OnlyMember("$ref", String("#/$defs/" + name));
    hide Get;
  }

  /** And through three references in a row the properties themselves are lost: what an inner object forbids is faulted
      from the second reference on, but not from the first. */
  lemma ReferenceLosesProperties(a: string, b: string, c: string, t: Value, p: string, u: Value, key: string, v: Value,
                                 root: Value)
    requires Defines(root, a, RefTo(b)) && Defines(root, b, RefTo(c)) && Defines(root, c, t)
    requires Get(t, "properties").Some? && Get(Get(t, "properties").value, p) == Some(u)
    requires Direct(u) && AdditionalPropertiesFalse(Some(u))
    ensures var m, args := OneFieldModel(p), [Member(p, Object([Member(key, v)]))];
            && ObjectFaults(args, m, Some(RefTo(b)), Some(root)) == [Found([Field(p), Field(key)], ExtraArgument)]
            && ObjectFaults(args, m, Some(RefTo(a)), Some(root)) == []
  {
    hide *;
    RefResolves(a, RefTo(b), root);
    RefResolves(b, RefTo(c), root);
    RefResolves(c, t, root);
    RefHasOnlyRef(b);
    RefHasOnlyRef(c);
    SchemaOfProperty(Some(RefTo(b)), RefTo(c), p, Some(root));
    SchemaOfProperty(Some(RefTo(c)), t, p, Some(root));
    DirectResolves(u, Some(root));
    NothingResolves(Some(root));
    OneProperty(p, [Member(key, v)], Some(RefTo(a)), Some(root));
    OneProperty(p, [Member(key, v)], Some(RefTo(b)), Some(root));
    OneExtra(key, v, None, Some(root));
    OneExtra(key, v, Some(u), Some(root));
    UnderOne(p, key);
  }

  lemma SchemaOfProperty(schema: Schema, s: Value, p: string, root: Schema)
    requires ResolveSchema(schema, root) == Some(s)
    ensures PropertySchema(schema, p, root)
            == match Get(s, "properties") { case None => None case Some(properties) => Get(properties, p) }
  {
  }

  lemma DirectResolves(u: Value, root: Schema)
    requires Direct(u)
    ensures ResolveSchema(Some(u), root) == Some(u)
  {
  }

  lemma UnderOne(p: string, key: string)
    ensures Under(Field(p), []) == []
    ensures Under(Field(p), [Found([Field(key)], ExtraArgument)]) == [Found([Field(p), Field(key)], ExtraArgument)]
  {
    assert [Field(p)] + [Field(key)] == [Field(p), Field(key)];
  }

  lemma NothingResolves(root: Schema)
    ensures ResolveSchema(None, root) == None && !AdditionalPropertiesFalse(None)
  {
  }
}
