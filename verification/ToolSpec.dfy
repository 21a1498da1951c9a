/** Tool parameters: the models parsed from a JSON schema, and the schema printed from the models. */
module ToolSpec {
  import opened Wrappers
  import opened Json

  datatype Property = Property(name: string, model: ParamModel)

  datatype ParamModel =
    | StringParam(description: Option<string>, required: bool, default: Option<Value>, enumValues: Option<seq<string>>)
    | NumberParam(description: Option<string>, required: bool, default: Option<Value>)
    | BooleanParam(description: Option<string>, required: bool, default: Option<Value>)
    | IntegerParam(description: Option<string>, required: bool, default: Option<Value>)
    | ObjectParam(description: Option<string>, required: bool, properties: seq<Property>)
    | ArrayParam(description: Option<string>, required: bool, items: ParamModel)
    | Unsupported(typeName: string)

  predicate IsRequired(m: ParamModel) {
    !m.Unsupported? && m.required
  }

  // ---------- reading a schema ----------

  /** `Value::get`: only objects have members. */
  function Get(v: Value, key: string): (r: Option<Value>)
    ensures r.Some? ==> v.Object? && Member(key, r.value) in v.members
  {
    if v.Object? then Lookup(v.members, key) else None
  }

  function GetString(v: Value, key: string): Option<string> {
    match Get(v, key)
    case Some(String(s)) => Some(s)
    case _ => None
  }

  /** The strings among the first `n` values. */
  function Strings(vs: seq<Value>, n: nat): seq<string>
    requires n <= |vs|
  {
    if n == 0 then [] else Strings(vs, n - 1) + (if vs[n - 1].String? then [vs[n - 1].s] else [])
  }

  function GetStrings(v: Value, key: string): Option<seq<string>> {
    match Get(v, key)
    case Some(Array(items)) => Some(Strings(items, |items|))
    case _ => None
  }

  function RequiredOf(schema: Value): seq<string> {
    var r := GetStrings(schema, "required");
    if r.Some? then r.value else []
  }

  function TypeOf(schema: Value): string {
    var t := GetString(schema, "type");
    if t.Some? then t.value else "string"
  }

  function ParseSingle(schema: Value, required: bool): Result<ParamModel, string>
    decreases schema, 1
  {
    var t, description, default := TypeOf(schema), GetString(schema, "description"), Get(schema, "default");
    if t == "string" then Ok(StringParam(description, required, default, GetStrings(schema, "enum")))
    else if t == "number" then Ok(NumberParam(description, required, default))
    else if t == "boolean" then Ok(BooleanParam(description, required, default))
    else if t == "integer" then Ok(IntegerParam(description, required, default))
    else if t == "object" then
      match Get(schema, "properties") {
        case None => Ok(ObjectParam(description, required, []))
        case Some(props) =>
          if !props.Object? then Err("nested properties must be an object")
          else match ParseFields(props, RequiredOf(schema), |props.members|) {
            case Err(e) => Err(e)
            case Ok(fields) => Ok(ObjectParam(description, required, fields))
          }
      }
    else if t == "array" then
      match Get(schema, "items") {
        case None => Ok(ArrayParam(description, required, Unsupported("any")))
        case Some(items) =>
          match ParseSingle(items, true) {
            case Err(e) => Err(e)
            case Ok(model) => Ok(ArrayParam(description, required, model))
          }
      }
    else Ok(Unsupported(t))
  }

  /** The first `n` properties; the first that fails ends it. */
  function ParseFields(props: Value, required: seq<string>, n: nat): Result<seq<Property>, string>
    requires props.Object? && n <= |props.members|
    decreases props, 0, n
  {
    if n == 0 then Ok([])
    else match ParseFields(props, required, n - 1)
      case Err(e) => Err(e)
      case Ok(fields) =>
        var m := props.members[n - 1];
        match ParseSingle(m.value, m.key in required)
        case Err(e) => Err(e)
        case Ok(model) => Ok(fields + [Property(m.key, model)])
  }

  /** The parameters of a whole tool. */
  function FromSchema(schema: Value): Result<ParamModel, string> {
    var props := match Get(schema, "properties") case None => Object([]) case Some(p) => p;
    if !props.Object? then Err("properties must be an object")
    else match ParseFields(props, RequiredOf(schema), |props.members|)
      case Err(e) => Err(e)
      case Ok(fields) => Ok(ObjectParam(None, true, fields))
  }

  method ParseSingleParam(schema: Value, required: bool) returns (r: Result<ParamModel, string>)
    ensures r == ParseSingle(schema, required)
    decreases schema, 1
  {
    var t, description, default := TypeOf(schema), GetString(schema, "description"), Get(schema, "default");
    if t == "string" {
      var values := EnumOf(schema);
      return Ok(StringParam(description, required, default, values));
    }
    if t == "number" {
      return Ok(NumberParam(description, required, default));
    }
    if t == "boolean" {
      return Ok(BooleanParam(description, required, default));
    }
    if t == "integer" {
      return Ok(IntegerParam(description, required, default));
    }
    if t == "object" {
      var props := Get(schema, "properties");
      if props.None? {
        return Ok(ObjectParam(description, required, []));
      }
      if !props.value.Object? {
        return Err("nested properties must be an object");
      }
      var fields := ParseObjectFields(props.value, RequiredOf(schema));
      return if fields.Err? then Err(fields.error) else Ok(ObjectParam(description, required, fields.value));
    }
    if t == "array" {
      var items := Get(schema, "items");
      if items.None? {
        return Ok(ArrayParam(description, required, Unsupported("any")));
      }
      var model := ParseSingleParam(items.value, true);
      return if model.Err? then model else Ok(ArrayParam(description, required, model.value));
    }
    r := Ok(Unsupported(t));
  }

  /** The strings of the enumeration; whatever else it lists is passed over. */
  method EnumOf(schema: Value) returns (r: Option<seq<string>>)
    ensures r == GetStrings(schema, "enum")
  {
    var listed := Get(schema, "enum");
    if listed.None? || !listed.value.Array? {
      return None;
    }
    var items, strings := listed.value.items, [];
    for i := 0 to |items|
      invariant strings == Strings(items, i)
    {
      if items[i].String? {
        strings := strings + [items[i].s];
      }
    }
    r := Some(strings);
  }

  method ParseObjectFields(props: Value, required: seq<string>) returns (r: Result<seq<Property>, string>)
    requires props.Object?
    ensures r == ParseFields(props, required, |props.members|)
    decreases props, 0
  {
    hide ParseSingle;
    var fields := [];
    for i := 0 to |props.members|
      invariant ParseFields(props, required, i) == Ok(fields)
    {
      var m := props.members[i];
      var model := ParseSingleParam(m.value, m.key in required);
      if model.Err? {
        FailureEnds(props, required, i + 1, |props.members|);
        return Err(model.error);
      }
      fields := fields + [Property(m.key, model.value)];
    }
    r := Ok(fields);
  }

  lemma {:induction false} FailureEnds(props: Value, required: seq<string>, i: nat, n: nat)
    requires props.Object? && i <= n <= |props.members|
    ensures ParseFields(props, required, i).Err? ==> ParseFields(props, required, n) == ParseFields(props, required, i)
    decreases n - i
  {
    hide ParseSingle;
    if i < n {
      FailureEnds(props, required, i, n - 1);
    }
  }

  // ---------- printing a schema ----------

  function Optional(key: string, v: Option<Value>): seq<Member> {
    if v.Some? then [Member(key, v.value)] else []
  }

  function Text(s: Option<string>): Option<Value> {
    if s.Some? then Some(String(s.value)) else None
  }

  function StringArray(ss: seq<string>): Value {
    Array(seq(|ss|, i requires 0 <= i < |ss| => String(ss[i])))
  }

  function Header(t: string, description: Option<string>): seq<Member> {
    [Member("type", String(t))] + Optional("description", Text(description))
  }

  function PrintSingle(m: ParamModel): Value
    decreases m, 1
  {
    match m
    case StringParam(d, _, default, enums) =>
      Object(Header("string", d) + Optional("enum", if enums.Some? then Some(StringArray(enums.value)) else None)
             + Optional("default", default))
    case NumberParam(d, _, default) => Object(Header("number", d) + Optional("default", default))
    case BooleanParam(d, _, default) => Object(Header("boolean", d) + Optional("default", default))
    case IntegerParam(d, _, default) => Object(Header("integer", d) + Optional("default", default))
    case ObjectParam(d, _, ps) =>
      Object(Header("object", d) + [Member("properties", Object(PrintFields(m, |ps|)))]
             + Optional("required", RequiredList(ps)))
    case ArrayParam(d, _, items) => Object(Header("array", d) + [Member("items", PrintSingle(items))])
    case Unsupported(t) => Object([Member("type", String(t))])
  }

  function PrintFields(m: ParamModel, n: nat): seq<Member>
    requires m.ObjectParam? && n <= |m.properties|
    decreases m, 0, n
  {
    if n == 0 then []
    else PrintFields(m, n - 1) + [Member(m.properties[n - 1].name, PrintSingle(m.properties[n - 1].model))]
  }

  /** The names of the required ones among the first `n` properties. */
  function RequiredNames(ps: seq<Property>, n: nat): seq<string>
    requires n <= |ps|
  {
    if n == 0 then [] else RequiredNames(ps, n - 1) + (if IsRequired(ps[n - 1].model) then [ps[n - 1].name] else [])
  }

  /** The list is left out when it would be empty. */
  function RequiredList(ps: seq<Property>): Option<Value> {
    if RequiredNames(ps, |ps|) == [] then None else Some(StringArray(RequiredNames(ps, |ps|)))
  }

  /** `reconstruct_json_schema` of a tool whose parameters are an object; any other model prints no properties. */
  function Reconstruct(m: ParamModel): Value {
    if m.ObjectParam? then
      Object([Member("type", String("object")), Member("properties", Object(PrintFields(m, |m.properties|)))]
             + Optional("required", if m.required then RequiredList(m.properties) else None))
    else Object([Member("type", String("object")), Member("properties", Object([]))])
  }

  method CollectObjectSchema(m: ParamModel) returns (props: seq<Member>, required: seq<string>)
    requires m.ObjectParam?
    ensures props == PrintFields(m, |m.properties|) && required == RequiredNames(m.properties, |m.properties|)
  {
    hide PrintSingle;
    props, required := [], [];
    for i := 0 to |m.properties|
      invariant props == PrintFields(m, i) && required == RequiredNames(m.properties, i)
    {
      props := props + [Member(m.properties[i].name, PrintSingle(m.properties[i].model))];
      if IsRequired(m.properties[i].model) {
        required := required + [m.properties[i].name];
      }
    }
  }

  // ---------- printing then parsing ----------

  const SUPPORTED: set<string> := {"string", "number", "boolean", "integer", "object", "array"}

  predicate DistinctNames(ps: seq<Property>) {
    forall i, j | 0 <= i < j < |ps| :: ps[i].name != ps[j].name
  }

  /** No property name twice, at any depth. */
  predicate Legal(m: ParamModel) {
    match m
    case ObjectParam(_, _, ps) => DistinctNames(ps) && forall i | 0 <= i < |ps| :: Legal(ps[i].model)
    case ArrayParam(_, _, items) => Legal(items)
    case _ => true
  }

  /** What becomes of a model that is printed, and parsed again as required or not: array items become
      required, and an unsupported type that bears a supported type's name turns into that type. */
  function Normal(m: ParamModel, required: bool): ParamModel {
    match m
    case StringParam(d, _, default, enums) => StringParam(d, required, default, enums)
    case NumberParam(d, _, default) => NumberParam(d, required, default)
    case BooleanParam(d, _, default) => BooleanParam(d, required, default)
    case IntegerParam(d, _, default) => IntegerParam(d, required, default)
    case ObjectParam(d, _, ps) =>
      ObjectParam(d, required,
                  seq(|ps|, i requires 0 <= i < |ps| => Property(ps[i].name,
                                                                 Normal(ps[i].model, IsRequired(ps[i].model)))))
    case ArrayParam(d, _, items) => ArrayParam(d, required, Normal(items, true))
    case Unsupported(t) =>
      if t == "string" then StringParam(None, required, None, None)
      else if t == "number" then NumberParam(None, required, None)
      else if t == "boolean" then BooleanParam(None, required, None)
      else if t == "integer" then IntegerParam(None, required, None)
      else if t == "object" then ObjectParam(None, required, [])
      else if t == "array" then ArrayParam(None, required, Unsupported("any"))
      else m
  }

  /** Array items are required, and unsupported types have names of their own, at any depth. */
  predicate Canonical(m: ParamModel) {
    match m
    case ObjectParam(_, _, ps) => forall i | 0 <= i < |ps| :: Canonical(ps[i].model)
    case ArrayParam(_, _, items) => Canonical(items) && (items.Unsupported? || items.required)
    case Unsupported(t) => t !in SUPPORTED
    case _ => true
  }

  predicate Fits(m: ParamModel, required: bool) {
    m.Unsupported? || m.required == required
  }

  lemma LookupConcat(a: seq<Member>, b: seq<Member>, key: string)
    ensures Lookup(a + b, key) == if Lookup(a, key).Some? then Lookup(a, key) else Lookup(b, key)
  {
    var i, j := IndexOf(a, key, 0), IndexOf(b, key, 0);
    if i < |a| {
      IndexIs(a + b, key, i);
    } else {
      forall k | 0 <= k < |a| + j ensures (a + b)[k].key != key {
        assert k < |a| ==> a[k].key != key;
        assert k >= |a| ==> b[k - |a|].key != key;
      }
      IndexIs(a + b, key, |a| + j);
    }
  }

  lemma IndexIs(ms: seq<Member>, key: string, p: nat)
    requires p <= |ms| && (p < |ms| ==> ms[p].key == key) && forall k | 0 <= k < p :: ms[k].key != key
    ensures IndexOf(ms, key, 0) == p
  {
  }

  lemma LookupOne(key: string, v: Option<Value>, sought: string)
    ensures Lookup(Optional(key, v), sought) == if sought == key then v else None
    ensures v.Some? ==> Lookup([Member(key, v.value)], sought) == if sought == key then v else None
  {
  }

  /** The header answers for type and description, whatever else is printed answers for the rest. */
  lemma HeaderRead(t: string, d: Option<string>, rest: seq<Member>, key: string)
    requires Lookup(rest, "type").None? && Lookup(rest, "description").None?
    ensures var v := Object(Header(t, d) + rest);
            && TypeOf(v) == t && GetString(v, "description") == d
            && (key != "type" && key != "description" ==> Get(v, key) == Lookup(rest, key))
  {
    hide Lookup;
    forall sought ensures Lookup(Header(t, d), sought)
                          == if sought == "type" then Some(String(t)) else if sought == "description"
                              then Text(d) else None
    {
      LookupConcat([Member("type", String(t))], Optional("description", Text(d)), sought);
      LookupOne("type", Some(String(t)), sought);
      LookupOne("description", Text(d), sought);
    }
    LookupConcat(Header(t, d), rest, "type");
    LookupConcat(Header(t, d), rest, "description");
    LookupConcat(Header(t, d), rest, key);
  }

  lemma {:induction false} StringsBack(ss: seq<string>, n: nat)
    requires n <= |ss|
    ensures Strings(StringArray(ss).items, n) == ss[..n]
  {
    if n > 0 {
      StringsBack(ss, n - 1);
      assert ss[..n] == ss[..n - 1] + [ss[n - 1]];
    }
  }

  lemma StringListBack(ss: seq<string>)
    ensures var items := StringArray(ss).items; Strings(items, |items|) == ss
  {
    StringsBack(ss, |ss|);
  }

  /** Two optional members in a row. */
  lemma PairRead(k: string, v: Option<Value>, l: string, w: Option<Value>, sought: string)
    requires k != l
    ensures Lookup(Optional(k, v) + Optional(l, w), sought) == if sought == k then v else if sought == l
            then w else None
  {
    hide Lookup, Optional;
    LookupConcat(Optional(k, v), Optional(l, w), sought);
    LookupOne(k, v, sought);
    LookupOne(l, w, sought);
  }

  lemma StringBack(m: ParamModel, required: bool)
    requires m.StringParam?
    ensures ParseSingle(PrintSingle(m), required) == Ok(Normal(m, required))
  {
    hide Lookup, Header, Optional, Strings, StringArray;
    var enums := if m.enumValues.Some? then Some(StringArray(m.enumValues.value)) else None;
    var rest := Optional("enum", enums) + Optional("default", m.default);
    forall sought ensures Lookup(rest, sought) == if sought == "enum" then enums else if sought == "default"
        then m.default else None {
      PairRead("enum", enums, "default", m.default, sought);
    }
    if m.enumValues.Some? {
      StringListBack(m.enumValues.value);
    }
    HeaderRead("string", m.description, rest, "enum");
    HeaderRead("string", m.description, rest, "default");
    PrintedString(m, enums);
    StringParsed(Object(Header("string", m.description) + rest), m, enums, required);
  }

  lemma StringParsed(v: Value, m: ParamModel, enums: Option<Value>, required: bool)
    requires m.StringParam? && TypeOf(v) == "string" && GetString(v, "description") == m.description
    requires Get(v, "enum") == enums && Get(v, "default") == m.default
    requires enums == if m.enumValues.Some? then Some(StringArray(m.enumValues.value)) else None
    requires m.enumValues.Some? ==>
               var items := StringArray(m.enumValues.value).items; Strings(items, |items|) == m.enumValues.value
    ensures ParseSingle(v, required) == Ok(Normal(m, required))
  {
    hide Get, TypeOf, GetString, Strings;
  }

  lemma PrintedString(m: ParamModel, enums: Option<Value>)
    requires m.StringParam? && enums == if m.enumValues.Some? then Some(StringArray(m.enumValues.value)) else None
    ensures PrintSingle(m)
            == Object(Header("string", m.description) + (Optional("enum", enums) + Optional("default", m.default)))
  {
    hide Header, Optional, StringArray;
    var a, b, c := Header("string", m.description), Optional("enum", enums), Optional("default", m.default);
    assert a + b + c == a + (b + c);
  }

  lemma PlainBack(m: ParamModel, required: bool)
    requires m.NumberParam? || m.BooleanParam? || m.IntegerParam?
    ensures ParseSingle(PrintSingle(m), required) == Ok(Normal(m, required))
  {
    var t := if m.NumberParam? then "number" else if m.BooleanParam? then "boolean" else "integer";
    var rest := Optional("default", m.default);
    LookupOne("default", m.default, "type");
    LookupOne("default", m.default, "description");
    LookupOne("default", m.default, "default");
    hide Lookup, Header, Optional;
    HeaderRead(t, m.description, rest, "default");
  }

  lemma UnsupportedBack(m: ParamModel, required: bool)
    requires m.Unsupported?
    ensures ParseSingle(PrintSingle(m), required) == Ok(Normal(m, required))
  {
    var v := PrintSingle(m);
    forall sought ensures Get(v, sought) == if sought == "type" then Some(String(m.typeName)) else None {
      LookupOne("type", Some(String(m.typeName)), sought);
    }
    hide Get;
  }

  lemma {:induction false} PrintedFields(m: ParamModel, n: nat)
    requires m.ObjectParam? && n <= |m.properties|
    ensures |PrintFields(m, n)| == n
    ensures forall i | 0 <= i < n ::
            PrintFields(m, n)[i] == Member(m.properties[i].name, PrintSingle(m.properties[i].model))
  {
    hide PrintSingle;
    if n > 0 {
      PrintedFields(m, n - 1);
    }
  }

  lemma {:induction false} RequiredExactly(ps: seq<Property>, n: nat, name: string)
    requires n <= |ps|
    ensures name in RequiredNames(ps, n) <==> exists i | 0 <= i < n :: ps[i].name == name && IsRequired(ps[i].model)
  {
    if n > 0 {
      RequiredExactly(ps, n - 1, name);
      var before := RequiredNames(ps, n - 1);
      assert name in before + [ps[n - 1].name] <==> name in before || name == ps[n - 1].name;
    }
  }

  lemma {:induction false} RequiredAt(ps: seq<Property>, i: nat)
    requires DistinctNames(ps) && i < |ps|
    ensures ps[i].name in RequiredNames(ps, |ps|) <==> IsRequired(ps[i].model)
  {
    RequiredExactly(ps, |ps|, ps[i].name);
  }

  function NormalFields(ps: seq<Property>): seq<Property> {
    seq(|ps|, i requires 0 <= i < |ps| => Property(ps[i].name, Normal(ps[i].model, IsRequired(ps[i].model))))
  }

  /** Parsing the printed properties of an object, given that each property comes back normal. */
  lemma {:induction false} FieldsBack(m: ParamModel, n: nat)
    requires m.ObjectParam? && DistinctNames(m.properties) && n <= |m.properties|
    requires forall i, r: bool | 0 <= i < |m.properties| ::
               ParseSingle(PrintSingle(m.properties[i].model), r) == Ok(Normal(m.properties[i].model, r))
    ensures var ps := m.properties;
            var props := Object(PrintFields(m, |ps|));
            |props.members| == |ps| && ParseFields(props, RequiredNames(ps, |ps|), n) == Ok(NormalFields(ps)[..n])
  {
    hide PrintSingle, ParseSingle, Normal, RequiredNames, PrintFields;
    var ps := m.properties;
    PrintedFields(m, |ps|);
    if n > 0 {
      FieldsBack(m, n - 1);
      RequiredAt(ps, n - 1);
      assert NormalFields(ps)[..n] == NormalFields(ps)[..n - 1] + [NormalFields(ps)[n - 1]];
    }
  }

  lemma RequiredBack(v: Value, ps: seq<Property>)
    requires Get(v, "required") == RequiredList(ps)
    ensures RequiredOf(v) == RequiredNames(ps, |ps|)
  {
    hide Get, RequiredNames, StringArray, Strings, GetStrings;
    var names := RequiredNames(ps, |ps|);
    if names != [] {
      StringListRead(v, "required", names);
    } else {
      NoStringsRead(v, "required");
    }
  }

  lemma StringListRead(v: Value, key: string, ss: seq<string>)
    requires Get(v, key) == Some(StringArray(ss))
    ensures GetStrings(v, key) == Some(ss)
  {
    hide Get, Strings;
    StringListBack(ss);
  }

  lemma NoStringsRead(v: Value, key: string)
    requires Get(v, key) == None
    ensures GetStrings(v, key) == None
  {
    hide Get;
  }

  /** What an object model prints, member by member. */
  lemma ObjectRead(m: ParamModel)
    requires m.ObjectParam?
    ensures var v := PrintSingle(m);
            && TypeOf(v) == "object" && GetString(v, "description") == m.description
            && Get(v, "properties") == Some(Object(PrintFields(m, |m.properties|)))
            && RequiredOf(v) == RequiredNames(m.properties, |m.properties|)
  {
    hide PrintFields, RequiredNames, RequiredList, Lookup, Header, TypeOf, GetString, Get, RequiredOf;
    var fields, list := Some(Object(PrintFields(m, |m.properties|))), RequiredList(m.properties);
    var rest := Optional("properties", fields) + Optional("required", list);
    PairRead("properties", fields, "required", list, "type");
    PairRead("properties", fields, "required", list, "description");
    PairRead("properties", fields, "required", list, "properties");
    PairRead("properties", fields, "required", list, "required");
    HeaderRead("object", m.description, rest, "properties");
    HeaderRead("object", m.description, rest, "required");
    PrintedObject(m);
    RequiredBack(PrintSingle(m), m.properties);
  }

  lemma PrintedObject(m: ParamModel)
    requires m.ObjectParam?
    ensures var fields := Some(Object(PrintFields(m, |m.properties|)));
            PrintSingle(m) == Object(Header("object", m.description)
                                     + (Optional("properties", fields)
                                        + Optional("required", RequiredList(m.properties))))
  {
    hide PrintFields, RequiredList, Header;
    var fields := Object(PrintFields(m, |m.properties|));
    var a, b, c := Header("object", m.description), [Member("properties", fields)],
        Optional("required", RequiredList(m.properties));
    assert a + b + c == a + (b + c);
  }

  lemma {:induction false} ArrayRead(m: ParamModel)
    requires m.ArrayParam?
    ensures var v := PrintSingle(m);
            && TypeOf(v) == "array" && GetString(v, "description") == m.description
            && Get(v, "items") == Some(PrintSingle(m.items))
  {
    var items := PrintSingle(m.items);
    var rest := [Member("items", items)];
    forall sought ensures Lookup(rest, sought) == if sought == "items" then Some(items) else None {
      LookupOne("items", Some(items), sought);
    }
    hide Lookup, Header;
    HeaderRead("array", m.description, rest, "items");
  }

  /** Printing and parsing a model gives its normal form. */
  lemma {:induction false} ParsePrinted(m: ParamModel, required: bool)
    requires Legal(m)
    ensures ParseSingle(PrintSingle(m), required) == Ok(Normal(m, required))
    decreases m
  {
    hide PrintSingle, Get, TypeOf, GetString, RequiredOf;
    match m
    case StringParam(_, _, _, _) => StringBack(m, required);
    case ObjectParam(_, _, ps) =>
      forall i, r: bool | 0 <= i < |ps| ensures ParseSingle(PrintSingle(ps[i].model), r) == Ok(Normal(ps[i].model, r)) {
        ParsePrinted(ps[i].model, r);
      }
      FieldsBack(m, |ps|);
      ObjectRead(m);
      ObjectBack(m, required);
    case ArrayParam(_, _, items) =>
      ParsePrinted(items, true);
      ArrayRead(m);
    case Unsupported(_) => UnsupportedBack(m, required);
    case _ => PlainBack(m, required);
  }

  lemma ObjectBack(m: ParamModel, required: bool)
    requires m.ObjectParam?
    requires var ps := m.properties;
             var props := Object(PrintFields(m, |ps|));
             |props.members| == |ps| && ParseFields(props, RequiredNames(ps, |ps|), |ps|)
                 == Ok(NormalFields(ps)[..|ps|])
    requires var v := PrintSingle(m);
             && TypeOf(v) == "object" && GetString(v, "description") == m.description
             && Get(v, "properties") == Some(Object(PrintFields(m, |m.properties|)))
             && RequiredOf(v) == RequiredNames(m.properties, |m.properties|)
    ensures ParseSingle(PrintSingle(m), required) == Ok(Normal(m, required))
  {
    hide PrintSingle, Get, TypeOf, GetString, RequiredOf, PrintFields, ParseFields, RequiredNames;
    assert NormalFields(m.properties)[..|m.properties|] == NormalFields(m.properties);
  }

  /** A model is its own normal form exactly when it is canonical and as required as it is parsed. */
  lemma {:induction false} NormalIsSelf(m: ParamModel, required: bool)
    ensures Normal(m, required) == m <==> Canonical(m) && Fits(m, required)
    decreases m
  {
    match m
    case ObjectParam(_, _, ps) =>
      forall i | 0 <= i < |ps| ensures Normal(ps[i].model, IsRequired(ps[i].model)) == ps[i].model
          <==> Canonical(ps[i].model) {
        NormalIsSelf(ps[i].model, IsRequired(ps[i].model));
      }
      NormalObject(m, required);
    case ArrayParam(_, _, items) => NormalIsSelf(items, true);
    case _ =>
  }

  lemma NormalObject(m: ParamModel, required: bool)
    requires m.ObjectParam?
    requires forall i | 0 <= i < |m.properties| ::
               var c := m.properties[i].model; Normal(c, IsRequired(c)) == c <==> Canonical(c)
    ensures Normal(m, required) == m <==> Canonical(m) && Fits(m, required)
  {
    var ps := m.properties;
    var ns := Normal(m, required).properties;
    assert forall i | 0 <= i < |ps| :: ns[i] == Property(ps[i].name, Normal(ps[i].model, IsRequired(ps[i].model)));
    assert ns == ps <==> forall i | 0 <= i < |ps| :: ns[i] == ps[i];
    hide Normal;
  }

  /** Printing then parsing is the identity exactly on canonical models, at any depth. */
  lemma PrintParseExactly(m: ParamModel, required: bool)
    requires Legal(m)
    ensures ParseSingle(PrintSingle(m), required) == Ok(m) <==> Canonical(m) && Fits(m, required)
  {
    hide ParseSingle, PrintSingle, Normal, Canonical, Legal;
    ParsePrinted(m, required);
    NormalIsSelf(m, required);
  }

  // ---------- parsing, printing, parsing ----------

  /** Whatever parses is canonical. */
  lemma {:induction false} ParsedIsCanonical(schema: Value, required: bool)
    requires WellFormed(schema) && ParseSingle(schema, required).Ok?
    ensures var m := ParseSingle(schema, required).value; Canonical(m) && Fits(m, required) && Legal(m)
    decreases schema, 1
  {
    hide WellFormed;
    var t := TypeOf(schema);
    if t == "object" && Get(schema, "properties").Some? {
      var props := Get(schema, "properties").value;
      PartWellFormed(schema, "properties");
      FieldsAreCanonical(props, RequiredOf(schema), |props.members|);
    } else if t == "array" && Get(schema, "items").Some? {
      PartWellFormed(schema, "items");
      ParsedIsCanonical(Get(schema, "items").value, true);
    }
  }

  lemma PartWellFormed(v: Value, key: string)
    requires WellFormed(v) && Get(v, key).Some?
    ensures WellFormed(Get(v, key).value)
  {
    var i :| 0 <= i < |v.members| && v.members[i] == Member(key, Get(v, key).value);
  }

  lemma MemberWellFormed(v: Value, i: nat)
    requires v.Object? && WellFormed(v) && i < |v.members|
    ensures WellFormed(v.members[i].value) && DistinctKeys(v.members)
  {
  }

  lemma {:induction false} FieldsAreCanonical(props: Value, required: seq<string>, n: nat)
    requires props.Object? && WellFormed(props) && n <= |props.members| && ParseFields(props, required, n).Ok?
    ensures var ps := ParseFields(props, required, n).value;
            && |ps| == n && DistinctNames(ps)
            && forall i | 0 <= i < n ::
               ps[i].name == props.members[i].key && Canonical(ps[i].model) && Legal(ps[i].model)
    decreases props, 0, n
  {
    hide WellFormed, ParseSingle, Canonical, Legal;
    if n > 0 {
      FieldsAreCanonical(props, required, n - 1);
      var m := props.members[n - 1];
      MemberWellFormed(props, n - 1);
      ParsedIsCanonical(m.value, m.key in required);
    }
  }

  /** Parsing a schema, printing the models and parsing that gives the same models. */
  lemma ReparseIsSame(schema: Value, required: bool)
    requires WellFormed(schema) && ParseSingle(schema, required).Ok?
    ensures ParseSingle(PrintSingle(ParseSingle(schema, required).value), required) == ParseSingle(schema, required)
  {
    hide ParseSingle, PrintSingle, Canonical, Legal, WellFormed;
    ParsedIsCanonical(schema, required);
    PrintParseExactly(ParseSingle(schema, required).value, required);
  }

  /** The same for a whole tool: its parameters survive a reconstruction of their schema. */
  lemma ToolSurvivesReconstruction(schema: Value)
    requires WellFormed(schema) && FromSchema(schema).Ok?
    ensures FromSchema(Reconstruct(FromSchema(schema).value)) == FromSchema(schema)
  {
    var m := FromSchema(schema).value;
    var ps := m.properties;
    FromSchemaFields(schema);
    forall i, r: bool | 0 <= i < |ps| ensures ParseSingle(PrintSingle(ps[i].model), r) == Ok(Normal(ps[i].model, r)) {
      ParsePrinted(ps[i].model, r);
    }
    FieldsBack(m, |ps|);
    forall i | 0 <= i < |ps| ensures NormalFields(ps)[i] == ps[i] {
      NormalIsSelf(ps[i].model, IsRequired(ps[i].model));
    }
    assert NormalFields(ps)[..|ps|] == ps;
    ReconstructRead(m);
  }

  lemma {:induction false} FromSchemaFields(schema: Value)
    requires WellFormed(schema) && FromSchema(schema).Ok?
    ensures var m := FromSchema(schema).value;
            && m == ObjectParam(None, true, m.properties) && DistinctNames(m.properties)
            && forall i | 0 <= i < |m.properties| :: Canonical(m.properties[i].model) && Legal(m.properties[i].model)
  {
    hide WellFormed, Canonical, Legal;
    if Get(schema, "properties").Some? {
      var props := Get(schema, "properties").value;
      PartWellFormed(schema, "properties");
      FieldsAreCanonical(props, RequiredOf(schema), |props.members|);
    }
  }

  lemma ReconstructRead(m: ParamModel)
    requires m.ObjectParam? && m.required
    ensures var v := Reconstruct(m);
            && Get(v, "properties") == Some(Object(PrintFields(m, |m.properties|)))
            && RequiredOf(v) == RequiredNames(m.properties, |m.properties|)
  {
    hide PrintFields, RequiredNames, RequiredList, RequiredOf;
    var fields, list := Object(PrintFields(m, |m.properties|)), RequiredList(m.properties);
    var head := [Member("type", String("object")), Member("properties", fields)];
    LookupConcat(head, Optional("required", list), "properties");
    LookupConcat(head, Optional("required", list), "required");
    LookupOne("required", list, "required");
    IndexIs(head, "properties", 1);
    IndexIs(head, "required", 2);
    RequiredBack(Reconstruct(m), m.properties);
  }
}
