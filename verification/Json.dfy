/** JSON values as the program holds them: objects keep the order in which their
    members were inserted, and numbers are kept as their text. */
module Json {
  import opened Wrappers

  datatype Member = Member(key: string, value: Value)

  datatype Value =
    | Null
    | Bool(b: bool)
    | Number(text: string)
    | String(s: string)
    | Array(items: seq<Value>)
    | Object(members: seq<Member>)

  /** The first position at or after `i` of a key, or the number of members. */
  function IndexOf(ms: seq<Member>, key: string, i: nat): (p: nat)
    requires i <= |ms|
    ensures i <= p <= |ms|
    ensures p < |ms| ==> ms[p].key == key
    ensures forall j | i <= j < p :: ms[j].key != key
    decreases |ms| - i
  {
    if i == |ms| || ms[i].key == key then i else IndexOf(ms, key, i + 1)
  }

  function Lookup(ms: seq<Member>, key: string): (r: Option<Value>)
    ensures r.Some? ==> Member(key, r.value) in ms
    ensures r.None? ==> forall m | m in ms :: m.key != key
  {
    var p := IndexOf(ms, key, 0);
    if p < |ms| then
      assert ms[p] == Member(key, ms[p].value);
      Some(ms[p].value)
    else None
  }

  predicate DistinctKeys(ms: seq<Member>) {
    forall i, j | 0 <= i < j < |ms| :: ms[i].key != ms[j].key
  }

  predicate NumberText(t: string) {
    t != "" && forall i | 0 <= i < |t| :: '0' <= t[i] <= '9' || t[i] in "+-.eE"
  }

  /** No object anywhere in the value has a key twice, and numbers read as numbers. */
  predicate WellFormed(v: Value) {
    match v
    case Number(text) => NumberText(text)
    case Array(items) => forall i | 0 <= i < |items| :: WellFormed(items[i])
    case Object(ms) => DistinctKeys(ms) && forall i | 0 <= i < |ms| :: WellFormed(ms[i].value)
    case _ => true
  }

  /** Equality up to the order of the members of objects. */
  predicate Equiv(v: Value, w: Value) {
    match v
    case Array(a) => w.Array? && |a| == |w.items| && forall i | 0 <= i < |a| :: Equiv(a[i], w.items[i])
    case Object(a) =>
      w.Object? && |a| == |w.members|
      && forall i | 0 <= i < |a| ::
           var j := IndexOf(w.members, a[i].key, 0);
           j < |w.members| && Equiv(a[i].value, w.members[j].value)
    case _ => v == w
  }
}
