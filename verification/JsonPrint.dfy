/** The layout both JSON printers share: members and items separated by comma and space,
    keys and values by colon and space.

    They differ in how a string is quoted. */
module JsonPrint {
  import opened Json

  type Quoter = string -> string

  function Show(q: Quoter, v: Value): string
    decreases v, 1
  {
    match v
    case Null => "null"
    case Bool(b) => if b then "true" else "false"
    case Number(text) => text
    case String(s) => q(s)
    case Array(_) => "[" + ShowItems(q, v, 0) + "]"
    case Object(_) => "{" + ShowMembers(q, v, 0) + "}"
  }

  /** The items from `i` on, each after the first preceded by the separator. */
  function ShowItems(q: Quoter, v: Value, i: nat): string
    requires v.Array? && i <= |v.items|
    decreases v, 0, |v.items| - i
  {
    if i == |v.items| then ""
    else Separator(i) + Show(q, v.items[i]) + ShowItems(q, v, i + 1)
  }

  function ShowMembers(q: Quoter, v: Value, i: nat): string
    requires v.Object? && i <= |v.members|
    decreases v, 0, |v.members| - i
  {
    if i == |v.members| then ""
    else Separator(i) + q(v.members[i].key) + ": " + Show(q, v.members[i].value) + ShowMembers(q, v, i + 1)
  }

  function Separator(i: nat): string {
    if i == 0 then "" else ", "
  }

  // ---------- the layout ----------

  /** Texts in a row with `, ` between them. */
  function Listed(texts: seq<string>): string {
    if texts == [] then ""
    else if |texts| == 1 then texts[0]
    else texts[0] + ", " + Listed(texts[1..])
  }

  function ItemTexts(q: Quoter, v: Value, i: nat): seq<string>
    requires v.Array? && i <= |v.items|
  {
    seq(|v.items| - i, k requires 0 <= k < |v.items| - i => Show(q, v.items[i + k]))
  }

  function MemberTexts(q: Quoter, v: Value, i: nat): seq<string>
    requires v.Object? && i <= |v.members|
  {
    seq(|v.members| - i, k requires 0 <= k < |v.members| - i =>
      q(v.members[i + k].key) + ": " + Show(q, v.members[i + k].value))
  }

  lemma {:induction false} ItemsListed(q: Quoter, v: Value, i: nat)
    requires v.Array? && i <= |v.items|
    ensures ShowItems(q, v, i) == if i == |v.items|
            then "" else (if i == 0 then "" else ", ") + Listed(ItemTexts(q, v, i))
    decreases |v.items| - i
  {
    hide Show;
    if i < |v.items| {
      ItemsListed(q, v, i + 1);
      assert ItemTexts(q, v, i)[1..] == ItemTexts(q, v, i + 1);
      assert ItemTexts(q, v, i)[0] == Show(q, v.items[i]);
    }
  }

  lemma {:induction false} MembersListed(q: Quoter, v: Value, i: nat)
    requires v.Object? && i <= |v.members|
    ensures ShowMembers(q, v, i)
            == if i == |v.members| then "" else (if i == 0 then "" else ", ") + Listed(MemberTexts(q, v, i))
    decreases |v.members| - i
  {
    if i < |v.members| {
      MembersListed(q, v, i + 1);
      MemberTextsNext(q, v, i);
      ListedNext(MemberTexts(q, v, i));
    }
    hide Show, Listed, MemberTexts;
  }

  lemma {:induction false} MemberTextsNext(q: Quoter, v: Value, i: nat)
    requires v.Object? && i < |v.members|
    ensures |MemberTexts(q, v, i)| == |v.members| - i && MemberTexts(q, v, i)[1..] == MemberTexts(q, v, i + 1)
    ensures MemberTexts(q, v, i)[0] == q(v.members[i].key) + ": " + Show(q, v.members[i].value)
  {
    hide Show;
  }

  lemma {:induction false} ListedNext(texts: seq<string>)
    requires texts != []
    ensures Listed(texts) == texts[0] + if |texts| == 1 then "" else ", " + Listed(texts[1..])
  {
  }

  /** How each kind of value is laid out. */
  lemma {:induction false} Layout(q: Quoter, v: Value)
    ensures Show(q, Null) == "null" && Show(q, Bool(true)) == "true" && Show(q, Bool(false)) == "false"
    ensures v.Number? ==> Show(q, v) == v.text
    ensures v.String? ==> Show(q, v) == q(v.s)
    ensures v.Array? ==> Show(q, v) == "[" + Listed(ItemTexts(q, v, 0)) + "]"
    ensures v.Object? ==> Show(q, v) == "{" + Listed(MemberTexts(q, v, 0)) + "}"
  {
    if v.Array? {
      ItemsListed(q, v, 0);
      assert |v.items| == 0 ==> ItemTexts(q, v, 0) == [] && Listed([]) == "";
    } else if v.Object? {
      MembersListed(q, v, 0);
      assert |v.members| == 0 ==> MemberTexts(q, v, 0) == [] && Listed([]) == "";
    }
    hide ShowItems, ItemTexts, ShowMembers, MemberTexts, Listed;
  }

  // ---------- no printed value is the beginning of another ----------

  /** A quoted string begins with a quote, and no quoted string is the beginning of another. */
  ghost predicate PrefixFree(q: Quoter) {
    && (forall a :: q(a) != "" && q(a)[0] == '"')
    && (forall a, b, s, t | q(a) + s == q(b) + t :: a == b)
  }

  /** What can follow a value inside a printed value. */
  predicate Delimited(s: string) {
    s != "" ==> s[0] in ",]}"
  }

  predicate NumberChar(c: char) {
    '0' <= c <= '9' || c in "+-.eE"
  }

  lemma Cancel(a: string, s: string, t: string)
    requires a + s == a + t
    ensures s == t
  {
    assert s == (a + s)[|a|..] && t == (a + t)[|a|..];
  }

  lemma NextChar(x: string, y: string, s: string, t: string)
    requires x + s == y + t && |x| < |y|
    ensures s != "" && s[0] == y[|x|]
  {
    assert (x + s)[|x|] == (y + t)[|x|];
  }

  lemma NumberPrefix(x: string, y: string, s: string, t: string)
    requires NumberText(x) && NumberText(y) && Delimited(s) && Delimited(t) && x + s == y + t
    ensures x == y && s == t
  {
    if |x| < |y| {
      NextChar(x, y, s, t);
    } else if |y| < |x| {
      NextChar(y, x, t, s);
    } else {
      assert x == (x + s)[..|x|] && y == (y + t)[..|y|];
      Cancel(x, s, t);
    }
  }

  /** The first character tells the kind of value. */
  predicate HeadFits(v: Value, c: char) {
    match v
    case Null => c == 'n'
    case Bool(b) => c == if b then 't' else 'f'
    case Number(_) => NumberChar(c)
    case String(_) => c == '"'
    case Array(_) => c == '['
    case Object(_) => c == '{'
  }

  lemma ShowHead(q: Quoter, v: Value)
    requires PrefixFree(q) && WellFormed(v)
    ensures Show(q, v) != "" && HeadFits(v, Show(q, v)[0])
  {
  }

  lemma SameKind(q: Quoter, v: Value, w: Value, s: string, t: string)
    requires PrefixFree(q) && WellFormed(v) && WellFormed(w) && Show(q, v) + s == Show(q, w) + t
    ensures HeadFits(w, Show(q, v)[0]) && HeadFits(v, Show(q, v)[0]) && Show(q, v) != ""
  {
    hide PrefixFree, WellFormed;
    ShowHead(q, v);
    ShowHead(q, w);
    hide Show;
    assert (Show(q, v) + s)[0] == Show(q, v)[0] && (Show(q, w) + t)[0] == Show(q, w)[0];
  }

  /** A printed value determines the value and where it ends. */
  lemma {:induction false} ShowPrefix(q: Quoter, v: Value, w: Value, s: string, t: string)
    requires PrefixFree(q) && WellFormed(v) && WellFormed(w) && Delimited(s) && Delimited(t)
    requires Show(q, v) + s == Show(q, w) + t
    ensures v == w && s == t
    decreases v, 1
  {
    hide PrefixFree;
    SameKind(q, v, w, s, t);
    match v
    case Null => Cancel("null", s, t);
    case Bool(b) => Cancel(if b then "true" else "false", s, t);
    case Number(x) => NumberPrefix(x, w.text, s, t);
    case String(x) =>
      QuotedPrefix(q, x, w.s, s, t);
    case Array(_) =>
      Unwrap("[", ShowItems(q, v, 0), ShowItems(q, w, 0), "]", s, t);
      ItemsPrefix(q, v, w, 0, s, t);
    case Object(_) =>
      Unwrap("{", ShowMembers(q, v, 0), ShowMembers(q, w, 0), "}", s, t);
      MembersPrefix(q, v, w, 0, s, t);
  }

  lemma QuotedPrefix(q: Quoter, x: string, y: string, s: string, t: string)
    requires PrefixFree(q) && q(x) + s == q(y) + t
    ensures x == y && s == t
  {
    Cancel(q(x), s, t);
  }

  lemma Unwrap(open: string, x: string, y: string, close: string, s: string, t: string)
    requires open + x + close + s == open + y + close + t
    ensures x + (close + s) == y + (close + t)
  {
    assert open + (x + (close + s)) == open + x + close + s;
    assert open + (y + (close + t)) == open + y + close + t;
    Cancel(open, x + (close + s), y + (close + t));
  }

  /** The text of the rest of an array begins with the bracket exactly when no items are left. */
  lemma ItemsHead(q: Quoter, v: Value, i: nat, s: string)
    requires PrefixFree(q) && WellFormed(v) && v.Array? && i <= |v.items|
    ensures var text := ShowItems(q, v, i) + ("]" + s); text != "" && (text[0] == ']' <==> i == |v.items|)
  {
    if i < |v.items| {
      ShowHead(q, v.items[i]);
      hide PrefixFree, Show;
      var item, rest := Show(q, v.items[i]), ShowItems(q, v, i + 1);
      assert ShowItems(q, v, i) == Separator(i) + item + rest;
      hide ShowItems;
      if i == 0 {
        assert (Separator(i) + item + rest + ("]" + s))[0] == item[0];
      } else {
        assert (Separator(i) + item + rest + ("]" + s))[0] == ',';
      }
    }
  }

  lemma {:induction false} ItemsPrefix(q: Quoter, v: Value, w: Value, i: nat, s: string, t: string)
    requires PrefixFree(q) && WellFormed(v) && WellFormed(w) && v.Array? && w.Array?
    requires i <= |v.items| && i <= |w.items| && v.items[..i] == w.items[..i]
    requires ShowItems(q, v, i) + ("]" + s) == ShowItems(q, w, i) + ("]" + t)
    ensures v == w && s == t
    decreases v, 0, |v.items| - i
  {
    ItemsHead(q, v, i, s);
    ItemsHead(q, w, i, t);
    if i < |v.items| {
      var x, y := Show(q, v.items[i]), Show(q, w.items[i]);
      var xs, ys := ShowItems(q, v, i + 1) + ("]" + s), ShowItems(q, w, i + 1) + ("]" + t);
      Peel(Separator(i), x, ShowItems(q, v, i + 1), "]" + s, y, ShowItems(q, w, i + 1), "]" + t);
      RestOfItems(q, v, i + 1, s);
      RestOfItems(q, w, i + 1, t);
      ShowPrefix(q, v.items[i], w.items[i], xs, ys);
      assert v.items[..i + 1] == w.items[..i + 1];
      ItemsPrefix(q, v, w, i + 1, s, t);
    } else {
      assert v.items == v.items[..i] && w.items == w.items[..i];
      assert ShowItems(q, v, i) + ("]" + s) == "]" + s && ShowItems(q, w, i) + ("]" + t) == "]" + t;
      Cancel("]", s, t);
    }
  }

  lemma RestOfItems(q: Quoter, v: Value, i: nat, s: string)
    requires v.Array? && 0 < i <= |v.items|
    ensures Delimited(ShowItems(q, v, i) + ("]" + s))
  {
    hide Show;
  }

  lemma Peel(sep: string, x: string, xs: string, s: string, y: string, ys: string, t: string)
    requires sep + x + xs + s == sep + y + ys + t
    ensures x + (xs + s) == y + (ys + t)
  {
    assert sep + (x + (xs + s)) == sep + x + xs + s;
    assert sep + (y + (ys + t)) == sep + y + ys + t;
    Cancel(sep, x + (xs + s), y + (ys + t));
  }

  lemma MembersHead(q: Quoter, v: Value, i: nat, s: string)
    requires PrefixFree(q) && v.Object? && i <= |v.members|
    ensures var text := ShowMembers(q, v, i) + ("}" + s); text != "" && (text[0] == '}' <==> i == |v.members|)
  {
    hide Show;
    if i < |v.members| {
      var key := q(v.members[i].key);
      assert key != "" && key[0] == '"';
      var tail := ": " + Show(q, v.members[i].value) + ShowMembers(q, v, i + 1) + ("}" + s);
      assert ShowMembers(q, v, i) + ("}" + s) == Separator(i) + (key + tail);
    }
  }

  lemma {:induction false} MembersPrefix(q: Quoter, v: Value, w: Value, i: nat, s: string, t: string)
    requires PrefixFree(q) && WellFormed(v) && WellFormed(w) && v.Object? && w.Object?
    requires i <= |v.members| && i <= |w.members| && v.members[..i] == w.members[..i]
    requires ShowMembers(q, v, i) + ("}" + s) == ShowMembers(q, w, i) + ("}" + t)
    ensures v == w && s == t
    decreases v, 0, |v.members| - i
  {
    MembersHead(q, v, i, s);
    MembersHead(q, w, i, t);
    if i < |v.members| {
      var m, n := v.members[i], w.members[i];
      var x, y := Show(q, m.value), Show(q, n.value);
      var xs, ys := ShowMembers(q, v, i + 1) + ("}" + s), ShowMembers(q, w, i + 1) + ("}" + t);
      PeelKey(Separator(i), q(m.key), x, ShowMembers(q, v, i + 1), "}" + s, q(n.key), y, ShowMembers(q, w, i + 1), "}"
              + t);
      QuotedPrefix(q, m.key, n.key, ": " + (x + xs), ": " + (y + ys));
      Cancel(": ", x + xs, y + ys);
      RestOfMembers(q, v, i + 1, s);
      RestOfMembers(q, w, i + 1, t);
      ShowPrefix(q, m.value, n.value, xs, ys);
      assert v.members[..i + 1] == w.members[..i + 1];
      MembersPrefix(q, v, w, i + 1, s, t);
    } else {
      assert v.members == v.members[..i] && w.members == w.members[..i];
      assert ShowMembers(q, v, i) + ("}" + s) == "}" + s && ShowMembers(q, w, i) + ("}" + t) == "}" + t;
      Cancel("}", s, t);
    }
  }

  lemma RestOfMembers(q: Quoter, v: Value, i: nat, s: string)
    requires v.Object? && 0 < i <= |v.members|
    ensures Delimited(ShowMembers(q, v, i) + ("}" + s))
  {
    hide Show;
    if i < |v.members| {
      var m := v.members[i];
      assert ShowMembers(q, v, i) + ("}" + s)
             == ", " + (q(m.key) + ": " + Show(q, m.value) + ShowMembers(q, v, i + 1) + ("}" + s));
    }
  }

  lemma PeelKey(sep: string, k: string, x: string, xs: string, s: string, l: string, y: string, ys: string, t: string)
    requires sep + k + ": " + x + xs + s == sep + l + ": " + y + ys + t
    ensures k + (": " + (x + (xs + s))) == l + (": " + (y + (ys + t)))
  {
    assert sep + (k + (": " + (x + (xs + s)))) == sep + k + ": " + x + xs + s;
    assert sep + (l + (": " + (y + (ys + t)))) == sep + l + ": " + y + ys + t;
    Cancel(sep, k + (": " + (x + (xs + s))), l + (": " + (y + (ys + t))));
  }

  /** Two values print alike only when they are the same value, with the members of objects in the same order. */
  lemma ShowInjective(q: Quoter, v: Value, w: Value)
    requires PrefixFree(q) && WellFormed(v) && WellFormed(w)
    ensures Show(q, v) == Show(q, w) <==> v == w
  {
    hide PrefixFree, WellFormed, Show;
    if Show(q, v) == Show(q, w) {
      ShowPrefix(q, v, w, "", "");
    }
  }
}
