/** Finding JSON objects in free text: the balanced-brace scanner over bytes, and what it
    finds where the program itself printed an object. */
module BraceScan {
  import opened Wrappers
  import opened Utf8
  import opened Json
  import opened JsonPrint
  import SortedJson

  const QUOTE: byte := 0x22
  const BACKSLASH: byte := 0x5c
  const OPEN: byte := 0x7b
  const CLOSE: byte := 0x7d

  // ---------- a one-byte automaton ----------

  datatype Mode = Outside | InString | Escaped

  datatype Scan = Scan(depth: int, mode: Mode)

  const START: Scan := Scan(0, Outside)

  function Step(s: Scan, b: byte): Scan {
    match s.mode
    case Outside =>
      if b == QUOTE then s.(mode := InString)
      else if b == OPEN then s.(depth := s.depth + 1)
      else if b == CLOSE then s.(depth := s.depth - 1)
      else s
    case InString =>
      if b == BACKSLASH then s.(mode := Escaped)
      else if b == QUOTE then s.(mode := Outside)
      else s
    case Escaped => s.(mode := InString)
  }

  /** The state after the first `n` bytes. */
  function ScanTo(s: Scan, bs: seq<byte>, n: nat): Scan
    requires n <= |bs|
  {
    if n == 0 then s else Step(ScanTo(s, bs, n - 1), bs[n - 1])
  }

  /** A closing brace outside strings that brings the depth to zero. */
  predicate Closes(bs: seq<byte>, i: nat)
    requires i < |bs|
  {
    bs[i] == CLOSE && ScanTo(START, bs, i).mode.Outside? && ScanTo(START, bs, i + 1).depth == 0
  }

  /** The first closing position at or after `i`. */
  function FirstClose(bs: seq<byte>, i: nat): (r: Option<nat>)
    requires i <= |bs|
    ensures r.Some? ==> i <= r.value < |bs| && Closes(bs, r.value) && forall j | i <= j < r.value :: !Closes(bs, j)
    ensures r.None? ==> forall j | i <= j < |bs| :: !Closes(bs, j)
    decreases |bs| - i
  {
    if i == |bs| then None else if Closes(bs, i) then Some(i) else FirstClose(bs, i + 1)
  }

  function BalancedEnd(bs: seq<byte>): Option<nat> {
    if bs == [] || bs[0] != OPEN then None else FirstClose(bs, 0)
  }

  lemma FirstCloseIs(bs: seq<byte>, i: nat, p: nat)
    requires i <= p < |bs| && Closes(bs, p) && forall j | i <= j < p :: !Closes(bs, j)
    ensures FirstClose(bs, i) == Some(p)
  {
    hide Closes;
  }

  /** The scanner steps over a backslash in a string together with the byte after it. */
  method FindBalancedBrace(bs: seq<byte>) returns (r: Option<nat>)
    ensures r == BalancedEnd(bs)
  {
    hide FirstClose;
    if bs == [] || bs[0] != OPEN {
      return None;
    }
    var depth, inString, i := 0, false, 0;
    while i < |bs|
      invariant i <= |bs| + 1
      invariant i <= |bs| ==> ScanTo(START, bs, i) == Scan(depth, if inString then InString else Outside)
      invariant forall j | 0 <= j < i && j < |bs| :: !Closes(bs, j)
    {
      var ch := bs[i];
      if inString {
        if ch == BACKSLASH {
          i := i + 2;
          continue;
        }
        if ch == QUOTE {
          inString := false;
        }
      } else if ch == QUOTE {
        inString := true;
      } else if ch == OPEN {
        depth := depth + 1;
      } else if ch == CLOSE {
        depth := depth - 1;
        if depth == 0 {
          FirstCloseIs(bs, 0, i);
          return Some(i);
        }
      }
      i := i + 1;
    }
    r := None;
  }

  // ---------- texts the scanner passes through ----------

  lemma {:induction false} ScanConcat(s: Scan, a: seq<byte>, b: seq<byte>, n: nat)
    requires n <= |b|
    ensures ScanTo(s, a + b, |a| + n) == ScanTo(ScanTo(s, a, |a|), b, n)
  {
    hide Step;
    if n == 0 {
      ScanPrefix(s, a, b, |a|);
    } else {
      ScanConcat(s, a, b, n - 1);
    }
  }

  lemma {:induction false} ScanPrefix(s: Scan, a: seq<byte>, b: seq<byte>, n: nat)
    requires n <= |a|
    ensures ScanTo(s, a + b, n) == ScanTo(s, a, n)
  {
    hide Step;
    if n > 0 {
      ScanPrefix(s, a, b, n - 1);
    }
  }

  lemma {:induction false} ScanShift(s: Scan, k: int, bs: seq<byte>, n: nat)
    requires n <= |bs|
    ensures ScanTo(s.(depth := s.depth + k), bs, n) == ScanTo(s, bs, n).(depth := ScanTo(s, bs, n).depth + k)
  {
    if n > 0 {
      ScanShift(s, k, bs, n - 1);
    }
  }

  /** Read from outside a string, the bytes end outside at the depth they began at and never go below it. */
  predicate Balanced(bs: seq<byte>) {
    ScanTo(START, bs, |bs|) == START && forall n | 0 <= n <= |bs| :: ScanTo(START, bs, n).depth >= 0
  }

  const STRING: Scan := Scan(0, InString)

  /** Read from inside a string, the bytes end inside it, and the depth never moves. */
  predicate Inside(bs: seq<byte>) {
    ScanTo(STRING, bs, |bs|) == STRING && forall n | 0 <= n <= |bs| :: ScanTo(STRING, bs, n).depth == 0
  }

  lemma BalancedConcat(a: seq<byte>, b: seq<byte>)
    requires Balanced(a) && Balanced(b)
    ensures Balanced(a + b)
  {
    hide ScanTo;
    ScanConcat(START, a, b, |b|);
    forall n | 0 <= n <= |a + b| ensures ScanTo(START, a + b, n).depth >= 0 {
      if n <= |a| {
        ScanPrefix(START, a, b, n);
      } else {
        ScanConcat(START, a, b, n - |a|);
      }
    }
  }

  /** Bytes between braces: the depth is positive until the last byte. */
  lemma Enclosed(x: seq<byte>)
    requires Balanced(x)
    ensures var bs := [OPEN] + x + [CLOSE];
            && ScanTo(START, bs, |bs|) == START
            && ScanTo(START, bs, |bs| - 1) == Scan(1, Outside)
            && forall n | 1 <= n < |bs| :: ScanTo(START, bs, n).depth >= 1
  {
    var bs := [OPEN] + x + [CLOSE];
    forall n | 0 <= n <= |x| ensures ScanTo(START, bs, 1 + n)
        == ScanTo(START, x, n).(depth := ScanTo(START, x, n).depth + 1) {
      ScanPrefix(START, [OPEN] + x, [CLOSE], 1 + n);
      ScanConcat(START, [OPEN], x, n);
      assert ScanTo(START, [OPEN], 0) == START;
      assert ScanTo(START, [OPEN], 1) == Scan(1, Outside);
      ScanShift(START, 1, x, n);
    }
    assert bs[|bs| - 1] == CLOSE;
    forall n | 1 <= n < |bs| ensures ScanTo(START, bs, n).depth >= 1 {
      assert ScanTo(START, bs, 1 + (n - 1)).depth == ScanTo(START, x, n - 1).depth + 1;
    }
  }

  lemma BracedIsBalanced(x: seq<byte>)
    requires Balanced(x)
    ensures Balanced([OPEN] + x + [CLOSE])
  {
    hide ScanTo;
    Enclosed(x);
    ScanToZero([OPEN] + x + [CLOSE]);
  }

  lemma ScanToZero(bs: seq<byte>)
    ensures ScanTo(START, bs, 0) == START
  {
  }

  /** A balanced text between braces, whatever follows, is found to end at its own last byte. */
  lemma EnclosedIsFound(x: seq<byte>, suffix: seq<byte>)
    requires Balanced(x)
    ensures var bs := [OPEN] + x + [CLOSE]; BalancedEnd(bs + suffix) == Some(|bs| - 1)
  {
    var bs := [OPEN] + x + [CLOSE];
    var all := bs + suffix;
    Enclosed(x);
    forall n | 0 <= n <= |bs| ensures ScanTo(START, all, n) == ScanTo(START, bs, n) {
      ScanPrefix(START, bs, suffix, n);
    }
    hide ScanTo, FirstClose;
    assert all[|bs| - 1] == CLOSE;
    FirstCloseIs(all, 0, |bs| - 1);
  }

  lemma InsideConcat(a: seq<byte>, b: seq<byte>)
    requires Inside(a) && Inside(b)
    ensures Inside(a + b)
  {
    hide ScanTo;
    ScanConcat(STRING, a, b, |b|);
    forall n | 0 <= n <= |a + b| ensures ScanTo(STRING, a + b, n).depth == 0 {
      if n <= |a| {
        ScanPrefix(STRING, a, b, n);
      } else {
        ScanConcat(STRING, a, b, n - |a|);
      }
    }
  }

  lemma QuotedIsBalanced(x: seq<byte>)
    requires Inside(x)
    ensures Balanced([QUOTE] + x + [QUOTE])
  {
    var bs := [QUOTE] + x + [QUOTE];
    assert ScanTo(START, [QUOTE], 0) == START;
    assert ScanTo(START, [QUOTE], 1) == STRING;
    forall n | 0 <= n <= |x| ensures ScanTo(START, bs, 1 + n) == ScanTo(STRING, x, n) {
      ScanPrefix(START, [QUOTE] + x, [QUOTE], 1 + n);
      ScanConcat(START, [QUOTE], x, n);
    }
    assert bs[|bs| - 1] == QUOTE;
    forall n | 0 <= n <= |bs| ensures ScanTo(START, bs, n).depth >= 0 {
      if 1 <= n < |bs| {
        assert ScanTo(START, bs, 1 + (n - 1)) == ScanTo(STRING, x, n - 1);
      }
    }
  }

  predicate Plain(b: byte) {
    b != QUOTE && b != OPEN && b != CLOSE
  }

  lemma {:induction false} PlainScan(bs: seq<byte>, n: nat)
    requires n <= |bs| && forall i | 0 <= i < |bs| :: Plain(bs[i])
    ensures ScanTo(START, bs, n) == START
  {
    if n > 0 {
      PlainScan(bs, n - 1);
    }
  }

  lemma PlainIsBalanced(bs: seq<byte>)
    requires forall i | 0 <= i < |bs| :: Plain(bs[i])
    ensures Balanced(bs)
  {
    hide ScanTo;
    forall n | 0 <= n <= |bs| ensures ScanTo(START, bs, n) == START {
      PlainScan(bs, n);
    }
  }

  // ---------- the default printer ----------

  /** How serde_json writes a character inside a string. */
  function SerdeEscape(c: char): string {
    var n := c as int;
    if c == '"' then "\\\""
    else if c == '\\' then "\\\\"
    else if n == 8 then "\\b"
    else if n == 12 then "\\f"
    else if c == '\n' then "\\n"
    else if c == '\r' then "\\r"
    else if c == '\t' then "\\t"
    else if n < 0x20 then "\\u" + SortedJson.Hex4(n)
    else [c]
  }

  function SerdeEscapes(s: string): string {
    if s == "" then "" else SerdeEscape(s[0]) + SerdeEscapes(s[1..])
  }

  function SerdeQuote(s: string): string {
    "\"" + SerdeEscapes(s) + "\""
  }

  /** `json_dumps_default_value`: members in insertion order. */
  function Dump(v: Value): string {
    Show(SerdeQuote, v)
  }

  // ---------- printed values are balanced ----------

  lemma {:induction false} AsciiEncoded(s: string)
    requires SortedJson.Ascii(s)
    ensures |Encode(s)| == |s| && forall i | 0 <= i < |s| :: Encode(s)[i] == s[i] as int
  {
    if s != "" {
      AsciiEncoded(s[..|s| - 1]);
    }
  }

  lemma {:induction false} EscapeScan(bs: seq<byte>, n: nat)
    requires 2 <= |bs| && n <= |bs| && bs[0] == BACKSLASH
    requires forall i | 2 <= i < |bs| :: bs[i] != QUOTE && bs[i] != BACKSLASH
    ensures ScanTo(STRING, bs, n) == if n == 1 then Scan(0, Escaped) else STRING
  {
    if n > 0 {
      EscapeScan(bs, n - 1);
    }
  }

  lemma {:induction false} RawScan(bs: seq<byte>, n: nat)
    requires n <= |bs| && forall i | 0 <= i < |bs| :: bs[i] != QUOTE && bs[i] != BACKSLASH
    ensures ScanTo(STRING, bs, n) == STRING
  {
    if n > 0 {
      RawScan(bs, n - 1);
    }
  }

  lemma EscapeInside(bs: seq<byte>)
    requires 2 <= |bs| && bs[0] == BACKSLASH && forall i | 2 <= i < |bs| :: bs[i] != QUOTE && bs[i] != BACKSLASH
    ensures Inside(bs)
  {
    hide ScanTo;
    EscapeScan(bs, |bs|);
    forall n | 0 <= n <= |bs| ensures ScanTo(STRING, bs, n).depth == 0 {
      EscapeScan(bs, n);
    }
  }

  lemma RawInside(bs: seq<byte>)
    requires forall i | 0 <= i < |bs| :: bs[i] != QUOTE && bs[i] != BACKSLASH
    ensures Inside(bs)
  {
    hide ScanTo;
    forall n | 0 <= n <= |bs| ensures ScanTo(STRING, bs, n) == STRING {
      RawScan(bs, n);
    }
  }

  lemma HexIsHarmless(n: nat)
    requires n < 0x1_0000
    ensures forall i | 0 <= i < 4 :: var c := SortedJson.Hex4(n)[i]; c as int <= 0x7f && c != '"' && c != '\\'
  {
  }

  lemma SerdeEscapeShape(c: char)
    ensures var e := SerdeEscape(c);
            (e == [c] && c != '"' && c != '\\')
            || (SortedJson.Ascii(e) && |e| >= 2 && e[0] == '\\' &&
                forall i | 2 <= i < |e| :: e[i] != '"' && e[i] != '\\')
  {
    if c as int < 0x20 {
      HexIsHarmless(c as int);
      hide SortedJson.Hex4;
    }
  }

  lemma RawCharInside(c: char)
    requires c != '"' && c != '\\'
    ensures Inside(Encode([c]))
  {
    EncodeStep("", c);
    assert [c] == "" + [c];
    var bs := EncodeChar(c);
    assert Encode([c]) == bs;
    hide Inside, EncodeChar, Encode;
    assert forall i | 0 <= i < |bs| :: bs[i] != QUOTE && bs[i] != BACKSLASH;
    RawInside(bs);
  }

  lemma SerdeEscapeInside(c: char)
    ensures Inside(Encode(SerdeEscape(c)))
  {
    hide SerdeEscape, Encode, Inside;
    SerdeEscapeShape(c);
    var e := SerdeEscape(c);
    if e == [c] && c != '"' && c != '\\' {
      RawCharInside(c);
    } else {
      AsciiEncoded(e);
      EscapeInside(Encode(e));
    }
  }

  lemma {:induction false} SerdeEscapesInside(s: string)
    ensures Inside(Encode(SerdeEscapes(s)))
  {
    hide SerdeEscape, EncodeChar, Encode, Inside;
    if s == "" {
      EncodeNothing();
      RawInside([]);
    } else {
      SerdeEscapesInside(s[1..]);
      SerdeEscapeInside(s[0]);
      EncodeConcat(SerdeEscape(s[0]), SerdeEscapes(s[1..]));
      InsideConcat(Encode(SerdeEscape(s[0])), Encode(SerdeEscapes(s[1..])));
    }
  }

  lemma EncodeNothing()
    ensures Encode("") == []
  {
  }

  /** A text between two ASCII characters. */
  lemma EncodeWrap(open: char, x: string, close: char)
    requires open as int < 0x80 && close as int < 0x80
    ensures Encode([open] + x + [close]) == [open as int] + Encode(x) + [close as int]
  {
    hide Encode, EncodeChar;
    EncodeOne(open);
    EncodeOne(close);
    EncodeConcat([open] + x, [close]);
    EncodeConcat([open], x);
  }

  lemma EncodeOne(c: char)
    requires c as int < 0x80
    ensures Encode([c]) == [c as int]
  {
    EncodeStep("", c);
    assert [c] == "" + [c];
  }

  predicate BalancedText(s: string) {
    Balanced(Encode(s))
  }

  lemma TextConcat(a: string, b: string)
    requires BalancedText(a) && BalancedText(b)
    ensures BalancedText(a + b)
  {
    hide Balanced, Encode;
    EncodeConcat(a, b);
    BalancedConcat(Encode(a), Encode(b));
  }

  lemma PlainText(s: string)
    requires SortedJson.Ascii(s) && forall i | 0 <= i < |s| :: s[i] !in "\"{}"
    ensures BalancedText(s)
  {
    hide Balanced, Encode;
    AsciiEncoded(s);
    PlainIsBalanced(Encode(s));
  }

  lemma QuotedText(s: string)
    ensures BalancedText(SerdeQuote(s))
  {
    hide Balanced, Encode, Inside, SerdeEscapes;
    SerdeEscapesInside(s);
    EncodeWrap('"', SerdeEscapes(s), '"');
    QuotedIsBalanced(Encode(SerdeEscapes(s)));
  }

  lemma BracedText(x: string)
    requires BalancedText(x)
    ensures BalancedText("{" + x + "}")
  {
    hide Balanced, Encode;
    EncodeWrap('{', x, '}');
    BracedIsBalanced(Encode(x));
  }

  lemma BracketedText(x: string)
    requires BalancedText(x)
    ensures BalancedText("[" + x + "]")
  {
    hide BalancedText;
    PlainText("[");
    PlainText("]");
    TextConcat("[", x);
    TextConcat("[" + x, "]");
  }

  lemma {:induction false} DumpBalanced(v: Value)
    requires WellFormed(v)
    ensures BalancedText(Dump(v))
    decreases v, 1
  {
    hide BalancedText, SerdeQuote, NumberText;
    match v
    case Null => PlainText("null");
    case Bool(b) => PlainText("true"); PlainText("false");
    case Number(text) => NumberBalanced(text);
    case String(s) => QuotedText(s);
    case Array(_) =>
      ItemsBalanced(v, 0);
      BracketedText(ShowItems(SerdeQuote, v, 0));
    case Object(_) =>
      MembersBalanced(v, 0);
      BracedText(ShowMembers(SerdeQuote, v, 0));
  }

  lemma NumberBalanced(text: string)
    requires NumberText(text)
    ensures BalancedText(text)
  {
    hide BalancedText;
    PlainText(text);
  }

  lemma {:induction false} ItemsBalanced(v: Value, i: nat)
    requires v.Array? && WellFormed(v) && i <= |v.items|
    ensures BalancedText(ShowItems(SerdeQuote, v, i))
    decreases v, 0, |v.items| - i
  {
    hide BalancedText, SerdeQuote;
    if i == |v.items| {
      PlainText("");
    } else {
      PlainText(Separator(i));
      DumpBalanced(v.items[i]);
      ItemsBalanced(v, i + 1);
      TextConcat(Separator(i), Dump(v.items[i]));
      TextConcat(Separator(i) + Dump(v.items[i]), ShowItems(SerdeQuote, v, i + 1));
    }
  }

  lemma {:induction false} MembersBalanced(v: Value, i: nat)
    requires v.Object? && WellFormed(v) && i <= |v.members|
    ensures BalancedText(ShowMembers(SerdeQuote, v, i))
    decreases v, 0, |v.members| - i
  {
    hide BalancedText, SerdeQuote;
    if i == |v.members| {
      PlainText("");
    } else {
      var m := v.members[i];
      PlainText(Separator(i));
      PlainText(": ");
      QuotedText(m.key);
      DumpBalanced(m.value);
      MembersBalanced(v, i + 1);
      TextConcat(Separator(i), SerdeQuote(m.key));
      TextConcat(Separator(i) + SerdeQuote(m.key), ": ");
      TextConcat(Separator(i) + SerdeQuote(m.key) + ": ", Dump(m.value));
      TextConcat(Separator(i) + SerdeQuote(m.key) + ": " + Dump(m.value), ShowMembers(SerdeQuote, v, i + 1));
    }
  }

  /** Wherever the program printed an object, and whatever bytes follow it, the scanner stops at the
      object's own last byte. */
  lemma PrintedObjectIsFound(v: Value, suffix: seq<byte>)
    requires v.Object? && WellFormed(v)
    ensures BalancedEnd(Encode(Dump(v)) + suffix) == Some(|Encode(Dump(v))| - 1)
  {
    hide BalancedEnd, Encode;
    MembersBalanced(v, 0);
    var x := ShowMembers(SerdeQuote, v, 0);
    EncodeWrap('{', x, '}');
    EnclosedIsFound(Encode(x), suffix);
  }

  // ---------- the example call of the tool prompt ----------

  function ExamplePart(name: string, i: nat): string {
    Separator(i) + SerdeQuote(name) + ": " + SerdeQuote("<" + name + ">")
  }

  function ExampleArgs(names: seq<string>, n: nat): string
    requires n <= |names|
  {
    if n == 0 then "" else ExampleArgs(names, n - 1) + ExamplePart(names[n - 1], n - 1)
  }

  function ExampleToolCall(tool: string, names: seq<string>): string {
    "{\"tool\": " + SerdeQuote(tool) + ", \"args\": {" + ExampleArgs(names, |names|) + "}}"
  }

  function ExampleMembers(names: seq<string>): seq<Member> {
    seq(|names|, i requires 0 <= i < |names| => Member(names[i], String("<" + names[i] + ">")))
  }

  function ExampleValue(tool: string, names: seq<string>): Value {
    Object([Member("tool", String(tool)), Member("args", Object(ExampleMembers(names)))])
  }

  predicate Unescaped(s: string) {
    forall i | 0 <= i < |s| :: SerdeEscape(s[i]) == [s[i]]
  }

  lemma {:induction false} UnescapedQuote(s: string)
    requires Unescaped(s)
    ensures SerdeEscapes(s) == s
  {
    hide SerdeEscape;
    if s != "" {
      UnescapedQuote(s[1..]);
      assert s == [s[0]] + s[1..];
    }
  }

  lemma ExampleMemberShown(names: seq<string>, i: nat)
    requires i < |names|
    ensures ShowMembers(SerdeQuote, Object(ExampleMembers(names)), i)
            == ExamplePart(names[i], i) + ShowMembers(SerdeQuote, Object(ExampleMembers(names)), i + 1)
  {
    hide SerdeQuote;
    var m := ExampleMembers(names)[i];
    assert Show(SerdeQuote, m.value) == SerdeQuote("<" + names[i] + ">");
  }

  lemma {:induction false} ExampleArgsShown(names: seq<string>, i: nat)
    requires i <= |names|
    ensures ShowMembers(SerdeQuote, Object(ExampleMembers(names)), 0)
            == ExampleArgs(names, i) + ShowMembers(SerdeQuote, Object(ExampleMembers(names)), i)
  {
    hide ShowMembers, ExamplePart;
    var v := Object(ExampleMembers(names));
    if i > 0 {
      ExampleArgsShown(names, i - 1);
      ExampleMemberShown(names, i - 1);
      Associate(ExampleArgs(names, i - 1), ExamplePart(names[i - 1], i - 1), ShowMembers(SerdeQuote, v, i));
    } else {
      assert "" + ShowMembers(SerdeQuote, v, 0) == ShowMembers(SerdeQuote, v, 0);
    }
  }

  lemma Associate(a: string, b: string, c: string)
    ensures a + (b + c) == a + b + c
  {
  }

  lemma PlainQuote(s: string)
    requires Unescaped(s)
    ensures SerdeQuote(s) == "\"" + s + "\""
  {
    hide SerdeEscape, SerdeEscapes;
    UnescapedQuote(s);
  }

  lemma ToolQuoted()
    ensures SerdeQuote("tool") == "\"tool\""
  {
    hide SerdeQuote;
    PlainQuote("tool");
    assert "\"" + "tool" + "\"" == "\"tool\"";
  }

  lemma ArgsQuoted()
    ensures SerdeQuote("args") == "\"args\""
  {
    hide SerdeQuote;
    PlainQuote("args");
    assert "\"" + "args" + "\"" == "\"args\"";
  }

  /** The hand-written example is what the default printer makes of the example call. */
  lemma ExampleIsDumped(tool: string, names: seq<string>)
    ensures ExampleToolCall(tool, names) == Dump(ExampleValue(tool, names))
  {
    ToolQuoted();
    ArgsQuoted();
    ExampleArgsShown(names, |names|);
    hide SerdeQuote, ExampleArgs, ExampleMembers;
    var args := Object(ExampleMembers(names));
    var v := ExampleValue(tool, names);
    var inner := ShowMembers(SerdeQuote, args, 0);
    assert inner == ExampleArgs(names, |names|) by { NoMoreMembers(names); }
    assert ShowMembers(SerdeQuote, v, 2) == "";
    assert ShowMembers(SerdeQuote, v, 1) == ", " + SerdeQuote("args") + ": " + ("{" + inner + "}") + "";
    assert Show(SerdeQuote, v.members[0].value) == SerdeQuote(tool);
    assert ShowMembers(SerdeQuote, v, 0) == "" + SerdeQuote("tool") + ": " + SerdeQuote(tool)
           + ShowMembers(SerdeQuote, v, 1);
    Spelling(SerdeQuote(tool), inner);
  }

  lemma NoMoreMembers(names: seq<string>)
    ensures ExampleArgs(names, |names|) + ShowMembers(SerdeQuote, Object(ExampleMembers(names)), |names|)
            == ExampleArgs(names, |names|)
  {
  }

  lemma Spelling(tool: string, inner: string)
    ensures "{" + ("" + "\"tool\"" + ": " + tool + (", " + "\"args\"" + ": " + ("{" + inner + "}") + "")) + "}"
            == "{\"tool\": " + tool + ", \"args\": {" + inner + "}}"
  {
    assert "{" + ("" + "\"tool\"" + ": ") == "{\"tool\": ";
    assert ", " + "\"args\"" + ": " + "{" == ", \"args\": {";
    assert "}" + "" + "}" == "}}";
  }

  // ---------- extracting tool calls ----------

  /** A candidate: the positions of its first and last byte. */
  datatype Span = Span(first: nat, last: nat)

  /** The candidates the scan visits from position `i` on. */
  function Spans(bs: seq<byte>, i: nat): seq<Span>
    requires i <= |bs|
    decreases |bs| - i
  {
    if i == |bs| then []
    else
      var end := BalancedEnd(bs[i..]);
      if end.Some? then [Span(i, i + end.value)] + Spans(bs, i + end.value + 1) else Spans(bs, i + 1)
  }

  function Candidate(bs: seq<byte>, span: Span): seq<byte> {
    if span.first <= span.last < |bs| then bs[span.first..span.last + 1] else []
  }

  /** What `parse` makes of the first `n` candidates. */
  function ParsedSpans<T>(parse: seq<byte> -> Option<T>, bs: seq<byte>, spans: seq<Span>, n: nat): seq<T>
    requires n <= |spans|
  {
    if n == 0 then [] else ParsedSpans(parse, bs, spans, n - 1) + Parsed(parse(Candidate(bs, spans[n - 1])))
  }

  function Parsed<T>(r: Option<T>): seq<T> {
    if r.Some? then [r.value] else []
  }

  /** Candidates come in order and do not overlap, and each is a brace with its own balanced end. */
  ghost predicate InOrder(bs: seq<byte>, spans: seq<Span>, i: nat) {
    && (forall k | 0 <= k < |spans| :: i <= spans[k].first <= spans[k].last < |bs|)
    && (forall k | 0 <= k < |spans| :: BalancedEnd(bs[spans[k].first..]) == Some(spans[k].last - spans[k].first))
    && (forall j, k | 0 <= j < k < |spans| :: spans[j].last < spans[k].first)
  }

  /** No candidate is missed: an opening brace with a balanced end lies inside a visited one. */
  ghost predicate Covered(bs: seq<byte>, spans: seq<Span>, p: nat)
    requires p < |bs|
  {
    BalancedEnd(bs[p..]).Some? ==> exists k | 0 <= k < |spans| :: spans[k].first <= p <= spans[k].last
  }

  lemma {:induction false} SpansInOrder(bs: seq<byte>, i: nat)
    requires i <= |bs|
    ensures InOrder(bs, Spans(bs, i), i)
    decreases |bs| - i
  {
    hide BalancedEnd, InOrder;
    if i < |bs| {
      var end := BalancedEnd(bs[i..]);
      EndInside(bs[i..]);
      if end.Some? {
        SpansInOrder(bs, i + end.value + 1);
        InOrderFirst(bs, Span(i, i + end.value), Spans(bs, i + end.value + 1));
      } else {
        SpansInOrder(bs, i + 1);
        InOrderLater(bs, Spans(bs, i + 1), i);
      }
    } else {
      NothingInOrder(bs, i);
    }
  }

  lemma NothingInOrder(bs: seq<byte>, i: nat)
    ensures InOrder(bs, [], i)
  {
  }

  lemma InOrderLater(bs: seq<byte>, spans: seq<Span>, i: nat)
    requires InOrder(bs, spans, i + 1)
    ensures InOrder(bs, spans, i)
  {
    hide BalancedEnd;
  }

  lemma InOrderFirst(bs: seq<byte>, span: Span, rest: seq<Span>)
    requires span.first <= span.last < |bs| && BalancedEnd(bs[span.first..]) == Some(span.last - span.first)
    requires InOrder(bs, rest, span.last + 1)
    ensures InOrder(bs, [span] + rest, span.first)
  {
    hide BalancedEnd;
    var all := [span] + rest;
    assert forall k | 1 <= k < |all| :: all[k] == rest[k - 1];
  }

  lemma EndInside(bs: seq<byte>)
    ensures BalancedEnd(bs).Some? ==>
              BalancedEnd(bs).value < |bs| && bs[0] == OPEN && bs[BalancedEnd(bs).value] == CLOSE
  {
    hide FirstClose;
  }

  lemma {:induction false} SpansCover(bs: seq<byte>, i: nat, p: nat)
    requires i <= p < |bs|
    ensures Covered(bs, Spans(bs, i), p)
    decreases |bs| - i
  {
    hide BalancedEnd;
    var end := BalancedEnd(bs[i..]);
    EndInside(bs[i..]);
    var spans := Spans(bs, i);
    if end.Some? && p > i + end.value {
      SpansCover(bs, i + end.value + 1, p);
      assert forall k | 0 <= k < |spans| - 1 :: spans[1..][k] == spans[k + 1];
    } else if end.None? && p > i {
      SpansCover(bs, i + 1, p);
    } else if end.Some? {
      assert spans[0].first <= p <= spans[0].last;
    }
  }

  method ExtractToolCalls<T>(bs: seq<byte>, parse: seq<byte> -> Option<T>) returns (results: seq<T>)
    ensures InOrder(bs, Spans(bs, 0), 0) && forall p: nat | p < |bs| :: Covered(bs, Spans(bs, 0), p)
    ensures results == ParsedSpans(parse, bs, Spans(bs, 0), |Spans(bs, 0)|)
  {
    hide BalancedEnd, InOrder, Covered, Spans, ParsedSpans, Candidate, Parsed;
    results := [];
    ghost var spans: seq<Span> := [];
    NothingParsed(parse, bs);
    assert [] + Spans(bs, 0) == Spans(bs, 0);
    var i := 0;
    while i < |bs|
      invariant i <= |bs| && spans + Spans(bs, i) == Spans(bs, 0)
      invariant results == ParsedSpans(parse, bs, spans, |spans|)
    {
      var end := None;
      if bs[i] == OPEN {
        end := FindBalancedBrace(bs[i..]);
      }
      EndNeedsBrace(bs, i);
      EndInside(bs[i..]);
      SpansStep(bs, i);
      if end.Some? {
        var candidate := bs[i..i + end.value + 1];
        ghost var span := Span(i, i + end.value);
        CandidateIs(bs, i, end.value);
        ParsedMore(parse, bs, spans, span);
        Regroup(spans, span, Spans(bs, i + end.value + 1));
        spans := spans + [span];
        ParsedIs(parse(candidate));
        if parse(candidate).Some? {
          results := results + [parse(candidate).value];
        } else {
          assert results + [] == results;
        }
        i := i + end.value + 1;
      } else {
        i := i + 1;
      }
    }
    SpansStep(bs, |bs|);
    assert spans + [] == spans;
    SpansAreComplete(bs);
  }

  lemma {:induction false} SpansAreComplete(bs: seq<byte>)
    ensures InOrder(bs, Spans(bs, 0), 0) && forall p: nat | p < |bs| :: Covered(bs, Spans(bs, 0), p)
  {
    hide InOrder, Covered, Spans;
    SpansInOrder(bs, 0);
    forall p: nat | p < |bs| ensures Covered(bs, Spans(bs, 0), p) {
      SpansCover(bs, 0, p);
    }
  }

  lemma ParsedIs<T>(r: Option<T>)
    ensures Parsed(r) == if r.Some? then [r.value] else []
  {
  }

  lemma NothingParsed<T>(parse: seq<byte> -> Option<T>, bs: seq<byte>)
    ensures ParsedSpans(parse, bs, [], 0) == []
  {
  }

  lemma SpansStep(bs: seq<byte>, i: nat)
    requires i <= |bs|
    ensures i == |bs| ==> Spans(bs, i) == []
    ensures i < |bs| && BalancedEnd(bs[i..]).None? ==> Spans(bs, i) == Spans(bs, i + 1)
    ensures i < |bs| && BalancedEnd(bs[i..]).Some? ==>
              var last := i + BalancedEnd(bs[i..]).value; Spans(bs, i) == [Span(i, last)] + Spans(bs, last + 1)
  {
    hide BalancedEnd;
  }

  lemma CandidateIs(bs: seq<byte>, i: nat, end: nat)
    requires i + end < |bs|
    ensures Candidate(bs, Span(i, i + end)) == bs[i..i + end + 1]
  {
  }

  lemma Regroup(spans: seq<Span>, span: Span, rest: seq<Span>)
    ensures spans + ([span] + rest) == spans + [span] + rest
  {
  }

  lemma EndNeedsBrace(bs: seq<byte>, i: nat)
    requires i < |bs|
    ensures bs[i] != OPEN ==> BalancedEnd(bs[i..]) == None
  {
  }

  lemma {:induction false} ParsedMore<T>(parse: seq<byte> -> Option<T>, bs: seq<byte>, spans: seq<Span>, span: Span)
    ensures ParsedSpans(parse, bs, spans + [span], |spans| + 1)
            == ParsedSpans(parse, bs, spans, |spans|) + Parsed(parse(Candidate(bs, span)))
  {
    hide Candidate;
    ParsedPrefix(parse, bs, spans, span, |spans|);
  }

  lemma {:induction false} ParsedPrefix<T>(parse: seq<byte> -> Option<T>, bs: seq<byte>, spans: seq<Span>, span: Span,
                                           n: nat)
    requires n <= |spans|
    ensures ParsedSpans(parse, bs, spans + [span], n) == ParsedSpans(parse, bs, spans, n)
  {
    hide Candidate, Parsed;
    if n > 0 {
      ParsedPrefix(parse, bs, spans, span, n - 1);
    }
  }

  // ---------- printed objects are extracted ----------

  ghost predicate Printable(v: Value) {
    v.Object? && WellFormed(v)
  }

  function Printed(v: Value): seq<byte> {
    Encode(Dump(v))
  }

  lemma PrintedEnds(v: Value, suffix: seq<byte>)
    requires Printable(v)
    ensures |Printed(v)| > 0 && BalancedEnd(Printed(v) + suffix) == Some(|Printed(v)| - 1)
  {
    hide BalancedEnd, Encode, Dump, WellFormed;
    PrintedObjectIsFound(v, suffix);
    EndInside(Encode(Dump(v)) + suffix);
  }

  lemma {:induction false} CandidateUnlessReached(prefix: seq<byte>, v: Value, suffix: seq<byte>)
    requires Printable(v)
    ensures |Printed(v)| > 0
    ensures var text := prefix + Printed(v) + suffix;
            var span := Span(|prefix|, |prefix| + |Printed(v)| - 1);
            && Candidate(text, span) == Printed(v)
            && (span in Spans(text, 0) <==> NoneReaches(Spans(text, 0), |prefix|))
  {
    hide BalancedEnd, Printed, Printable, Spans;
    PrintedEnds(v, suffix);
    var text := prefix + Printed(v) + suffix;
    var spans, span := Spans(text, 0), Span(|prefix|, |prefix| + |Printed(v)| - 1);
    assert text[|prefix|..] == Printed(v) + suffix;
    assert text[|prefix|..|prefix| + |Printed(v)|] == Printed(v);
    SpansInOrder(text, 0);
    SpansCover(text, 0, |prefix|);
    if NoneReaches(spans, |prefix|) {
      var k :| 0 <= k < |spans| && spans[k].first <= |prefix| <= spans[k].last;
      assert spans[k] == span;
    }
  }

  /** No candidate that begins before position `p` ends there or later. */
  ghost predicate NoneReaches(spans: seq<Span>, p: nat) {
    forall k | 0 <= k < |spans| && spans[k].first < p :: spans[k].last < p
  }

  // ---------- what a text leaves open ----------

  /** Read on from state `s`, no byte of the text brings the depth to zero. */
  predicate NeverCloses(s: Scan, bs: seq<byte>) {
    forall j | 0 <= j < |bs| :: !ClosesFrom(s, bs, j)
  }

  predicate ClosesFrom(s: Scan, bs: seq<byte>, j: nat)
    requires j < |bs|
  {
    bs[j] == CLOSE && ScanTo(s, bs, j).mode.Outside? && ScanTo(s, bs, j + 1).depth == 0
  }

  /** Where the scan stands at the end of a text when a brace at position `i` has been opened. */
  function OpenState(prefix: seq<byte>, i: nat): Scan
    requires i < |prefix|
  {
    ScanTo(START, prefix[i..], |prefix| - i)
  }

  /** Following the scan of `prefix` from position `i`: no brace that it leaves open is closed by `rest`. */
  predicate StaysOpen(prefix: seq<byte>, rest: seq<byte>, i: nat)
    requires i <= |prefix|
    decreases |prefix| - i
  {
    i == |prefix|
    || var end := BalancedEnd(prefix[i..]);
       if end.Some? then StaysOpen(prefix, rest, i + end.value + 1)
       else (prefix[i] == OPEN ==> NeverCloses(OpenState(prefix, i), rest)) && StaysOpen(prefix, rest, i + 1)
  }

  lemma LeftOpen(a: seq<byte>, b: seq<byte>)
    requires a != [] && a[0] == OPEN && BalancedEnd(a).None?
    ensures BalancedEnd(a + b).None? <==> NeverCloses(ScanTo(START, a, |a|), b)
    ensures BalancedEnd(a + b).Some? ==> BalancedEnd(a + b).value >= |a|
  {
    var s := ScanTo(START, a, |a|);
    forall j | 0 <= j < |a| ensures Closes(a + b, j) <==> Closes(a, j) {
      ScanPrefix(START, a, b, j);
      ScanPrefix(START, a, b, j + 1);
    }
    forall j | 0 <= j < |b| ensures Closes(a + b, |a| + j) <==> ClosesFrom(s, b, j) {
      ScanConcat(START, a, b, j);
      ScanConcat(START, a, b, j + 1);
    }
    hide Closes, ClosesFrom, ScanTo;
    if BalancedEnd(a + b).Some? {
      var p := BalancedEnd(a + b).value;
      assert p >= |a|;
      assert ClosesFrom(s, b, p - |a|);
    } else {
      forall j | 0 <= j < |b| ensures !ClosesFrom(s, b, j) {
        assert !Closes(a + b, |a| + j);
      }
    }
  }

  lemma ReachesNone(spans: seq<Span>, bs: seq<byte>, p: nat)
    requires InOrder(bs, spans, p)
    ensures NoneReaches(spans, p)
  {
    hide BalancedEnd;
  }

  lemma ReachesFirst(span: Span, rest: seq<Span>, p: nat)
    ensures NoneReaches([span] + rest, p) <==> (span.first < p ==> span.last < p) && NoneReaches(rest, p)
  {
    var all := [span] + rest;
    assert all[0] == span && forall k | 0 <= k < |rest| :: all[k + 1] == rest[k];
    if NoneReaches(all, p) {
      forall k | 0 <= k < |rest| && rest[k].first < p ensures rest[k].last < p {
        assert all[k + 1] == rest[k];
      }
    }
  }

  /** The candidates that begin in the prefix stay in it exactly when nothing left open there is closed behind it. */
  lemma {:induction false} StaysOpenExactly(prefix: seq<byte>, rest: seq<byte>, i: nat)
    requires i <= |prefix|
    ensures StaysOpen(prefix, rest, i) <==> NoneReaches(Spans(prefix + rest, i), |prefix|)
    decreases |prefix| - i
  {
    hide BalancedEnd, NeverCloses, NoneReaches, InOrder;
    var text := prefix + rest;
    if i == |prefix| {
      SpansInOrder(text, i);
      ReachesNone(Spans(text, i), text, |prefix|);
    } else {
      var end := BalancedEnd(prefix[i..]);
      assert text[i..] == prefix[i..] + rest;
      EndInside(prefix[i..]);
      EndNeedsBrace(text, i);
      SpansStep(text, i);
      hide Spans;
      if end.Some? {
        EndIsStable(prefix[i..], rest);
        StaysOpenExactly(prefix, rest, i + end.value + 1);
        ReachesFirst(Span(i, i + end.value), Spans(text, i + end.value + 1), |prefix|);
      } else {
        StaysOpenExactly(prefix, rest, i + 1);
        if prefix[i] == OPEN {
          LeftOpen(prefix[i..], rest);
          EndInside(text[i..]);
          if BalancedEnd(text[i..]).Some? {
            var last := i + BalancedEnd(text[i..]).value;
            ReachesFirst(Span(i, last), Spans(text, last + 1), |prefix|);
          }
        }
      }
    }
  }

  /** A printed object in any text is a candidate, whole and alone, exactly when no brace that the text before it leaves
      open is closed by the object or by what follows. */
  lemma {:induction false} PrintedObjectIsExtractedExactly(prefix: seq<byte>, v: Value, suffix: seq<byte>)
    requires Printable(v)
    ensures |Printed(v)| > 0
    ensures var text := prefix + Printed(v) + suffix;
            var span := Span(|prefix|, |prefix| + |Printed(v)| - 1);
            && Candidate(text, span) == Printed(v)
            && (span in Spans(text, 0) <==> StaysOpen(prefix, Printed(v) + suffix, 0))
  {
    hide Printed, Printable, Spans, StaysOpen, NoneReaches, Candidate;
    CandidateUnlessReached(prefix, v, suffix);
    StaysOpenExactly(prefix, Printed(v) + suffix, 0);
    assert prefix + (Printed(v) + suffix) == prefix + Printed(v) + suffix;
  }

  /** Every brace that the text leaves open is followed by no unfinished string. */
  predicate OpensOutside(prefix: seq<byte>, i: nat)
    requires i <= |prefix|
    decreases |prefix| - i
  {
    i == |prefix|
    || var end := BalancedEnd(prefix[i..]);
       if end.Some? then OpensOutside(prefix, i + end.value + 1)
       else (prefix[i] == OPEN ==> OpenState(prefix, i).mode.Outside?) && OpensOutside(prefix, i + 1)
  }

  lemma {:induction false} DepthStaysPositive(a: seq<byte>, n: nat)
    requires 1 <= n <= |a| && a[0] == OPEN && forall j | 0 <= j < n :: !Closes(a, j)
    ensures ScanTo(START, a, n).depth >= 1
  {
    if n == 1 {
      assert ScanTo(START, a, 0) == START;
    } else {
      DepthStaysPositive(a, n - 1);
      assert !Closes(a, n - 1);
    }
  }

  /** A balanced text read at a positive depth closes nothing and changes nothing. */
  lemma BalancedIsPassed(s: Scan, x: seq<byte>, suffix: seq<byte>)
    requires s.mode.Outside? && s.depth >= 1 && Balanced(x)
    ensures NeverCloses(s, x + suffix) <==> NeverCloses(s, suffix)
  {
    forall n | 0 <= n <= |x|
      ensures ScanTo(s, x + suffix, n) == ScanTo(START, x, n).(depth := ScanTo(START, x, n).depth + s.depth)
    {
      ScanPrefix(s, x, suffix, n);
      ScanShift(START, s.depth, x, n);
    }
    ScanPrefix(s, x, suffix, |x|);
    forall j | 0 <= j < |x| ensures !ClosesFrom(s, x + suffix, j) {
      assert ScanTo(s, x + suffix, j + 1).depth >= 1;
    }
    forall j | 0 <= j < |suffix| ensures ClosesFrom(s, x + suffix, |x| + j) <==> ClosesFrom(s, suffix, j) {
      ScanConcat(s, x, suffix, j);
      ScanConcat(s, x, suffix, j + 1);
    }
    hide ClosesFrom, ScanTo, Balanced;
    if NeverCloses(s, x + suffix) {
      forall j | 0 <= j < |suffix| ensures !ClosesFrom(s, suffix, j) {
        assert !ClosesFrom(s, x + suffix, |x| + j);
      }
    }
    if NeverCloses(s, suffix) {
      forall k | 0 <= k < |x + suffix| ensures !ClosesFrom(s, x + suffix, k) {
        assert k >= |x| ==> !ClosesFrom(s, suffix, k - |x|);
      }
    }
  }

  /** A balanced text does not matter to what is left open outside strings. */
  lemma {:induction false} OnlySuffixMatters(prefix: seq<byte>, x: seq<byte>, suffix: seq<byte>, i: nat)
    requires i <= |prefix| && Balanced(x) && OpensOutside(prefix, i)
    ensures StaysOpen(prefix, x + suffix, i) <==> StaysOpen(prefix, suffix, i)
    decreases |prefix| - i
  {
    hide NeverCloses, Balanced, FirstClose, ScanTo;
    if i < |prefix| {
      var end := BalancedEnd(prefix[i..]);
      if end.Some? {
        OnlySuffixMatters(prefix, x, suffix, i + end.value + 1);
      } else {
        OnlySuffixMatters(prefix, x, suffix, i + 1);
        if prefix[i] == OPEN {
          DepthStaysPositive(prefix[i..], |prefix| - i);
          BalancedIsPassed(OpenState(prefix, i), x, suffix);
        }
      }
    }
  }

  /** So after a text that leaves no string unfinished, a printed object is extracted exactly when what follows it
      closes no brace that was open before it. */
  lemma {:induction false} ExtractedUnlessClosedBehind(prefix: seq<byte>, v: Value, suffix: seq<byte>)
    requires Printable(v) && OpensOutside(prefix, 0)
    ensures |Printed(v)| > 0
    ensures Span(|prefix|, |prefix| + |Printed(v)| - 1) in Spans(prefix + Printed(v) + suffix, 0)
            <==> StaysOpen(prefix, suffix, 0)
  {
    assert Balanced(Printed(v)) by {
      DumpBalanced(v);
    }
    hide Printed, Spans, StaysOpen, OpensOutside, Balanced;
    PrintedObjectIsExtractedExactly(prefix, v, suffix);
    OnlySuffixMatters(prefix, Printed(v), suffix, 0);
  }

  /** Between two stray braces every printed object is swallowed. */
  lemma {:induction false} StrayBracesSwallow(v: Value)
    requires Printable(v)
    ensures |Printed(v)| > 0
    ensures Span(1, |Printed(v)|) !in Spans([OPEN] + Printed(v) + [CLOSE], 0)
  {
    assert Balanced(Printed(v)) by {
      DumpBalanced(v);
    }
    hide Printed, Balanced;
    var text := [OPEN] + Printed(v) + [CLOSE];
    CandidateUnlessReached([OPEN], v, [CLOSE]);
    EnclosedIsFound(Printed(v), []);
    assert text + [] == text && text[0..] == text;
    hide BalancedEnd;
    SpansStep(text, 0);
    assert Spans(text, 0)[0] == Span(0, |text| - 1);
  }

  /** The scan of the text comes to its end outside every candidate, and leaves no brace open. */
  predicate Settled(bs: seq<byte>, i: nat)
    requires i <= |bs|
    decreases |bs| - i
  {
    i == |bs|
    || var end := BalancedEnd(bs[i..]);
       if end.Some? then Settled(bs, i + end.value + 1) else bs[i] != OPEN && Settled(bs, i + 1)
  }

  predicate Braceless(bs: seq<byte>) {
    forall k | 0 <= k < |bs| :: bs[k] != OPEN
  }

  lemma EndIsStable(a: seq<byte>, b: seq<byte>)
    requires BalancedEnd(a).Some?
    ensures BalancedEnd(a + b) == BalancedEnd(a)
  {
    var p := BalancedEnd(a).value;
    forall n | 0 <= n <= |a| ensures ScanTo(START, a + b, n) == ScanTo(START, a, n) {
      ScanPrefix(START, a, b, n);
    }
    hide ScanTo, FirstClose;
    assert forall j | 0 <= j <= p :: Closes(a + b, j) <==> Closes(a, j);
    FirstCloseIs(a + b, 0, p);
  }

  /** What is found in a settled text is found whatever follows it, and the scan goes on right behind it. */
  lemma {:induction false} SettledSpans(prefix: seq<byte>, rest: seq<byte>, i: nat)
    requires i <= |prefix| && Settled(prefix, i)
    ensures Spans(prefix + rest, i) == Spans(prefix, i) + Spans(prefix + rest, |prefix|)
    decreases |prefix| - i
  {
    hide BalancedEnd;
    var text := prefix + rest;
    if i < |prefix| {
      var end := BalancedEnd(prefix[i..]);
      assert text[i..] == prefix[i..] + rest;
      EndInside(prefix[i..]);
      EndNeedsBrace(text, i);
      if end.Some? {
        EndIsStable(prefix[i..], rest);
        SettledSpans(prefix, rest, i + end.value + 1);
      } else {
        SettledSpans(prefix, rest, i + 1);
      }
    }
  }

  /** Printed objects from the `k`-th on, each after a gap, and whatever follows them. */
  function Listing(gaps: seq<seq<byte>>, vs: seq<Value>, tail: seq<byte>, k: nat): seq<byte>
    requires k <= |vs| == |gaps|
    decreases |vs| - k
  {
    if k == |vs| then tail else gaps[k] + Printed(vs[k]) + Listing(gaps, vs, tail, k + 1)
  }

  /** The candidates from position `i` on are, first of all, the printed objects from the `k`-th on. */
  ghost predicate Lists(text: seq<byte>, spans: seq<Span>, vs: seq<Value>, k: nat)
    requires k <= |vs|
  {
    |spans| >= |vs| - k && forall i | 0 <= i < |vs| - k :: Candidate(text, spans[i]) == Printed(vs[k + i])
  }

  lemma ListsFirst(text: seq<byte>, span: Span, rest: seq<Span>, vs: seq<Value>, k: nat)
    requires k < |vs| && Candidate(text, span) == Printed(vs[k]) && Lists(text, rest, vs, k + 1)
    ensures Lists(text, [span] + rest, vs, k)
  {
    hide Candidate, Printed;
    assert forall i | 1 <= i <= |rest| :: ([span] + rest)[i] == rest[i - 1];
  }

  lemma PartsOf(text: seq<byte>, before: seq<byte>, gap: seq<byte>, x: seq<byte>, after: seq<byte>)
    requires text == before + (gap + x + after) && Braceless(gap)
    ensures var first := |before| + |gap|;
            && first + |x| <= |text| && text[first..] == x + after && text[first..first + |x|] == x
            && forall k | |before| <= k < first :: text[k] != OPEN
  {
    assert forall k | |before| <= k < |before| + |gap| :: text[k] == gap[k - |before|];
  }

  lemma OneFound(text: seq<byte>, from: nat, first: nat, x: seq<byte>)
    requires from <= first < first + |x| <= |text| && text[first..first + |x|] == x
    requires BalancedEnd(text[first..]) == Some(|x| - 1) && forall k | from <= k < first :: text[k] != OPEN
    ensures Candidate(text, Span(first, first + |x| - 1)) == x
    ensures Spans(text, from) == [Span(first, first + |x| - 1)] + Spans(text, first + |x|)
  {
    hide BalancedEnd, Spans;
    SpansStep(text, first);
    SkipGap(text, from, first);
  }

  lemma {:induction false} OnePrinted(text: seq<byte>, before: seq<byte>, gap: seq<byte>, v: Value, after: seq<byte>,
                                      first: nat, last: int)
    requires text == before + (gap + Printed(v) + after) && Braceless(gap) && Printable(v)
    requires first == |before| + |gap| && last == first + |Printed(v)| - 1
    ensures first <= last < |text|
    ensures Candidate(text, Span(first, last)) == Printed(v)
    ensures Spans(text, |before|) == [Span(first, last)] + Spans(text, last + 1)
  {
    hide *;
    PrintedEnds(v, after);
    PartsOf(text, before, gap, Printed(v), after);
    OneFound(text, |before|, first, Printed(v));
  }

  lemma {:induction false} SkipGap(text: seq<byte>, i: nat, first: nat)
    requires i <= first <= |text| && forall k | i <= k < first :: text[k] != OPEN
    ensures Spans(text, i) == Spans(text, first)
    decreases first - i
  {
    hide BalancedEnd;
    if i < first {
      EndNeedsBrace(text, i);
      SkipGap(text, i + 1, first);
    }
  }

  lemma {:induction false} ListingIsExtracted(before: seq<byte>, gaps: seq<seq<byte>>, vs: seq<Value>,
                                              tail: seq<byte>, k: nat)
    requires k <= |vs| == |gaps| && (forall j | 0 <= j < |vs| :: Braceless(gaps[j]) && Printable(vs[j]))
    ensures var text := before + Listing(gaps, vs, tail, k);
            var spans := Spans(text, |before|);
            Lists(text, spans, vs, k) && (Braceless(tail) ==> |spans| == |vs| - k)
    decreases |vs| - k
  {
    hide BalancedEnd, Printed, Printable, Spans, Candidate;
    var text := before + Listing(gaps, vs, tail, k);
    if k == |vs| {
      if Braceless(tail) {
        SkipGap(text, |before|, |text|);
        SpansStep(text, |text|);
      }
    } else {
      var after := Listing(gaps, vs, tail, k + 1);
      var before' := before + gaps[k] + Printed(vs[k]);
      OnePrinted(text, before, gaps[k], vs[k], after, |before| + |gaps[k]|, |before'| - 1);
      ListingIsExtracted(before', gaps, vs, tail, k + 1);
      assert before' + after == text;
      var span := Span(|before| + |gaps[k]|, |before'| - 1);
      ListsFirst(text, span, Spans(text, |before'|), vs, k);
    }
  }

  /** Objects the program printed, one after the other with no brace between them, after any settled text: after the
      candidates of that text they are the next ones, whole and in order, and the last ones if no brace follows. */
  lemma {:induction false} PrintedObjectsAreExtracted(prefix: seq<byte>, gaps: seq<seq<byte>>, vs: seq<Value>,
                                                      tail: seq<byte>)
    requires Settled(prefix, 0) && |vs| == |gaps|
    requires forall j | 0 <= j < |vs| :: Braceless(gaps[j]) && Printable(vs[j])
    ensures var text := prefix + Listing(gaps, vs, tail, 0);
            var spans, found := Spans(text, 0), |Spans(prefix, 0)|;
            && found <= |spans| && spans[..found] == Spans(prefix, 0)
            && Lists(text, spans[found..], vs, 0)
            && (Braceless(tail) ==> |spans| == found + |vs|)
  {
    hide Spans, Settled, Printable, Lists;
    var rest := Listing(gaps, vs, tail, 0);
    SettledSpans(prefix, rest, 0);
    ListingIsExtracted(prefix, gaps, vs, tail, 0);
    var first, more := Spans(prefix, 0), Spans(prefix + rest, |prefix|);
    assert (first + more)[..|first|] == first && (first + more)[|first|..] == more;
  }

  // ---------- the default printer loses nothing ----------

  lemma ReadSerdeEscaped(c: char, t: string)
    ensures SortedJson.ReadChar(SerdeEscape(c) + t) == Some((c, t))
    ensures SerdeEscape(c) != "" && SerdeEscape(c)[0] != '"'
  {
    var n := c as int;
    if n < 0x7f {
      SortedJson.ReadEscaped(c, t);
      assert SerdeEscape(c) == SortedJson.Escape(c);
    } else {
      assert ([c] + t)[1..] == t;
    }
  }

  lemma {:induction false} ReadSerdeBack(s: string, t: string)
    ensures SortedJson.ReadChars(SerdeEscapes(s) + "\"" + t) == Some((s, t))
  {
    hide SortedJson.ReadChar, SerdeEscape;
    if s == "" {
      assert (SerdeEscapes(s) + "\"" + t)[1..] == t;
    } else {
      var rest := SerdeEscapes(s[1..]) + "\"" + t;
      ReadSerdeBack(s[1..], t);
      ReadSerdeEscaped(s[0], rest);
      assert SerdeEscapes(s) + "\"" + t == SerdeEscape(s[0]) + rest;
      assert [s[0]] + s[1..] == s;
    }
  }

  /** The same reader takes back what the default printer quotes. */
  lemma SerdeRoundTrip(s: string, t: string)
    ensures SortedJson.ReadString(SerdeQuote(s) + t) == Some((s, t))
  {
    hide SortedJson.ReadChars, SerdeEscapes;
    ReadSerdeBack(s, t);
    assert (SerdeQuote(s) + t)[1..] == SerdeEscapes(s) + "\"" + t;
  }

  /** Values that print alike by default are equal, member order included. */
  lemma DumpIsInjective(v: Value, w: Value)
    requires WellFormed(v) && WellFormed(w)
    ensures Dump(v) == Dump(w) <==> v == w
  {
    hide WellFormed, Show;
    forall a, b, s, t | SerdeQuote(a) + s == SerdeQuote(b) + t ensures a == b {
      SerdeRoundTrip(a, s);
      SerdeRoundTrip(b, t);
    }
    ShowInjective(SerdeQuote, v, w);
  }
}
