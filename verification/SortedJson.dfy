/** The canonical printer of the scoring context: keys sorted, everything in ASCII. */
module SortedJson {
  import opened Wrappers
  import opened Json
  import Utf8
  import opened JsonPrint

  // ---------- strings ----------

  function HexDigit(d: nat): char
    requires d < 16
  {
    if d < 10 then ('0' as int + d) as char else ('a' as int + d - 10) as char
  }

  function Hex4(n: nat): (s: string)
    requires n < 0x1_0000
    ensures |s| == 4
  {
    [HexDigit(n / 0x1000), HexDigit(n / 0x100 % 16), HexDigit(n / 0x10 % 16), HexDigit(n % 16)]
  }

  function Escape(c: char): string {
    var n := c as int;
    if c == '"' then "\\\""
    else if c == '\\' then "\\\\"
    else if n == 8 then "\\b"
    else if n == 12 then "\\f"
    else if c == '\n' then "\\n"
    else if c == '\r' then "\\r"
    else if c == '\t' then "\\t"
    else if n <= 0x1f then "\\u" + Hex4(n)
    else if n <= 0x7f then [c]
    else if n <= 0xffff then "\\u" + Hex4(n)
    else "\\u" + Hex4(HighSurrogate(n - 0x1_0000)) + "\\u" + Hex4(LowSurrogate(n - 0x1_0000))
  }

  function HighSurrogate(code: nat): nat {
    0xd800 + code / 0x400 % 0x400
  }

  function LowSurrogate(code: nat): nat {
    0xdc00 + code % 0x400
  }

  /** The character two surrogates stand for. */
  function Combine(high: nat, low: nat): char
    requires 0xd800 <= high < 0xdc00 <= low < 0xe000
  {
    (0x1_0000 + (high - 0xd800) * 0x400 + (low - 0xdc00)) as char
  }

  function EscapeAll(s: string): string {
    if s == "" then "" else Escape(s[0]) + EscapeAll(s[1..])
  }

  function Quote(s: string): string {
    "\"" + EscapeAll(s) + "\""
  }

  method PythonJsonString(value: string) returns (out: string)
    ensures out == Quote(value)
  {
    hide Escape;
    out := "\"";
    for i := 0 to |value|
      invariant out + EscapeAll(value[i..]) == "\"" + EscapeAll(value)
    {
      assert value[i..][1..] == value[i + 1..];
      out := out + Escape(value[i]);
    }
    assert out + EscapeAll(value[|value|..]) == out;
    out := out + "\"";
  }

  /** Characters that print for themselves, the seven named escapes, and lower-case hexadecimal for the rest. */
  lemma EscapesExactly(c: char)
    ensures ' ' <= c <= '\U{7f}' && c !in "\"\\" ==> Escape(c) == [c]
    ensures Escape('"') == "\\\"" && Escape('\\') == "\\\\" && Escape('\n') == "\\n" && Escape('\r') == "\\r"
            && Escape('\t') == "\\t" && Escape('\U{08}') == "\\b" && Escape('\U{0c}') == "\\f"
    ensures (c < ' ' && c !in "\n\r\t\U{08}\U{0c}") || '\U{7f}' < c <= '\U{ffff}' ==>
            Escape(c) == "\\u" + LowerHex(c as int)
    ensures c > '\U{ffff}' ==> |Escape(c)| == 12 && Escape(c)[..2] == Escape(c)[6..8] == "\\u"
  {
    if c as int <= 0xffff {
      HexDigitsAre(c as int / 0x1000);
      HexDigitsAre(c as int / 0x100 % 16);
      HexDigitsAre(c as int / 0x10 % 16);
      HexDigitsAre(c as int % 16);
    }
  }

  const HEX: string := "0123456789abcdef"

  lemma HexDigitsAre(d: nat)
    requires d < 16
    ensures HexDigit(d) == HEX[d]
  {
  }

  /** Four hexadecimal digits, the highest first. */
  function LowerHex(n: nat): string
    requires n < 0x1_0000
  {
    [HEX[n / 0x1000], HEX[n / 0x100 % 16], HEX[n / 0x10 % 16], HEX[n % 16]]
  }

  // ---------- reading strings back, by section 7 of RFC 8259 ----------

  function HexValue(c: char): Option<nat> {
    if '0' <= c <= '9' then Some(c as int - '0' as int)
    else if 'a' <= c <= 'f' then Some(c as int - 'a' as int + 10)
    else if 'A' <= c <= 'F' then Some(c as int - 'A' as int + 10)
    else None
  }

  /** The UTF-16 code unit of four hexadecimal digits. */
  function Unit(t: string): (r: Option<nat>)
    ensures r.Some? ==> r.value < 0x1_0000 && |t| >= 4
  {
    if |t| < 4 then None
    else
      var a, b, c, d := HexValue(t[0]), HexValue(t[1]), HexValue(t[2]), HexValue(t[3]);
      if a.None? || b.None? || c.None? || d.None? then None
      else Some(a.value * 0x1000 + b.value * 0x100 + c.value * 0x10 + d.value)
  }

  /** One character and the text after it: a `u` escape names a code unit, and a character beyond
      the basic plane is a high surrogate followed at once by a low one. */
  function ReadEscape(t: string): (r: Option<(char, string)>)
    ensures r.Some? ==> |r.value.1| < |t|
  {
    if t == "" then None
    else if t[0] in "\"\\/" then Some((t[0], t[1..]))
    else if t[0] == 'b' then Some(('\U{08}', t[1..]))
    else if t[0] == 'f' then Some(('\U{0c}', t[1..]))
    else if t[0] == 'n' then Some(('\n', t[1..]))
    else if t[0] == 'r' then Some(('\r', t[1..]))
    else if t[0] == 't' then Some(('\t', t[1..]))
    else if t[0] != 'u' || Unit(t[1..]).None? then None
    else
      var unit, rest := Unit(t[1..]).value, t[5..];
      if unit < 0xd800 || 0xe000 <= unit then Some((unit as char, rest))
      else if unit < 0xdc00 && |rest| >= 2 && rest[..2] == "\\u" && Unit(rest[2..]).Some?
          && 0xdc00 <= Unit(rest[2..]).value < 0xe000 then
        Some((Combine(unit, Unit(rest[2..]).value), rest[6..]))
      else None
  }

  function ReadChar(t: string): (r: Option<(char, string)>)
    ensures r.Some? ==> |r.value.1| < |t|
  {
    if t == "" || t[0] < ' ' || t[0] == '"' then None
    else if t[0] == '\\' then ReadEscape(t[1..])
    else Some((t[0], t[1..]))
  }

  /** The characters up to the closing quote, and the text after it. */
  function ReadChars(t: string): Option<(string, string)>
    decreases |t|
  {
    if t != "" && t[0] == '"' then Some(("", t[1..]))
    else match ReadChar(t)
      case None => None
      case Some((c, rest)) =>
        match ReadChars(rest)
        case None => None
        case Some((s, rest')) => Some(([c] + s, rest'))
  }

  function ReadString(t: string): Option<(string, string)> {
    if t != "" && t[0] == '"' then ReadChars(t[1..]) else None
  }

  lemma HexBack(d: nat)
    requires d < 16
    ensures HexValue(HexDigit(d)) == Some(d)
  {
  }

  lemma FourDigits(n: nat)
    requires n < 0x1_0000
    ensures n / 0x1000 < 16
    ensures n == n / 0x1000 * 0x1000 + n / 0x100 % 16 * 0x100 + n / 0x10 % 16 * 0x10 + n % 16
  {
  }

  lemma UnitOfHex(n: nat, t: string)
    requires n < 0x1_0000
    ensures Unit(Hex4(n) + t) == Some(n)
  {
    hide HexValue, HexDigit;
    FourDigits(n);
    HexBack(n / 0x1000);
    HexBack(n / 0x100 % 16);
    HexBack(n / 0x10 % 16);
    HexBack(n % 16);
    var h := Hex4(n) + t;
    assert h[0] == HexDigit(n / 0x1000) && h[1] == HexDigit(n / 0x100 % 16) && h[2] == HexDigit(n / 0x10 % 16)
           && h[3] == HexDigit(n % 16);
  }

  lemma ReadPlainUnit(c: char, t: string)
    requires c as int <= 0xffff
    ensures ReadChar("\\u" + Hex4(c as int) + t) == Some((c, t))
  {
    var n := c as int;
    var all := "\\u" + Hex4(n) + t;
    UnitOfHex(n, t);
    hide Unit, Hex4;
    assert all[1..] == ['u'] + (Hex4(n) + t);
    assert all[1..][1..] == Hex4(n) + t;
    assert all[1..][5..] == t;
  }

  lemma SurrogatesCombine(code: nat)
    requires code < 0x10_0000
    ensures 0xd800 <= HighSurrogate(code) < 0xdc00 <= LowSurrogate(code) < 0xe000
    ensures Combine(HighSurrogate(code), LowSurrogate(code)) as int == 0x1_0000 + code
  {
  }

  lemma ReadSurrogates(high: nat, low: nat, t: string)
    requires 0xd800 <= high < 0xdc00 <= low < 0xe000
    ensures ReadChar("\\u" + Hex4(high) + "\\u" + Hex4(low) + t) == Some((Combine(high, low), t))
  {
    hide Unit, Hex4, Combine;
    var tail := "\\u" + Hex4(low) + t;
    var all := "\\u" + Hex4(high) + tail;
    UnitOfHex(high, tail);
    UnitOfHex(low, t);
    assert "\\u" + Hex4(high) + "\\u" + Hex4(low) + t == all;
    assert all[1..][1..] == Hex4(high) + tail;
    assert all[1..][5..] == tail;
    assert tail[..2] == "\\u" && tail[2..] == Hex4(low) + t && tail[6..] == t;
  }

  lemma ReadPair(c: char, t: string)
    requires c as int > 0xffff
    ensures ReadChar(Escape(c) + t) == Some((c, t))
  {
    hide Hex4, Combine, HighSurrogate, LowSurrogate, ReadChar;
    var code := c as int - 0x1_0000;
    SurrogatesCombine(code);
    ReadSurrogates(HighSurrogate(code), LowSurrogate(code), t);
  }

  /** Whatever follows, reading the escape of a character gives that character back. */
  lemma ReadEscaped(c: char, t: string)
    ensures ReadChar(Escape(c) + t) == Some((c, t))
    ensures Escape(c) != "" && Escape(c)[0] != '"'
  {
    var n := c as int;
    if n > 0xffff {
      ReadPair(c, t);
    } else if n > 0x7f || (n <= 0x1f && n != 8 && n != 12 && c != '\n' && c != '\r' && c != '\t') {
      ReadPlainUnit(c, t);
    } else if Escape(c) == [c] {
      assert ([c] + t)[1..] == t;
    } else {
      var e := Escape(c);
      assert (e + t)[1..] == [e[1]] + t;
      assert ([e[1]] + t)[1..] == t;
    }
  }

  lemma {:induction false} ReadCharsBack(s: string, t: string)
    ensures ReadChars(EscapeAll(s) + "\"" + t) == Some((s, t))
  {
    hide ReadChar, Escape;
    if s == "" {
      assert (EscapeAll(s) + "\"" + t)[1..] == t;
    } else {
      var rest := EscapeAll(s[1..]) + "\"" + t;
      ReadCharsBack(s[1..], t);
      ReadEscaped(s[0], rest);
      assert EscapeAll(s) + "\"" + t == Escape(s[0]) + rest;
      assert [s[0]] + s[1..] == s;
    }
  }

  /** Every string survives: reading what was printed gives it back, surrogate pairs included. */
  lemma StringRoundTrip(s: string, t: string)
    ensures ReadString(Quote(s) + t) == Some((s, t))
  {
    hide ReadChars, EscapeAll;
    ReadCharsBack(s, t);
    assert (Quote(s) + t)[1..] == EscapeAll(s) + "\"" + t;
  }

  lemma QuoteIsPrefixFree()
    ensures PrefixFree(Quote)
  {
    forall a, b, s, t | Quote(a) + s == Quote(b) + t ensures a == b {
      StringRoundTrip(a, s);
      StringRoundTrip(b, t);
    }
  }

  // ---------- sorted keys ----------

  /** Code-point order, which is the byte order of UTF-8. */
  predicate Before(a: string, b: string) {
    b != "" && (a == "" || a[0] < b[0] || (a[0] == b[0] && Before(a[1..], b[1..])))
  }

  lemma {:induction false} BeforeIsOrder(a: string, b: string, c: string)
    ensures !Before(a, a)
    ensures Before(a, b) && Before(b, c) ==> Before(a, c)
    ensures Before(a, b) || Before(b, a) || a == b
  {
    if a != "" && b != "" {
      BeforeIsOrder(a[1..], b[1..], if c != "" then c[1..] else "");
      assert a == [a[0]] + a[1..] && b == [b[0]] + b[1..];
    } else if a != "" {
      BeforeIsOrder(a[1..], "", "");
    }
  }

  /** The two agree up to position `k`, where the first ends or has the lesser character. */
  predicate DifferAt(a: string, b: string, k: nat) {
    k <= |a| && k < |b| && a[..k] == b[..k] && (k == |a| || a[k] < b[k])
  }

  lemma {:induction false} BeforeAtDifference(a: string, b: string)
    ensures Before(a, b) <==> exists k: nat :: DifferAt(a, b, k)
  {
    if a != "" && b != "" && a[0] == b[0] {
      BeforeAtDifference(a[1..], b[1..]);
      forall k: nat ensures DifferAt(a[1..], b[1..], k) <==> DifferAt(a, b, k + 1) {
        if k <= |a| - 1 && k <= |b| - 1 {
          assert a[..k + 1] == [a[0]] + a[1..][..k] && b[..k + 1] == [b[0]] + b[1..][..k];
        }
      }
      assert !DifferAt(a, b, 0);
      if exists k: nat :: DifferAt(a, b, k) {
        var k: nat :| DifferAt(a, b, k);
        assert DifferAt(a[1..], b[1..], k - 1);
      }
    } else {
      assert Before(a, b) ==> DifferAt(a, b, 0);
      assert forall k: nat | k > 0 && DifferAt(a, b, k) :: a[..k][0] == b[..k][0];
    }
  }

  /** How Rust compares strings: byte by byte of their UTF-8. */
  predicate BytesBefore(x: seq<Utf8.byte>, y: seq<Utf8.byte>) {
    y != [] && (x == [] || x[0] < y[0] || (x[0] == y[0] && BytesBefore(x[1..], y[1..])))
  }

  lemma {:induction false} SharedBytes(p: seq<Utf8.byte>, x: seq<Utf8.byte>, y: seq<Utf8.byte>)
    ensures BytesBefore(p + x, p + y) <==> BytesBefore(x, y)
  {
    if p == [] {
      assert p + x == x && p + y == y;
    } else {
      SharedBytes(p[1..], x, y);
      assert (p + x)[1..] == p[1..] + x && (p + y)[1..] == p[1..] + y;
    }
  }

  /** Among encodings of one length, the first byte that differs decides which number is greater. */
  lemma {:induction false} ScalarsDiffer(x: seq<int>, y: seq<int>, k: nat)
    requires 1 <= |x| == |y| <= 4 && k < |x| && x[..k] == y[..k] && x[k] > y[k]
    requires forall i | 0 < i < |x| :: 0x80 <= x[i] < 0xc0 && 0x80 <= y[i] < 0xc0
    ensures Utf8.Scalar(x) > Utf8.Scalar(y)
  {
    assert forall i | 0 <= i < k :: x[..k][i] == y[..k][i];
    assert forall i | 0 <= i < k :: x[i] == y[i];
  }

  lemma {:induction false} LengthsOrder(c: char, d: char)
    requires c < d
    ensures var x, y := Utf8.EncodeChar(c), Utf8.EncodeChar(d); |x| <= |y| && (|x| < |y| ==> x[0] < y[0])
  {
  }

  /** The first byte in which two characters differ orders them as their numbers do. */
  lemma {:induction false} CharsDiffer(c: char, d: char) returns (k: nat)
    requires c < d
    ensures var x, y := Utf8.EncodeChar(c), Utf8.EncodeChar(d);
            k < |x| && k < |y| && x[..k] == y[..k] && x[k] < y[k]
  {
    var x, y := Utf8.EncodeChar(c), Utf8.EncodeChar(d);
    LengthsOrder(c, d);
    Utf8.EncodesItsScalar(c);
    Utf8.EncodesItsScalar(d);
    assert x != y;
    hide Utf8.EncodeChar, Utf8.Scalar;
    k := 0;
    if |x| == |y| {
      while k < |x| && x[k] == y[k]
        invariant k <= |x| && forall i | 0 <= i < k :: x[i] == y[i]
      {
        k := k + 1;
      }
      if x[k] > y[k] {
        ScalarsDiffer(x, y, k);
      }
    }
  }

  lemma {:induction false} CharsOrder(c: char, d: char, x: seq<Utf8.byte>, y: seq<Utf8.byte>)
    requires c < d
    ensures BytesBefore(Utf8.EncodeChar(c) + x, Utf8.EncodeChar(d) + y)
    ensures !BytesBefore(Utf8.EncodeChar(d) + y, Utf8.EncodeChar(c) + x)
  {
    hide Utf8.EncodeChar;
    var k := CharsDiffer(c, d);
    var p, q := Utf8.EncodeChar(c), Utf8.EncodeChar(d);
    assert p + x == p[..k] + (p[k..] + x) && q + y == p[..k] + (q[k..] + y);
    SharedBytes(p[..k], p[k..] + x, q[k..] + y);
    SharedBytes(p[..k], q[k..] + y, p[k..] + x);
  }

  /** Code-point order is byte order. */
  lemma {:induction false} BeforeIsByteOrder(a: string, b: string)
    ensures Before(a, b) <==> BytesBefore(Utf8.Encode(a), Utf8.Encode(b))
  {
    hide Utf8.EncodeChar, Utf8.Encode;
    EncodeFront(a);
    EncodeFront(b);
    if a != "" && b != "" {
      var x, y := Utf8.Encode(a[1..]), Utf8.Encode(b[1..]);
      if a[0] == b[0] {
        BeforeIsByteOrder(a[1..], b[1..]);
        SharedBytes(Utf8.EncodeChar(a[0]), x, y);
      } else if a[0] < b[0] {
        CharsOrder(a[0], b[0], x, y);
      } else {
        CharsOrder(b[0], a[0], y, x);
      }
    }
  }

  lemma {:induction false} EncodeFront(s: string)
    ensures Utf8.Encode(s) == if s == "" then [] else Utf8.EncodeChar(s[0]) + Utf8.Encode(s[1..])
  {
    hide Utf8.EncodeChar, Utf8.Encode;
    Utf8.EncodeStep("", 'a');
    if s != "" {
      Utf8.EncodeStep("", s[0]);
      assert s == ("" + [s[0]]) + s[1..];
      Utf8.EncodeConcat("" + [s[0]], s[1..]);
    }
  }

  predicate Sorted(ms: seq<Member>) {
    forall i, j | 0 <= i < j < |ms| :: Before(ms[i].key, ms[j].key)
  }

  /** The first position at or after `i` whose key comes after the given one. */
  function PlaceOf(key: string, ms: seq<Member>, i: nat): (p: nat)
    requires i <= |ms|
    ensures i <= p <= |ms|
    ensures forall j | i <= j < p :: !Before(key, ms[j].key)
    ensures p < |ms| ==> Before(key, ms[p].key)
    decreases |ms| - i
  {
    if i == |ms| || Before(key, ms[i].key) then i else PlaceOf(key, ms, i + 1)
  }

  function InsertMember(m: Member, ms: seq<Member>): seq<Member> {
    var p := PlaceOf(m.key, ms, 0);
    ms[..p] + [m] + ms[p..]
  }

  function SortMembers(ms: seq<Member>): seq<Member> {
    if ms == [] then [] else InsertMember(ms[|ms| - 1], SortMembers(ms[..|ms| - 1]))
  }

  lemma InsertedMembers(m: Member, ms: seq<Member>)
    ensures |InsertMember(m, ms)| == |ms| + 1
    ensures forall x :: x in InsertMember(m, ms) <==> x == m || x in ms
  {
    var p := PlaceOf(m.key, ms, 0);
    hide *;
    assert ms == ms[..p] + ms[p..];
    assert forall x :: x in ms <==> x in ms[..p] || x in ms[p..];
    assert forall x :: x in ms[..p] + [m] + ms[p..] <==> x in ms[..p] || x == m || x in ms[p..];
  }

  lemma InsertStaysSorted(m: Member, ms: seq<Member>)
    requires Sorted(ms) && forall x | x in ms :: x.key != m.key
    ensures Sorted(InsertMember(m, ms))
  {
    hide Before, PlaceOf;
    var p := PlaceOf(m.key, ms, 0);
    var r := InsertMember(m, ms);
    forall i, j | 0 <= i < j < |r| ensures Before(r[i].key, r[j].key) {
      if j == p {
        assert ms[i] in ms;
        BeforeIsOrder(ms[i].key, m.key, "");
      } else if i == p && j > p + 1 {
        BeforeIsOrder(m.key, ms[p].key, ms[j - 1].key);
      }
    }
  }

  lemma {:induction false} SortedMembers(ms: seq<Member>)
    ensures |SortMembers(ms)| == |ms|
    ensures forall x :: x in SortMembers(ms) <==> x in ms
  {
    hide InsertMember;
    if ms != [] {
      var front, m := ms[..|ms| - 1], ms[|ms| - 1];
      SortedMembers(front);
      InsertedMembers(m, SortMembers(front));
      assert ms == front + [m];
    }
  }

  lemma {:induction false} SortMembersSorts(ms: seq<Member>)
    requires DistinctKeys(ms)
    ensures Sorted(SortMembers(ms))
  {
    hide InsertMember, Sorted;
    if ms != [] {
      var front, m := ms[..|ms| - 1], ms[|ms| - 1];
      SortMembersSorts(front);
      SortedMembers(front);
      InsertStaysSorted(m, SortMembers(front));
    } else {
      NothingIsSorted();
    }
  }

  lemma NothingIsSorted()
    ensures Sorted([])
  {
  }

  /** A strictly sorted list inside another is no longer than it, and if equally long it is the same list. */
  lemma {:induction false} SortedWithin(a: seq<Member>, b: seq<Member>)
    requires Sorted(a) && Sorted(b) && forall x | x in a :: x in b
    ensures |a| <= |b| && (|a| == |b| ==> a == b)
  {
    if a != [] {
      hide Before;
      var n := |a| - 1;
      assert a[n] in a;
      var j :| 0 <= j < |b| && b[j] == a[n];
      forall x | x in a[..n] ensures x in b[..j] {
        SortedBelow(a, b, x, j);
      }
      SortedWithin(a[..n], b[..j]);
      assert a == a[..n] + [a[n]];
      if |a| == |b| {
        assert b == b[..j] + [b[j]];
      }
    }
  }

  lemma SortedBelow(a: seq<Member>, b: seq<Member>, x: Member, j: nat)
    requires Sorted(a) && Sorted(b) && a != [] && x in a[..|a| - 1] && x in b && j < |b| && b[j] == a[|a| - 1]
    ensures x in b[..j]
  {
    hide Before;
    var i :| 0 <= i < |a| - 1 && a[i] == x;
    var k :| 0 <= k < |b| && b[k] == x;
    BeforeIsOrder(x.key, b[j].key, x.key);
    BeforeIsOrder(b[j].key, x.key, b[j].key);
    assert Before(x.key, b[j].key);
    assert k < j;
    assert b[..j][k] == x;
  }

  // ---------- the printer ----------

  function Print(v: Value): string
    decreases v, 1
  {
    match v
    case Null => "null"
    case Bool(b) => if b then "true" else "false"
    case Number(text) => text
    case String(s) => Quote(s)
    case Array(_) => "[" + PrintItems(v, 0) + "]"
    case Object(ms) =>
      SortedMembers(ms);
      "{" + PrintMembers(v, SortMembers(ms), 0) + "}"
  }

  function PrintItems(v: Value, i: nat): string
    requires v.Array? && i <= |v.items|
    decreases v, 0, |v.items| - i
  {
    if i == |v.items| then "" else Separator(i) + Print(v.items[i]) + PrintItems(v, i + 1)
  }

  /** The members of `v`, in the order given, from `i` on. */
  function PrintMembers(v: Value, ms: seq<Member>, i: nat): string
    requires v.Object? && i <= |ms| && forall m | m in ms :: m in v.members
    decreases v, 0, |ms| - i
  {
    if i == |ms| then ""
    else
      assert ms[i] in v.members;
      Separator(i) + Quote(ms[i].key) + ": " + Print(ms[i].value) + PrintMembers(v, ms, i + 1)
  }

  // ---------- the canonical form of a value ----------

  /** The same value with the members of every object in key order. */
  function Canon(v: Value): Value {
    match v
    case Array(items) => Array(seq(|items|, i requires 0 <= i < |items| => Canon(items[i])))
    case Object(ms) => Object(SortMembers(seq(|ms|, i requires 0 <= i < |ms| => Member(ms[i].key, Canon(ms[i].value)))))
    case _ => v
  }

  function CanonMember(m: Member): Member {
    Member(m.key, Canon(m.value))
  }

  function CanonMembers(ms: seq<Member>): seq<Member> {
    seq(|ms|, i requires 0 <= i < |ms| => CanonMember(ms[i]))
  }

  lemma CanonOfObject(ms: seq<Member>)
    ensures Canon(Object(ms)) == Object(SortMembers(CanonMembers(ms)))
  {
    hide SortMembers;
    assert CanonMembers(ms) == seq(|ms|, i requires 0 <= i < |ms| => Member(ms[i].key, Canon(ms[i].value)));
  }

  lemma {:induction false} PlaceOfCanon(key: string, ms: seq<Member>, i: nat)
    requires i <= |ms|
    ensures PlaceOf(key, CanonMembers(ms), i) == PlaceOf(key, ms, i)
    decreases |ms| - i
  {
    hide Canon, Before;
    if i < |ms| {
      PlaceOfCanon(key, ms, i + 1);
    }
  }

  /** Sorting looks at keys only, so it does not matter whether the values are canonical first. */
  lemma {:induction false} SortCommutes(ms: seq<Member>)
    ensures SortMembers(CanonMembers(ms)) == CanonMembers(SortMembers(ms))
  {
    hide Canon, Before, CanonMember, PlaceOf;
    if ms != [] {
      var front, m := ms[..|ms| - 1], ms[|ms| - 1];
      assert CanonMembers(ms)[..|ms| - 1] == CanonMembers(front);
      SortCommutes(front);
      InsertCommutes(m, SortMembers(front));
    }
  }

  lemma InsertCommutes(m: Member, ms: seq<Member>)
    ensures InsertMember(CanonMember(m), CanonMembers(ms)) == CanonMembers(InsertMember(m, ms))
  {
    PlaceOfCanon(m.key, ms, 0);
    var p := PlaceOf(m.key, ms, 0);
    hide Canon, Before, PlaceOf;
    assert CanonMember(m).key == m.key;
    hide CanonMember;
    assert CanonMembers(ms[..p] + [m] + ms[p..]) == CanonMembers(ms)[..p] + [CanonMember(m)] + CanonMembers(ms)[p..];
  }

  /** The printer shows the canonical form. */
  lemma {:induction false} PrintShowsCanon(v: Value)
    ensures Print(v) == Show(Quote, Canon(v))
    decreases v, 1
  {
    hide Quote;
    match v
    case Array(_) => ItemsShowCanon(v, 0);
    case Object(ms) =>
      SortedMembers(ms);
      CanonOfObject(ms);
      SortCommutes(ms);
      MembersShowCanon(v, SortMembers(ms), 0);
    case _ =>
  }

  lemma {:induction false} ItemsShowCanon(v: Value, i: nat)
    requires v.Array? && i <= |v.items|
    ensures PrintItems(v, i) == ShowItems(Quote, Canon(v), i)
    decreases v, 0, |v.items| - i
  {
    hide Quote;
    if i < |v.items| {
      PrintShowsCanon(v.items[i]);
      ItemsShowCanon(v, i + 1);
    }
  }

  lemma {:induction false} MembersShowCanon(v: Value, ms: seq<Member>, i: nat)
    requires v.Object? && i <= |ms| && forall m | m in ms :: m in v.members
    ensures PrintMembers(v, ms, i) == ShowMembers(Quote, Object(CanonMembers(ms)), i)
    decreases v, 0, |ms| - i
  {
    hide Quote, Canon;
    if i < |ms| {
      assert ms[i] in v.members;
      PrintShowsCanon(ms[i].value);
      MembersShowCanon(v, ms, i + 1);
    }
  }

  lemma {:induction false} CanonWellFormed(v: Value)
    requires WellFormed(v)
    ensures WellFormed(Canon(v))
    decreases v
  {
    match v
    case Array(items) =>
      forall i | 0 <= i < |items| ensures WellFormed(Canon(items[i])) {
        CanonWellFormed(items[i]);
      }
    case Object(ms) =>
      CanonOfObject(ms);
      var cs := CanonMembers(ms);
      forall i | 0 <= i < |ms| ensures WellFormed(cs[i].value) && cs[i].key == ms[i].key {
        CanonWellFormed(ms[i].value);
      }
      MembersWellFormed(cs);
    case _ =>
  }

  lemma {:induction false} MembersWellFormed(cs: seq<Member>)
    requires DistinctKeys(cs) && forall i | 0 <= i < |cs| :: WellFormed(cs[i].value)
    ensures WellFormed(Object(SortMembers(cs)))
  {
    hide WellFormed;
    SortMembersSorts(cs);
    SortedMembers(cs);
    hide SortMembers;
    var sorted := SortMembers(cs);
    forall i, j | 0 <= i < j < |sorted| ensures sorted[i].key != sorted[j].key {
      BeforeIsOrder(sorted[i].key, sorted[j].key, "");
    }
    forall i | 0 <= i < |sorted| ensures WellFormed(sorted[i].value) {
      assert sorted[i] in cs;
    }
    ObjectWellFormed(sorted);
  }

  lemma ObjectWellFormed(ms: seq<Member>)
    requires DistinctKeys(ms) && forall i | 0 <= i < |ms| :: WellFormed(ms[i].value)
    ensures WellFormed(Object(ms))
  {
  }

  // ---------- equality up to key order ----------

  /** Values equal up to key order have the same canonical form, and only they. */
  lemma {:induction false} EquivIffCanon(v: Value, w: Value)
    requires WellFormed(v) && WellFormed(w)
    ensures Equiv(v, w) <==> Canon(v) == Canon(w)
    decreases v
  {
    if v.Array? && w.Array? {
      ArraysEquivIffCanon(v, w);
    } else if v.Object? && w.Object? {
      CanonOfObject(v.members);
      CanonOfObject(w.members);
      forall i, j | 0 <= i < |v.members| && 0 <= j < |w.members|
        ensures Equiv(v.members[i].value, w.members[j].value)
                <==> Canon(v.members[i].value) == Canon(w.members[j].value)
      {
        EquivIffCanon(v.members[i].value, w.members[j].value);
      }
      ObjectsEquivIffCanon(v.members, w.members);
    }
  }

  lemma {:induction false} ArraysEquivIffCanon(v: Value, w: Value)
    requires v.Array? && w.Array? && WellFormed(v) && WellFormed(w)
    ensures Equiv(v, w) <==> Canon(v) == Canon(w)
    decreases v, 0
  {
    var a, b := Canon(v).items, Canon(w).items;
    forall i | 0 <= i < |v.items| && i < |w.items|
      ensures Equiv(v.items[i], w.items[i]) <==> a[i] == b[i]
    {
      EquivIffCanon(v.items[i], w.items[i]);
    }
  }

  predicate MembersEquiv(a: seq<Member>, b: seq<Member>) {
    && |a| == |b|
    && forall i | 0 <= i < |a| ::
         var j := IndexOf(b, a[i].key, 0);
         j < |b| && Equiv(a[i].value, b[j].value)
  }

  lemma ObjectsEquivIffCanon(a: seq<Member>, b: seq<Member>)
    requires DistinctKeys(a) && DistinctKeys(b)
    requires forall i, j | 0 <= i < |a| && 0 <= j < |b| ::
             Equiv(a[i].value, b[j].value) <==> Canon(a[i].value) == Canon(b[j].value)
    ensures Equiv(Object(a), Object(b)) <==> SortMembers(CanonMembers(a)) == SortMembers(CanonMembers(b))
  {
    assert Equiv(Object(a), Object(b)) <==> MembersEquiv(a, b);
    hide Equiv, Canon, SortMembers;
    if MembersEquiv(a, b) {
      EquivSortsAlike(a, b);
    }
    if SortMembers(CanonMembers(a)) == SortMembers(CanonMembers(b)) {
      SortedAlikeEquiv(a, b);
    }
  }

  lemma EquivSortsAlike(a: seq<Member>, b: seq<Member>)
    requires DistinctKeys(a) && DistinctKeys(b) && MembersEquiv(a, b)
    requires forall i, j | 0 <= i < |a| && 0 <= j < |b| ::
             Equiv(a[i].value, b[j].value) <==> Canon(a[i].value) == Canon(b[j].value)
    ensures SortMembers(CanonMembers(a)) == SortMembers(CanonMembers(b))
  {
    hide Equiv, Canon, SortMembers, Sorted;
    var ca, cb := CanonMembers(a), CanonMembers(b);
    forall m | m in ca ensures m in cb {
      var i :| 0 <= i < |ca| && ca[i] == m;
      var j := IndexOf(b, a[i].key, 0);
      assert cb[j] == m;
    }
    SortMembersSorts(ca);
    SortMembersSorts(cb);
    SortedMembers(ca);
    SortedMembers(cb);
    SortedWithin(SortMembers(ca), SortMembers(cb));
  }

  lemma SortedAlikeEquiv(a: seq<Member>, b: seq<Member>)
    requires DistinctKeys(a) && DistinctKeys(b) && SortMembers(CanonMembers(a)) == SortMembers(CanonMembers(b))
    requires forall i, j | 0 <= i < |a| && 0 <= j < |b| ::
             Equiv(a[i].value, b[j].value) <==> Canon(a[i].value) == Canon(b[j].value)
    ensures MembersEquiv(a, b)
  {
    hide Equiv, Canon, SortMembers;
    var ca, cb := CanonMembers(a), CanonMembers(b);
    SortedMembers(ca);
    SortedMembers(cb);
    forall i | 0 <= i < |a|
      ensures var j := IndexOf(b, a[i].key, 0); j < |b| && Equiv(a[i].value, b[j].value)
    {
      assert ca[i] in cb;
      var k :| 0 <= k < |cb| && cb[k] == ca[i];
      var j := IndexOf(b, a[i].key, 0);
      assert b[k].key == a[i].key;
    }
  }

  /** The printer is canonical and loses nothing: two values print the same text exactly when they are
      equal up to the order of object keys. */
  lemma PrintIsCanonical(v: Value, w: Value)
    requires WellFormed(v) && WellFormed(w)
    ensures Print(v) == Print(w) <==> Equiv(v, w)
  {
    hide PrefixFree, WellFormed, Show, Print, Equiv, Canon, Quote;
    QuoteIsPrefixFree();
    PrintShowsCanon(v);
    PrintShowsCanon(w);
    CanonWellFormed(v);
    CanonWellFormed(w);
    ShowInjective(Quote, Canon(v), Canon(w));
    EquivIffCanon(v, w);
  }

  // ---------- the output is ASCII ----------

  predicate Ascii(s: string) {
    forall i | 0 <= i < |s| :: s[i] as int <= 0x7f
  }

  lemma {:induction false} QuoteAscii(s: string)
    ensures Ascii(EscapeAll(s)) && Ascii(Quote(s))
  {
    hide Escape;
    if s != "" {
      QuoteAscii(s[1..]);
      EscapeAscii(s[0]);
    }
  }

  lemma EscapeAscii(c: char)
    ensures Ascii(Escape(c))
  {
    hide HighSurrogate, LowSurrogate;
    if c as int > 0xffff {
      SurrogatesCombine(c as int - 0x1_0000);
    }
  }

  lemma AsciiWrap(open: string, x: string, close: string)
    requires Ascii(open) && Ascii(x) && Ascii(close)
    ensures Ascii(open + x + close)
  {
  }

  lemma LettersAreAscii()
    ensures Ascii("null") && Ascii("true") && Ascii("false") && Ascii("[") && Ascii("]") && Ascii("{") && Ascii("}")
  {
  }

  lemma NumbersAreAscii(text: string)
    requires NumberText(text)
    ensures Ascii(text)
  {
  }

  /** Whatever characters the value holds, the text is ASCII. */
  lemma {:induction false} PrintIsAscii(v: Value)
    requires WellFormed(v)
    ensures Ascii(Print(v))
    decreases v, 1
  {
    hide Quote, Ascii, NumberText, SortMembers;
    LettersAreAscii();
    match v
    case Number(text) => NumbersAreAscii(text);
    case String(s) => QuoteAscii(s);
    case Array(_) =>
      ItemsAscii(v, 0);
      AsciiWrap("[", PrintItems(v, 0), "]");
    case Object(ms) =>
      SortedMembers(ms);
      MembersAscii(v, SortMembers(ms), 0);
      AsciiWrap("{", PrintMembers(v, SortMembers(ms), 0), "}");
    case _ =>
  }

  lemma {:induction false} ItemsAscii(v: Value, i: nat)
    requires v.Array? && WellFormed(v) && i <= |v.items|
    ensures Ascii(PrintItems(v, i))
    decreases v, 0, |v.items| - i
  {
    hide Quote;
    if i < |v.items| {
      PrintIsAscii(v.items[i]);
      ItemsAscii(v, i + 1);
    }
  }

  lemma {:induction false} MembersAscii(v: Value, ms: seq<Member>, i: nat)
    requires v.Object? && WellFormed(v) && i <= |ms| && forall m | m in ms :: m in v.members
    ensures Ascii(PrintMembers(v, ms, i))
    decreases v, 0, |ms| - i
  {
    hide Quote;
    if i < |ms| {
      assert ms[i] in v.members;
      QuoteAscii(ms[i].key);
      PrintIsAscii(ms[i].value);
      MembersAscii(v, ms, i + 1);
      AsciiMember(Separator(i), Quote(ms[i].key), Print(ms[i].value), PrintMembers(v, ms, i + 1));
      hide Ascii, WellFormed, Print;
    }
  }

  lemma {:induction false} AsciiMember(separator: string, key: string, value: string, rest: string)
    requires (separator == "" || separator == ", ") && Ascii(key) && Ascii(value) && Ascii(rest)
    ensures Ascii(separator + key + ": " + value + rest)
  {
  }
}
