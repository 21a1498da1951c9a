/** Text as lines: Rust's `lines`, `trim_end` and `join`, and what they keep.

    A text is measured twice: by its ink, the characters that are not whitespace,
    and by its bytes in UTF-8. */
module TextLines {
  import Utf8

  /** Unicode's White_Space property. */
  predicate IsWhitespace(c: char) {
    var n := c as int;
    0x09 <= n <= 0x0d || n == 0x20 || n == 0x85 || n == 0xa0 || n == 0x1680 || 0x2000 <= n <= 0x200a
    || n == 0x2028 || n == 0x2029 || n == 0x202f || n == 0x205f || n == 0x3000
  }

  // ---------- the ink of a text ----------

  /** The characters of a text that are not whitespace, in order. */
  function Ink(s: string): string {
    if s == "" then "" else Ink(s[..|s| - 1]) + (if IsWhitespace(s[|s| - 1]) then "" else [s[|s| - 1]])
  }

  lemma InkStep(s: string, c: char)
    ensures Ink("") == ""
    ensures Ink(s + [c]) == Ink(s) + if IsWhitespace(c) then "" else [c]
  {
    hide IsWhitespace;
    assert (s + [c])[..|s|] == s;
  }

  lemma {:induction false} InkConcat(a: string, b: string)
    ensures Ink(a + b) == Ink(a) + Ink(b)
  {
    hide Ink, IsWhitespace;
    InkStep("", 'a');
    if b == "" {
      assert a + b == a;
    } else {
      var b', c := b[..|b| - 1], b[|b| - 1];
      InkConcat(a, b');
      InkStep(a + b', c);
      InkStep(b', c);
      assert a + b == a + b' + [c] && b == b' + [c];
    }
  }

  // ---------- lines ----------

  function NewlineAt(s: string, i: nat): (p: nat)
    requires i <= |s|
    ensures i <= p <= |s|
    ensures p < |s| ==> s[p] == '\n'
    ensures forall j | i <= j < p :: s[j] != '\n'
    decreases |s| - i
  {
    if i == |s| || s[i] == '\n' then i else NewlineAt(s, i + 1)
  }

  function StripReturn(l: string): string {
    if l != "" && l[|l| - 1] == '\r' then l[..|l| - 1] else l
  }

  /** A line ends at a newline, or a return and a newline; nothing after the last newline is no line. */
  function Lines(s: string): seq<string>
    decreases |s|
  {
    if s == "" then []
    else
      var p := NewlineAt(s, 0);
      if p == |s| then [s] else [StripReturn(s[..p])] + Lines(s[p + 1..])
  }

  function TrimEnd(s: string): (r: string)
    ensures r <= s
    ensures r != "" ==> !IsWhitespace(r[|r| - 1])
  {
    if s != "" && IsWhitespace(s[|s| - 1]) then TrimEnd(s[..|s| - 1]) else s
  }

  /** The first `n` lines with a newline between each two. */
  function Join(ls: seq<string>, n: nat): string
    requires n <= |ls|
  {
    if n == 0 then "" else if n == 1 then ls[0] else Join(ls, n - 1) + "\n" + ls[n - 1]
  }

  // ---------- what is kept ----------

  /** The ink of the first `n` lines. */
  function InkOf(ls: seq<string>, n: nat): string
    requires n <= |ls|
  {
    if n == 0 then "" else InkOf(ls, n - 1) + Ink(ls[n - 1])
  }

  /** The bytes of the first `n` lines, a newline counted for each. */
  function SizeOf(ls: seq<string>, n: nat): nat
    requires n <= |ls|
  {
    if n == 0 then 0 else SizeOf(ls, n - 1) + Utf8.Len(ls[n - 1]) + 1
  }

  lemma {:induction false} InkOfConcat(a: seq<string>, b: seq<string>, n: nat)
    requires n <= |b|
    ensures InkOf(a + b, |a| + n) == InkOf(a, |a|) + InkOf(b, n)
  {
    hide Ink, SizeOf;
    if n == 0 {
      OfPrefix(a, b, |a|);
      assert InkOf(a, |a|) + "" == InkOf(a, |a|);
    } else {
      InkOfConcat(a, b, n - 1);
      assert (a + b)[|a| + n - 1] == b[n - 1];
      Associate(InkOf(a, |a|), InkOf(b, n - 1), Ink(b[n - 1]));
    }
  }

  lemma {:induction false} SizeOfConcat(a: seq<string>, b: seq<string>, n: nat)
    requires n <= |b|
    ensures SizeOf(a + b, |a| + n) == SizeOf(a, |a|) + SizeOf(b, n)
  {
    hide InkOf, Utf8.Len;
    if n == 0 {
      OfPrefix(a, b, |a|);
    } else {
      SizeOfConcat(a, b, n - 1);
      assert (a + b)[|a| + n - 1] == b[n - 1];
    }
  }

  lemma Associate(x: string, y: string, z: string)
    ensures x + y + z == x + (y + z)
  {
  }

  lemma {:induction false} OfPrefix(a: seq<string>, b: seq<string>, n: nat)
    requires n <= |a|
    ensures InkOf(a + b, n) == InkOf(a, n) && SizeOf(a + b, n) == SizeOf(a, n)
  {
    hide Ink, Utf8.Len;
    if n > 0 {
      OfPrefix(a, b, n - 1);
    }
  }

  lemma {:induction false} OfMore(ls: seq<string>, l: string)
    ensures InkOf(ls + [l], |ls| + 1) == InkOf(ls, |ls|) + Ink(l)
    ensures SizeOf(ls + [l], |ls| + 1) == SizeOf(ls, |ls|) + Utf8.Len(l) + 1
  {
    hide Ink, Utf8.Len, InkOf, SizeOf;
    OfPrefix(ls, [l], |ls|);
    OfLast(ls + [l], |ls| + 1);
    assert (ls + [l])[|ls|] == l;
  }

  lemma OfLast(ls: seq<string>, n: nat)
    requires 0 < n <= |ls|
    ensures InkOf(ls, n) == InkOf(ls, n - 1) + Ink(ls[n - 1])
    ensures SizeOf(ls, n) == SizeOf(ls, n - 1) + Utf8.Len(ls[n - 1]) + 1
  {
    hide Ink, Utf8.Len;
  }

  lemma OfOne(l: string)
    ensures InkOf([l], 1) == Ink(l) && SizeOf([l], 1) == Utf8.Len(l) + 1
  {
    assert InkOf([l], 0) == "" && SizeOf([l], 0) == 0;
  }

  lemma OneChar(c: char)
    ensures Utf8.Len([c]) >= 1 && (c as int < 0x80 ==> Utf8.Len([c]) == 1)
    ensures Ink([c]) == if IsWhitespace(c) then "" else [c]
    ensures Utf8.Len("") == 0 && Ink("") == ""
  {
    Utf8.EncodeStep("", c);
    InkStep("", c);
    assert [c] == "" + [c];
  }

  lemma LenConcat(a: string, b: string)
    ensures Utf8.Len(a + b) == Utf8.Len(a) + Utf8.Len(b)
  {
    Utf8.EncodeConcat(a, b);
  }

  lemma {:induction false} JoinKeeps(ls: seq<string>, n: nat)
    requires n <= |ls|
    ensures Ink(Join(ls, n)) == InkOf(ls, n)
    ensures n > 0 ==> Utf8.Len(Join(ls, n)) + 1 == SizeOf(ls, n)
    ensures n == 0 ==> Utf8.Len(Join(ls, n)) == 0
  {
    hide Ink, Utf8.Len, IsWhitespace;
    OneChar('\n');
    NewlineIsBlank();
    if n == 1 {
      assert InkOf(ls, 0) == "" && SizeOf(ls, 0) == 0;
    } else if n > 1 {
      JoinKeeps(ls, n - 1);
      InkConcat(Join(ls, n - 1) + "\n", ls[n - 1]);
      InkConcat(Join(ls, n - 1), "\n");
      LenConcat(Join(ls, n - 1) + "\n", ls[n - 1]);
      LenConcat(Join(ls, n - 1), "\n");
    }
  }

  lemma NewlineIsBlank()
    ensures IsWhitespace('\n') && IsWhitespace('\r') && IsWhitespace(' ') && IsWhitespace('\t')
  {
  }

  lemma StripKeeps(l: string)
    ensures Ink(StripReturn(l)) == Ink(l) && Utf8.Len(StripReturn(l)) <= Utf8.Len(l)
  {
    if l != "" && l[|l| - 1] == '\r' {
      var front := l[..|l| - 1];
      assert l == front + ['\r'];
      InkStep(front, '\r');
      LenConcat(front, ['\r']);
    }
  }

  lemma BreakKeeps(front: string, rest: string)
    ensures Ink(front + ['\n'] + rest) == Ink(front) + Ink(rest)
    ensures Utf8.Len(front + ['\n'] + rest) == Utf8.Len(front) + 1 + Utf8.Len(rest)
  {
    hide Ink, Utf8.Len, IsWhitespace;
    OneChar('\n');
    NewlineIsBlank();
    InkConcat(front + ['\n'], rest);
    InkConcat(front, ['\n']);
    LenConcat(front + ['\n'], rest);
    LenConcat(front, ['\n']);
    assert Ink(front) + "" == Ink(front);
  }

  lemma FirstLineKeeps(l: string, ls: seq<string>)
    ensures var all := [l] + ls;
            && InkOf(all, |all|) == Ink(l) + InkOf(ls, |ls|)
            && SizeOf(all, |all|) == Utf8.Len(l) + 1 + SizeOf(ls, |ls|)
  {
    hide Ink, Utf8.Len, InkOf, SizeOf;
    OfOne(l);
    InkOfConcat([l], ls, |ls|);
    SizeOfConcat([l], ls, |ls|);
  }

  lemma {:induction false} LinesKeep(s: string)
    ensures InkOf(Lines(s), |Lines(s)|) == Ink(s)
    ensures SizeOf(Lines(s), |Lines(s)|) <= Utf8.Len(s) + 1
    decreases |s|
  {
    hide Ink, Utf8.Len, IsWhitespace, StripReturn, InkOf, SizeOf, NewlineAt;
    if s == "" {
      OfNothing();
      OneChar(' ');
    } else {
      var p := NewlineAt(s, 0);
      if p == |s| {
        OfOne(s);
      } else {
        var front, rest := s[..p], s[p + 1..];
        LinesKeep(rest);
        StripKeeps(front);
        FirstLineKeeps(StripReturn(front), Lines(rest));
        assert s == front + ['\n'] + rest;
        BreakKeeps(front, rest);
      }
    }
  }

  lemma OfNothing()
    ensures InkOf([], 0) == "" && SizeOf([], 0) == 0
  {
  }

  lemma {:induction false} TrimKeeps(s: string)
    ensures Ink(TrimEnd(s)) == Ink(s) && Utf8.Len(TrimEnd(s)) <= Utf8.Len(s)
    decreases |s|
  {
    hide Ink, Utf8.Len, IsWhitespace;
    if s != "" && IsWhitespace(s[|s| - 1]) {
      var front, c := s[..|s| - 1], s[|s| - 1];
      TrimKeeps(front);
      assert s == front + [c];
      InkStep(front, c);
      LenConcat(front, [c]);
    }
  }

  // ---------- lines of joined lines ----------

  /** A line that splitting cannot change: no newline in it, no return at its end. */
  predicate LineSafe(l: string) {
    '\n' !in l && (l != "" ==> l[|l| - 1] != '\r')
  }

  lemma {:induction false} LinesAreFree(s: string)
    ensures forall i | 0 <= i < |Lines(s)| :: '\n' !in Lines(s)[i]
    decreases |s|
  {
    if s != "" {
      var p := NewlineAt(s, 0);
      if p < |s| {
        LinesAreFree(s[p + 1..]);
        hide NewlineAt;
      }
    }
  }

  /** Joining from `i` on, front to back. */
  function JoinFrom(ls: seq<string>, i: nat): string
    requires i < |ls|
    decreases |ls| - i
  {
    if i + 1 == |ls| then ls[i] else ls[i] + "\n" + JoinFrom(ls, i + 1)
  }

  lemma {:induction false} JoinSplits(ls: seq<string>, i: nat)
    requires 0 < i < |ls|
    ensures Join(ls, |ls|) == Join(ls, i) + "\n" + JoinFrom(ls, i)
    decreases |ls| - i
  {
    if i + 1 < |ls| {
      JoinSplits(ls, i + 1);
      assert Join(ls, i + 1) + "\n" + JoinFrom(ls, i + 1) == Join(ls, i) + "\n" + (ls[i] + "\n" + JoinFrom(ls, i + 1));
    }
  }

  lemma JoinIsJoinFrom(ls: seq<string>)
    requires ls != []
    ensures Join(ls, |ls|) == JoinFrom(ls, 0)
  {
    if |ls| > 1 {
      JoinSplits(ls, 1);
    }
  }

  lemma NewlineAfter(l: string, rest: string)
    requires '\n' !in l
    ensures NewlineAt(l + "\n" + rest, 0) == |l| && NewlineAt(l, 0) == |l|
  {
    var s := l + "\n" + rest;
    assert forall j | 0 <= j < |l| :: s[j] == l[j] && l[j] in l;
    assert s[|l|] == '\n';
  }

  lemma LinesFirst(l: string, rest: string)
    requires LineSafe(l)
    ensures Lines(l + "\n" + rest) == [l] + Lines(rest)
  {
    NewlineAfter(l, rest);
    hide NewlineAt;
    var s := l + "\n" + rest;
    assert s[..|l|] == l && s[|l| + 1..] == rest;
  }

  lemma LinesLast(l: string)
    requires LineSafe(l) && l != ""
    ensures Lines(l) == [l]
  {
    NewlineAfter(l, "");
  }

  lemma {:induction false} LinesOfJoinFrom(ls: seq<string>, i: nat)
    requires i < |ls| && ls[|ls| - 1] != "" && forall k | 0 <= k < |ls| :: LineSafe(ls[k])
    ensures Lines(JoinFrom(ls, i)) == ls[i..]
    decreases |ls| - i
  {
    hide Lines, LineSafe;
    if i + 1 == |ls| {
      LinesLast(ls[i]);
      assert ls[i..] == [ls[i]];
    } else {
      LinesOfJoinFrom(ls, i + 1);
      LinesFirst(ls[i], JoinFrom(ls, i + 1));
      assert ls[i..] == [ls[i]] + ls[i + 1..];
    }
  }

  /** Safe lines of which the last is not empty come back as they were. */
  lemma {:induction false} LinesOfJoin(ls: seq<string>)
    requires ls != [] ==> ls[|ls| - 1] != ""
    requires forall k | 0 <= k < |ls| :: LineSafe(ls[k])
    ensures Lines(Join(ls, |ls|)) == ls
  {
    hide Lines;
    if ls != [] {
      JoinIsJoinFrom(ls);
      LinesOfJoinFrom(ls, 0);
    } else {
      NoLines();
    }
  }

  lemma NoLines()
    ensures Lines("") == []
  {
  }
}
