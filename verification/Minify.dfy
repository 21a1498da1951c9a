/** The description minifier: whitespace runs and surplus blank lines go, fenced code keeps its inner spacing. */
module Minify {
  import opened TextLines
  import Utf8

  const FENCE: string := "```"

  // ---------- one line ----------

  predicate IsBlank(c: char) {
    c == ' ' || c == '\t'
  }

  /** The first `n` characters with every run of blanks reduced to one space, and none at the start. */
  function Collapsed(l: string, n: nat): string
    requires n <= |l|
  {
    if n == 0 then ""
    else
      var r := Collapsed(l, n - 1);
      if !IsBlank(l[n - 1]) then r + [l[n - 1]]
      else if (n >= 2 && IsBlank(l[n - 2])) || r == "" then r
      else r + " "
  }

  function Collapse(l: string): string {
    Collapsed(l, |l|)
  }

  method CollapseInternalWhitespace(line: string) returns (result: string)
    ensures result == Collapse(line)
  {
    result := "";
    var lastWasSpace := false;
    for i := 0 to |line|
      invariant result == Collapsed(line, i)
      invariant lastWasSpace <==> i > 0 && IsBlank(line[i - 1])
    {
      if IsBlank(line[i]) {
        if !lastWasSpace && result != "" {
          result := result + " ";
        }
        lastWasSpace := true;
      } else {
        result := result + [line[i]];
        lastWasSpace := false;
      }
    }
  }

  /** No tab, no blank at the start, no two blanks in a row. */
  predicate Even(l: string) {
    && '\t' !in l && (l != "" ==> l[0] != ' ')
    && forall i | 0 <= i < |l| - 1 :: !(l[i] == ' ' && l[i + 1] == ' ')
  }

  lemma {:induction false} CollapsedIsEven(l: string, n: nat)
    requires n <= |l|
    ensures var r := Collapsed(l, n);
            && Even(r)
            && (n > 0 && r != "" ==>
                  (IsBlank(l[n - 1]) <==> r[|r| - 1] == ' ') && (!IsBlank(l[n - 1]) ==> r[|r| - 1] == l[n - 1]))
            && (r == "" <==> forall i | 0 <= i < n :: IsBlank(l[i]))
  {
    if n > 0 {
      CollapsedIsEven(l, n - 1);
    }
  }

  lemma {:induction false} EvenStaysAsIs(l: string, n: nat)
    requires n <= |l| && Even(l)
    ensures Collapsed(l, n) == l[..n]
  {
    if n > 0 {
      EvenStaysAsIs(l, n - 1);
      assert l[n - 1] in l;
      assert l[..n] == l[..n - 1] + [l[n - 1]];
    }
  }

  /** Collapsing changes exactly the uneven lines. */
  lemma CollapseFixes(l: string)
    ensures Collapse(l) == l <==> Even(l)
    ensures Even(Collapse(l))
  {
    CollapsedIsEven(l, |l|);
    if Even(l) {
      EvenStaysAsIs(l, |l|);
      assert l[..|l|] == l;
    }
  }

  lemma {:induction false} CollapseKeeps(l: string, n: nat)
    requires n <= |l|
    ensures Ink(Collapsed(l, n)) == Ink(l[..n]) && Utf8.Len(Collapsed(l, n)) <= Utf8.Len(l[..n])
  {
    hide Ink, Utf8.Len, IsWhitespace;
    OneChar(' ');
    NewlineIsBlank();
    if n == 0 {
      assert l[..0] == "";
    } else {
      CollapseKeeps(l, n - 1);
      var r, c := Collapsed(l, n - 1), l[n - 1];
      assert l[..n] == l[..n - 1] + [c];
      OneChar(c);
      InkStep(l[..n - 1], c);
      LenConcat(l[..n - 1], [c]);
      InkStep(r, c);
      InkStep(r, ' ');
      LenConcat(r, [c]);
      LenConcat(r, " ");
    }
  }

  // ---------- all lines ----------

  predicate IsFence(l: string) {
    FENCE <= l
  }

  /** A line that is kept, and whether it stands outside every fence. Fence lines count as inside. */
  datatype Kept = Kept(text: string, outside: bool)

  datatype State = State(inFence: bool, blanks: nat, kept: seq<Kept>)

  function Advance(s: State, line: string): State {
    var trimmed := TrimEnd(line);
    if IsFence(trimmed) then State(!s.inFence, 0, s.kept + [Kept(trimmed, false)])
    else if s.inFence then State(true, 0, s.kept + [Kept(trimmed, false)])
    else
      var processed := Collapse(trimmed);
      if processed != "" then State(false, 0, s.kept + [Kept(processed, true)])
      else if s.blanks == 0 then State(false, 1, s.kept + [Kept("", true)])
      else State(false, s.blanks + 1, s.kept)
  }

  /** The state after the first `n` lines. */
  function Run(ls: seq<string>, n: nat): State
    requires n <= |ls|
  {
    if n == 0 then State(false, 0, []) else Advance(Run(ls, n - 1), ls[n - 1])
  }

  /** How many of the first `n` kept lines remain when the empty ones at the end are dropped. */
  function Last(kept: seq<Kept>, n: nat): (m: nat)
    requires n <= |kept|
    ensures m <= n && (m > 0 ==> kept[m - 1].text != "")
    ensures forall i | m <= i < n :: kept[i].text == ""
  {
    if n > 0 && kept[n - 1].text == "" then Last(kept, n - 1) else n
  }

  function Texts(kept: seq<Kept>): seq<string> {
    seq(|kept|, i requires 0 <= i < |kept| => kept[i].text)
  }

  function KeptLines(text: string): seq<Kept> {
    var kept := Run(Lines(text), |Lines(text)|).kept;
    kept[..Last(kept, |kept|)]
  }

  function Minified(text: string): string {
    Join(Texts(KeptLines(text)), |KeptLines(text)|)
  }

  method ApplyMinify(desc: string) returns (result: string)
    ensures result == Minified(desc)
  {
    hide TrimEnd, Collapse, Lines, Join, Texts;
    TextsOfNothing();
    var inFence, blanks := false, 0;
    var out: seq<string> := [];
    var lines := Lines(desc);
    for i := 0 to |lines|
      invariant inFence == Run(lines, i).inFence && blanks == Run(lines, i).blanks
      invariant out == Texts(Run(lines, i).kept)
    {
      var trimmed := TrimEnd(lines[i]);
      TextsAppend(Run(lines, i).kept, Kept(trimmed, false));
      TextsAppend(Run(lines, i).kept, Kept(Collapse(trimmed), true));
      if IsFence(trimmed) {
        inFence := !inFence;
        blanks := 0;
        out := out + [trimmed];
      } else if inFence {
        out := out + [trimmed];
        blanks := 0;
      } else {
        var processed := CollapseInternalWhitespace(trimmed);
        if processed == "" {
          blanks := blanks + 1;
          if blanks <= 1 {
            out := out + [""];
          }
        } else {
          blanks := 0;
          out := out + [processed];
        }
      }
    }
    ghost var kept := Run(lines, |lines|).kept;
    TextsAppend(kept, Kept("", true));
    assert kept[..|kept|] == kept;
    while out != [] && out[|out| - 1] == ""
      invariant |out| <= |kept| && out == Texts(kept[..|out|])
      invariant Last(kept, |out|) == Last(kept, |kept|)
    {
      TextsDrop(kept, |out|);
      out := out[..|out| - 1];
    }
    TextsDrop(kept, |out|);
    result := Join(out, |out|);
  }

  lemma TextsOfNothing()
    ensures Texts([]) == []
  {
  }

  lemma TextsDrop(kept: seq<Kept>, n: nat)
    requires n <= |kept|
    ensures n > 0 ==> Texts(kept[..n])[..n - 1] == Texts(kept[..n - 1]) && Texts(kept[..n])[n - 1] == kept[n - 1].text
  {
  }

  // ---------- the ink and the length ----------

  lemma {:induction false} LineKeeps(l: string)
    ensures Ink(TrimEnd(l)) == Ink(l) && Ink(Collapse(TrimEnd(l))) == Ink(l)
    ensures Utf8.Len(TrimEnd(l)) <= Utf8.Len(l) && Utf8.Len(Collapse(TrimEnd(l))) <= Utf8.Len(l)
  {
    hide Ink, Utf8.Len, TrimEnd, Collapsed;
    TrimKeeps(l);
    CollapseKeeps(TrimEnd(l), |TrimEnd(l)|);
    assert TrimEnd(l)[..|TrimEnd(l)|] == TrimEnd(l);
  }

  lemma TextsAppend(kept: seq<Kept>, k: Kept)
    ensures Texts(kept + [k]) == Texts(kept) + [k.text] && |Texts(kept)| == |kept|
  {
  }

  function InkKept(kept: seq<Kept>): string {
    InkOf(Texts(kept), |kept|)
  }

  function SizeKept(kept: seq<Kept>): nat {
    SizeOf(Texts(kept), |kept|)
  }

  lemma KeptMore(kept: seq<Kept>, k: Kept)
    ensures InkKept(kept + [k]) == InkKept(kept) + Ink(k.text)
    ensures SizeKept(kept + [k]) == SizeKept(kept) + Utf8.Len(k.text) + 1
  {
    hide Ink, Utf8.Len, InkOf, SizeOf, Texts;
    TextsAppend(kept, k);
    OfMore(Texts(kept), k.text);
  }

  lemma {:induction false} AdvanceKeeps(s: State, l: string)
    ensures InkKept(Advance(s, l).kept) == InkKept(s.kept) + Ink(l)
    ensures SizeKept(Advance(s, l).kept) <= SizeKept(s.kept) + Utf8.Len(l) + 1
  {
    hide Ink, Utf8.Len, TrimEnd, Collapse, InkKept, SizeKept;
    LineKeeps(l);
    OneChar(' ');
    var t := TrimEnd(l);
    KeptMore(s.kept, Kept(t, false));
    KeptMore(s.kept, Kept(Collapse(t), true));
    assert InkKept(s.kept) + "" == InkKept(s.kept);
  }

  lemma {:induction false} RunKeeps(ls: seq<string>, n: nat)
    requires n <= |ls|
    ensures InkKept(Run(ls, n).kept) == InkOf(ls, n) && SizeKept(Run(ls, n).kept) <= SizeOf(ls, n)
  {
    hide Ink, Utf8.Len, Advance, InkKept, SizeKept;
    if n == 0 {
      NoTexts();
    } else {
      RunKeeps(ls, n - 1);
      AdvanceKeeps(Run(ls, n - 1), ls[n - 1]);
    }
  }

  lemma NoTexts()
    ensures InkKept([]) == "" && SizeKept([]) == 0
  {
  }

  lemma {:induction false} DroppingKeeps(kept: seq<Kept>, n: nat)
    requires n <= |kept|
    ensures var m := Last(kept, n);
            InkOf(Texts(kept), m) == InkOf(Texts(kept), n) && SizeOf(Texts(kept), m) <= SizeOf(Texts(kept), n)
  {
    hide Ink, Utf8.Len;
    OneChar(' ');
    if n > 0 && kept[n - 1].text == "" {
      DroppingKeeps(kept, n - 1);
      assert Texts(kept)[n - 1] == "";
    }
  }

  lemma PrefixTexts(kept: seq<Kept>, m: nat)
    requires m <= |kept|
    ensures InkOf(Texts(kept[..m]), m) == InkOf(Texts(kept), m) && SizeOf(Texts(kept[..m]), m) == SizeOf(Texts(kept), m)
  {
    hide Ink, Utf8.Len;
    OfPrefix(Texts(kept[..m]), Texts(kept[m..]), m);
    assert Texts(kept[..m]) + Texts(kept[m..]) == Texts(kept);
  }

  /** Minification keeps every non-whitespace character in order, and never takes more bytes. */
  lemma MinifyKeepsInk(text: string)
    ensures Ink(Minified(text)) == Ink(text)
    ensures Utf8.Len(Minified(text)) <= Utf8.Len(text)
  {
    hide Ink, Utf8.Len, Lines, Run, InkOf, SizeOf, Join, Texts;
    var ls := Lines(text);
    var kept := Run(ls, |ls|).kept;
    var m := Last(kept, |kept|);
    LinesKeep(text);
    RunKeeps(ls, |ls|);
    DroppingKeeps(kept, |kept|);
    PrefixTexts(kept, m);
    TextsLength(kept[..m]);
    JoinKeeps(Texts(kept[..m]), m);
  }

  lemma TextsLength(kept: seq<Kept>)
    ensures |Texts(kept)| == |kept|
  {
  }

  // ---------- the shape of the result ----------

  predicate BlankOutside(k: Kept) {
    k.outside && k.text == ""
  }

  predicate Trimmed(l: string) {
    TrimEnd(l) == l
  }

  /** Every kept line is free of newlines and trailing whitespace, and even where it stands outside fences;
      no two adjacent lines outside fences are blank. */
  ghost predicate WellKept(kept: seq<Kept>) {
    && (forall i | 0 <= i < |kept| ::
        '\n' !in kept[i].text && Trimmed(kept[i].text) && (kept[i].outside ==> Even(kept[i].text)))
    && (forall i | 0 < i < |kept| :: !(BlankOutside(kept[i - 1]) && BlankOutside(kept[i])))
  }

  ghost predicate RunShape(s: State) {
    && WellKept(s.kept)
    && (s.blanks == 0 && s.kept != [] ==> !BlankOutside(s.kept[|s.kept| - 1]))
    && (s.blanks > 0 ==> s.kept != [] && BlankOutside(s.kept[|s.kept| - 1]))
  }

  lemma {:induction false} TrimIsTrimmed(l: string)
    ensures Trimmed(TrimEnd(l))
  {
    hide IsWhitespace;
    if l != "" && IsWhitespace(l[|l| - 1]) {
      TrimIsTrimmed(l[..|l| - 1]);
    }
  }

  lemma TrimmedByLast(l: string)
    requires l != "" ==> !IsWhitespace(l[|l| - 1])
    ensures Trimmed(l)
  {
  }

  /** Collapsing a trimmed line neither empties it nor leaves whitespace at its end. */
  lemma CollapseOfTrimmed(l: string)
    requires Trimmed(l)
    ensures Trimmed(Collapse(l)) && Even(Collapse(l))
    ensures Collapse(l) == "" <==> l == ""
    ensures '\n' !in l ==> '\n' !in Collapse(l)
  {
    CollapsedIsEven(l, |l|);
    if '\n' !in l {
      CollapseInvents(l, |l|);
    }
    TrimmedEnd(l);
    NewlineIsBlank();
    if l != "" {
      TrimmedByLast(Collapse(l));
    }
  }

  lemma TrimmedEnd(l: string)
    requires Trimmed(l)
    ensures l != "" ==> !IsWhitespace(l[|l| - 1])
  {
  }

  lemma {:induction false} CollapseInvents(l: string, n: nat)
    requires n <= |l| && '\n' !in l
    ensures '\n' !in Collapsed(l, n)
  {
    if n > 0 {
      CollapseInvents(l, n - 1);
      assert l[n - 1] in l;
    }
  }

  lemma WellKeptMore(kept: seq<Kept>, k: Kept)
    requires WellKept(kept) && '\n' !in k.text && Trimmed(k.text) && (k.outside ==> Even(k.text))
    requires kept != [] && BlankOutside(k) ==> !BlankOutside(kept[|kept| - 1])
    ensures WellKept(kept + [k])
  {
    hide Trimmed, Even;
  }

  lemma AdvanceKeepsShape(s: State, l: string)
    requires RunShape(s) && '\n' !in l
    ensures RunShape(Advance(s, l))
  {
    hide WellKept, Trimmed, Even, TrimEnd, Collapse;
    var t := TrimEnd(l);
    assert t <= l;
    assert '\n' !in t by { PrefixInvents(t, l); }
    TrimIsTrimmed(l);
    CollapseOfTrimmed(t);
    BlankIsEven();
    if IsFence(t) || s.inFence {
      WellKeptMore(s.kept, Kept(t, false));
    } else if Collapse(t) != "" {
      WellKeptMore(s.kept, Kept(Collapse(t), true));
    } else if s.blanks == 0 {
      WellKeptMore(s.kept, Kept("", true));
    }
  }

  lemma PrefixInvents(t: string, l: string)
    requires t <= l && '\n' !in l
    ensures '\n' !in t
  {
    assert l == t + l[|t|..];
  }

  lemma BlankIsEven()
    ensures Even("") && Trimmed("")
  {
  }

  lemma {:induction false} RunHasShape(ls: seq<string>, n: nat)
    requires n <= |ls| && forall i | 0 <= i < |ls| :: '\n' !in ls[i]
    ensures RunShape(Run(ls, n))
  {
    hide Advance, RunShape;
    if n > 0 {
      RunHasShape(ls, n - 1);
      AdvanceKeepsShape(Run(ls, n - 1), ls[n - 1]);
    } else {
      EmptyShape();
    }
  }

  lemma EmptyShape()
    ensures RunShape(State(false, 0, []))
  {
  }

  lemma WellKeptPrefix(kept: seq<Kept>, m: nat)
    requires WellKept(kept) && m <= |kept|
    ensures WellKept(kept[..m])
  {
    hide Trimmed, Even;
  }

  /** Outside fences the result never has two blank lines in a row, no tabs, no leading space and no double
      space; it has no trailing whitespace anywhere, and does not end in a blank line. */
  lemma ResultIsWellKept(text: string)
    ensures WellKept(KeptLines(text))
    ensures KeptLines(text) != [] ==> KeptLines(text)[|KeptLines(text)| - 1].text != ""
  {
    hide WellKept, Run, Lines;
    LinesAreFree(text);
    var ls := Lines(text);
    RunHasShape(ls, |ls|);
    var kept := Run(ls, |ls|).kept;
    WellKeptPrefix(kept, Last(kept, |kept|));
  }

  /** The lines of the result are the kept lines. */
  lemma LinesOfResult(text: string)
    ensures Lines(Minified(text)) == Texts(KeptLines(text))
  {
    ResultIsWellKept(text);
    hide KeptLines, Lines, Join;
    var kept := KeptLines(text);
    forall i | 0 <= i < |kept| ensures LineSafe(Texts(kept)[i]) {
      TrimmedEnd(kept[i].text);
      NewlineIsBlank();
    }
    LinesOfJoin(Texts(kept));
  }

  // ---------- when minifying changes nothing ----------

  /** Whether line `n` stands inside a fence, judged by the fence lines before it. */
  function Inside(ls: seq<string>, n: nat): bool
    requires n <= |ls|
  {
    if n == 0 then false else if IsFence(ls[n - 1]) then !Inside(ls, n - 1) else Inside(ls, n - 1)
  }

  predicate Outside(ls: seq<string>, i: nat)
    requires i < |ls|
  {
    !Inside(ls, i) && !IsFence(ls[i])
  }

  /** A line outside fences that is even and not the second of two blanks. */
  predicate TidyAt(ls: seq<string>, i: nat)
    requires i < |ls|
  {
    Even(ls[i]) && !(ls[i] == "" && i > 0 && ls[i - 1] == "")
  }

  predicate Tidy(ls: seq<string>, n: nat)
    requires n <= |ls|
  {
    forall i | 0 <= i < n :: Trimmed(ls[i]) && (Outside(ls, i) ==> TidyAt(ls, i))
  }

  /** The run keeps the first `n` lines just as they are. */
  predicate Unchanged(ls: seq<string>, n: nat)
    requires n <= |ls|
  {
    Texts(Run(ls, n).kept) == ls[..n]
  }

  lemma {:induction false} RunKeepsAtMost(ls: seq<string>, n: nat)
    requires n <= |ls|
    ensures |Run(ls, n).kept| <= n
  {
    hide TrimEnd, Collapse;
    if n > 0 {
      RunKeepsAtMost(ls, n - 1);
    }
  }

  /** A step that appends the very line it reads. */
  lemma AppendedItself(s: State, l: string)
    requires Advance(s, l).kept != s.kept && Advance(s, l).kept[|Advance(s, l).kept| - 1].text == l
    ensures Trimmed(l)
    ensures Advance(s, l).inFence == if IsFence(l) then !s.inFence else s.inFence
    ensures IsFence(l) || s.inFence ==> Advance(s, l).blanks == 0
    ensures !IsFence(l) && !s.inFence ==>
              Even(l) && (l == "" ==> s.blanks == 0) && Advance(s, l).blanks == if l == "" then 1 else 0
  {
    hide TrimEnd, Collapse, Even;
    TrimIsTrimmed(l);
    CollapseOfTrimmed(TrimEnd(l));
    BlankIsEven();
  }

  lemma {:induction false} UnchangedState(ls: seq<string>, n: nat)
    requires n <= |ls| && Unchanged(ls, n)
    ensures Run(ls, n).inFence == Inside(ls, n)
    ensures Run(ls, n).blanks > 0 <==> n > 0 && ls[n - 1] == "" && Outside(ls, n - 1)
    ensures n > 0 ==> Unchanged(ls, n - 1)
    ensures n > 0 ==> Trimmed(ls[n - 1]) && (Outside(ls, n - 1) ==> TidyAt(ls, n - 1))
  {
    hide Texts, Advance, Even, Unchanged, Trimmed;
    if n > 0 {
      RunKeepsAtMost(ls, n - 1);
      LastKept(ls, n);
      UnchangedState(ls, n - 1);
      AppendedItself(Run(ls, n - 1), ls[n - 1]);
    }
  }

  /** A run that keeps all of `n` lines appended a line at its last step: that line itself. */
  lemma LastKept(ls: seq<string>, n: nat)
    requires 0 < n <= |ls| && Unchanged(ls, n) && |Run(ls, n - 1).kept| <= n - 1
    ensures Unchanged(ls, n - 1)
    ensures Run(ls, n).kept != Run(ls, n - 1).kept && Run(ls, n).kept[|Run(ls, n).kept| - 1].text == ls[n - 1]
  {
    hide TrimEnd, Collapse;
    var before, after := Run(ls, n - 1).kept, Run(ls, n).kept;
    assert |Texts(after)| == n;
    assert Texts(after)[n - 1] == ls[..n][n - 1];
    assert Texts(before) == Texts(after)[..n - 1];
    assert ls[..n][..n - 1] == ls[..n - 1];
  }

  lemma {:induction false} UnchangedIsTidy(ls: seq<string>, n: nat)
    requires n <= |ls| && Unchanged(ls, n)
    ensures Tidy(ls, n)
  {
    hide Unchanged, TidyAt, Outside, Trimmed;
    if n > 0 {
      UnchangedState(ls, n);
      UnchangedIsTidy(ls, n - 1);
    }
  }

  /** A tidy line is appended as it is. */
  lemma TidyIsAppended(ls: seq<string>, n: nat)
    requires n < |ls| && Trimmed(ls[n]) && (Outside(ls, n) ==> TidyAt(ls, n)) && Unchanged(ls, n)
    ensures Unchanged(ls, n + 1)
  {
    UnchangedState(ls, n);
    hide Texts, TrimEnd, Collapse, Even, Unchanged;
    var s, l := Run(ls, n), ls[n];
    CollapseFixes(l);
    assert Advance(s, l).kept == s.kept + [Kept(l, IsOutside(s, l))];
    hide Run, Advance;
    UnchangedMore(ls, n, s, IsOutside(s, l));
  }

  predicate IsOutside(s: State, l: string) {
    !IsFence(l) && !s.inFence
  }

  lemma UnchangedMore(ls: seq<string>, n: nat, s: State, outside: bool)
    requires n < |ls| && s == Run(ls, n) && Unchanged(ls, n) && Run(ls, n + 1).kept == s.kept + [Kept(ls[n], outside)]
    ensures Unchanged(ls, n + 1)
  {
    hide Texts, Run;
    TextsAppend(s.kept, Kept(ls[n], outside));
    assert ls[..n + 1] == ls[..n] + [ls[n]];
  }

  lemma {:induction false} TidyIsUnchanged(ls: seq<string>, n: nat)
    requires n <= |ls| && Tidy(ls, n)
    ensures Unchanged(ls, n)
  {
    hide Texts, Trimmed, TidyAt, Outside, Run;
    if n == 0 {
      NothingIsUnchanged(ls);
    } else {
      TidyIsUnchanged(ls, n - 1);
      hide Unchanged;
      TidyIsAppended(ls, n - 1);
    }
  }

  lemma NothingIsUnchanged(ls: seq<string>)
    ensures Unchanged(ls, 0)
  {
    TextsOfNothing();
    assert ls[..0] == [];
  }

  lemma JoinedBack(a: seq<Kept>, b: seq<Kept>, x: string, y: string)
    requires Lines(x) == Texts(a) && Lines(y) == Texts(b) && x == Join(Texts(a), |a|) && y == Join(Texts(b), |b|)
    ensures x == y <==> Texts(a) == Texts(b)
  {
    hide Lines, Join;
    TextsLength(a);
    TextsLength(b);
  }

  /** Minifying twice is minifying once exactly when the result's own lines are tidy. */
  lemma TwiceIffTidy(text: string)
    ensures Minified(Minified(text)) == Minified(text)
            <==> Tidy(Texts(KeptLines(text)), |Texts(KeptLines(text))|)
  {
    var once := Minified(text);
    LinesOfResult(text);
    LinesOfResult(once);
    JoinedBack(KeptLines(once), KeptLines(text), Minified(once), once);
    ResultIsWellKept(text);
    var out := Texts(KeptLines(text));
    hide KeptLines, Lines, Join, WellKept, Tidy, Unchanged, Run;
    SecondRun(text, once, out);
    if Tidy(out, |out|) {
      TidyIsUnchanged(out, |out|);
    }
    if Unchanged(out, |out|) {
      UnchangedIsTidy(out, |out|);
    }
  }

  /** The second run keeps all lines exactly when it leaves each of them unchanged. */
  lemma SecondRun(text: string, once: string, out: seq<string>)
    requires Lines(once) == out && (out != [] ==> out[|out| - 1] != "")
    ensures Texts(KeptLines(once)) == out <==> Unchanged(out, |out|)
  {
    hide Lines, Run;
    var kept := Run(out, |out|).kept;
    RunKeepsAtMost(out, |out|);
    TextsLength(kept);
    TextsLength(KeptLines(once));
    assert out[..|out|] == out;
    if Texts(KeptLines(once)) == out {
      assert Last(kept, |kept|) == |out|;
      assert kept[..|out|] == kept;
    }
    if Unchanged(out, |out|) {
      assert out != [] ==> Texts(kept)[|out| - 1] == out[|out| - 1];
      assert kept[..|kept|] == kept;
    }
  }

  // ---------- fences before and after ----------

  /** The fence parity of the first run, over the lines it kept. */
  function WasInside(kept: seq<Kept>, n: nat): bool
    requires n <= |kept|
  {
    if n == 0 then false
    else if !kept[n - 1].outside && IsFence(kept[n - 1].text) then !WasInside(kept, n - 1)
    else WasInside(kept, n - 1)
  }

  predicate FlagFits(kept: seq<Kept>, i: nat)
    requires i < |kept|
  {
    && (kept[i].outside ==> !WasInside(kept, i))
    && (!kept[i].outside && !IsFence(kept[i].text) ==> WasInside(kept, i))
  }

  lemma {:induction false} WasInsidePrefix(kept: seq<Kept>, more: seq<Kept>, n: nat)
    requires n <= |kept|
    ensures WasInside(kept + more, n) == WasInside(kept, n)
  {
    if n > 0 {
      WasInsidePrefix(kept, more, n - 1);
    }
  }

  lemma FlagsMore(kept: seq<Kept>, k: Kept)
    requires forall i | 0 <= i < |kept| :: FlagFits(kept, i)
    requires k.outside ==> !WasInside(kept, |kept|)
    requires !k.outside && !IsFence(k.text) ==> WasInside(kept, |kept|)
    ensures forall i | 0 <= i < |kept| + 1 :: FlagFits(kept + [k], i)
    ensures WasInside(kept + [k], |kept| + 1)
            == if !k.outside && IsFence(k.text) then !WasInside(kept, |kept|) else WasInside(kept, |kept|)
  {
    hide IsFence;
    WasInsidePrefix(kept, [k], |kept|);
    forall i | 0 <= i < |kept| + 1 ensures FlagFits(kept + [k], i) {
      WasInsidePrefix(kept, [k], i);
      assert i < |kept| ==> FlagFits(kept, i);
      hide WasInside;
    }
  }

  lemma {:induction false} FlagsFit(ls: seq<string>, n: nat)
    requires n <= |ls|
    ensures var s := Run(ls, n);
            (forall i | 0 <= i < |s.kept| :: FlagFits(s.kept, i)) && s.inFence == WasInside(s.kept, |s.kept|)
  {
    hide TrimEnd, Collapse, FlagFits, IsFence;
    if n > 0 {
      FlagsFit(ls, n - 1);
      var s, t := Run(ls, n - 1), TrimEnd(ls[n - 1]);
      hide WasInside;
      if IsFence(t) || s.inFence {
        FlagsMore(s.kept, Kept(t, false));
      } else if Collapse(t) != "" {
        FlagsMore(s.kept, Kept(Collapse(t), true));
      } else if s.blanks == 0 {
        FlagsMore(s.kept, Kept("", true));
      }
    }
  }

  lemma KeptFlagsFit(text: string)
    ensures var kept := KeptLines(text); forall i | 0 <= i < |kept| :: FlagFits(kept, i)
  {
    hide Lines, Run;
    var ls := Lines(text);
    var all := Run(ls, |ls|).kept;
    var kept := all[..Last(all, |all|)];
    FlagsFit(ls, |ls|);
    assert kept + all[|kept|..] == all;
    forall i | 0 <= i < |kept| ensures FlagFits(kept, i) {
      WasInsidePrefix(kept, all[|kept|..], i);
      assert FlagFits(all, i);
      hide WasInside;
    }
  }

  /** A line that stood inside a fence of the text, and that the fences of the result leave outside. */
  predicate Escapes(kept: seq<Kept>, i: nat)
    requires i < |kept|
  {
    TextsLength(kept);
    !kept[i].outside && Outside(Texts(kept), i)
  }

  predicate EscapeesTidy(kept: seq<Kept>) {
    TextsLength(kept);
    forall i | 0 <= i < |kept| :: Escapes(kept, i) ==> TidyAt(Texts(kept), i)
  }

  /** A blank line is no fence, so the next line is on the same side. */
  lemma SameSide(kept: seq<Kept>, i: nat)
    requires 0 < i < |kept| && FlagFits(kept, i) && FlagFits(kept, i - 1) && kept[i].outside && kept[i - 1].text == ""
    ensures kept[i - 1].outside
  {
  }

  lemma TidyIffEscapeesTidy(kept: seq<Kept>)
    requires WellKept(kept) && forall i | 0 <= i < |kept| :: FlagFits(kept, i)
    ensures |Texts(kept)| == |kept|
    ensures Tidy(Texts(kept), |kept|) <==> EscapeesTidy(kept)
  {
    TextsLength(kept);
    var ls := Texts(kept);
    hide Trimmed, Even, Inside;
    forall i | 0 <= i < |kept| && kept[i].outside ensures TidyAt(ls, i) {
      if i > 0 && kept[i - 1].text == "" {
        SameSide(kept, i);
      }
    }
    hide TidyAt, FlagFits, Outside;
    assert forall i | 0 <= i < |kept| :: Trimmed(ls[i]);
  }

  lemma {:induction false} TwiceIffEscapeesTidy(text: string)
    ensures Minified(Minified(text)) == Minified(text) <==> EscapeesTidy(KeptLines(text))
  {
    hide Minified, KeptLines, Tidy, EscapeesTidy, FlagFits, WellKept;
    TwiceIffTidy(text);
    ResultIsWellKept(text);
    KeptFlagsFit(text);
    TextsLength(KeptLines(text));
    TidyIffEscapeesTidy(KeptLines(text));
  }

  // ---------- idempotence read off the text ----------

  /** The fences of the text: a marker is a line that begins with one. */
  function Fenced(ls: seq<string>, n: nat): bool
    requires n <= |ls|
  {
    if n == 0 then false else if IsFence(TrimEnd(ls[n - 1])) then !Fenced(ls, n - 1) else Fenced(ls, n - 1)
  }

  /** An indented marker outside fences: collapsing makes a marker of it, so that it counts the next time. */
  predicate IndentedFence(ls: seq<string>, i: nat)
    requires i < |ls|
  {
    var t := TrimEnd(ls[i]);
    !Fenced(ls, i) && !IsFence(t) && IsFence(Collapse(t))
  }

  /** The fences the next pass will see. */
  function FencedNext(ls: seq<string>, n: nat): bool
    requires n <= |ls|
  {
    if n == 0 then false
    else if IsFence(TrimEnd(ls[n - 1])) || IndentedFence(ls, n - 1) then !FencedNext(ls, n - 1)
    else FencedNext(ls, n - 1)
  }

  /** A fenced line that the next pass will find outside fences. */
  predicate Exposed(ls: seq<string>, i: nat)
    requires i < |ls|
  {
    Fenced(ls, i) && !IsFence(TrimEnd(ls[i])) && !FencedNext(ls, i)
  }

  /** The line and the one before it have nothing that the next pass would take away. */
  predicate Settled(ls: seq<string>, i: nat)
    requires i < |ls|
  {
    var t := TrimEnd(ls[i]);
    Even(t) && !(t == "" && i > 0 && TrimEnd(ls[i - 1]) == "")
  }

  predicate ExposedSettled(ls: seq<string>, n: nat)
    requires n <= |ls|
  {
    forall i | 0 <= i < n :: Exposed(ls, i) ==> Settled(ls, i)
  }

  /** How many of the first `n` lines there are up to the last one that is not blank. */
  function Inked(ls: seq<string>, n: nat): (m: nat)
    requires n <= |ls|
    ensures m <= n
  {
    if n > 0 && TrimEnd(ls[n - 1]) == "" then Inked(ls, n - 1) else n
  }

  lemma LastMore(kept: seq<Kept>, k: Kept)
    ensures k.text != "" ==> Last(kept + [k], |kept| + 1) == |kept| + 1
    ensures k.text == "" ==> Last(kept + [k], |kept| + 1) == Last(kept, |kept|)
  {
    LastPrefix(kept, k, |kept|);
  }

  lemma {:induction false} LastPrefix(kept: seq<Kept>, k: Kept, n: nat)
    requires n <= |kept|
    ensures Last(kept + [k], n) == Last(kept, n)
  {
    if n > 0 {
      LastPrefix(kept, k, n - 1);
    }
  }

  function Ending(kept: seq<Kept>): seq<Kept> {
    kept[..Last(kept, |kept|)]
  }

  lemma EndingMore(kept: seq<Kept>, k: Kept)
    ensures Ending(kept + [k]) == if k.text != "" then kept + [k] else Ending(kept)
  {
    LastMore(kept, k);
    hide Last;
    if k.text != "" {
      assert (kept + [k])[..|kept| + 1] == kept + [k];
    } else {
      var m := Last(kept, |kept|);
      assert (kept + [k])[..m] == kept[..m];
    }
  }

  lemma EndingAdvance(s: State, l: string)
    ensures Ending(Advance(s, l).kept) == if TrimEnd(l) != "" then Advance(s, l).kept else Ending(s.kept)
  {
    hide TrimEnd, Collapse, Ending;
    TrimIsTrimmed(l);
    CollapseOfTrimmed(TrimEnd(l));
    assert !IsFence("");
    hide IsFence, Trimmed, Even;
    EndingMore(s.kept, Kept(TrimEnd(l), false));
    EndingMore(s.kept, Kept(Collapse(TrimEnd(l)), true));
    EndingMore(s.kept, Kept("", true));
  }

  /** Dropping the blank lines at the end of the result is dropping them from the text. */
  lemma {:induction false} KeptUpToInk(ls: seq<string>, n: nat)
    requires n <= |ls|
    ensures Ending(Run(ls, n).kept) == Run(ls, Inked(ls, n)).kept
  {
    hide TrimEnd, Advance;
    if n > 0 {
      KeptUpToInk(ls, n - 1);
      hide Ending;
      EndingAdvance(Run(ls, n - 1), ls[n - 1]);
    }
  }

  lemma {:induction false} InsidePrefix(ls: seq<string>, l: string, n: nat)
    requires n <= |ls|
    ensures Inside(ls + [l], n) == Inside(ls, n)
  {
    hide IsFence;
    if n > 0 {
      InsidePrefix(ls, l, n - 1);
    }
  }

  /** One more kept line: what it does to the fences of the result, and whether it is an untidy escapee. */
  lemma EscapeesMore(kept: seq<Kept>, k: Kept)
    ensures |Texts(kept)| == |kept| && |Texts(kept + [k])| == |kept| + 1
    ensures var inside := Inside(Texts(kept), |kept|);
            && Inside(Texts(kept + [k]), |kept| + 1) == (if IsFence(k.text) then !inside else inside)
            && (EscapeesTidy(kept + [k]) <==>
                  && EscapeesTidy(kept)
                  && (!k.outside && !IsFence(k.text) && !inside ==>
                        Even(k.text) && !(k.text == "" && kept != [] && kept[|kept| - 1].text == "")))
  {
    hide IsFence, Even;
    TextsAppend(kept, k);
    TextsLength(kept + [k]);
    var ls := Texts(kept);
    InsidePrefix(ls, k.text, |ls|);
    forall i | 0 <= i < |kept| ensures Escapes(kept + [k], i) <==> Escapes(kept, i) {
      InsidePrefix(ls, k.text, i);
    }
    assert (kept + [k])[|kept|] == k;
    assert Escapes(kept + [k], |kept|) <==> !k.outside && !IsFence(k.text) && !Inside(ls, |ls|);
    hide Inside, Outside, Texts;
    assert forall i | 0 <= i < |kept| :: TidyAt(ls + [k.text], i) <==> TidyAt(ls, i);
    hide Escapes;
  }

  /** How the run stands to the fences of the text. */
  ghost predicate Tracks(ls: seq<string>, n: nat, s: State)
    requires n <= |ls|
  {
    TextsLength(s.kept);
    && s.inFence == Fenced(ls, n) && Inside(Texts(s.kept), |s.kept|) == FencedNext(ls, n)
    && (s.inFence ==> n > 0 && s.kept != [] && s.kept[|s.kept| - 1].text == TrimEnd(ls[n - 1]))
    && (EscapeesTidy(s.kept) <==> ExposedSettled(ls, n))
  }

  lemma TracksAtFirst(ls: seq<string>)
    ensures Tracks(ls, 0, State(false, 0, []))
  {
    TextsOfNothing();
  }

  lemma TracksNext(ls: seq<string>, n: nat, s: State)
    requires n < |ls| && Tracks(ls, n, s)
    ensures Tracks(ls, n + 1, Advance(s, ls[n]))
  {
    hide TrimEnd, Collapse, Even, EscapeesTidy, Inside, Texts;
    var t := TrimEnd(ls[n]);
    assert ExposedSettled(ls, n + 1) <==> ExposedSettled(ls, n) && (Exposed(ls, n) ==> Settled(ls, n));
    hide ExposedSettled;
    TextsLength(s.kept);
    EscapeesMore(s.kept, Kept(t, false));
    EscapeesMore(s.kept, Kept(Collapse(t), true));
    EscapeesMore(s.kept, Kept("", true));
    assert !IsFence("");
    hide IsFence;
  }

  lemma {:induction false} RunTracks(ls: seq<string>, n: nat)
    requires n <= |ls|
    ensures Tracks(ls, n, Run(ls, n))
  {
    hide Tracks, Advance;
    if n == 0 {
      TracksAtFirst(ls);
    } else {
      RunTracks(ls, n - 1);
      TracksNext(ls, n - 1, Run(ls, n - 1));
    }
  }

  /** Minifying is idempotent on a text exactly when, up to its last line that is not blank, every fenced line that the
      next pass will find outside fences is even and not the second of two blanks. */
  lemma IdempotentExactly(text: string)
    ensures var ls := Lines(text);
            Minified(Minified(text)) == Minified(text) <==> ExposedSettled(ls, Inked(ls, |ls|))
  {
    hide Minified, Lines, Run, EscapeesTidy, ExposedSettled, Fenced, FencedNext, Inside, Last;
    var ls := Lines(text);
    TwiceIffEscapeesTidy(text);
    KeptUpToInk(ls, |ls|);
    RunTracks(ls, Inked(ls, |ls|));
  }

  lemma {:induction false} SameFences(ls: seq<string>, n: nat)
    requires n <= |ls| && forall i | 0 <= i < n :: !IndentedFence(ls, i)
    ensures FencedNext(ls, n) == Fenced(ls, n)
  {
    hide TrimEnd, IsFence, IndentedFence;
    if n > 0 {
      SameFences(ls, n - 1);
    }
  }

  /** On every text without an indented fence marker outside fences, minifying twice is minifying once. */
  lemma IdempotentWithoutIndentedFences(text: string)
    requires forall i | 0 <= i < |Lines(text)| :: !IndentedFence(Lines(text), i)
    ensures Minified(Minified(text)) == Minified(text)
  {
    hide Minified, Lines, IndentedFence, TrimEnd, Even, Settled, Fenced, FencedNext, IsFence;
    var ls := Lines(text);
    IdempotentExactly(text);
    forall i | 0 <= i < |ls| ensures !Exposed(ls, i) {
      SameFences(ls, i);
    }
  }

  /** An indented marker that loses its indentation, a fence, and a line the fence protected only once. */
  const UNSTABLE: seq<string> := [" ```", "```", "  a"]

  lemma CollapsedMarker()
    ensures Collapse(" ```") == FENCE
  {
    var l := " ```";
    assert Collapsed(l, 1) == "";
    assert Collapsed(l, 2) == "`";
    assert Collapsed(l, 3) == "``";
  }

  lemma NotFence(l: string)
    requires l == "" || l[0] != '`'
    ensures !IsFence(l)
  {
    assert FENCE[0] == '`';
  }

  lemma FenceIsFence()
    ensures IsFence(FENCE)
  {
  }

  lemma UnstableExposes()
    ensures Exposed(UNSTABLE, 2) && !Settled(UNSTABLE, 2) && Inked(UNSTABLE, 3) == 3
  {
    CollapsedMarker();
    TrimmedByLast(" ```");
    TrimmedByLast("```");
    TrimmedByLast("  a");
    NotFence(" ```");
    NotFence("  a");
    FenceIsFence();
    hide Collapse, TrimEnd, IsFence;
    assert !Fenced(UNSTABLE, 0) && !Fenced(UNSTABLE, 1) && Fenced(UNSTABLE, 2);
    assert IndentedFence(UNSTABLE, 0) && FencedNext(UNSTABLE, 1) && !FencedNext(UNSTABLE, 2);
  }

  /** Without the condition the second minification can go on changing the text. */
  lemma NotAlwaysIdempotent()
    ensures Minified(Minified(Join(UNSTABLE, 3))) != Minified(Join(UNSTABLE, 3))
  {
    LinesOfJoin(UNSTABLE);
    UnstableExposes();
    hide Minified, Lines, Join, Exposed, Settled, Inked;
    IdempotentExactly(Join(UNSTABLE, 3));
  }
}
