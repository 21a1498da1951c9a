/** The description minifier read off the lines of the text: which lines stay, and what becomes of each. */
module MinifyLines {
  import opened TextLines
  import opened Minify
  import Flatten

  // ---------- splitting, trimming, joining ----------

  const WHITESPACE: string :=
    "\t\n\U{0b}\U{0c}\r \U{85}\U{a0}\U{1680}\U{2000}\U{2001}\U{2002}\U{2003}\U{2004}\U{2005}\U{2006}"
    + "\U{2007}\U{2008}\U{2009}\U{200a}\U{2028}\U{2029}\U{202f}\U{205f}\U{3000}"

  lemma WhitespaceIs(c: char)
    ensures IsWhitespace(c) <==> c in WHITESPACE
  {
  }

  predicate AllWhite(l: string) {
    forall i | 0 <= i < |l| :: IsWhitespace(l[i])
  }

  /** Trimming takes the whitespace at the end, all of it and nothing else. */
  lemma {:induction false} TrimsExactly(l: string, r: string)
    ensures r == TrimEnd(l) <==> r <= l && AllWhite(l[|r|..]) && (r == "" || !IsWhitespace(r[|r| - 1]))
    decreases |l|
  {
    hide IsWhitespace;
    if l != "" && IsWhitespace(l[|l| - 1]) {
      var front := l[..|l| - 1];
      if r <= l {
        if r == l {
          assert TrimEnd(front) <= front;
        } else {
          assert r <= front;
          assert l[|r|..] == front[|r|..] + [l[|l| - 1]];
          assert AllWhite(l[|r|..]) <==> AllWhite(front[|r|..]) by {
            assert forall i | 0 <= i < |front[|r|..]| :: l[|r|..][i] == front[|r|..][i];
          }
          TrimsExactly(front, r);
        }
      } else {
        assert TrimEnd(front) <= front;
      }
    } else if r <= l && r != l {
      assert l[|r|..][|l| - |r| - 1] == l[|l| - 1];
    }
  }

  /** A line ends at a newline, with the return before it if there is one; the rest at the end is a line if it is not
      empty. */
  lemma {:induction false} LinesMean(l: string, rest: string)
    requires '\n' !in l
    ensures Lines("") == [] && (l != "" ==> Lines(l) == [l])
    ensures Lines(l + "\n" + rest) == [if l != "" && l[|l| - 1] == '\r' then l[..|l| - 1] else l] + Lines(rest)
  {
    NewlineAfter(l, rest);
    hide NewlineAt;
    var s := l + "\n" + rest;
    assert s[..|l|] == l && s[|l| + 1..] == rest;
  }

  /** Joined lines have a newline between each two, and none at the end. */
  lemma {:induction false} JoinMeans(ls: seq<string>, l: string)
    ensures Join([], 0) == "" && Join([l], 1) == l
    ensures ls != [] ==> Join(ls + [l], |ls| + 1) == Join(ls, |ls|) + "\n" + l
  {
    JoinPrefix(ls, l, |ls|);
  }

  lemma {:induction false} JoinPrefix(ls: seq<string>, l: string, n: nat)
    requires n <= |ls|
    ensures Join(ls + [l], n) == Join(ls, n)
  {
    if n > 0 {
      JoinPrefix(ls, l, n - 1);
    }
  }

  // ---------- spaces in a line ----------

  predicate Blanks(s: string) {
    forall i | 0 <= i < |s| :: s[i] == ' ' || s[i] == '\t'
  }

  predicate Solid(s: string) {
    forall i | 0 <= i < |s| :: s[i] != ' ' && s[i] != '\t'
  }

  lemma {:induction false} CollapsesNothing(l: string, n: nat)
    requires n <= |l| && Solid(l)
    ensures Collapsed(l, n) == l[..n]
  {
    if n > 0 {
      CollapsesNothing(l, n - 1);
    }
  }

  lemma {:induction false} CollapsedPrefix(a: string, b: string, n: nat)
    requires n <= |a|
    ensures Collapsed(a + b, n) == Collapsed(a, n)
  {
    if n > 0 {
      CollapsedPrefix(a, b, n - 1);
    }
  }

  lemma {:induction false} CollapsesRun(a: string, run: string, b: string, n: nat)
    requires (a != "" ==> !IsBlank(a[|a| - 1])) && Blanks(run) && n <= |run|
    ensures Collapsed(a + run + b, |a| + n) == Collapse(a) + if a == "" || n == 0 then "" else " "
  {
    var l := a + run + b;
    if n == 0 {
      assert l == a + (run + b);
      CollapsedPrefix(a, run + b, |a|);
    } else {
      CollapsesRun(a, run, b, n - 1);
      CollapsedIsEven(a, |a|);
      assert l[|a| + n - 1] == run[n - 1];
      assert n >= 2 ==> l[|a| + n - 2] == run[n - 2];
      assert n == 1 && a != "" ==> l[|a| - 1] == a[|a| - 1];
    }
  }

  lemma {:induction false} CollapsesRest(front: string, b: string, n: nat)
    requires n <= |b| && (b != "" ==> !IsBlank(b[0]))
    ensures Collapsed(front + b, |front| + n) == Collapsed(front, |front|) + Collapsed(b, n)
  {
    var l := front + b;
    if n == 0 {
      CollapsedPrefix(front, b, |front|);
    } else {
      CollapsesRest(front, b, n - 1);
      CollapsedIsEven(b, n - 1);
      assert l[|front| + n - 1] == b[n - 1];
      assert n >= 2 ==> l[|front| + n - 2] == b[n - 2];
    }
  }

  /** A line without spaces and tabs stays as it is. Every run of them between words becomes one space, and one at the
      start of the line goes. */
  lemma {:induction false} CollapseMeans(a: string, run: string, b: string)
    requires Solid(a) && Blanks(run) && run != "" && (b != "" ==> b[0] != ' ' && b[0] != '\t')
    ensures Collapse(a) == a
    ensures Collapse(a + run + b) == (if a == "" then "" else a + " ") + Collapse(b)
  {
    CollapsesNothing(a, |a|);
    assert a[..|a|] == a;
    CollapsesRun(a, run, b, |run|);
    CollapsedPrefix(a + run, b, |a + run|);
    CollapsesRest(a + run, b, |b|);
  }

  // ---------- which lines stay ----------

  predicate Marker(l: string) {
    "```" <= l
  }

  function Markers(ls: seq<string>, n: nat): nat
    requires n <= |ls|
  {
    if n == 0 then 0 else Markers(ls, n - 1) + if Marker(ls[n - 1]) then 1 else 0
  }

  /** Outside fences: no marker, and as many fences closed as opened before it. */
  predicate Open(ls: seq<string>, i: nat)
    requires i < |ls|
  {
    !Marker(ls[i]) && Markers(ls, i) % 2 == 0
  }

  /** What becomes of line `i`. Markers and fenced lines are trimmed; outside fences lines are trimmed and their spaces
      collapsed, and a blank line after a blank line goes. */
  function Left(ls: seq<string>, i: nat): seq<string>
    requires i < |ls|
  {
    if !Open(ls, i) then [TrimEnd(ls[i])]
    else if !AllWhite(ls[i]) then [Collapse(TrimEnd(ls[i]))]
    else if i > 0 && Open(ls, i - 1) && AllWhite(ls[i - 1]) then []
    else [""]
  }

  function AllLeft(ls: seq<string>): (parts: seq<seq<string>>)
    ensures |parts| == |ls|
  {
    seq(|ls|, i requires 0 <= i < |ls| => Left(ls, i))
  }

  lemma {:induction false} InkStays(l: string, i: nat)
    requires i < |l| && !IsWhitespace(l[i])
    ensures i < |TrimEnd(l)|
    decreases |l|
  {
    if IsWhitespace(l[|l| - 1]) {
      InkStays(l[..|l| - 1], i);
    }
  }

  lemma {:induction false} TrimmedMarker(l: string)
    ensures IsFence(TrimEnd(l)) <==> Marker(l)
    ensures TrimEnd(l) == "" <==> AllWhite(l)
  {
    TrimsExactly(l, "");
    assert l[0..] == l;
    if Marker(l) {
      assert l[2] == "```"[2];
      InkStays(l, 2);
    }
    assert FENCE == "```";
  }

  /** What one line adds to the lines kept so far, and where it leaves the fences. */
  lemma {:induction false} StepIs(s: State, l: string)
    ensures var s', before := Advance(s, l), Texts(s.kept);
            && (s'.inFence <==> (s.inFence <==> !Marker(l)))
            && (s'.blanks > 0 <==> !Marker(l) && !s.inFence && AllWhite(l))
            && Texts(s'.kept)
               == (if Marker(l) || s.inFence then before + [TrimEnd(l)]
                   else if !AllWhite(l) then before + [Collapse(TrimEnd(l))]
                   else if s.blanks > 0 then before
                   else before + [""])
  {
    var t := TrimEnd(l);
    TrimmedMarker(l);
    TrimIsTrimmed(l);
    CollapseOfTrimmed(t);
    TextsAppend(s.kept, Kept(t, false));
    TextsAppend(s.kept, Kept(Collapse(t), true));
    TextsAppend(s.kept, Kept("", true));
    hide TrimEnd, Collapse, AllWhite, Marker, IsFence, Texts, Trimmed, Even;
  }

  lemma {:induction false} RunIs(ls: seq<string>, n: nat)
    requires n <= |ls|
    ensures var s := Run(ls, n);
            && (s.inFence <==> Markers(ls, n) % 2 == 1)
            && (s.blanks > 0 <==> n > 0 && Open(ls, n - 1) && AllWhite(ls[n - 1]))
            && Texts(s.kept) == Flatten.UpTo(AllLeft(ls), n)
  {
    hide TrimEnd, Collapse, AllWhite, Marker, IsFence, Texts, Advance;
    if n > 0 {
      RunIs(ls, n - 1);
      StepIs(Run(ls, n - 1), ls[n - 1]);
      LeftNext(ls, n - 1);
      hide Run, Left, AllLeft, Flatten.UpTo;
    } else {
      TextsOfNothing();
      hide Open, AllLeft;
    }
  }

  lemma {:induction false} LeftNext(ls: seq<string>, i: nat)
    requires i < |ls|
    ensures Flatten.UpTo(AllLeft(ls), i + 1) == Flatten.UpTo(AllLeft(ls), i) + Left(ls, i)
    ensures Left(ls, i)
            == if !Open(ls, i) then [TrimEnd(ls[i])]
               else if !AllWhite(ls[i]) then [Collapse(TrimEnd(ls[i]))]
               else if i > 0 && Open(ls, i - 1) && AllWhite(ls[i - 1]) then []
               else [""]
  {
    hide TrimEnd, Collapse, AllWhite, Open;
    assert AllLeft(ls)[i] == Left(ls, i);
  }

  /** The first `m` of the lines, with none but empty ones after them and no empty one at their end. */
  predicate Ends(all: seq<string>, m: nat) {
    m <= |all| && (m == 0 || all[m - 1] != "") && forall i | m <= i < |all| :: all[i] == ""
  }

  /** The result is the lines that stay, in order, without the empty ones at the end. */
  lemma {:induction false} MinifiedExactly(text: string)
    ensures var all := Flatten.Concat(AllLeft(Lines(text)));
            exists m: nat :: Ends(all, m) && Minified(text) == Join(all[..m], m)
  {
    var ls := Lines(text);
    RunIs(ls, |ls|);
    MinifiedIs(text);
    EndOfTexts(Run(ls, |ls|).kept);
    hide *;
    WholeIs(AllLeft(ls));
  }

  lemma {:induction false} WholeIs(parts: seq<seq<string>>)
    ensures Flatten.Concat(parts) == Flatten.UpTo(parts, |parts|)
  {
    hide Flatten.UpTo;
  }

  lemma {:induction false} MinifiedIs(text: string)
    ensures var kept := Run(Lines(text), |Lines(text)|).kept;
            var m := Last(kept, |kept|);
            Minified(text) == Join(Texts(kept[..m]), m)
  {
    hide Run, Lines, Join, Last;
  }

  lemma {:induction false} EndOfTexts(kept: seq<Kept>)
    ensures var m := Last(kept, |kept|);
            Ends(Texts(kept), m) && Texts(kept[..m]) == Texts(kept)[..m]
  {
    hide Last;
  }
}
