/** What the token estimator charges for which characters: texts of one kind, and texts put together. These laws fix the
    estimate of every text. */
module TokenCosts {
  import opened Wrappers
  import opened TokenEstimate

  // ---------- kinds of characters ----------

  predicate Letter(alphabetic: Alphabet, c: char) {
    alphabetic(c) || c == '_'
  }

  predicate Numeral(alphabetic: Alphabet, c: char) {
    !Letter(alphabetic, c) && c in "0123456789"
  }

  predicate Blank(alphabetic: Alphabet, c: char) {
    !Letter(alphabetic, c) && c in " \t"
  }

  predicate LineEnd(alphabetic: Alphabet, c: char) {
    !Letter(alphabetic, c) && c == '\n'
  }

  predicate Mark(alphabetic: Alphabet, c: char) {
    !Letter(alphabetic, c) && c !in "0123456789 \t\n"
  }

  predicate Alike(alphabetic: Alphabet, c: char, d: char) {
    || (Letter(alphabetic, c) && Letter(alphabetic, d))
    || (Numeral(alphabetic, c) && Numeral(alphabetic, d))
    || (Blank(alphabetic, c) && Blank(alphabetic, d))
    || (LineEnd(alphabetic, c) && LineEnd(alphabetic, d))
    || (Mark(alphabetic, c) && Mark(alphabetic, d))
  }

  lemma KindsAreClasses(alphabetic: Alphabet, c: char)
    ensures Letter(alphabetic, c) <==> ClassOf(alphabetic, c) == RunClass.Alpha
    ensures Numeral(alphabetic, c) <==> ClassOf(alphabetic, c) == Digit
    ensures Blank(alphabetic, c) <==> ClassOf(alphabetic, c) == Space
    ensures LineEnd(alphabetic, c) <==> ClassOf(alphabetic, c) == Newline
    ensures Mark(alphabetic, c) <==> ClassOf(alphabetic, c) == Punct
  {
  }

  lemma AlikeMeansSameClass(alphabetic: Alphabet, c: char, d: char)
    ensures Alike(alphabetic, c, d) <==> ClassOf(alphabetic, c) == ClassOf(alphabetic, d)
  {
    KindsAreClasses(alphabetic, c);
    KindsAreClasses(alphabetic, d);
    hide ClassOf, Letter, Numeral, Blank, LineEnd, Mark;
  }

  // ---------- runs of one kind ----------

  lemma {:induction false} OneRun(alphabetic: Alphabet, s: string, cls: RunClass, n: nat)
    requires 1 <= n <= |s| && forall i | 0 <= i < n :: ClassOf(alphabetic, s[i]) == cls
    ensures RunsOf(alphabetic, s, n) == [Run(cls, n)]
  {
    hide ClassOf;
    if n > 1 {
      OneRun(alphabetic, s, cls, n - 1);
    } else {
      assert RunsOf(alphabetic, s, 0) == [];
    }
  }

  lemma UniformCost(alphabetic: Alphabet, s: string, cls: RunClass)
    requires s != "" && forall c | c in s :: ClassOf(alphabetic, c) == cls
    ensures Estimate(alphabetic, s) == RunCost(cls, |s|, None)
  {
    hide ClassOf, RunCost;
    OneRun(alphabetic, s, cls, |s|);
    CostOfOne(Run(cls, |s|));
  }

  /** `k` is the least number of groups of `size` that hold `n`. */
  predicate LeastGroups(n: nat, size: nat, k: nat) {
    size * (k - 1) < n <= size * k
  }

  /** What a text of one kind costs: letters and underscores a token for each seven begun, digits for each three, marks
      for each two, line ends one each, and blanks at the end one for each eight. */
  lemma UniformTextCosts(alphabetic: Alphabet, s: string)
    requires s != ""
    ensures (forall c | c in s :: Letter(alphabetic, c)) ==> LeastGroups(|s|, 7, Estimate(alphabetic, s))
    ensures (forall c | c in s :: Numeral(alphabetic, c)) ==> LeastGroups(|s|, 3, Estimate(alphabetic, s))
    ensures (forall c | c in s :: Mark(alphabetic, c)) ==> LeastGroups(|s|, 2, Estimate(alphabetic, s))
    ensures (forall c | c in s :: LineEnd(alphabetic, c)) ==> Estimate(alphabetic, s) == |s|
    ensures (forall c | c in s :: Blank(alphabetic, c)) ==> LeastGroups(|s|, 8, Estimate(alphabetic, s))
    ensures Estimate(alphabetic, "") == 0
  {
    hide ClassOf, Letter, Numeral, Blank, LineEnd, Mark, Estimate, LeastGroups, RunCost;
    NoCost(alphabetic);
    GroupsOfRuns(|s|);
    if forall c | c in s :: Letter(alphabetic, c) {
      forall c | c in s ensures ClassOf(alphabetic, c) == RunClass.Alpha {
        KindsAreClasses(alphabetic, c);
      }
      UniformCost(alphabetic, s, RunClass.Alpha);
    }
    if forall c | c in s :: Numeral(alphabetic, c) {
      forall c | c in s ensures ClassOf(alphabetic, c) == Digit {
        KindsAreClasses(alphabetic, c);
      }
      UniformCost(alphabetic, s, Digit);
    }
    if forall c | c in s :: Mark(alphabetic, c) {
      forall c | c in s ensures ClassOf(alphabetic, c) == Punct {
        KindsAreClasses(alphabetic, c);
      }
      UniformCost(alphabetic, s, Punct);
    }
    if forall c | c in s :: LineEnd(alphabetic, c) {
      forall c | c in s ensures ClassOf(alphabetic, c) == Newline {
        KindsAreClasses(alphabetic, c);
      }
      UniformCost(alphabetic, s, Newline);
    }
    if forall c | c in s :: Blank(alphabetic, c) {
      forall c | c in s ensures ClassOf(alphabetic, c) == Space {
        KindsAreClasses(alphabetic, c);
      }
      UniformCost(alphabetic, s, Space);
    }
  }

  lemma GroupsOfRuns(n: pos)
    ensures LeastGroups(n, 7, RunCost(RunClass.Alpha, n, None)) && LeastGroups(n, 3, RunCost(Digit, n, None))
    ensures LeastGroups(n, 2, RunCost(Punct, n, None)) && LeastGroups(n, 8, RunCost(Space, n, None))
    ensures RunCost(Newline, n, None) == n
  {
  }

  lemma NoCost(alphabetic: Alphabet)
    ensures Estimate(alphabetic, "") == 0
  {
    assert RunsOf(alphabetic, "", 0) == [];
  }

  // ---------- texts put together ----------

  lemma {:induction false} EndRuns(alphabetic: Alphabet, s: string, n: nat)
    requires 1 <= n <= |s|
    ensures var runs := RunsOf(alphabetic, s, n);
            runs != [] && runs[0].cls == ClassOf(alphabetic, s[0])
            && runs[|runs| - 1].cls == ClassOf(alphabetic, s[n - 1])
  {
    hide ClassOf;
    if n > 1 {
      EndRuns(alphabetic, s, n - 1);
    } else {
      assert RunsOf(alphabetic, s, 0) == [];
    }
  }

  /** At a seam of different classes the runs stay apart, and only the last one before it looks across. */
  lemma SeamCosts(alphabetic: Alphabet, a: string, b: string)
    requires a != "" && b != "" && ClassOf(alphabetic, a[|a| - 1]) != ClassOf(alphabetic, b[0])
    ensures var x := RunsOf(alphabetic, a, |a|);
            x != [] && x[|x| - 1].cls == ClassOf(alphabetic, a[|a| - 1])
            && var last := x[|x| - 1];
               Estimate(alphabetic, a + b) + RunCost(last.cls, last.len, None)
               == Estimate(alphabetic, a) + RunCost(last.cls, last.len, Some(ClassOf(alphabetic, b[0])))
                  + Estimate(alphabetic, b)
  {
    hide ClassOf, RunCost, CostFrom, RunsOf;
    RunsOfConcat(alphabetic, a, b, |b|);
    EndRuns(alphabetic, a, |a|);
    EndRuns(alphabetic, b, |b|);
    CostConcat(RunsOf(alphabetic, a, |a|), RunsOf(alphabetic, b, |b|), 0);
  }

  /** Where the kinds at the seam differ, and it is no blank before a letter or digit, the costs add up. */
  lemma CostsAddUp(alphabetic: Alphabet, a: string, b: string)
    requires a != "" && b != "" && !Alike(alphabetic, a[|a| - 1], b[0])
    requires Blank(alphabetic, a[|a| - 1]) ==> !Letter(alphabetic, b[0]) && !Numeral(alphabetic, b[0])
    ensures Estimate(alphabetic, a + b) == Estimate(alphabetic, a) + Estimate(alphabetic, b)
  {
    AlikeMeansSameClass(alphabetic, a[|a| - 1], b[0]);
    KindsAreClasses(alphabetic, a[|a| - 1]);
    KindsAreClasses(alphabetic, b[0]);
    SeamCosts(alphabetic, a, b);
    hide ClassOf, Letter, Numeral, Blank, LineEnd, Mark, Estimate, RunsOf, Alike;
  }

  /** Before a letter or digit one blank is free, and the others cost a token for each eight begun. */
  lemma BlanksBeforeWord(alphabetic: Alphabet, blanks: string, b: string)
    requires blanks != "" && (forall c | c in blanks :: Blank(alphabetic, c))
    requires b != "" && (Letter(alphabetic, b[0]) || Numeral(alphabetic, b[0]))
    ensures var k := Estimate(alphabetic, blanks + b) - Estimate(alphabetic, b);
            k >= 0 && 8 * (k - 1) < |blanks| - 1 <= 8 * k
  {
    forall i | 0 <= i < |blanks| ensures ClassOf(alphabetic, blanks[i]) == Space {
      assert blanks[i] in blanks;
      KindsAreClasses(alphabetic, blanks[i]);
    }
    KindsAreClasses(alphabetic, b[0]);
    hide ClassOf, Letter, Numeral, Blank, LineEnd, Mark;
    assert forall c | c in blanks :: exists i | 0 <= i < |blanks| :: blanks[i] == c;
    OneRun(alphabetic, blanks, Space, |blanks|);
    UniformCost(alphabetic, blanks, Space);
    SeamCosts(alphabetic, blanks, b);
    hide Estimate, RunsOf;
  }
}
