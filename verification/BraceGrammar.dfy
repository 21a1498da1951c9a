/** What the brace scanner takes for a balanced object, told by a grammar instead of by its automaton: a text is a row
    of bare bytes and quoted strings, and only bare braces count. */
module BraceGrammar {
  import opened Wrappers
  import opened Utf8
  import opened BraceScan
  import SortedJson

  /** Inside quotes, a byte that is neither quote nor backslash, or a backslash with whatever follows it. */
  datatype Piece = Char(b: byte) | Pair(b: byte)

  /** A byte outside quotes, or a whole quoted string. */
  datatype Lexeme = Bare(b: byte) | Quoted(pieces: seq<Piece>)

  predicate Proper(l: Lexeme) {
    match l
    case Bare(b) => b != 0x22
    case Quoted(ps) => ProperPieces(ps)
  }

  predicate ProperPieces(ps: seq<Piece>) {
    forall i | 0 <= i < |ps| :: ps[i].Char? ==> ps[i].b != 0x22 && ps[i].b != 0x5c
  }

  predicate AllProper(ls: seq<Lexeme>) {
    forall i | 0 <= i < |ls| :: Proper(ls[i])
  }

  function PieceBytes(ps: seq<Piece>): seq<byte> {
    if ps == [] then []
    else PieceBytes(ps[..|ps| - 1]) + match ps[|ps| - 1] case Char(b) => [b] case Pair(b) => [0x5c, b]
  }

  function LexemeBytes(l: Lexeme): seq<byte> {
    match l
    case Bare(b) => [b]
    case Quoted(ps) => [0x22] + PieceBytes(ps) + [0x22]
  }

  function TextBytes(ls: seq<Lexeme>): seq<byte> {
    if ls == [] then [] else TextBytes(ls[..|ls| - 1]) + LexemeBytes(ls[|ls| - 1])
  }

  /** How many more braces the lexemes open than close. */
  function Depth(ls: seq<Lexeme>): int {
    if ls == [] then 0
    else
      Depth(ls[..|ls| - 1])
      + if ls[|ls| - 1] == Bare(0x7b) then 1 else if ls[|ls| - 1] == Bare(0x7d) then -1 else 0
  }

  /** No closing brace of the row brings the depth to zero. */
  predicate NeverClosed(ls: seq<Lexeme>) {
    forall k | 0 <= k < |ls| && ls[k] == Bare(0x7d) :: Depth(ls[..k + 1]) != 0
  }

  // ---------- scanning a row of lexemes ----------

  lemma {:induction false} ScanOne(s: Scan, bs: seq<byte>, b: byte)
    ensures ScanTo(s, bs + [b], |bs| + 1) == Step(ScanTo(s, bs, |bs|), b)
  {
    ScanPrefix(s, bs, [b], |bs|);
    hide Step;
  }

  /** The scan is inside the string these pieces begin. */
  lemma {:induction false} ScanPieces(bs: seq<byte>, depth: int, ps: seq<Piece>)
    requires ProperPieces(ps) && ScanTo(START, bs, |bs|) == Scan(depth, Outside)
    ensures var all := bs + [0x22] + PieceBytes(ps); ScanTo(START, all, |all|) == Scan(depth, InString)
  {
    hide ScanTo;
    ScanOne(START, bs, 0x22);
    if ps == [] {
      assert bs + [0x22] + [] == bs + [0x22];
    } else {
      var front, last := ps[..|ps| - 1], ps[|ps| - 1];
      ScanPieces(bs, depth, front);
      var all := bs + [0x22] + PieceBytes(front);
      match last
      case Char(b) =>
        ScanOne(START, all, b);
        assert bs + [0x22] + PieceBytes(ps) == all + [b];
      case Pair(b) =>
        ScanOne(START, all, 0x5c);
        ScanOne(START, all + [0x5c], b);
        assert bs + [0x22] + PieceBytes(ps) == all + [0x5c] + [b];
    }
  }

  lemma {:induction false} ScanLexeme(bs: seq<byte>, depth: int, l: Lexeme)
    requires Proper(l) && ScanTo(START, bs, |bs|) == Scan(depth, Outside)
    ensures var all := bs + LexemeBytes(l);
            ScanTo(START, all, |all|)
            == Scan(depth + if l == Bare(0x7b) then 1 else if l == Bare(0x7d) then -1 else 0, Outside)
  {
    hide ScanTo, PieceBytes, ProperPieces;
    match l
    case Bare(b) => ScanOne(START, bs, b);
    case Quoted(ps) =>
      ScanPieces(bs, depth, ps);
      ScanOne(START, bs + [0x22] + PieceBytes(ps), 0x22);
      assert bs + LexemeBytes(l) == bs + [0x22] + PieceBytes(ps) + [0x22];
  }

  lemma {:induction false} ScanText(ls: seq<Lexeme>)
    requires AllProper(ls)
    ensures var bs := TextBytes(ls); ScanTo(START, bs, |bs|) == Scan(Depth(ls), Outside)
  {
    hide ScanTo, LexemeBytes, Proper;
    if ls == [] {
      ScanNothing();
    } else {
      ScanText(ls[..|ls| - 1]);
      ScanLexeme(TextBytes(ls[..|ls| - 1]), Depth(ls[..|ls| - 1]), ls[|ls| - 1]);
    }
  }

  lemma {:induction false} ScanNothing()
    ensures ScanTo(START, [], 0) == Scan(0, Outside)
  {
  }

  // ---------- every text is a row of lexemes, and maybe the beginning of a string ----------

  /** What has been read: whole lexemes, then nothing, or a string not yet closed, or one that ends in a backslash. */
  predicate Read(bs: seq<byte>, ls: seq<Lexeme>, ps: seq<Piece>, mode: Mode) {
    && AllProper(ls) && ProperPieces(ps)
    && bs == TextBytes(ls) + match mode
                             case Outside => []
                             case InString => [0x22] + PieceBytes(ps)
                             case Escaped => [0x22] + PieceBytes(ps) + [0x5c]
  }

  lemma {:induction false} PiecesMore(ps: seq<Piece>, p: Piece)
    ensures PieceBytes(ps + [p]) == PieceBytes(ps) + match p case Char(b) => [b] case Pair(b) => [0x5c, b]
  {
    assert (ps + [p])[..|ps|] == ps;
  }

  lemma {:induction false} LexemesMore(ls: seq<Lexeme>, l: Lexeme)
    ensures TextBytes(ls + [l]) == TextBytes(ls) + LexemeBytes(l)
    ensures Depth(ls + [l]) == Depth(ls) + if l == Bare(0x7b) then 1 else if l == Bare(0x7d) then -1 else 0
  {
    assert (ls + [l])[..|ls|] == ls;
    hide PieceBytes;
  }

  /** One more byte read. */
  lemma {:induction false} ReadMore(bs: seq<byte>, ls: seq<Lexeme>, ps: seq<Piece>, depth: int, mode: Mode, b: byte)
    returns (ls': seq<Lexeme>, ps': seq<Piece>)
    requires Read(bs, ls, ps, mode) && depth == Depth(ls)
    ensures var s := Step(Scan(depth, mode), b); Read(bs + [b], ls', ps', s.mode) && s.depth == Depth(ls')
  {
    hide Depth, TextBytes, PieceBytes;
    ls', ps' := ls, ps;
    match mode
    case Outside =>
      if b == 0x22 {
        ps' := [];
        NoPieces();
        assert bs + [b] == TextBytes(ls) + ([0x22] + PieceBytes([]));
      } else {
        ls' := ls + [Bare(b)];
        LexemesMore(ls, Bare(b));
      }
    case InString =>
      if b == 0x5c {
        assert bs + [b] == TextBytes(ls) + ([0x22] + PieceBytes(ps) + [0x5c]);
      } else if b == 0x22 {
        ls' := ls + [Quoted(ps)];
        LexemesMore(ls, Quoted(ps));
        assert bs + [b] == TextBytes(ls) + ([0x22] + PieceBytes(ps) + [0x22]);
      } else {
        ps' := ps + [Char(b)];
        PiecesMore(ps, Char(b));
        assert bs + [b] == TextBytes(ls) + ([0x22] + (PieceBytes(ps) + [b]));
      }
    case Escaped =>
      ps' := ps + [Pair(b)];
      PiecesMore(ps, Pair(b));
      assert bs + [b] == TextBytes(ls) + ([0x22] + (PieceBytes(ps) + [0x5c, b]));
  }

  lemma {:induction false} NoPieces()
    ensures PieceBytes([]) == []
  {
  }

  /** Reading the first `n` bytes. */
  lemma {:induction false} Readable(bs: seq<byte>, n: nat) returns (ls: seq<Lexeme>, ps: seq<Piece>)
    requires n <= |bs|
    ensures var s := ScanTo(START, bs, n); Read(bs[..n], ls, ps, s.mode) && s.depth == Depth(ls)
  {
    hide Read, Step, Depth;
    if n == 0 {
      ls, ps := [], [];
      NothingRead();
      assert bs[..0] == [];
    } else {
      ls, ps := Readable(bs, n - 1);
      var s := ScanTo(START, bs, n - 1);
      ls, ps := ReadMore(bs[..n - 1], ls, ps, s.depth, s.mode, bs[n - 1]);
      assert bs[..n] == bs[..n - 1] + [bs[n - 1]];
    }
  }

  lemma {:induction false} NothingRead()
    ensures Read([], [], [], Outside) && Depth([]) == 0
  {
  }

  // ---------- where a row of lexemes closes ----------

  lemma {:induction false} ClosesBefore(a: seq<byte>, b: seq<byte>, j: nat)
    requires j < |a|
    ensures Closes(a + b, j) <==> Closes(a, j)
  {
    ScanPrefix(START, a, b, j);
    ScanPrefix(START, a, b, j + 1);
    hide ScanTo;
  }

  /** No position inside a string is outside. */
  lemma {:induction false} PiecesInside(bs: seq<byte>, depth: int, ps: seq<Piece>, j: nat)
    requires ProperPieces(ps) && ScanTo(START, bs, |bs|) == Scan(depth, Outside)
    requires |bs| < j <= |bs| + 1 + |PieceBytes(ps)|
    ensures !ScanTo(START, bs + [0x22] + PieceBytes(ps), j).mode.Outside?
    decreases |ps|
  {
    hide ScanTo, PieceBytes;
    ScanPieces(bs, depth, ps);
    var all := bs + [0x22] + PieceBytes(ps);
    if j < |all| {
      if ps == [] {
        NoPieces();
        assert false;
      } else {
        var front, last := ps[..|ps| - 1], ps[|ps| - 1];
        assert ps == front + [last];
        PiecesMore(front, last);
        var before := bs + [0x22] + PieceBytes(front);
        ScanPieces(bs, depth, front);
        var more := match last case Char(b) => [b] case Pair(b) => [0x5c, b];
        assert all == before + more;
        ScanPrefix(START, before, more, |before|);
        if j <= |before| {
          PiecesInside(bs, depth, front, j);
          ScanPrefix(START, before, more, j);
        } else {
          ScanOne(START, before, 0x5c);
          assert all == before + [0x5c] + [last.b];
          ScanPrefix(START, before + [0x5c], [last.b], j);
        }
      }
    }
  }

  lemma {:induction false} QuotedNeverCloses(bs: seq<byte>, depth: int, ps: seq<Piece>, j: nat)
    requires ProperPieces(ps) && ScanTo(START, bs, |bs|) == Scan(depth, Outside)
    requires |bs| <= j < |bs + LexemeBytes(Quoted(ps))|
    ensures !Closes(bs + LexemeBytes(Quoted(ps)), j)
  {
    hide ScanTo, PieceBytes;
    var inner := bs + [0x22] + PieceBytes(ps);
    assert bs + LexemeBytes(Quoted(ps)) == inner + [0x22];
    if j > |bs| {
      PiecesInside(bs, depth, ps, j);
      ScanPrefix(START, inner, [0x22], j);
    }
  }

  /** A row of lexemes never closes exactly when no position of its text does. */
  lemma {:induction false} NeverClosedIs(ls: seq<Lexeme>)
    requires AllProper(ls)
    ensures NeverClosed(ls) <==> forall j | 0 <= j < |TextBytes(ls)| :: !Closes(TextBytes(ls), j)
  {
    if ls != [] {
      var front, last := ls[..|ls| - 1], ls[|ls| - 1];
      assert ls == front + [last] && Proper(last);
      NeverClosedIs(front);
      LexemesMore(front, last);
      NeverClosedMore(front, last);
      ScanText(front);
      var bs, text, depth := TextBytes(front), TextBytes(ls), Depth(front);
      hide TextBytes, NeverClosed, Depth, AllProper, Closes;
      forall j | 0 <= j < |bs| ensures Closes(text, j) <==> Closes(bs, j) {
        ClosesBefore(bs, LexemeBytes(last), j);
      }
      LastCloses(bs, depth, last);
    }
  }

  lemma {:induction false} NeverClosedMore(ls: seq<Lexeme>, l: Lexeme)
    ensures NeverClosed(ls + [l]) <==> NeverClosed(ls) && (l == Bare(0x7d) ==> Depth(ls) - 1 != 0)
  {
    var all := ls + [l];
    LexemesMore(ls, l);
    assert all[..|ls| + 1] == all;
    hide Depth;
    forall k | 0 <= k < |ls| ensures all[..k + 1] == ls[..k + 1] && all[k] == ls[k] {
    }
    if NeverClosed(all) {
      forall k | 0 <= k < |ls| && ls[k] == Bare(0x7d) ensures Depth(ls[..k + 1]) != 0 {
        assert all[k] == Bare(0x7d);
      }
      assert l == Bare(0x7d) ==> all[|ls|] == Bare(0x7d);
    }
  }

  /** In the last lexeme only a closing brace can close. */
  lemma {:induction false} LastCloses(bs: seq<byte>, depth: int, last: Lexeme)
    requires Proper(last) && ScanTo(START, bs, |bs|) == Scan(depth, Outside)
    ensures var text := bs + LexemeBytes(last);
            (exists j | |bs| <= j < |text| :: Closes(text, j)) <==> last == Bare(0x7d) && depth - 1 == 0
  {
    hide PieceBytes;
    match last
    case Bare(b) =>
      ScanOne(START, bs, b);
      ScanPrefix(START, bs, [b], |bs|);
      hide ScanTo;
      assert Closes(bs + [b], |bs|) <==> b == 0x7d && depth - 1 == 0;
    case Quoted(ps) =>
      hide ScanTo, Closes;
      forall j | |bs| <= j < |bs + LexemeBytes(last)| ensures !Closes(bs + LexemeBytes(last), j) {
        QuotedNeverCloses(bs, depth, ps, j);
      }
  }

  // ---------- the balanced end ----------

  /** These lexemes are the text before `e`, where the outermost brace is still open. */
  predicate StillOpen(bs: seq<byte>, e: nat, ls: seq<Lexeme>) {
    e <= |bs| && AllProper(ls) && TextBytes(ls) == bs[..e] && Depth(ls) == 1 && NeverClosed(ls)
  }

  lemma {:induction false} ClosesAfterLexemes(bs: seq<byte>, e: nat, ls: seq<Lexeme>)
    requires e < |bs| && AllProper(ls) && TextBytes(ls) == bs[..e]
    ensures Closes(bs, e) <==> bs[e] == 0x7d && Depth(ls) == 1
    ensures NeverClosed(ls) <==> forall j | 0 <= j < e :: !Closes(bs, j)
  {
    ScanText(ls);
    NeverClosedIs(ls);
    assert bs[..e] + bs[e..] == bs;
    ScanNext(bs, e);
    hide ScanTo, TextBytes, NeverClosed, Depth, AllProper;
    assert Closes(bs, e) <==> bs[e] == 0x7d && Depth(ls) == 1;
    hide Closes;
    forall j | 0 <= j < e ensures Closes(bs, j) <==> Closes(bs[..e], j) {
      ClosesBefore(bs[..e], bs[e..], j);
    }
  }

  lemma {:induction false} ScanNext(bs: seq<byte>, e: nat)
    requires e < |bs|
    ensures ScanTo(START, bs, e) == ScanTo(START, bs[..e], e)
    ensures ScanTo(START, bs, e + 1) == Step(ScanTo(START, bs, e), bs[e])
  {
    assert bs[..e] + bs[e..] == bs;
    ScanPrefix(START, bs[..e], bs[e..], e);
    hide Step;
  }

  /** A text has its balanced end at `e` exactly when it begins with an opening brace, has a closing one at `e`, and
      what is before is a row of bare bytes and quoted strings whose bare braces open one more than they close, none
      of them closing the outermost. */
  lemma {:induction false} BalancedEndExactly(bs: seq<byte>, e: nat)
    ensures BalancedEnd(bs) == Some(e)
            <==> e < |bs| && bs[0] == 0x7b && bs[e] == 0x7d && exists ls :: StillOpen(bs, e, ls)
  {
    hide Depth, NeverClosed, AllProper, TextBytes, ScanTo;
    if BalancedEnd(bs) == Some(e) {
      var ls, ps := Readable(bs, e);
      assert TextBytes(ls) + [] == TextBytes(ls);
      ClosesAfterLexemes(bs, e, ls);
      assert StillOpen(bs, e, ls);
    }
    if e < |bs| && bs[0] == 0x7b && bs[e] == 0x7d && exists ls :: StillOpen(bs, e, ls) {
      var ls :| StillOpen(bs, e, ls);
      ClosesAfterLexemes(bs, e, ls);
      FirstCloseIs(bs, 0, e);
    }
  }

  /** How a character of a printed string is escaped: the seven named ones, lower-case hexadecimal for the other control
      characters, and itself for all the rest. */
  lemma {:induction false} SerdeEscapesExactly(c: char)
    ensures c >= ' ' && c !in "\"\\" ==> SerdeEscape(c) == [c]
    ensures SerdeEscape('"') == "\\\"" && SerdeEscape('\\') == "\\\\" && SerdeEscape('\n') == "\\n"
            && SerdeEscape('\r') == "\\r" && SerdeEscape('\t') == "\\t" && SerdeEscape('\U{08}') == "\\b"
            && SerdeEscape('\U{0c}') == "\\f"
    ensures c < ' ' && c !in "\n\r\t\U{08}\U{0c}" ==> SerdeEscape(c) == "\\u" + SortedJson.LowerHex(c as int)
  {
    if c < ' ' {
      SortedJson.HexDigitsAre(0);
      SortedJson.HexDigitsAre(c as int / 0x10 % 16);
      SortedJson.HexDigitsAre(c as int % 16);
    }
  }

  /** What the parser makes of the candidates' bytes, candidate by candidate, where it makes anything of them. */
  lemma {:induction false} ResultsMean<T>(parse: seq<byte> -> Option<T>, bs: seq<byte>, spans: seq<Span>, span: Span)
    requires span.first <= span.last < |bs|
    ensures ParsedSpans(parse, bs, [], 0) == []
    ensures ParsedSpans(parse, bs, spans + [span], |spans| + 1)
            == ParsedSpans(parse, bs, spans, |spans|)
               + match parse(bs[span.first..span.last + 1]) case Some(x) => [x] case None => []
  {
    ParsedMore(parse, bs, spans, span);
  }
}
