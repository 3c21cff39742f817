/** DocumentationIndexer::prepareFtsQuery: the compiler from a free-form
    search string to an FTS5 MATCH expression. */
module FtsQuery {
  import opened PhpStrings

  /** A word the compiler keeps: strlen($word) > 2. */
  predicate IsLongWord(w: string) {
    ByteLength(w) > 2
  }

  /** The words of byte length above two, in input order. */
  function LongWords(words: seq<string>): (ws: seq<string>)
    ensures forall k :: 0 <= k < |ws| ==> IsLongWord(ws[k]) && ws[k] in words
    ensures forall k :: 0 <= k < |words| && IsLongWord(words[k]) ==> words[k] in ws
    ensures |ws| <= |words|
    decreases |words|
  {
    if |words| == 0 then []
    else
      var rest := LongWords(words[1..]);
      assert forall k :: 1 <= k < |words| ==> words[k] == words[1..][k - 1];
      (if IsLongWord(words[0]) then [words[0]] else []) + rest
  }

  /** ws is words[pos[0]], words[pos[1]], ... for strictly increasing
      positions pos. */
  predicate SelectsAt(ws: seq<string>, words: seq<string>, pos: seq<nat>) {
    && |pos| == |ws|
    && (forall j :: 0 <= j < |pos| ==> pos[j] < |words| && ws[j] == words[pos[j]])
    && (forall i, j :: 0 <= i < j < |pos| ==> pos[i] < pos[j])
  }

  /** Every position of words that holds a long word is in pos. */
  predicate CoversLongWords(words: seq<string>, pos: seq<nat>) {
    forall m :: 0 <= m < |words| && IsLongWord(words[m]) ==> m in pos
  }

  /** LongWords is the order-preserving selection of the long words: its
      entries sit at strictly increasing positions of the input, and every
      position holding a long word is one of them, so each long word is kept
      as often as it occurs. */
  lemma {:induction false} LongWordsPositions(words: seq<string>) returns (pos: seq<nat>)
    ensures SelectsAt(LongWords(words), words, pos)
    ensures CoversLongWords(words, pos)
    decreases |words|
  {
    if |words| == 0 {
      pos := [];
    } else {
      var w, tail := words[0], words[1..];
      var rest := LongWordsPositions(tail);
      var wt := LongWords(tail);
      assert LongWords(words) == (if IsLongWord(w) then [w] else []) + wt;
      assert words == [w] + tail;
      pos := SelectionCons(w, tail, wt, rest);
    }
  }

  /** The induction step of LongWordsPositions: the first word is kept when
      it is long, and the positions of the tail move up by one. */
  lemma SelectionCons(w: string, tail: seq<string>, wt: seq<string>, rest: seq<nat>) returns (pos: seq<nat>)
    requires SelectsAt(wt, tail, rest) && CoversLongWords(tail, rest)
    ensures SelectsAt((if IsLongWord(w) then [w] else []) + wt, [w] + tail, pos)
    ensures CoversLongWords([w] + tail, pos)
  {
    var shifted := Shifted(w, tail, wt, rest);
    if IsLongWord(w) {
      pos := KeepHead(w, tail, wt, shifted);
    } else {
      pos := shifted;
      assert [] + wt == wt;
    }
  }

  /** A long first word is kept at position 0, ahead of the shifted tail. */
  lemma KeepHead(w: string, tail: seq<string>, wt: seq<string>, shifted: seq<nat>) returns (pos: seq<nat>)
    requires IsLongWord(w)
    requires SelectsAt(wt, [w] + tail, shifted)
    requires forall j :: 0 <= j < |shifted| ==> shifted[j] > 0
    requires forall m :: 1 <= m < |tail| + 1 && IsLongWord(([w] + tail)[m]) ==> m in shifted
    ensures SelectsAt([w] + wt, [w] + tail, pos)
    ensures CoversLongWords([w] + tail, pos)
  {
    pos := [0] + shifted;
    var words := [w] + tail;
    var ws := [w] + wt;
    forall j | 0 <= j < |pos| ensures pos[j] < |words| && ws[j] == words[pos[j]] {
      if j > 0 {
        assert pos[j] == shifted[j - 1] && ws[j] == wt[j - 1];
      }
    }
    forall i, j | 0 <= i < j < |pos| ensures pos[i] < pos[j] {
      assert pos[j] == shifted[j - 1];
      if i > 0 {
        assert pos[i] == shifted[i - 1];
      }
    }
    forall m | 0 <= m < |words| && IsLongWord(words[m]) ensures m in pos {
      if m > 0 {
        assert m in shifted;
      }
    }
  }

  /** The tail's positions, moved up by one, select the same words from
      [w] + tail and cover the tail's long words there. */
  lemma Shifted(w: string, tail: seq<string>, wt: seq<string>, rest: seq<nat>) returns (shifted: seq<nat>)
    requires SelectsAt(wt, tail, rest) && CoversLongWords(tail, rest)
    ensures SelectsAt(wt, [w] + tail, shifted)
    ensures forall j :: 0 <= j < |shifted| ==> shifted[j] > 0
    ensures forall m :: 1 <= m < |tail| + 1 && IsLongWord(([w] + tail)[m]) ==> m in shifted
  {
    var words := [w] + tail;
    shifted := seq(|rest|, j requires 0 <= j < |rest| => rest[j] + 1);
    forall j | 0 <= j < |shifted| ensures shifted[j] < |words| && wt[j] == words[shifted[j]] {
      assert words[rest[j] + 1] == tail[rest[j]];
    }
    forall m | 1 <= m < |tail| + 1 && IsLongWord(words[m]) ensures m in shifted {
      assert tail[m - 1] == words[m];
      var j :| 0 <= j < |rest| && rest[j] == m - 1;
      assert shifted[j] == m;
    }
  }

  /** Each word with the FTS5 prefix marker `*` appended. */
  function Starred(ws: seq<string>): (ts: seq<string>)
    ensures |ts| == |ws|
    ensures forall k :: 0 <= k < |ts| ==> ts[k] == ws[k] + "*"
    decreases |ws|
  {
    if |ws| == 0 then [] else [ws[0] + "*"] + Starred(ws[1..])
  }

  /** The words the compiled expression searches for. */
  function SearchWords(query: string): seq<string> {
    LongWords(SplitOnWhitespace(Trim(query)))
  }

  /** prepareFtsQuery($query). preg_split cannot fail on this pattern, so
      its `false` branch is not modelled. */
  function PrepareFtsQuery(query: string): (r: string)
    ensures '"' in Trim(query) ==> r == Trim(query)
    ensures '"' !in Trim(query) ==> (r == "" <==> SearchWords(query) == [])
    ensures '"' !in Trim(query) ==> '"' !in r
    ensures '"' !in Trim(query) && SearchWords(query) != [] ==>
      OrPieces(SplitOnWhitespace(r), Starred(SearchWords(query))) && SingleSpaces(Separators(r))
  {
    var q := Trim(query);
    if '"' in q then q
    else
      var ts := Starred(SearchWords(query));
      TermsAreClean(query);
      JoinOfCleanTerms(ts);
      if |ts| > 0 then
        JoinOrSplits(ts);
        JoinOrSpaces(ts);
        Join(ts, " OR ")
      else
        Join(ts, " OR ")
  }

  /** The pieces of `t0 OR t1 OR ... OR tn` split at whitespace: the terms
      at even positions and the keyword OR at odd ones. */
  predicate OrPieces(ps: seq<string>, ts: seq<string>) {
    && |ps| == 2 * |ts| - 1
    && (forall k :: 0 <= k < |ps| && k % 2 == 0 ==> ps[k] == ts[k / 2])
    && (forall k :: 0 <= k < |ps| && k % 2 == 1 ==> ps[k] == "OR")
  }

  /** Every separator is a single space. */
  predicate SingleSpaces(seps: seq<string>) {
    forall k :: 0 <= k < |seps| ==> seps[k] == " "
  }

  /** A term: non-empty, no whitespace, no double quote. */
  predicate IsCleanTerm(t: string) {
    |t| > 0 && NoWhitespace(t) && '"' !in t
  }

  /** The kept words are pieces of the split input, so each starred word is
      a clean term when the input has no quote. */
  lemma TermsAreClean(query: string)
    requires '"' !in Trim(query)
    ensures forall k :: 0 <= k < |Starred(SearchWords(query))| ==> IsCleanTerm(Starred(SearchWords(query))[k])
  {
    var q := Trim(query);
    var ws := SearchWords(query);
    var ts := Starred(ws);
    var pieces := SplitOnWhitespace(q);
    forall k | 0 <= k < |ts| ensures IsCleanTerm(ts[k]) {
      var m :| 0 <= m < |pieces| && pieces[m] == ws[k];
      assert CharsWithin(pieces[m], q);
      assert NoWhitespace(ws[k]);
      assert forall i :: 0 <= i < |ts[k]| ==> ts[k][i] == (if i < |ws[k]| then ws[k][i] else '*');
    }
  }

  lemma {:induction false} JoinOfCleanTerms(ts: seq<string>)
    requires forall k :: 0 <= k < |ts| ==> IsCleanTerm(ts[k])
    ensures '"' !in Join(ts, " OR ")
    ensures Join(ts, " OR ") == "" <==> |ts| == 0
    decreases |ts|
  {
    if |ts| > 1 {
      JoinOfCleanTerms(ts[1..]);
      assert Join(ts, " OR ") == ts[0] + " OR " + Join(ts[1..], " OR ");
    }
  }

  /* ---------------- reading a compiled expression back ---------------- */

  /** The pieces at even positions: the terms of `t0 OR t1 OR ...`. */
  function EvenPieces(ps: seq<string>): seq<string>
    decreases |ps|
  {
    if |ps| == 0 then []
    else if |ps| == 1 then [ps[0]]
    else [ps[0]] + EvenPieces(ps[2..])
  }

  /** A term without its trailing prefix marker. */
  function Unstar(t: string): string {
    if |t| > 0 && t[|t| - 1] == '*' then t[..|t| - 1] else t
  }

  function UnstarAll(ts: seq<string>): (ws: seq<string>)
    ensures |ws| == |ts|
    decreases |ts|
  {
    if |ts| == 0 then [] else [Unstar(ts[0])] + UnstarAll(ts[1..])
  }

  /** The words an `OR` expression searches for, recovered from its text. */
  function OrExpressionWords(r: string): seq<string> {
    if r == "" then [] else UnstarAll(EvenPieces(SplitOnWhitespace(r)))
  }

  lemma OrSpelling(t0: string, rest: string)
    ensures t0 + " OR " + rest == t0 + " " + ("OR" + " " + rest)
  {
    assert " OR " == " " + "OR" + " ";
  }

  /** One step of the split: a term, the word OR, then the rest. */
  lemma SplitOrStep(t0: string, rest: string)
    requires NoWhitespace(t0)
    requires |rest| > 0 && !IsWhitespace(rest[0])
    ensures SplitOnWhitespace(t0 + " OR " + rest) == [t0, "OR"] + SplitOnWhitespace(rest)
  {
    var tail := "OR" + " " + rest;
    OrSpelling(t0, rest);
    assert NoWhitespace("OR");
    SplitAfterWord("OR", rest);
    var after := SplitOnWhitespace(tail);
    assert after == ["OR"] + SplitOnWhitespace(rest);
    assert tail[0] == 'O';
    SplitAfterWord(t0, tail);
    assert SplitOnWhitespace(t0 + " " + tail) == [t0] + after;
    assert [t0] + after == [t0, "OR"] + SplitOnWhitespace(rest);
  }

  /** The two separators around OR are single spaces. */
  lemma SeparatorsOrStep(t0: string, rest: string)
    requires NoWhitespace(t0)
    requires |rest| > 0 && !IsWhitespace(rest[0])
    ensures Separators(t0 + " OR " + rest) == [" ", " "] + Separators(rest)
  {
    var tail := "OR" + " " + rest;
    OrSpelling(t0, rest);
    assert NoWhitespace("OR");
    SeparatorsAfterWord("OR", rest);
    assert Separators(tail) == [" "] + Separators(rest);
    assert tail[0] == 'O';
    SeparatorsAfterWord(t0, tail);
    assert Separators(t0 + " " + tail) == [" "] + Separators(tail);
  }

  /** The compiled OR expression splits into term, "OR", term, ..., and
      every separator is one space. */
  lemma {:induction false} JoinOrSplits(ts: seq<string>)
    requires |ts| >= 1
    requires forall k :: 0 <= k < |ts| ==> |ts[k]| > 0 && NoWhitespace(ts[k])
    ensures EvenPieces(SplitOnWhitespace(Join(ts, " OR "))) == ts
    ensures OrPieces(SplitOnWhitespace(Join(ts, " OR ")), ts)
    decreases |ts|
  {
    if |ts| == 1 {
      SplitWord(ts[0]);
    } else {
      var rest := Join(ts[1..], " OR ");
      JoinOrSplits(ts[1..]);
      assert rest[..|ts[1]|] == ts[1];
      assert rest[0] == ts[1][0];
      SplitOrStep(ts[0], rest);
      var ps := SplitOnWhitespace(Join(ts, " OR "));
      assert ps == [ts[0], "OR"] + SplitOnWhitespace(rest);
      assert ps[2..] == SplitOnWhitespace(rest);
      OrPiecesCons(ts[0], SplitOnWhitespace(rest), ts[1..]);
      assert ts == [ts[0]] + ts[1..];
    }
  }

  /** Every separator of the compiled OR expression is one space. */
  lemma {:induction false} JoinOrSpaces(ts: seq<string>)
    requires |ts| >= 1
    requires forall k :: 0 <= k < |ts| ==> |ts[k]| > 0 && NoWhitespace(ts[k])
    ensures SingleSpaces(Separators(Join(ts, " OR ")))
    decreases |ts|
  {
    if |ts| == 1 {
      SplitWord(ts[0]);
    } else {
      var rest := Join(ts[1..], " OR ");
      JoinOrSpaces(ts[1..]);
      assert rest[..|ts[1]|] == ts[1];
      assert rest[0] == ts[1][0];
      SeparatorsOrStep(ts[0], rest);
    }
  }

  lemma OrPiecesCons(t: string, ps: seq<string>, ts: seq<string>)
    requires OrPieces(ps, ts)
    ensures OrPieces([t, "OR"] + ps, [t] + ts)
  {
    var p2 := [t, "OR"] + ps;
    var t2 := [t] + ts;
    assert forall k :: 2 <= k < |p2| ==> p2[k] == ps[k - 2];
    assert forall k :: 2 <= k < |p2| && k % 2 == 0 ==> t2[k / 2] == ts[(k - 2) / 2];
  }

  lemma OrPiecesTail(ps: seq<string>, ts: seq<string>)
    requires OrPieces(ps, ts) && |ts| >= 2
    ensures ps[0] == ts[0] && ps[1] == "OR"
    ensures OrPieces(ps[2..], ts[1..])
  {
    var p2 := ps[2..];
    assert forall k :: 0 <= k < |p2| ==> p2[k] == ps[k + 2];
    assert forall k :: 0 <= k < |p2| && k % 2 == 0 ==> ts[1..][k / 2] == ts[(k + 2) / 2];
  }

  /** Putting single spaces back between OR pieces gives the join. */
  lemma {:induction false} InterleaveOrPieces(ps: seq<string>, seps: seq<string>, ts: seq<string>)
    requires OrPieces(ps, ts) && |seps| + 1 == |ps| && SingleSpaces(seps)
    ensures Interleave(ps, seps) == Join(ts, " OR ")
    decreases |ts|
  {
    if |ts| >= 2 {
      OrPiecesTail(ps, ts);
      assert SingleSpaces(seps[2..]) by {
        assert forall k :: 0 <= k < |seps| - 2 ==> seps[2..][k] == seps[k + 2];
      }
      InterleaveOrPieces(ps[2..], seps[2..], ts[1..]);
      var x := Interleave(ps[2..], seps[2..]);
      assert ps[1..][1..] == ps[2..] && seps[1..][1..] == seps[2..];
      assert Interleave(ps, seps) == ps[0] + " " + ("OR" + " " + x);
      OrSpelling(ts[0], x);
    }
  }

  /** The shape PrepareFtsQuery promises determines its result: a string
      that splits into the starred long words separated by OR, with single
      spaces, is the compiled expression. */
  lemma OrShapeDetermines(query: string, r: string)
    requires '"' !in Trim(query) && SearchWords(query) != []
    requires OrPieces(SplitOnWhitespace(r), Starred(SearchWords(query)))
    requires SingleSpaces(Separators(r))
    ensures r == PrepareFtsQuery(query)
  {
    SplitReassembles(r);
    InterleaveOrPieces(SplitOnWhitespace(r), Separators(r), Starred(SearchWords(query)));
  }

  lemma {:induction false} UnstarStarred(ws: seq<string>)
    ensures UnstarAll(Starred(ws)) == ws
    decreases |ws|
  {
    if |ws| > 0 {
      UnstarStarred(ws[1..]);
      assert (ws[0] + "*")[..|ws[0]|] == ws[0];
    }
  }

  /** Round trip: reading the compiled expression back yields exactly the
      words of byte length above two, in input order, so the term count is
      the number of such words. */
  lemma CompiledWordsRoundTrip(query: string)
    requires '"' !in Trim(query)
    ensures OrExpressionWords(PrepareFtsQuery(query)) == SearchWords(query)
    ensures |OrExpressionWords(PrepareFtsQuery(query))| == |SearchWords(query)|
  {
    var ws := SearchWords(query);
    UnstarStarred(ws);
    if |ws| > 0 {
      TermsAreClean(query);
      JoinOrSplits(Starred(ws));
    }
  }

  /** A blank query compiles to the empty expression instead of failing. */
  lemma BlankQueryCompilesToEmpty(query: string)
    requires AllTrimChars(query)
    ensures PrepareFtsQuery(query) == ""
  {
    assert Trim(query) == "";
    assert SplitOnWhitespace("") == [""];
  }

  /** For ASCII words the byte-length rule is a character count. */
  lemma AsciiWordIsLongIffThreeChars(w: string)
    requires forall k :: 0 <= k < |w| ==> w[k] as int < 0x80
    ensures IsLongWord(w) <==> |w| >= 3
  {
    AsciiByteLength(w);
  }
}
