/** The PHP string primitives the indexer and the MCP server rely on: trim(),
    empty() on strings, strlen(), preg_split('/\s+/') and implode().

    Strings are Dafny strings (sequences of Unicode scalar values). PHP works
    on the UTF-8 bytes; every separator used here is ASCII, and an ASCII byte
    never occurs inside a multi-byte UTF-8 sequence, so splitting and trimming
    by character gives the same pieces. Only strlen() differs, and ByteLength
    measures the UTF-8 encoding explicitly. */
module PhpStrings {

  /* ---------------- trim() ---------------- */

  /** A character trim() strips with its default list: space, tab, line feed,
      carriage return, NUL and vertical tab (form feed is NOT in the list). */
  predicate IsTrimChar(c: char) {
    c == ' ' || c == '\t' || c == '\n' || c == '\r' || c == '\0' || c == '\U{000B}'
  }

  predicate AllTrimChars(s: string) {
    forall k :: 0 <= k < |s| ==> IsTrimChar(s[k])
  }

  /** Index of the first character at or after i that trim() keeps. */
  function SkipLeading(s: string, i: nat): (k: nat)
    requires i <= |s|
    ensures i <= k <= |s|
    ensures forall m :: i <= m < k ==> IsTrimChar(s[m])
    ensures k < |s| ==> !IsTrimChar(s[k])
    decreases |s| - i
  {
    if i < |s| && IsTrimChar(s[i]) then SkipLeading(s, i + 1) else i
  }

  /** End (exclusive) of the text between lo and hi once trailing trim
      characters are dropped. */
  function SkipTrailing(s: string, lo: nat, hi: nat): (k: nat)
    requires lo <= hi <= |s|
    ensures lo <= k <= hi
    ensures forall m :: k <= m < hi ==> IsTrimChar(s[m])
    ensures lo < k ==> !IsTrimChar(s[k - 1])
    decreases hi
  {
    if lo < hi && IsTrimChar(s[hi - 1]) then SkipTrailing(s, lo, hi - 1) else hi
  }

  /** PHP trim($s). */
  function Trim(s: string): (r: string)
    ensures |r| <= |s|
    ensures r == [] || (!IsTrimChar(r[0]) && !IsTrimChar(r[|r| - 1]))
    ensures r == [] <==> AllTrimChars(s)
  {
    var i := SkipLeading(s, 0);
    s[i..SkipTrailing(s, i, |s|)]
  }

  /** Nothing but trim characters is removed, and only from the two ends. */
  lemma TrimSplits(s: string) returns (pre: string, post: string)
    ensures s == pre + Trim(s) + post
    ensures AllTrimChars(pre) && AllTrimChars(post)
  {
    var i := SkipLeading(s, 0);
    var j := SkipTrailing(s, i, |s|);
    pre, post := s[..i], s[j..];
    assert s == s[..i] + s[i..j] + s[j..];
  }

  /** Any split of s into a trim-character prefix, a middle that neither
      starts nor ends with a trim character, and a trim-character suffix has
      Trim(s) as its middle: trim() is the unique such decomposition. */
  lemma TrimUnique(s: string, pre: string, mid: string, post: string)
    requires s == pre + mid + post
    requires AllTrimChars(pre) && AllTrimChars(post)
    requires mid == [] || (!IsTrimChar(mid[0]) && !IsTrimChar(mid[|mid| - 1]))
    ensures Trim(s) == mid
  {
    if mid == [] {
      assert forall k :: 0 <= k < |s| ==> IsTrimChar(s[k]) by {
        forall k | 0 <= k < |s| ensures IsTrimChar(s[k]) {
          if k < |pre| { assert s[k] == pre[k]; } else { assert s[k] == post[k - |pre|]; }
        }
      }
    } else {
      var i := SkipLeading(s, 0);
      assert s[|pre|] == mid[0];
      assert forall m :: 0 <= m < |pre| ==> s[m] == pre[m];
      assert i == |pre|;
      var e := |pre| + |mid|;
      var j := SkipTrailing(s, i, |s|);
      assert s[e - 1] == mid[|mid| - 1];
      assert forall m :: e <= m < |s| ==> s[m] == post[m - e];
      assert j == e;
      assert s[i..j] == mid;
    }
  }

  /** PHP empty() of a string: true exactly for "" and "0". */
  predicate IsEmptyString(s: string) {
    s == "" || s == "0"
  }

  /* ---------------- strlen() ---------------- */

  /** Number of bytes of the UTF-8 encoding of one scalar value. */
  function Utf8Width(c: char): nat {
    if c as int < 0x80 then 1
    else if c as int < 0x800 then 2
    else if c as int < 0x10000 then 3
    else 4
  }

  /** PHP strlen() of the UTF-8 encoding of s. */
  function ByteLength(s: string): (n: nat)
    ensures |s| <= n <= 4 * |s|
  {
    if |s| == 0 then 0 else Utf8Width(s[0]) + ByteLength(s[1..])
  }

  /** For ASCII text strlen() counts characters. */
  lemma {:induction false} AsciiByteLength(s: string)
    requires forall k :: 0 <= k < |s| ==> s[k] as int < 0x80
    ensures ByteLength(s) == |s|
  {
    if |s| > 0 {
      AsciiByteLength(s[1..]);
    }
  }

  /* ---------------- preg_split('/\s+/') ---------------- */

  /** The whitespace class shared by PCRE's \s (without the u modifier) and
      PHP's numeric-string prefix: space, tab, line feed, vertical tab, form
      feed and carriage return. */
  predicate IsWhitespace(c: char) {
    c == ' ' || c == '\t' || c == '\n' || c == '\U{000B}' || c == '\U{000C}' || c == '\r'
  }

  predicate NoWhitespace(s: string) {
    forall k :: 0 <= k < |s| ==> !IsWhitespace(s[k])
  }

  predicate AllWhitespace(s: string) {
    forall k :: 0 <= k < |s| ==> IsWhitespace(s[k])
  }

  /** Every character of p occurs in s. */
  predicate CharsWithin(p: string, s: string) {
    forall c :: c in p ==> c in s
  }

  /** First whitespace position at or after i, or |s|. */
  function WordEnd(s: string, i: nat): (k: nat)
    requires i <= |s|
    ensures i <= k <= |s|
    ensures forall m :: i <= m < k ==> !IsWhitespace(s[m])
    ensures k < |s| ==> IsWhitespace(s[k])
    decreases |s| - i
  {
    if i < |s| && !IsWhitespace(s[i]) then WordEnd(s, i + 1) else i
  }

  /** First non-whitespace position at or after i, or |s|. */
  function SpaceEnd(s: string, i: nat): (k: nat)
    requires i <= |s|
    ensures i <= k <= |s|
    ensures forall m :: i <= m < k ==> IsWhitespace(s[m])
    ensures k < |s| ==> !IsWhitespace(s[k])
    decreases |s| - i
  {
    if i < |s| && IsWhitespace(s[i]) then SpaceEnd(s, i + 1) else i
  }

  /** preg_split('/\s+/', s): the pieces between maximal whitespace runs. A
      leading or trailing run yields an empty first or last piece, and the
      empty string yields one empty piece. */
  function SplitOnWhitespace(s: string): (pieces: seq<string>)
    ensures |pieces| >= 1
    ensures forall k :: 0 <= k < |pieces| ==> NoWhitespace(pieces[k])
    ensures forall k :: 0 <= k < |pieces| ==> CharsWithin(pieces[k], s)
    decreases |s|
  {
    var i := WordEnd(s, 0);
    if i == |s| then [s]
    else
      var j := SpaceEnd(s, i);
      [s[..i]] + SplitOnWhitespace(s[j..])
  }

  /** pieces[0] + seps[0] + pieces[1] + ... + pieces[|pieces| - 1]. */
  function Interleave(pieces: seq<string>, seps: seq<string>): string
    requires |seps| + 1 == |pieces|
    decreases |seps|
  {
    if |seps| == 0 then pieces[0]
    else pieces[0] + seps[0] + Interleave(pieces[1..], seps[1..])
  }

  /** One step of the split: the first word, then the split of what
      follows the first whitespace run. */
  lemma SplitStep(s: string)
    requires WordEnd(s, 0) < |s|
    ensures SplitOnWhitespace(s) == [s[..WordEnd(s, 0)]] + SplitOnWhitespace(s[SpaceEnd(s, WordEnd(s, 0))..])
  {
  }

  lemma InterleaveCons(p: string, ps: seq<string>, sep: string, seps: seq<string>)
    requires |seps| + 1 == |ps|
    ensures Interleave([p] + ps, [sep] + seps) == p + sep + Interleave(ps, seps)
  {
    assert ([p] + ps)[1..] == ps;
    assert ([sep] + seps)[1..] == seps;
  }

  /** The whitespace runs preg_split() drops, in order: one between each
      pair of neighbouring pieces. */
  function Separators(s: string): (seps: seq<string>)
    ensures |seps| + 1 == |SplitOnWhitespace(s)|
    ensures forall k :: 0 <= k < |seps| ==> |seps[k]| > 0
    ensures forall k :: 0 <= k < |seps| ==> AllWhitespace(seps[k])
    decreases |s|
  {
    var i := WordEnd(s, 0);
    if i == |s| then []
    else
      var j := SpaceEnd(s, i);
      var sep := s[i..j];
      assert forall m :: 0 <= m < |sep| ==> sep[m] == s[i + m];
      [sep] + Separators(s[j..])
  }

  /** The split loses nothing: putting the pieces back between the
      whitespace runs that separated them gives the input again. */
  lemma {:induction false} SplitReassembles(s: string)
    ensures Interleave(SplitOnWhitespace(s), Separators(s)) == s
    decreases |s|
  {
    var i := WordEnd(s, 0);
    if i < |s| {
      var j := SpaceEnd(s, i);
      var head := s[..i];
      var tail := s[j..];
      var sep := s[i..j];
      SplitReassembles(tail);
      SplitStep(s);
      assert Separators(s) == [sep] + Separators(tail);
      InterleaveCons(head, SplitOnWhitespace(tail), sep, Separators(tail));
      assert Interleave(SplitOnWhitespace(s), Separators(s)) == head + sep + tail;
      assert s == head + sep + tail;
    }
  }

  /** A word without whitespace splits into itself, with no separator. */
  lemma SplitWord(t: string)
    requires NoWhitespace(t)
    ensures SplitOnWhitespace(t) == [t]
    ensures Separators(t) == []
  {
    assert WordEnd(t, 0) == |t|;
  }

  /** A word followed by one space splits off as the first piece. */
  lemma SplitAfterWord(t: string, rest: string)
    requires NoWhitespace(t)
    requires |rest| > 0 && !IsWhitespace(rest[0])
    ensures SplitOnWhitespace(t + " " + rest) == [t] + SplitOnWhitespace(rest)
  {
    var s := t + " " + rest;
    var i := WordEnd(s, 0);
    assert forall m :: 0 <= m < |t| ==> s[m] == t[m];
    assert s[|t|] == ' ';
    assert i == |t|;
    var j := SpaceEnd(s, i);
    assert s[|t| + 1] == rest[0];
    assert j == |t| + 1;
    assert s[..i] == t;
    assert s[j..] == rest;
  }

  /** The space after a word is the first separator. */
  lemma SeparatorsAfterWord(t: string, rest: string)
    requires NoWhitespace(t)
    requires |rest| > 0 && !IsWhitespace(rest[0])
    ensures Separators(t + " " + rest) == [" "] + Separators(rest)
  {
    var s := t + " " + rest;
    var i := WordEnd(s, 0);
    assert forall m :: 0 <= m < |t| ==> s[m] == t[m];
    assert s[|t|] == ' ';
    assert i == |t|;
    var j := SpaceEnd(s, i);
    assert s[|t| + 1] == rest[0];
    assert j == |t| + 1;
    assert s[i..j] == " ";
    assert s[j..] == rest;
  }

  /* ---------------- implode() ---------------- */

  /** implode(sep, parts). */
  function Join(parts: seq<string>, sep: string): (r: string)
    ensures |parts| > 0 ==> |r| >= |parts[0]|
    ensures |parts| > 0 ==> r[..|parts[0]|] == parts[0]
    decreases |parts|
  {
    if |parts| == 0 then ""
    else if |parts| == 1 then parts[0]
    else parts[0] + sep + Join(parts[1..], sep)
  }

  /** implode() puts exactly one copy of the separator between neighbouring
      parts: it is the reassembly of preg_split's pieces with every
      separator equal to sep. */
  lemma {:induction false} JoinIsInterleave(parts: seq<string>, sep: string)
    requires |parts| > 0
    ensures Join(parts, sep) == Interleave(parts, seq(|parts| - 1, _ => sep))
    decreases |parts|
  {
    if |parts| > 1 {
      JoinIsInterleave(parts[1..], sep);
      var seps := seq(|parts| - 1, _ => sep);
      assert seps[1..] == seq(|parts| - 2, _ => sep);
    }
  }
}
