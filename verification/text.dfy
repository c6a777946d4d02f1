/** The string operations the suggestion route applies to a model
    completion, written for JavaScript's semantics: the whitespace class
    `\s` (which `String.prototype.trim` also uses), `split(/\r?\n/)`,
    removal of `*`, `_` and `-`, and the email pattern `/\S+@\S+\.\S+/`. */
module Text {
  import opened Wrappers

  /** JavaScript's whitespace: the characters matched by `\s` and removed
      by `trim()` (WhiteSpace and LineTerminator of ECMA-262). */
  predicate IsSpace(c: char) {
    c == ' ' || c == '\t' || c == '\n' || c == '\r' || c == '\U{000B}' || c == '\U{000C}' ||
    c == '\U{00A0}' || c == '\U{1680}' || ('\U{2000}' <= c <= '\U{200A}') ||
    c == '\U{2028}' || c == '\U{2029}' || c == '\U{202F}' || c == '\U{205F}' ||
    c == '\U{3000}' || c == '\U{FEFF}'
  }

  /** The characters the regular-expression `.` does not match. */
  predicate IsLineTerminator(c: char) {
    c == '\n' || c == '\r' || c == '\U{2028}' || c == '\U{2029}'
  }

  /** No character of `s` is whitespace. */
  predicate NoSpace(s: string) {
    forall k :: 0 <= k < |s| ==> !IsSpace(s[k])
  }

  /** Every character of `s` is whitespace. */
  ghost predicate AllSpace(s: string) {
    forall k :: 0 <= k < |s| ==> IsSpace(s[k])
  }

  /** `s[i..i+|t|] == t` for some `i`. */
  ghost predicate IsInfix(t: string, s: string) {
    exists i :: InfixAt(t, s, i)
  }

  /** `t` occurs in `s` at index `i`. */
  ghost predicate InfixAt(t: string, s: string, i: int) {
    0 <= i <= |s| - |t| && s[i..i + |t|] == t
  }

  // ---------------------------------------------------------------- trim

  /** `s` with its leading whitespace removed (also the effect of a `\s*`
      at the start of a pattern). */
  function TrimStart(s: string): (r: string)
    ensures |r| <= |s| && r == s[|s| - |r|..]
    ensures forall k :: 0 <= k < |s| - |r| ==> IsSpace(s[k])
    ensures r == [] || !IsSpace(r[0])
  {
    if s != [] && IsSpace(s[0]) then TrimStart(s[1..]) else s
  }

  /** Trimming the start of the suffix of `s` from `i` drops only
      whitespace and leaves a suffix of `s`. */
  lemma TrimStartFrom(s: string, i: nat)
    requires i <= |s|
    ensures var r := TrimStart(s[i..]);
      |r| <= |s| - i && r == s[|s| - |r|..] &&
      AllSpace(s[i..|s| - |r|]) && (r == [] || !IsSpace(r[0]))
  {
    TrimStartFromSuffix(s, i);
    TrimStartFromDropsSpace(s, i);
  }

  lemma TrimStartFromSuffix(s: string, i: nat)
    requires i <= |s|
    ensures var r := TrimStart(s[i..]); |r| <= |s| - i && r == s[|s| - |r|..]
  {
    var t := s[i..];
    var r := TrimStart(t);
    assert t[|t| - |r|..] == s[|s| - |r|..];
  }

  lemma TrimStartFromDropsSpace(s: string, i: nat)
    requires i <= |s|
    ensures var r := TrimStart(s[i..]); AllSpace(s[i..|s| - |r|])
  {
    var t := s[i..];
    var r := TrimStart(t);
    var dropped := s[i..|s| - |r|];
    forall k | 0 <= k < |dropped|
      ensures IsSpace(dropped[k])
    {
      assert dropped[k] == t[k];
    }
  }

  /** `s` with its trailing whitespace removed. */
  function TrimEnd(s: string): (r: string)
    ensures |r| <= |s| && r == s[..|r|]
    ensures forall k :: |r| <= k < |s| ==> IsSpace(s[k])
    ensures r == [] || !IsSpace(r[|r| - 1])
  {
    if s != [] && IsSpace(s[|s| - 1]) then TrimEnd(s[..|s| - 1]) else s
  }

  /** `String.prototype.trim`: the result is the infix `s[a..a+|r|]` of `s`,
      everything cut away on either side is whitespace, and the result
      neither starts nor ends with whitespace. */
  function Trim(s: string): (r: string)
    ensures exists a :: TrimmedAt(s, r, a)
    ensures r == [] || (!IsSpace(r[0]) && !IsSpace(r[|r| - 1]))
  {
    var t := TrimStart(s);
    var r := TrimEnd(t);
    var a := |s| - |t|;
    TrimPieces(s, t, r);
    r
  }

  lemma TrimPieces(s: string, t: string, r: string)
    requires |t| <= |s| && t == s[|s| - |t|..]
    requires forall k :: 0 <= k < |s| - |t| ==> IsSpace(s[k])
    requires |r| <= |t| && r == t[..|r|]
    requires forall k :: |r| <= k < |t| ==> IsSpace(t[k])
    ensures TrimmedAt(s, r, |s| - |t|)
  {
    var a := |s| - |t|;
    assert s[a..a + |r|] == r;
    forall k | a + |r| <= k < |s|
      ensures IsSpace(s[k])
    {
      assert s[k] == t[k - a];
    }
  }

  /** `r` is `s[a..a+|r|]` and everything of `s` outside it is whitespace. */
  ghost predicate TrimmedAt(s: string, r: string, a: int) {
    InfixAt(r, s, a) &&
    (forall k :: 0 <= k < a ==> IsSpace(s[k])) &&
    (forall k :: a + |r| <= k < |s| ==> IsSpace(s[k]))
  }

  /** Trimming leaves a string that is already trimmed unchanged, and what it
      returns is trimmed: trimming is idempotent. */
  lemma {:induction false} TrimFixed(s: string)
    requires s == [] || (!IsSpace(s[0]) && !IsSpace(s[|s| - 1]))
    ensures Trim(s) == s
  {
  }

  lemma TrimIdempotent(s: string)
    ensures Trim(Trim(s)) == Trim(s)
  {
    TrimFixed(Trim(s));
  }

  // ------------------------------------------------ emphasis/bullet marks

  /** The characters of the class `[*_\-]`. */
  predicate IsMark(c: char) {
    c == '*' || c == '_' || c == '-'
  }

  /** `s.replace(/[*_\-]+/g, '')`: every `*`, `_` and `-` deleted, wherever it
      stands, and every other character kept, in order. */
  function DropMarks(s: string): (r: string)
    ensures forall k :: 0 <= k < |r| ==> !IsMark(r[k])
  {
    if s == [] then []
    else if IsMark(s[0]) then DropMarks(s[1..])
    else [s[0]] + DropMarks(s[1..])
  }

  /** Only the marks are deleted: every other character keeps its number of
      occurrences. */
  lemma {:induction false} DropMarksCounts(s: string)
    ensures forall c :: !IsMark(c) ==> multiset(DropMarks(s))[c] == multiset(s)[c]
    ensures forall c :: IsMark(c) ==> multiset(DropMarks(s))[c] == 0
  {
    if s != [] {
      DropMarksCounts(s[1..]);
      assert s == [s[0]] + s[1..];
      assert multiset(s) == multiset{s[0]} + multiset(s[1..]);
    }
  }

  /** The deletion is order-preserving: a string without marks is left as it
      is, and deleting distributes over concatenation. */
  lemma {:induction false} DropMarksAppend(a: string, b: string)
    ensures DropMarks(a + b) == DropMarks(a) + DropMarks(b)
  {
    if a == [] {
      assert a + b == b;
    } else {
      assert (a + b)[1..] == a[1..] + b;
      DropMarksAppend(a[1..], b);
    }
  }

  lemma {:induction false} DropMarksFixed(s: string)
    requires forall k :: 0 <= k < |s| ==> !IsMark(s[k])
    ensures DropMarks(s) == s
  {
    if s != [] {
      DropMarksFixed(s[1..]);
    }
  }

  // ------------------------------------------------------- line splitting

  /** The pieces of `s` between its `'\n'` characters. */
  function Segments(s: string): (r: seq<string>)
    ensures |r| >= 1
    ensures forall k :: 0 <= k < |r| ==> '\n' !in r[k]
  {
    if s == [] then [""]
    else if s[0] == '\n' then [""] + Segments(s[1..])
    else
      var rest := Segments(s[1..]);
      [[s[0]] + rest[0]] + rest[1..]
  }

  /** Joins pieces with `'\n'` between them. */
  function JoinLines(ps: seq<string>): string
    requires |ps| >= 1
  {
    if |ps| == 1 then ps[0] else ps[0] + "\n" + JoinLines(ps[1..])
  }

  /** Splitting on `'\n'` loses nothing: joining the pieces again gives back
      the text. */
  lemma {:induction false} SegmentsJoin(s: string)
    ensures JoinLines(Segments(s)) == s
  {
    if s == [] {
    } else if s[0] == '\n' {
      SegmentsJoin(s[1..]);
      assert s == "\n" + s[1..];
    } else {
      SegmentsJoin(s[1..]);
      var rest := Segments(s[1..]);
      if |rest| == 1 {
        assert s == [s[0]] + s[1..];
      } else {
        assert JoinLines(rest) == rest[0] + "\n" + JoinLines(rest[1..]);
        assert ([[s[0]] + rest[0]] + rest[1..])[1..] == rest[1..];
        assert s == [s[0]] + s[1..];
      }
    }
  }

  /** Conversely, pieces without `'\n'` are recovered exactly from their
      join. */
  lemma {:induction false} JoinSegments(ps: seq<string>)
    requires |ps| >= 1
    requires forall k :: 0 <= k < |ps| ==> '\n' !in ps[k]
    ensures Segments(JoinLines(ps)) == ps
  {
    if |ps| == 1 {
      SegmentsOfLine(ps[0], "", false);
      assert ps[0] + "" == ps[0];
    } else {
      JoinSegments(ps[1..]);
      assert ps[0] + "\n" + JoinLines(ps[1..]) == ps[0] + ("\n" + JoinLines(ps[1..]));
      SegmentsOfLine(ps[0], JoinLines(ps[1..]), true);
      assert [ps[0]] + ps[1..] == ps;
    }
  }

  /** The pieces of `a` followed by (`'\n'` and) `b`, where `a` holds no
      `'\n'`. */
  lemma {:induction false} SegmentsOfLine(a: string, b: string, newline: bool)
    requires '\n' !in a
    ensures newline ==> Segments(a + "\n" + b) == [a] + Segments(b)
    ensures !newline && b == "" ==> Segments(a + b) == [a]
  {
    if a == [] {
      assert a + "\n" + b == "\n" + b;
      assert a + b == b;
      assert ("\n" + b)[1..] == b;
    } else {
      SegmentsOfLine(a[1..], b, newline);
      assert (a + "\n" + b)[1..] == a[1..] + "\n" + b;
      assert (a + b)[1..] == a[1..] + b;
      assert [a[0]] + a[1..] == a;
    }
  }

  /** One `'\r'` at the end of a piece is dropped. */
  function DropCarriageReturn(s: string): (r: string)
    ensures r == s || (s == r + "\r")
    ensures (s != [] && s[|s| - 1] == '\r') <==> s == r + "\r"
  {
    if s != [] && s[|s| - 1] == '\r' then s[..|s| - 1] else s
  }

  /** `s.split(/\r?\n/)`: the separators are `"\n"` and `"\r\n"`, so the
      pieces are those between the `'\n'` characters, each with one `'\r'`
      before its `'\n'` removed; the last piece ends the text and keeps its
      characters. */
  function SplitLines(s: string): (r: seq<string>)
    ensures |r| == |Segments(s)|
    ensures forall k :: 0 <= k < |r| ==> '\n' !in r[k]
    ensures r[|r| - 1] == Segments(s)[|r| - 1]
    ensures forall k :: 0 <= k < |r| - 1 ==> r[k] == DropCarriageReturn(Segments(s)[k])
  {
    var segs := Segments(s);
    seq(|segs|, k requires 0 <= k < |segs| =>
      if k < |segs| - 1 then DropCarriageReturn(segs[k]) else segs[k])
  }
  /** Splitting undoes joining: lines without `'\n'`, none but the last
      ending in `'\r'`, come back unchanged from `split(/\r?\n/)`. */
  lemma SplitJoin(ps: seq<string>)
    requires |ps| >= 1
    requires forall k :: 0 <= k < |ps| ==> '\n' !in ps[k]
    requires forall k :: 0 <= k < |ps| - 1 ==> ps[k] == [] || ps[k][|ps[k]| - 1] != '\r'
    ensures SplitLines(JoinLines(ps)) == ps
  {
    JoinSegments(ps);
    var r := SplitLines(JoinLines(ps));
    forall k | 0 <= k < |ps|
      ensures r[k] == ps[k]
    {
      if k < |ps| - 1 {
        assert r[k] == DropCarriageReturn(ps[k]);
      }
    }
  }


  // ------------------------------------------------- the email pattern

  /** The regular expression `\S+@\S+\.\S+` matches exactly `s[i..j]`: a
      whitespace-free run with an `'@'` that has at least one character
      before it and a `'.'` that has at least one character on each side
      between the `'@'` and the end. */
  ghost predicate MatchSpan(s: string, i: int, j: int) {
    0 <= i < j <= |s| && (forall k :: i <= k < j ==> !IsSpace(s[k])) &&
    exists p, q :: i < p && p + 1 < q && q + 1 < j && s[p] == '@' && s[q] == '.'
  }

  /** `/\S+@\S+\.\S+/.test(s)`. */
  ghost predicate PatternTest(s: string) {
    exists i, j :: MatchSpan(s, i, j)
  }

  /** A whitespace-free token has the email shape: an `'@'` at an index
      `p >= 1` and a `'.'` at an index `q` with `p + 2 <= q <= |t| - 2`. */
  predicate EmailShaped(t: string) {
    exists p | 1 <= p < |t| :: t[p] == '@' &&
      exists q | p + 2 <= q <= |t| - 2 :: t[q] == '.'
  }

  /** The end of the whitespace-free run that starts at `i`. */
  function TokenEnd(s: string, i: nat): (e: nat)
    requires i <= |s|
    ensures i <= e <= |s|
    ensures forall k :: i <= k < e ==> !IsSpace(s[k])
    ensures e == |s| || IsSpace(s[e])
    decreases |s| - i
  {
    if i == |s| || IsSpace(s[i]) then i else TokenEnd(s, i + 1)
  }

  /** A span `s[start..end]`. */
  datatype Span = Span(start: nat, end: nat)

  /** The first email-shaped whitespace-delimited token of `s` at or after
      `i`, where `i` is at the start of a token or at whitespace. The result
      is the leftmost match of the pattern, and the longest at that start:
      no match of the pattern starts before it, and it runs to the next
      whitespace. */
  function FindEmail(s: string, i: nat): (r: Option<Span>)
    requires i <= |s| && (i == 0 || IsSpace(s[i - 1]))
    ensures r.Some? ==> i <= r.value.start < r.value.end <= |s|
    ensures r.Some? ==> EmailShaped(s[r.value.start..r.value.end])
    decreases |s| - i
  {
    if i == |s| then None
    else if IsSpace(s[i]) then FindEmail(s, i + 1)
    else
      var e := TokenEnd(s, i);
      if EmailShaped(s[i..e]) then Some(Span(i, e))
      else if e == |s| then None
      else FindEmail(s, e + 1)
  }

  /** What `FindEmail` finds is a whole whitespace-delimited token: it
      starts at the start of `s` or after whitespace, and it ends where
      that token ends. */
  lemma FindEmailToken(s: string, i: nat)
    requires i <= |s| && (i == 0 || IsSpace(s[i - 1]))
    ensures var r := FindEmail(s, i);
      r.Some? ==>
        r.value.end == TokenEnd(s, r.value.start) &&
        (r.value.start == 0 || IsSpace(s[r.value.start - 1]))
  {
    FindEmailTokenEnd(s, i);
    FindEmailTokenStart(s, i);
  }

  lemma {:induction false} FindEmailTokenEnd(s: string, i: nat)
    requires i <= |s| && (i == 0 || IsSpace(s[i - 1]))
    ensures FindEmail(s, i).Some? ==> FindEmail(s, i).value.end == TokenEnd(s, FindEmail(s, i).value.start)
    decreases |s| - i, 1
  {
    if i < |s| && !IsSpace(s[i]) {
      FindEmailTokenEndAtToken(s, i);
    } else if i < |s| {
      assert FindEmail(s, i) == FindEmail(s, i + 1);
      FindEmailTokenEnd(s, i + 1);
    }
  }

  /** The case of `FindEmailTokenEnd` where `i` starts a token. */
  lemma {:induction false} FindEmailTokenEndAtToken(s: string, i: nat)
    requires i < |s| && (i == 0 || IsSpace(s[i - 1])) && !IsSpace(s[i])
    ensures FindEmail(s, i).Some? ==> FindEmail(s, i).value.end == TokenEnd(s, FindEmail(s, i).value.start)
    decreases |s| - i, 0
  {
    var e := TokenEnd(s, i);
    if !EmailShaped(s[i..e]) && e < |s| {
      assert FindEmail(s, i) == FindEmail(s, e + 1);
      FindEmailTokenEnd(s, e + 1);
    }
  }


  /** What `FindEmail` finds is a match of the pattern ... */
  lemma {:induction false} FindEmailMatches(s: string, i: nat)
    requires i <= |s| && (i == 0 || IsSpace(s[i - 1]))
    ensures FindEmail(s, i).Some? ==> MatchSpan(s, FindEmail(s, i).value.start, FindEmail(s, i).value.end)
    decreases |s| - i, 1
  {
    if i < |s| && !IsSpace(s[i]) {
      FindEmailMatchesAtToken(s, i);
    } else if i < |s| {
      assert FindEmail(s, i) == FindEmail(s, i + 1);
      FindEmailMatches(s, i + 1);
    }
  }

  /** The case of `FindEmailMatches` where `i` starts a token. */
  lemma {:induction false} FindEmailMatchesAtToken(s: string, i: nat)
    requires i < |s| && (i == 0 || IsSpace(s[i - 1])) && !IsSpace(s[i])
    ensures FindEmail(s, i).Some? ==> MatchSpan(s, FindEmail(s, i).value.start, FindEmail(s, i).value.end)
    decreases |s| - i, 0
  {
    var e := TokenEnd(s, i);
    if EmailShaped(s[i..e]) {
      ShapedTokenMatches(s, i, e);
    } else if e < |s| {
      assert FindEmail(s, i) == FindEmail(s, e + 1);
      FindEmailMatches(s, e + 1);
    }
  }

  /** ... and no match starts before it; when nothing is found, no match
      starts at or after `i`. */
  lemma {:induction false} FindEmailFirst(s: string, i: nat)
    requires i <= |s| && (i == 0 || IsSpace(s[i - 1]))
    ensures FindEmail(s, i).Some? ==> NoMatchIn(s, i, FindEmail(s, i).value.start)
    ensures FindEmail(s, i).None? ==> NoMatchIn(s, i, |s|)
    decreases |s| - i, 1
  {
    if i == |s| {
    } else if IsSpace(s[i]) {
      FindEmailFirst(s, i + 1);
      SpaceStartsNoMatch(s, i);
    } else {
      FindEmailFirstAtToken(s, i);
    }
  }

  /** The case of `FindEmailFirst` where `i` starts a token. */
  lemma {:induction false} FindEmailFirstAtToken(s: string, i: nat)
    requires i < |s| && (i == 0 || IsSpace(s[i - 1])) && !IsSpace(s[i])
    ensures FindEmail(s, i).Some? ==> NoMatchIn(s, i, FindEmail(s, i).value.start)
    ensures FindEmail(s, i).None? ==> NoMatchIn(s, i, |s|)
    decreases |s| - i, 0
  {
    var e := TokenEnd(s, i);
    if !EmailShaped(s[i..e]) {
      MatchInsideToken(s, i, e);
      if e < |s| {
        FindEmailFirst(s, e + 1);
        SpaceStartsNoMatch(s, e);
        var r := FindEmail(s, e + 1);
        NoMatchJoin(s, i, e + 1, if r.Some? then r.value.start else |s|);
      }
    }
  }
  /** The first match starts at `i` or just after whitespace: a match
      preceded by a non-whitespace character extends one to the left. */
  lemma FindEmailTokenStart(s: string, i: nat)
    requires i <= |s| && (i == 0 || IsSpace(s[i - 1]))
    ensures var r := FindEmail(s, i);
      r.Some? ==> r.value.start == i || (i < r.value.start && IsSpace(s[r.value.start - 1]))
  {
    var r := FindEmail(s, i);
    if r.Some? && r.value.start > i {
      FindEmailMatches(s, i);
      FindEmailFirst(s, i);
      assert !MatchSpan(s, r.value.start - 1, r.value.end);
      SpaceBeforeMatch(s, r.value.start, r.value.end);
    }
  }

  /** A match that does not extend one to the left is preceded by
      whitespace. */
  lemma SpaceBeforeMatch(s: string, a: int, b: int)
    requires MatchSpan(s, a, b) && 0 < a && !MatchSpan(s, a - 1, b)
    ensures IsSpace(s[a - 1])
  {
  }


  /** No match of the pattern starts at an index in `[lo, hi)`. */
  ghost predicate NoMatchIn(s: string, lo: int, hi: int) {
    forall k, j :: lo <= k < hi ==> !MatchSpan(s, k, j)
  }

  lemma SpaceStartsNoMatch(s: string, i: nat)
    requires i < |s| && IsSpace(s[i])
    ensures forall hi :: NoMatchIn(s, i + 1, hi) ==> NoMatchIn(s, i, hi)
  {
  }

  lemma NoMatchJoin(s: string, lo: int, mid: int, hi: int)
    requires lo <= mid <= hi && NoMatchIn(s, lo, mid) && NoMatchIn(s, mid, hi)
    ensures NoMatchIn(s, lo, hi)
  {
  }

  lemma ShapedTokenMatches(s: string, i: nat, e: nat)
    requires i < e <= |s| && forall k :: i <= k < e ==> !IsSpace(s[k])
    requires EmailShaped(s[i..e])
    ensures MatchSpan(s, i, e)
  {
    var t := s[i..e];
    var p :| 1 <= p < |t| && t[p] == '@' && exists q | p + 2 <= q <= |t| - 2 :: t[q] == '.';
    var q :| p + 2 <= q <= |t| - 2 && t[q] == '.';
    assert s[i + p] == '@' && s[i + q] == '.';
  }

  /** A match of the pattern that starts inside a whitespace-free token
      cannot cross the whitespace that ends it, so it makes the token
      email-shaped. */
  lemma MatchInsideToken(s: string, i: nat, e: nat)
    requires i < e <= |s| && forall k :: i <= k < e ==> !IsSpace(s[k])
    requires e == |s| || IsSpace(s[e])
    ensures forall k, j :: i <= k < e && MatchSpan(s, k, j) ==> EmailShaped(s[i..e])
    ensures !EmailShaped(s[i..e]) ==> NoMatchIn(s, i, e)
  {
    forall k, j | i <= k < e && MatchSpan(s, k, j)
      ensures EmailShaped(s[i..e])
    {
      var p, q :| k < p && p + 1 < q && q + 1 < j && s[p] == '@' && s[q] == '.';
      var t := s[i..e];
      assert t[p - i] == '@' && t[q - i] == '.';
      assert 1 <= p - i < |t| && p - i + 2 <= q - i <= |t| - 2;
    }
  }

  /** `/\S+@\S+\.\S+/.test(line)`, computed. */
  predicate HasEmail(line: string)
  {
    FindEmail(line, 0).Some?
  }

  /** The computed test agrees with the pattern's meaning. */
  lemma HasEmailMeaning(line: string)
    ensures HasEmail(line) <==> PatternTest(line)
  {
    FindEmailMatches(line, 0);
    FindEmailFirst(line, 0);
    if FindEmail(line, 0).Some? {
      var sp := FindEmail(line, 0).value;
      assert MatchSpan(line, sp.start, sp.end);
    }
  }

  /** `line.match(/\S+@\S+\.\S+/)[0]` for a line that matches: the whole
      first email-shaped whitespace-delimited token. */
  function FirstEmail(line: string): (r: string)
    requires HasEmail(line)
    ensures r != [] && NoSpace(r) && EmailShaped(r)
    ensures IsInfix(r, line)
  {
    FindEmailMatches(line, 0);
    var sp := FindEmail(line, 0).value;
    var r := line[sp.start..sp.end];
    assert InfixAt(r, line, sp.start);
    r
  }

  /** `FirstEmail` is `match[0]`: at the position `a` where the search
      found it, it is a match of the pattern, no match starts before `a`,
      and no match starting at `a` is longer. */
  lemma FirstEmailLeftmostLongest(line: string)
    requires HasEmail(line)
    ensures var a, r := FindEmail(line, 0).value.start, FirstEmail(line);
      a + |r| <= |line| && line[a..a + |r|] == r && MatchSpan(line, a, a + |r|) &&
      NoMatchIn(line, 0, a) &&
      forall j :: a + |r| < j ==> !MatchSpan(line, a, j)
  {
    FindEmailMatches(line, 0);
    FindEmailFirst(line, 0);
    FindEmailTokenEnd(line, 0);
    var sp := FindEmail(line, 0).value;
    assert sp.end == |line| || IsSpace(line[sp.end]);
    forall j | sp.end < j
      ensures !MatchSpan(line, sp.start, j)
    {
      if j <= |line| {
        assert IsSpace(line[sp.end]);
      }
    }
  }

  /** A whitespace-free, email-shaped string is its own match: taking the
      match again returns it unchanged. */
  lemma {:induction false} EmailTokenMatchesItself(t: string)
    requires t != [] && NoSpace(t) && EmailShaped(t)
    ensures HasEmail(t) && FirstEmail(t) == t
  {
    assert TokenEnd(t, 0) == |t| by {
      TokenEndOfRun(t, 0);
    }
    assert t[0..|t|] == t;
  }

  lemma {:induction false} TokenEndOfRun(s: string, i: nat)
    requires i <= |s| && forall k :: i <= k < |s| ==> !IsSpace(s[k])
    ensures TokenEnd(s, i) == |s|
    decreases |s| - i
  {
    if i < |s| {
      TokenEndOfRun(s, i + 1);
    }
  }
}
