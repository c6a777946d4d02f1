/** The suggestion route's extractor: the text completion returned by the
    language model is split into lines, each line is cleaned, and an
    ordered scan over the cleaned lines fills three accumulators — the
    company name (`nombre`), its email address (`correo`) and the
    personalised paragraph (`parrafo`). */
module SuggestExtract {
  import opened Wrappers
  import opened Text

  // ------------------------------------------------------------ cleaning

  /** A line as it reaches the scan. */
  predicate IsCleanLine(l: string) {
    l != [] && '\n' !in l && !IsSpace(l[0]) && !IsSpace(l[|l| - 1]) &&
    forall k :: 0 <= k < |l| ==> !IsMark(l[k])
  }

  /** A line with its `*`, `_` and `-` characters deleted, then trimmed. */
  function CleanLine(l: string): (r: string)
    requires '\n' !in l
    ensures r == [] || IsCleanLine(r)
  {
    var d := DropMarks(l);
    DropMarksCounts(l);
    assert multiset(d)['\n'] == multiset(l)['\n'] == 0;
    TrimKeepsClean(d);
    Trim(d)
  }

  /** Trimming a string without marks or newlines gives one without them. */
  lemma TrimKeepsClean(d: string)
    requires forall k :: 0 <= k < |d| ==> !IsMark(d[k]) && d[k] != '\n'
    ensures forall k :: 0 <= k < |Trim(d)| ==> !IsMark(Trim(d)[k]) && Trim(d)[k] != '\n'
  {
    var r := Trim(d);
    var a :| TrimmedAt(d, r, a);
    assert forall k :: 0 <= k < |r| ==> r[k] == d[a + k];
  }

  /** `.map(clean)`: every line cleaned, in place. */
  function CleanEach(ls: seq<string>): (r: seq<string>)
    requires forall k :: 0 <= k < |ls| ==> '\n' !in ls[k]
    ensures |r| == |ls|
    ensures forall l :: l in r ==> l == [] || IsCleanLine(l)
  {
    seq(|ls|, k requires 0 <= k < |ls| => CleanLine(ls[k]))
  }

  /** `.filter(line => line)`: the non-empty strings, in order. */
  function NonEmpty(xs: seq<string>): (r: seq<string>)
    ensures |r| <= |xs|
    ensures forall x :: x in r ==> x in xs && x != []
  {
    if xs == [] then []
    else if xs[0] == [] then NonEmpty(xs[1..])
    else [xs[0]] + NonEmpty(xs[1..])
  }

  /** The cleaned lines, in order, with the empty ones filtered out. */
  function CleanAll(ls: seq<string>): (r: seq<string>)
    requires forall k :: 0 <= k < |ls| ==> '\n' !in ls[k]
    ensures |r| <= |ls|
    ensures forall l :: l in r ==> IsCleanLine(l)
  {
    NonEmpty(CleanEach(ls))
  }

  /** A line that is already clean is left as it is by the cleaning. */
  lemma CleanLineOfClean(l: string)
    requires IsCleanLine(l)
    ensures CleanLine(l) == l
  {
    DropMarksFixed(l);
    TrimFixed(l);
  }

  /** The positions holding `true`, in increasing order. */
  ghost function Positions(keep: seq<bool>): seq<nat> {
    if keep == [] then []
    else
      var m := |keep| - 1;
      Positions(keep[..m]) + (if keep[m] then [m] else [])
  }

  /** `Positions` holds every position holding `true`, only those, each
      once and in increasing order. */
  lemma {:induction false} PositionsMeaning(keep: seq<bool>)
    ensures var idx := Positions(keep);
      (forall i :: 0 <= i < |idx| ==> idx[i] < |keep| && keep[idx[i]]) &&
      (forall i, j :: 0 <= i < j < |idx| ==> idx[i] < idx[j]) &&
      (forall k :: 0 <= k < |keep| && keep[k] ==> k in idx)
    decreases |keep|
  {
    if keep != [] {
      var m := |keep| - 1;
      PositionsMeaning(keep[..m]);
    }
  }

  /** For each string, whether it is non-empty. */
  ghost function Filled(xs: seq<string>): (keep: seq<bool>)
    ensures |keep| == |xs|
  {
    seq(|xs|, k requires 0 <= k < |xs| => xs[k] != [])
  }

  lemma {:induction false} NonEmptyAppend(a: seq<string>, b: seq<string>)
    ensures NonEmpty(a + b) == NonEmpty(a) + NonEmpty(b)
    decreases |a|
  {
    if a != [] {
      assert (a + b)[1..] == a[1..] + b;
      NonEmptyAppend(a[1..], b);
    } else {
      assert a + b == b;
    }
  }

  /** The filter keeps exactly the non-empty strings, in their order: its
      `i`-th string is the one at the `i`-th non-empty position. */
  lemma {:induction false} NonEmptyMeaning(xs: seq<string>)
    ensures var idx := Positions(Filled(xs));
      |NonEmpty(xs)| == |idx| &&
      forall i :: 0 <= i < |idx| ==> idx[i] < |xs| && NonEmpty(xs)[i] == xs[idx[i]]
    decreases |xs|
  {
    PositionsMeaning(Filled(xs));
    if xs != [] {
      var m := |xs| - 1;
      assert xs == xs[..m] + [xs[m]];
      assert Filled(xs)[..m] == Filled(xs[..m]);
      NonEmptyMeaning(xs[..m]);
      NonEmptyAppend(xs[..m], [xs[m]]);
    }
  }

  /** The cleaning keeps the cleaned lines at the positions `Kept(ls)`,
      in their original order ... */
  lemma CleanAllMeaning(ls: seq<string>)
    requires forall k :: 0 <= k < |ls| ==> '\n' !in ls[k]
    ensures var idx := Kept(ls);
      |CleanAll(ls)| == |idx| &&
      (forall i :: 0 <= i < |idx| ==> idx[i] < |ls| && CleanAll(ls)[i] == CleanLine(ls[idx[i]])) &&
      (forall i, j :: 0 <= i < j < |idx| ==> idx[i] < idx[j])
  {
    var c := CleanEach(ls);
    NonEmptyMeaning(c);
    PositionsMeaning(Filled(c));
  }

  /** ... and those are exactly the lines whose cleaned text is not
      empty. */
  lemma CleanAllKeeps(ls: seq<string>)
    requires forall k :: 0 <= k < |ls| ==> '\n' !in ls[k]
    ensures forall k :: 0 <= k < |ls| ==> (k in Kept(ls) <==> CleanLine(ls[k]) != [])
  {
    var c := CleanEach(ls);
    PositionsMeaning(Filled(c));
    var idx := Kept(ls);
    assert idx == Positions(Filled(c));
    forall k | 0 <= k < |ls|
      ensures k in idx <==> CleanLine(ls[k]) != []
    {
      if k in idx {
        var i :| 0 <= i < |idx| && idx[i] == k;
        assert Filled(c)[k];
      } else {
        assert !Filled(c)[k];
      }
    }
  }

  /** The positions of the lines the cleaning keeps. */
  ghost function Kept(ls: seq<string>): seq<nat>
    requires forall k :: 0 <= k < |ls| ==> '\n' !in ls[k]
  {
    Positions(Filled(CleanEach(ls)))
  }

  /** A list without empty strings passes the filter unchanged. */
  lemma {:induction false} NonEmptyOfFilled(xs: seq<string>)
    requires forall k :: 0 <= k < |xs| ==> xs[k] != []
    ensures NonEmpty(xs) == xs
    decreases |xs|
  {
    if xs != [] {
      NonEmptyOfFilled(xs[1..]);
    }
  }

  /** Lines that are all clean pass the cleaning unchanged. */
  lemma CleanAllOfClean(ls: seq<string>)
    requires forall k :: 0 <= k < |ls| ==> IsCleanLine(ls[k])
    ensures (forall k :: 0 <= k < |ls| ==> '\n' !in ls[k]) && CleanAll(ls) == ls
  {
    forall k | 0 <= k < |ls|
      ensures CleanEach(ls)[k] == ls[k]
    {
      CleanLineOfClean(ls[k]);
    }
    assert CleanEach(ls) == ls;
    NonEmptyOfFilled(ls);
  }

  /** `raw.split(/\r?\n/).map(clean).filter(line => line)`. */
  function CleanLines(raw: string): (r: seq<string>)
    ensures forall k :: 0 <= k < |r| ==> IsCleanLine(r[k])
  {
    var r := CleanAll(SplitLines(raw));
    assert forall k :: 0 <= k < |r| ==> r[k] in r;
    r
  }

  // -------------------------------------------------------------- labels

  /** The case-insensitive comparison of the `i` flag for a pattern
      character `p`: ASCII letters match either case; no other character
      is folded onto an ASCII letter. */
  predicate SameIgnoringCase(c: char, p: char) {
    c == p ||
    ('a' <= p <= 'z' && c as int == p as int - 32) ||
    ('A' <= p <= 'Z' && c as int == p as int + 32)
  }

  predicate StartsIgnoringCase(s: string, prefix: string) {
    |prefix| <= |s| && forall k :: 0 <= k < |prefix| ==> SameIgnoringCase(s[k], prefix[k])
  }

  const NameLabel := "Nombre de la empresa:"

  /** Removes a leading `Nombre de la empresa:` label, in any letter case,
      and the whitespace after it. */
  function StripNameLabel(line: string): (r: string)
    ensures |r| <= |line| && r == line[|line| - |r|..]
    ensures StartsIgnoringCase(line, NameLabel) ==> |r| <= |line| - |NameLabel| && (r == [] || !IsSpace(r[0]))
    ensures StartsIgnoringCase(line, NameLabel) ==> AllSpace(line[|NameLabel|..|line| - |r|])
    ensures !StartsIgnoringCase(line, NameLabel) ==> r == line
  {
    if StartsIgnoringCase(line, NameLabel) then TrimStart(line[|NameLabel|..]) else line
  }

  /** The head `[Pp][áa]rrafo` of the paragraph label, under the `i` flag
      (`[áa]` then admits `a`, `A`, `á` and `Á`). */
  predicate ParagraphHead(s: string) {
    |s| >= 7 && (s[0] == 'P' || s[0] == 'p') &&
    (s[1] == 'a' || s[1] == 'A' || s[1] == 'á' || s[1] == 'Á') &&
    StartsIgnoringCase(s[2..], "rrafo")
  }

  /** Where the lazy `.*?:` that follows the head stops: the first `':'` at
      or after `i`, unless a line terminator (which `.` does not match) or
      the end of the line comes first. */
  function LabelColon(s: string, i: nat): (r: Option<nat>)
    requires i <= |s|
    ensures r.Some? ==> i <= r.value < |s| && s[r.value] == ':'
    ensures r.Some? ==> forall k :: i <= k < r.value ==> s[k] != ':' && !IsLineTerminator(s[k])
    ensures r.None? ==> forall k :: i <= k < |s| && s[k] == ':' ==> exists m :: i <= m < k && IsLineTerminator(s[m])
    decreases |s| - i
  {
    if i == |s| then None
    else if s[i] == ':' then Some(i)
    else if IsLineTerminator(s[i]) then None
    else LabelColon(s, i + 1)
  }

  /** Removes a leading paragraph label — the head `[Pp][áa]rrafo`, anything
      up to the first colon, the colon and the whitespace after it. */
  function StripParagraphLabel(line: string): string {
    if ParagraphHead(line) then
      match LabelColon(line, 7)
      case Some(c) => TrimStart(line[c + 1..])
      case None => line
    else line
  }

  /** The stripped line is a suffix of the line, and a line without the
      paragraph head, or with the head but no colon, is left as it is. */
  lemma StripParagraphLabelSuffix(line: string)
    ensures var r := StripParagraphLabel(line); |r| <= |line| && r == line[|line| - |r|..]
    ensures !ParagraphHead(line) ==> StripParagraphLabel(line) == line
    ensures ParagraphHead(line) && LabelColon(line, 7).None? ==> StripParagraphLabel(line) == line
  {
  }

  /** With the head and a first colon at `c`, exactly the text up to the
      colon and the whitespace after it are removed. */
  lemma StripParagraphLabelAfterColon(line: string)
    requires ParagraphHead(line) && LabelColon(line, 7).Some?
    ensures var c, r := LabelColon(line, 7).value, StripParagraphLabel(line);
      |r| <= |line| - (c + 1) && r == line[|line| - |r|..] &&
      AllSpace(line[c + 1..|line| - |r|]) && (r == [] || !IsSpace(r[0]))
  {
    StripParagraphLabelHead(line);
    TrimStartFrom(line, LabelColon(line, 7).value + 1);
  }

  lemma StripParagraphLabelHead(line: string)
    requires ParagraphHead(line)
    ensures StripParagraphLabel(line) ==
      match LabelColon(line, 7)
      case Some(c) => TrimStart(line[c + 1..])
      case None => line
  {
  }

  // ---------------------------------------------------------------- scan

  /** The three accumulators of the scan. */
  datatype Fields = Fields(nombre: string, correo: string, parrafo: string)

  /** One iteration of the scan over a cleaned line. */
  function Step(acc: Fields, line: string): Fields {
    if acc.nombre == "" && !HasEmail(line) then acc.(nombre := StripNameLabel(line))
    else if acc.correo == "" && HasEmail(line) then acc.(correo := FirstEmail(line))
    else acc.(parrafo := acc.parrafo + StripParagraphLabel(line) + " ")
  }

  /** The accumulators after scanning `lines` from the first to the last. */
  function Scan(lines: seq<string>): Fields {
    if lines == [] then Fields("", "", "")
    else Step(Scan(lines[..|lines| - 1]), lines[|lines| - 1])
  }

  // ---------------------------------------- what the scan means, declared

  /** A line that becomes the company name: not email-shaped, and not empty
      once its label is stripped. */
  predicate NamesCompany(line: string) {
    !HasEmail(line) && StripNameLabel(line) != ""
  }

  /** The name: the label-stripped first line that names a company. */
  function FirstName(lines: seq<string>): string {
    if lines == [] then ""
    else if NamesCompany(lines[0]) then StripNameLabel(lines[0])
    else FirstName(lines[1..])
  }

  /** The email: the first match on the first email-shaped line. */
  function FirstMail(lines: seq<string>): string {
    if lines == [] then ""
    else if HasEmail(lines[0]) then FirstEmail(lines[0])
    else FirstMail(lines[1..])
  }

  /** Line `i` goes to the paragraph: an email-shaped line after the first
      email-shaped one, or any other line after the line that named the
      company. */
  predicate InParagraph(lines: seq<string>, i: int)
    requires 0 <= i < |lines|
  {
    if HasEmail(lines[i]) then exists j :: 0 <= j < i && HasEmail(lines[j])
    else exists j :: 0 <= j < i && NamesCompany(lines[j])
  }

  /** The paragraph lines in order, each label-stripped and followed by one
      space. */
  function Paragraph(lines: seq<string>): string {
    if lines == [] then ""
    else
      var n := |lines| - 1;
      Paragraph(lines[..n]) + (if InParagraph(lines, n) then StripParagraphLabel(lines[n]) + " " else "")
  }

  lemma {:induction false} FirstNameFound(lines: seq<string>)
    ensures FirstName(lines) != "" <==> exists j :: 0 <= j < |lines| && NamesCompany(lines[j])
  {
    if lines != [] {
      FirstNameFound(lines[1..]);
      if !NamesCompany(lines[0]) {
        forall j | 0 <= j < |lines| && NamesCompany(lines[j])
          ensures exists j' :: 0 <= j' < |lines[1..]| && NamesCompany(lines[1..][j'])
        {
          assert lines[1..][j - 1] == lines[j];
        }
      }
    }
  }

  lemma {:induction false} FirstMailFound(lines: seq<string>)
    ensures FirstMail(lines) != "" <==> exists j :: 0 <= j < |lines| && HasEmail(lines[j])
  {
    if lines != [] {
      FirstMailFound(lines[1..]);
      if !HasEmail(lines[0]) {
        forall j | 0 <= j < |lines| && HasEmail(lines[j])
          ensures exists j' :: 0 <= j' < |lines[1..]| && HasEmail(lines[1..][j'])
        {
          assert lines[1..][j - 1] == lines[j];
        }
      }
    }
  }

  lemma {:induction false} FirstNameSnoc(lines: seq<string>, x: string)
    ensures FirstName(lines + [x]) ==
      if FirstName(lines) != "" then FirstName(lines)
      else if NamesCompany(x) then StripNameLabel(x) else ""
  {
    if lines == [] {
      assert [] + [x] == [x];
      assert [x][1..] == [];
    } else {
      assert (lines + [x])[0] == lines[0];
      assert (lines + [x])[1..] == lines[1..] + [x];
      FirstNameSnoc(lines[1..], x);
    }
  }

  lemma {:induction false} FirstMailSnoc(lines: seq<string>, x: string)
    ensures FirstMail(lines + [x]) ==
      if FirstMail(lines) != "" then FirstMail(lines)
      else if HasEmail(x) then FirstEmail(x) else ""
  {
    if lines == [] {
      assert [] + [x] == [x];
      assert [x][1..] == [];
    } else {
      assert (lines + [x])[0] == lines[0];
      assert (lines + [x])[1..] == lines[1..] + [x];
      FirstMailSnoc(lines[1..], x);
    }
  }

  /** Proof helper: scanning one more line is one more step. */
  lemma ScanSnoc(lines: seq<string>, x: string)
    ensures Scan(lines + [x]) == Step(Scan(lines), x)
  {
    assert (lines + [x])[..|lines|] == lines;
  }

  /** Proof helper: scanning one more line of a list is one more step. */
  lemma ScanPrefix(lines: seq<string>, i: nat, before: Fields, after: Fields)
    requires i < |lines| && before == Scan(lines[..i]) && after == Step(before, lines[i])
    ensures after == Scan(lines[..i + 1])
  {
    var prefix := lines[..i + 1];
    assert prefix[..i] == lines[..i] && prefix[i] == lines[i];
  }

  /** Whether the last line goes to the paragraph depends only on whether
      the earlier lines already set the accumulator that line would fill. */
  lemma InParagraphLast(init: seq<string>, x: string)
    ensures InParagraph(init + [x], |init|) ==
      if HasEmail(x) then FirstMail(init) != "" else FirstName(init) != ""
  {
    var lines := init + [x];
    FirstNameFound(init);
    FirstMailFound(init);
    assert forall j :: 0 <= j < |init| ==> lines[j] == init[j];
  }

  /** The accumulator scan computes the declared meaning: the name is that of
      the first line that names a company, the email the first match on the
      first email-shaped line, and the paragraph is made of exactly the
      paragraph lines, in order. */
  lemma ScanMeaning(lines: seq<string>)
    ensures Scan(lines).nombre == FirstName(lines)
    ensures Scan(lines).correo == FirstMail(lines)
    ensures Scan(lines).parrafo == Paragraph(lines)
  {
    ScanFirsts(lines);
    ScanParagraph(lines);
  }

  /** The name and email halves of `ScanMeaning`. */
  lemma {:induction false} ScanFirsts(lines: seq<string>)
    ensures Scan(lines).nombre == FirstName(lines)
    ensures Scan(lines).correo == FirstMail(lines)
  {
    if lines != [] {
      var n := |lines| - 1;
      var init, x := lines[..n], lines[n];
      assert lines == init + [x];
      ScanFirsts(init);
      ScanSnoc(init, x);
      FirstNameSnoc(init, x);
      FirstMailSnoc(init, x);
    }
  }

  /** The paragraph half of `ScanMeaning`. */
  lemma {:induction false} ScanParagraph(lines: seq<string>)
    ensures Scan(lines).parrafo == Paragraph(lines)
  {
    if lines != [] {
      var n := |lines| - 1;
      var init, x := lines[..n], lines[n];
      assert lines == init + [x];
      ScanParagraph(init);
      ScanFirsts(init);
      ScanSnoc(init, x);
      InParagraphLast(init, x);
      assert Paragraph(lines) == Paragraph(init) +
        (if InParagraph(lines, n) then StripParagraphLabel(x) + " " else "");
    }
  }

  // ---------------------------------------------------------- properties

  /** An email-shaped line never becomes the name, and a line that
      becomes the name is not email-shaped. */
  lemma {:induction false} NameNeverFromEmailLine(lines: seq<string>)
    ensures Scan(lines).nombre != "" ==>
      exists j :: 0 <= j < |lines| && !HasEmail(lines[j]) && Scan(lines).nombre == StripNameLabel(lines[j])
  {
    ScanMeaning(lines);
    NameComesFrom(lines);
  }

  lemma {:induction false} NameComesFrom(lines: seq<string>)
    ensures FirstName(lines) != "" ==>
      exists j :: 0 <= j < |lines| && NamesCompany(lines[j]) && FirstName(lines) == StripNameLabel(lines[j])
  {
    if lines != [] && !NamesCompany(lines[0]) {
      NameComesFrom(lines[1..]);
      if FirstName(lines) != "" {
        var j :| 0 <= j < |lines[1..]| && NamesCompany(lines[1..][j]) && FirstName(lines[1..]) == StripNameLabel(lines[1..][j]);
        assert lines[j + 1] == lines[1..][j];
      }
    }
  }

  /** Once the name is set it stays: scanning more lines never changes a
      non-empty name, and likewise for the email. */
  lemma {:induction false} ScanKeepsFirst(lines: seq<string>, more: seq<string>)
    ensures Scan(lines).nombre != "" ==> Scan(lines + more).nombre == Scan(lines).nombre
    ensures Scan(lines).correo != "" ==> Scan(lines + more).correo == Scan(lines).correo
    decreases |more|
  {
    if more == [] {
      assert lines + more == lines;
    } else {
      var m := |more| - 1;
      assert lines + more == (lines + more[..m]) + [more[m]];
      assert (lines + more)[..|lines + more| - 1] == lines + more[..m];
      ScanKeepsFirst(lines, more[..m]);
    }
  }

  /** A completion in the expected layout — a name line, an email line, then
      paragraph lines — yields that name, that email and the paragraph lines
      in order. */
  function JoinParagraph(ps: seq<string>): string {
    if ps == [] then "" else JoinParagraph(ps[..|ps| - 1]) + (StripParagraphLabel(ps[|ps| - 1]) + " ")
  }

  lemma ExpectedLayout(name: string, mail: string, ps: seq<string>)
    requires NamesCompany(name) && HasEmail(mail)
    ensures Scan([name, mail] + ps) == Fields(StripNameLabel(name), FirstEmail(mail), JoinParagraph(ps))
  {
    HeadLines(name, mail);
    assert FirstEmail(mail) != "";
    ParagraphAfter([name, mail], ps);
  }

  /** The same layout as raw model text: a name line, an email line and
      paragraph lines, each already clean, joined with `'\n'`, give exactly
      those parts — or no suggestion when the paragraph trims to nothing. */
  lemma RawLayout(name: string, mail: string, ps: seq<string>)
    requires IsCleanLine(name) && IsCleanLine(mail)
    requires forall k :: 0 <= k < |ps| ==> IsCleanLine(ps[k])
    requires NamesCompany(name) && HasEmail(mail)
    ensures Extract(JoinLines([name, mail] + ps)) ==
      if Trim(JoinParagraph(ps)) == "" then None
      else Some(Suggestion(StripNameLabel(name), FirstEmail(mail), Trim(JoinParagraph(ps))))
  {
    var lines := [name, mail] + ps;
    AllClean(name, mail, ps);
    CleanLinesOfJoin(lines);
    ExpectedLayout(name, mail, ps);
  }

  /** Proof helper: the layout's lines are all clean when its parts are. */
  lemma AllClean(name: string, mail: string, ps: seq<string>)
    requires IsCleanLine(name) && IsCleanLine(mail)
    requires forall k :: 0 <= k < |ps| ==> IsCleanLine(ps[k])
    ensures forall k :: 0 <= k < |[name, mail] + ps| ==> IsCleanLine(([name, mail] + ps)[k])
  {
    var lines := [name, mail] + ps;
    forall k | 2 <= k < |lines|
      ensures IsCleanLine(lines[k])
    {
      assert lines[k] == ps[k - 2];
    }
  }

  /** Clean lines joined with `'\n'` come back unchanged from the split and
      the cleaning. */
  lemma CleanLinesOfJoin(lines: seq<string>)
    requires |lines| >= 1
    requires forall k :: 0 <= k < |lines| ==> IsCleanLine(lines[k])
    ensures CleanLines(JoinLines(lines)) == lines
  {
    assert IsSpace('\r');
    SplitJoin(lines);
    CleanAllOfClean(lines);
  }

  /** Once the name and the email are set, every further line goes to the
      paragraph, label-stripped and followed by one space. */
  lemma {:induction false} ParagraphAfter(head: seq<string>, ps: seq<string>)
    requires Scan(head).nombre != "" && Scan(head).correo != ""
    ensures Scan(head + ps) == Scan(head).(parrafo := Scan(head).parrafo + JoinParagraph(ps))
    decreases |ps|
  {
    var acc := Scan(head);
    if ps == [] {
      assert head + ps == head;
      assert acc.parrafo + JoinParagraph(ps) == acc.parrafo;
    } else {
      var m := |ps| - 1;
      var p, j, t := acc.parrafo, JoinParagraph(ps[..m]), StripParagraphLabel(ps[m]) + " ";
      ParagraphAfter(head, ps[..m]);
      AppendParagraph(head + ps[..m], ps[m], acc.(parrafo := p + j));
      SnocAfter(head, ps);
      JoinParagraphSnoc(ps[..m], ps[m]);
      ConcatAssoc(p, j, t);
    }
  }

  lemma SnocAfter(head: seq<string>, ps: seq<string>)
    requires ps != []
    ensures head + ps == (head + ps[..|ps| - 1]) + [ps[|ps| - 1]]
    ensures ps == ps[..|ps| - 1] + [ps[|ps| - 1]]
  {
  }

  lemma ConcatAssoc(a: string, b: string, c: string)
    ensures (a + b) + c == a + (b + c)
  {
  }

  /** One more line once the name and the email are set: it is appended to
      the paragraph. */
  lemma AppendParagraph(lines: seq<string>, x: string, acc: Fields)
    requires Scan(lines) == acc && acc.nombre != "" && acc.correo != ""
    ensures Scan(lines + [x]) == acc.(parrafo := acc.parrafo + (StripParagraphLabel(x) + " "))
  {
    ScanSnoc(lines, x);
    StepAppends(acc, x);
  }

  lemma JoinParagraphSnoc(ps: seq<string>, x: string)
    ensures JoinParagraph(ps + [x]) == JoinParagraph(ps) + (StripParagraphLabel(x) + " ")
  {
    assert (ps + [x])[..|ps|] == ps;
  }

  /** With the name and the email set, a step appends to the paragraph. */
  lemma StepAppends(acc: Fields, x: string)
    requires acc.nombre != "" && acc.correo != ""
    ensures Step(acc, x) == acc.(parrafo := acc.parrafo + StripParagraphLabel(x) + " ")
  {
  }

  lemma HeadLines(name: string, mail: string)
    requires NamesCompany(name) && HasEmail(mail)
    ensures Scan([name, mail]) == Fields(StripNameLabel(name), FirstEmail(mail), "")
  {
    ScanSnoc([], name);
    assert [] + [name] == [name];
    assert Scan([name]) == Fields(StripNameLabel(name), "", "");
    assert [name] + [mail] == [name, mail];
    ScanSnoc([name], mail);
    assert FirstEmail(mail) != "";
  }

  // ------------------------------------------------- the whole extraction

  /** The email accumulator only ever holds a whole email-shaped token. */
  lemma ScanMailShaped(lines: seq<string>)
    ensures Scan(lines).correo == "" || (NoSpace(Scan(lines).correo) && EmailShaped(Scan(lines).correo))
  {
    ScanFirsts(lines);
    FirstMailShaped(lines);
  }

  lemma {:induction false} FirstMailShaped(lines: seq<string>)
    ensures FirstMail(lines) == "" || (NoSpace(FirstMail(lines)) && EmailShaped(FirstMail(lines)))
  {
    if lines != [] && !HasEmail(lines[0]) {
      FirstMailShaped(lines[1..]);
    }
  }

  /** A suggested company. */
  datatype Suggestion = Suggestion(nombre: string, correo: string, parrafo: string)

  /** A suggestion the route may return: three non-empty fields, and an
      email that is a whole email-shaped token. */
  predicate WellFormed(s: Suggestion) {
    s.nombre != "" && s.correo != "" && s.parrafo != "" &&
    NoSpace(s.correo) && EmailShaped(s.correo)
  }

  /** Parsing and the completeness check: `None` when any of the three
      fields is empty after the scan (the route then falls back to a mock). */
  function Extract(raw: string): (r: Option<Suggestion>)
    ensures r.Some? ==> WellFormed(r.value)
    ensures r.Some? ==> Trim(r.value.parrafo) == r.value.parrafo
  {
    var acc := Scan(CleanLines(raw));
    var parrafo := Trim(acc.parrafo);
    if acc.nombre == "" || acc.correo == "" || parrafo == "" then None
    else
      ScanMailShaped(CleanLines(raw));
      TrimIdempotent(acc.parrafo);
      Some(Suggestion(acc.nombre, acc.correo, parrafo))
  }

  /** Extraction succeeds exactly when the cleaned completion has a line
      naming a company, an email-shaped line and a non-blank paragraph, and
      then returns the declared name, email and trimmed paragraph. */
  lemma ExtractMeaning(raw: string)
    ensures var lines := CleanLines(raw);
      Extract(raw) ==
        if (exists j :: 0 <= j < |lines| && NamesCompany(lines[j])) &&
           (exists j :: 0 <= j < |lines| && HasEmail(lines[j])) &&
           Trim(Paragraph(lines)) != ""
        then Some(Suggestion(FirstName(lines), FirstMail(lines), Trim(Paragraph(lines))))
        else None
  {
    var lines := CleanLines(raw);
    ScanMeaning(lines);
    FirstNameFound(lines);
    FirstMailFound(lines);
  }

  /** A completion without any email-shaped line never yields a suggestion. */
  lemma NoEmailNoSuggestion(raw: string)
    requires forall l :: l in CleanLines(raw) ==> !HasEmail(l)
    ensures Extract(raw) == None
  {
    ExtractMeaning(raw);
  }

  /** The body of the route's loop: a line that is not email-shaped fills
      an empty name, an email-shaped line fills an empty email, and every
      other line is appended to the paragraph with one space. */
  method StepLine(nombre: string, correo: string, parrafo: string, line: string)
    returns (nombre': string, correo': string, parrafo': string)
    ensures Fields(nombre', correo', parrafo') == Step(Fields(nombre, correo, parrafo), line)
  {
    nombre', correo', parrafo' := nombre, correo, parrafo;
    if nombre == "" && !HasEmail(line) {
      nombre' := StripNameLabel(line);
    } else if correo == "" && HasEmail(line) {
      correo' := FirstEmail(line);
    } else {
      parrafo' := parrafo + StripParagraphLabel(line) + " ";
    }
  }

  /** The route's loop over the cleaned lines with its three accumulators. */
  method ScanLines(lines: seq<string>) returns (nombre: string, correo: string, parrafo: string)
    ensures Fields(nombre, correo, parrafo) == Scan(lines)
  {
    nombre, correo, parrafo := "", "", "";
    var i := 0;
    assert lines[..0] == [];
    while i < |lines|
      invariant 0 <= i <= |lines|
      invariant Fields(nombre, correo, parrafo) == Scan(lines[..i])
    {
      ghost var before := Fields(nombre, correo, parrafo);
      nombre, correo, parrafo := StepLine(nombre, correo, parrafo, lines[i]);
      ScanPrefix(lines, i, before, Fields(nombre, correo, parrafo));
      i := i + 1;
    }
    assert lines[..i] == lines;
  }

  /** The route's parsing: clean the lines, run the loop, trim the
      paragraph and check that all three fields are filled. */
  method ParseCompletion(raw: string) returns (r: Option<Suggestion>)
    ensures r == Extract(raw)
    ensures r.Some? ==> WellFormed(r.value)
  {
    var lines := CleanLines(raw);
    var nombre, correo, parrafo := ScanLines(lines);
    parrafo := Trim(parrafo);
    if nombre == "" || correo == "" || parrafo == "" {
      r := None;
    } else {
      r := Some(Suggestion(nombre, correo, parrafo));
    }
  }
}
