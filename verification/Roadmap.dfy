/**
 The generated NEP index: rendering it, splicing it between the markers of neps/README.md, and
 the write and check runs of the generator.
 */
module Roadmap {
  import opened Wrappers

  // The begin marker is put together from short literals, which the verifier takes one character
  // at a time.
  const MARKER: string := "!-- nep-index:"
  const BEGIN_TEXT: string := "begin " + "(generated by " + "scripts/" + "gen-roadmap.py" + ") -->"
  const END_TEXT: string := "end -->"

  function IndexBegin(): (marker: string)
    ensures marker != []
  {
    "<" + MARKER + BEGIN_TEXT
  }

  function IndexEnd(): (marker: string)
    ensures marker != []
  {
    "<" + MARKER + END_TEXT
  }

  /** The markers as they stand in the README. */
  lemma MarkersAre()
    ensures IndexBegin() ==
              "<" + "!-- nep-index:" + ("begin " + "(generated by " + "scripts/" + "gen-roadmap.py" + ") -->")
    ensures IndexEnd() == "<" + "!-- nep-index:" + "end -->"
  {
  }

  predicate At(text: string, pat: string, i: nat) {
    i + |pat| <= |text| && text[i..i + |pat|] == pat
  }

  ghost predicate Occurs(text: string, pat: string) {
    exists i: nat :: At(text, pat, i)
  }

  /** str.find from a position: the first occurrence, if any. */
  function FindFrom(text: string, pat: string, from: nat): (r: Option<nat>)
    ensures r.Some? ==> from <= r.value && At(text, pat, r.value)
    ensures r.Some? ==> forall i: nat :: from <= i < r.value ==> !At(text, pat, i)
    ensures r.None? ==> forall i: nat :: from <= i ==> !At(text, pat, i)
    decreases |text| - from
  {
    if |text| < from + |pat| then None
    else if At(text, pat, from) then Some(from)
    else if from == |text| then None
    else FindFrom(text, pat, from + 1)
  }

  function Find(text: string, pat: string): Option<nat> {
    FindFrom(text, pat, 0)
  }

  lemma FindIs(text: string, pat: string, k: nat)
    requires At(text, pat, k) && forall i: nat :: i < k ==> !At(text, pat, i)
    ensures Find(text, pat) == Some(k)
  {
  }

  // ----- Rendering -----

  datatype Nep = Nep(number: string, title: string, status: string, impact: string)

  function Row(n: Nep): string {
    "| " + n.number + " | " + n.title + " | " + n.status + " | " + n.impact + " |"
  }

  const HEADER: string := "| NEP  | Title | Status | Breaking |"
  const RULE: string := "|------|-------|--------|----------|"

  function JoinLines(rows: seq<string>): string {
    if rows == [] then "" else if |rows| == 1 then rows[0]
    else JoinLines(rows[..|rows| - 1]) + "\n" + rows[|rows| - 1]
  }

  function IndexRows(neps: seq<Nep>): seq<string> {
    [HEADER, RULE] + seq(|neps|, i requires 0 <= i < |neps| => Row(neps[i]))
  }

  /** render_index. */
  method RenderIndex(neps: seq<Nep>) returns (index: string)
    ensures index == JoinLines(IndexRows(neps))
  {
    var rows := [HEADER, RULE];
    for i := 0 to |neps|
      invariant rows == IndexRows(neps[..i])
    {
      rows := rows + [Row(neps[i])];
    }
    assert neps[..|neps|] == neps;
    return JoinLines(rows);
  }

  /** The index line by line, in words: a header of two lines, and one row of four columns for each
      proposal, in order. */
  lemma IndexSays(neps: seq<Nep>, n: Nep)
    ensures JoinLines(IndexRows([])) ==
              "| NEP  | Title | Status | Breaking |" + "\n" + "|------|-------|--------|----------|"
    ensures JoinLines(IndexRows(neps + [n])) ==
              JoinLines(IndexRows(neps)) + "\n"
              + "| " + n.number + " | " + n.title + " | " + n.status + " | " + n.impact + " |"
  {
    var rows, more := IndexRows(neps), IndexRows(neps + [n]);
    assert more == rows + [Row(n)] && more[..|more| - 1] == rows;
    assert IndexRows([]) == [HEADER, RULE] && IndexRows([])[..1] == [HEADER];
    hide Row;
    assert JoinLines(more) == JoinLines(rows) + "\n" + Row(n);
    RowSays(n);
  }

  lemma RowSays(n: Nep)
    ensures Row(n) == "| " + n.number + " | " + n.title + " | " + n.status + " | " + n.impact + " |"
    ensures forall a: string :: a + "\n" + Row(n) ==
              a + "\n" + "| " + n.number + " | " + n.title + " | " + n.status + " | " + n.impact + " |"
  {
    forall a: string
      ensures a + "\n" + Row(n) ==
                a + "\n" + "| " + n.number + " | " + n.title + " | " + n.status + " | " + n.impact + " |"
    {
      var head := a + "\n";
      assert head + Row(n) == head + "| " + n.number + " | " + n.title + " | " + n.status + " | " + n.impact + " |";
    }
  }

  // ----- The splice -----

  /** render_readme, given the README's text and the rendered index. */
  function Splice(text: string, index: string): Option<string> {
    var begin :- Find(text, IndexBegin());
    var end :- Find(text, IndexEnd());
    if end < begin then None
    else Some(text[..begin + |IndexBegin()|] + "\n" + index + "\n" + text[end..])
  }

  /** No occurrence of the end marker starts inside the begin marker. */
  lemma MarkersDoNotOverlap(text: string, b: nat, e: nat)
    requires At(text, IndexBegin(), b) && At(text, IndexEnd(), e) && b <= e
    ensures b + |IndexBegin()| <= e
  {
    assert text[e] == text[e..e + |IndexEnd()|][0] == '<';
    if b < e < b + |IndexBegin()| {
      OneOpeningBracket(text, b, e);
    } else if e == b {
      BeginIsNotEnd(text, b);
    }
  }

  lemma OneOpeningBracket(text: string, b: nat, e: nat)
    requires At(text, IndexBegin(), b) && b < e < b + |IndexBegin()|
    ensures text[e] != '<'
  {
    NoBracketInside();
    var inside := MARKER + BEGIN_TEXT;
    assert IndexBegin() == "<" + inside;
    assert text[e] == text[b..b + |IndexBegin()|][e - b] == inside[e - b - 1];
  }

  lemma NoBracketInside()
    ensures '<' !in MARKER + BEGIN_TEXT
  {
    assert '<' !in MARKER && '<' !in "begin " && '<' !in "(generated by " && '<' !in "scripts/";
    assert '<' !in "gen-roadmap.py" && '<' !in ") -->";
  }

  lemma BeginIsNotEnd(text: string, b: nat)
    requires At(text, IndexBegin(), b)
    ensures !At(text, IndexEnd(), b)
  {
    var k := |MARKER| + 1;
    assert text[b + k] == text[b..b + |IndexBegin()|][k] == BEGIN_TEXT[0] == "begin "[0] == 'b';
    assert IndexEnd()[k] == END_TEXT[0] == 'e';
    if b + |IndexEnd()| <= |text| {
      assert text[b..b + |IndexEnd()|][k] == text[b + k];
    }
  }

  lemma EndMarkerIsOneLine()
    ensures '\n' !in IndexEnd()
  {
    assert '\n' !in MARKER && '\n' !in END_TEXT;
  }

  /** The end marker holds no newline, so it cannot lie across one. */
  lemma NotAcrossNewline(text: string, nl: nat, i: nat)
    requires nl < |text| && text[nl] == '\n' && i <= nl < i + |IndexEnd()|
    ensures !At(text, IndexEnd(), i)
  {
    EndMarkerIsOneLine();
    if i + |IndexEnd()| <= |text| {
      assert text[i..i + |IndexEnd()|][nl - i] == '\n';
    }
  }

  /** An occurrence inside one part of a text is an occurrence in the part. */
  lemma AtPart(text: string, pat: string, lo: nat, hi: nat, i: nat)
    requires lo <= i && i + |pat| <= hi <= |text|
    ensures At(text, pat, i) <==> At(text[lo..hi], pat, i - lo)
  {
    var part := text[lo..hi];
    var x, y := part[i - lo..i - lo + |pat|], text[i..i + |pat|];
    forall k | 0 <= k < |pat| ensures x[k] == y[k] {
      assert part[i - lo + k] == text[i + k];
    }
    assert x == y;
  }

  /** The splice fails exactly when a marker is missing or the first end comes before the first begin. */
  lemma SpliceFailsIf(text: string, index: string)
    ensures Splice(text, index).None? <==>
              || !Occurs(text, IndexBegin())
              || !Occurs(text, IndexEnd())
              || exists e: nat :: At(text, IndexEnd(), e) && forall b: nat :: b <= e ==> !At(text, IndexBegin(), b)
  {
    hide IndexBegin, IndexEnd;
    var b, e := Find(text, IndexBegin()), Find(text, IndexEnd());
    if b.Some? && e.Some? && e.value < b.value {
      assert At(text, IndexEnd(), e.value);
    }
  }

  /** What lies between the two markers is replaced, and nothing else. */
  lemma SpliceReplaces(pre: string, mid: string, post: string, index: string)
    requires var text := pre + IndexBegin() + mid + IndexEnd() + post;
             && (forall i: nat :: i < |pre| ==> !At(text, IndexBegin(), i))
             && (forall i: nat :: i < |pre| + |IndexBegin()| + |mid| ==> !At(text, IndexEnd(), i))
    ensures Splice(pre + IndexBegin() + mid + IndexEnd() + post, index) ==
              Some(pre + IndexBegin() + "\n" + index + "\n" + IndexEnd() + post)
  {
    hide IndexBegin, IndexEnd, FindFrom;
    var text := pre + IndexBegin() + mid + IndexEnd() + post;
    var b, e := |pre|, |pre| + |IndexBegin()| + |mid|;
    assert text[b..b + |IndexBegin()|] == IndexBegin() && text[e..e + |IndexEnd()|] == IndexEnd();
    FindIs(text, IndexBegin(), b);
    FindIs(text, IndexEnd(), e);
    assert text[..b + |IndexBegin()|] == pre + IndexBegin() && text[e..] == IndexEnd() + post;
    assert pre + IndexBegin() + "\n" + index + "\n" + (IndexEnd() + post) ==
           pre + IndexBegin() + "\n" + index + "\n" + IndexEnd() + post;
  }

  /** The parts of a spliced text. */
  ghost predicate Spliced(text: string, index: string, out: string, begin: nat, end: nat) {
    && Find(text, IndexBegin()) == Some(begin) && Find(text, IndexEnd()) == Some(end)
    && begin + |IndexBegin()| <= end <= |text|
    && out == text[..begin + |IndexBegin()|] + "\n" + index + "\n" + text[end..]
  }

  lemma SplicedParts(text: string, index: string, out: string) returns (begin: nat, end: nat)
    requires Splice(text, index) == Some(out)
    ensures Spliced(text, index, out, begin, end)
  {
    begin, end := Find(text, IndexBegin()).value, Find(text, IndexEnd()).value;
    MarkersDoNotOverlap(text, begin, end);
  }

  lemma BeginStays(text: string, index: string, out: string, begin: nat, end: nat)
    requires Spliced(text, index, out, begin, end)
    ensures Find(out, IndexBegin()) == Some(begin)
  {
    hide FindFrom, IndexBegin, IndexEnd;
    var n := begin + |IndexBegin()|;
    assert out[0..n] == text[0..n];
    forall i: nat | i <= begin ensures At(out, IndexBegin(), i) <==> At(text, IndexBegin(), i) {
      AtPart(out, IndexBegin(), 0, n, i);
      AtPart(text, IndexBegin(), 0, n, i);
    }
    FindIs(out, IndexBegin(), begin);
  }

  /** In the spliced text, the end marker is found at its first occurrence in the index, or else
      where the rest of the text was put. */
  lemma EndAfterSplice(text: string, index: string, out: string, begin: nat, end: nat, i: nat)
    requires Spliced(text, index, out, begin, end)
    ensures var from := begin + |IndexBegin()| + 1;
            && |out| == from + |index| + 1 + |text| - end
            && (i < from ==> !At(out, IndexEnd(), i))
            && (from <= i < from + |index| + 1 ==> (At(out, IndexEnd(), i) <==> At(index, IndexEnd(), i - from)))
            && At(out, IndexEnd(), from + |index| + 1)
  {
    hide FindFrom, IndexBegin, IndexEnd;
    var from := begin + |IndexBegin()| + 1;
    var head, rest := text[..from - 1], text[end..];
    assert out == head + "\n" + (index + "\n" + rest);
    AtAcrossLines(head, index + "\n" + rest, i);
    AtAcrossLines(head, index + "\n" + rest, from + |index| + 1);
    if from <= i {
      AtAcrossLines(index, rest, i - from);
    } else if i + |IndexEnd()| <= |head| {
      AtPart(text, IndexEnd(), 0, |head|, i);
      assert text[0..|head|] == head;
    }
    AtAcrossLines(index, rest, |index| + 1);
    AtPart(text, IndexEnd(), end, |text|, end);
    assert text[end..|text|] == rest;
  }

  /** A one-line marker in two lines' worth of text lies wholly in one of them. */
  lemma AtAcrossLines(a: string, b: string, i: nat)
    ensures At(a + "\n" + b, IndexEnd(), i) <==>
              || (i + |IndexEnd()| <= |a| && At(a, IndexEnd(), i))
              || (i > |a| && At(b, IndexEnd(), i - |a| - 1))
  {
    hide IndexEnd;
    var text := a + "\n" + b;
    assert text[0..|a|] == a && text[|a| + 1..|text|] == b && text[|a|] == '\n';
    if i + |IndexEnd()| <= |a| {
      AtPart(text, IndexEnd(), 0, |a|, i);
    } else if i <= |a| {
      NotAcrossNewline(text, |a|, i);
    } else if i + |IndexEnd()| <= |text| {
      AtPart(text, IndexEnd(), |a| + 1, |text|, i);
    }
  }

  /** Splicing again changes nothing exactly when the index does not itself hold the end marker. */
  lemma SpliceIsStable(text: string, index: string, out: string)
    requires Splice(text, index) == Some(out)
    ensures Splice(out, index) == Some(out) <==> !Occurs(index, IndexEnd())
  {
    hide *;
    var begin, end := SplicedParts(text, index, out);
    if Occurs(index, IndexEnd()) {
      SpliceGrows(text, index, out, begin, end);
    } else {
      SpliceSettles(text, index, out, begin, end);
    }
  }

  /** With an end marker in the index, the second splice leaves part of the first behind. */
  lemma SpliceGrows(text: string, index: string, out: string, begin: nat, end: nat)
    requires Spliced(text, index, out, begin, end) && Occurs(index, IndexEnd())
    ensures Splice(out, index) != Some(out)
  {
    hide FindFrom, Occurs, IndexBegin, IndexEnd, At;
    var from := begin + |IndexBegin()| + 1;
    BeginStays(text, index, out, begin, end);
    var j := FirstOccurrence(index);
    forall i: nat | i < from + j ensures !At(out, IndexEnd(), i) {
      EndAfterSplice(text, index, out, begin, end, i);
    }
    EndAfterSplice(text, index, out, begin, end, from + j);
    FindIs(out, IndexEnd(), from + j);
    assert |Splice(out, index).value| == from + |index| + 1 + |out| - (from + j);
  }

  lemma SpliceSettles(text: string, index: string, out: string, begin: nat, end: nat)
    requires Spliced(text, index, out, begin, end) && !Occurs(index, IndexEnd())
    ensures Splice(out, index) == Some(out)
  {
    hide FindFrom, Occurs, IndexBegin, IndexEnd, At;
    var from := begin + |IndexBegin()| + 1;
    BeginStays(text, index, out, begin, end);
    NoOccurrence(index);
    forall i: nat | i < from + |index| + 1 ensures !At(out, IndexEnd(), i) {
      EndAfterSplice(text, index, out, begin, end, i);
    }
    EndAfterSplice(text, index, out, begin, end, 0);
    FindIs(out, IndexEnd(), from + |index| + 1);
    assert out[..from - 1] == text[..from - 1] && out[from + |index| + 1..] == text[end..];
  }

  lemma NoOccurrence(index: string)
    requires !Occurs(index, IndexEnd())
    ensures forall i: nat :: !At(index, IndexEnd(), i)
  {
  }

  lemma FirstOccurrence(index: string) returns (j: nat)
    requires Occurs(index, IndexEnd())
    ensures At(index, IndexEnd(), j) && j <= |index| && forall i: nat :: i < j ==> !At(index, IndexEnd(), i)
  {
    j := Find(index, IndexEnd()).value;
  }

  /** The index holds the end marker exactly when one of its rows does. */
  lemma {:induction false} OccursInSomeRow(rows: seq<string>)
    ensures Occurs(JoinLines(rows), IndexEnd()) <==> exists r :: 0 <= r < |rows| && Occurs(rows[r], IndexEnd())
  {
    var text := JoinLines(rows);
    if |rows| > 1 {
      var init, last := rows[..|rows| - 1], rows[|rows| - 1];
      OccursInSomeRow(init);
      OccursAcrossLines(JoinLines(init), last);
      assert forall r :: 0 <= r < |init| ==> rows[r] == init[r];
    } else if rows == [] {
      assert !Occurs("", IndexEnd());
    }
  }

  lemma OccursAcrossLines(a: string, b: string)
    ensures Occurs(a + "\n" + b, IndexEnd()) <==> Occurs(a, IndexEnd()) || Occurs(b, IndexEnd())
  {
    hide IndexEnd;
    var text := a + "\n" + b;
    if Occurs(text, IndexEnd()) {
      var i: nat :| At(text, IndexEnd(), i);
      AtAcrossLines(a, b, i);
      assert At(a, IndexEnd(), i) || At(b, IndexEnd(), i - |a| - 1);
    }
    if Occurs(a, IndexEnd()) {
      var i: nat :| At(a, IndexEnd(), i);
      AtAcrossLines(a, b, i);
      assert At(text, IndexEnd(), i);
    }
    if Occurs(b, IndexEnd()) {
      var i: nat :| At(b, IndexEnd(), i);
      AtAcrossLines(a, b, |a| + 1 + i);
      assert At(text, IndexEnd(), |a| + 1 + i);
    }
  }

  // ----- The generator -----

  datatype Files = Files(roadmap: Option<string>, readme: string)

  /** No rendered row of the index contains the end marker. */
  ghost predicate RowsAreClean(neps: seq<Nep>) {
    forall r :: 0 <= r < |IndexRows(neps)| ==> !Occurs(IndexRows(neps)[r], IndexEnd())
  }

  /** main, once the NEPs are loaded and the roadmap text is rendered. */
  method Generate(check: bool, neps: seq<Nep>, roadmap: string, files: Files) returns (code: nat, files': Files)
    ensures var spliced := Splice(files.readme, JoinLines(IndexRows(neps)));
            && (check || spliced.None? ==> files' == files)
            && (code == 0 || code == 1)
            && (spliced.None? ==> code == 1)
            && (spliced.Some? && !check ==> code == 0 && files' == Files(Some(roadmap), spliced.value))
            && (spliced.Some? && check ==> (code == 0 <==> files == Files(Some(roadmap), spliced.value)))
  {
    files' := files;
    var index := RenderIndex(neps);
    var readme := Splice(files.readme, index);
    if readme.None? {
      return 1, files';
    }
    var staleRoadmap := files.roadmap != Some(roadmap);
    var staleReadme := files.readme != readme.value;
    if check {
      return if staleRoadmap || staleReadme then 1 else 0, files';
    }
    if staleRoadmap {
      files' := files'.(roadmap := Some(roadmap));
    }
    if staleReadme {
      files' := files'.(readme := readme.value);
    }
    return 0, files';
  }

  /** A check right after a successful write passes exactly when no row holds the end marker. */
  method WriteThenCheck(neps: seq<Nep>, roadmap: string, files: Files) returns (wrote: nat, checked: nat)
    ensures (wrote == 0) <==> Splice(files.readme, JoinLines(IndexRows(neps))).Some?
    ensures wrote <= 1 && checked <= 1
    ensures wrote == 0 ==> (checked == 0 <==> RowsAreClean(neps))
  {
    hide Splice, JoinLines, IndexRows, Occurs;
    var written;
    wrote, written := Generate(false, neps, roadmap, files);
    var after;
    checked, after := Generate(true, neps, roadmap, written);
    if wrote == 0 {
      SpliceIsStable(files.readme, JoinLines(IndexRows(neps)), written.readme);
      OccursInSomeRow(IndexRows(neps));
    }
  }

  /** A README with an empty index can be spliced, whatever the index. */
  lemma EmptyIndexSplices(index: string)
    ensures Splice(IndexBegin() + "\n" + IndexEnd(), index).Some?
  {
    hide IndexBegin, IndexEnd, FindFrom;
    var text := IndexBegin() + "\n" + IndexEnd();
    assert text[0..|IndexBegin()|] == IndexBegin();
    FindIs(text, IndexBegin(), 0);
    var k := |IndexBegin()| + 1;
    assert text[k..k + |IndexEnd()|] == IndexEnd();
    assert At(text, IndexEnd(), k);
    MarkerIsFound(text, k);
  }

  lemma MarkerIsFound(text: string, k: nat)
    requires At(text, IndexEnd(), k)
    ensures Find(text, IndexEnd()).Some?
  {
  }

  /** A row whose title is the end marker contains it. */
  lemma TitleIsInRow(n: Nep)
    requires n.title == IndexEnd()
    ensures !RowsAreClean([n])
  {
    hide IndexEnd;
    var row, k := Row(n), 2 + |n.number| + 3;
    assert row == ("| " + n.number + " | ") + n.title + (" | " + n.status + " | " + n.impact + " |");
    assert row[k..k + |n.title|] == n.title;
    assert At(row, IndexEnd(), k);
    assert IndexRows([n])[2] == row;
  }

  /** The failing case at a concrete input: a proposal titled with the end marker. The write
      succeeds, and the check right after it reports the README stale. */
  method MarkerTitleIsNeverSettled() returns (wrote: nat, checked: nat)
    ensures wrote == 0 && checked == 1
  {
    hide Splice, RowsAreClean, IndexBegin, IndexEnd, JoinLines, IndexRows;
    var nep := Nep("0001", IndexEnd(), "draft", "Non-breaking");
    EmptyIndexSplices(JoinLines(IndexRows([nep])));
    TitleIsInRow(nep);
    wrote, checked := WriteThenCheck([nep], "", Files(None, IndexBegin() + "\n" + IndexEnd()));
  }
}
