/**
 The crash-tolerant audit event log reader. It walks the length the log had when opened, while
 a writer may keep appending, and folds a visitor over the records it can read.
 */
module EventLog {
  import opened Wrappers

  predicate IsWhitespace(c: char) {
    || '\t' <= c <= '\r' || c == ' ' || c == '\U{0085}' || c == '\U{00A0}' || c == '\U{1680}'
    || '\U{2000}' <= c <= '\U{200A}' || c == '\U{2028}' || c == '\U{2029}' || c == '\U{202F}'
    || c == '\U{205F}' || c == '\U{3000}'
  }

  /** The 25 characters with the Unicode property White_Space. */
  lemma WhitespaceIs(c: char)
    ensures IsWhitespace(c) <==>
              c in {'\U{0009}', '\U{000A}', '\U{000B}', '\U{000C}', '\U{000D}', '\U{0020}', '\U{0085}', '\U{00A0}',
                    '\U{1680}', '\U{2000}', '\U{2001}', '\U{2002}', '\U{2003}', '\U{2004}', '\U{2005}', '\U{2006}',
                    '\U{2007}', '\U{2008}', '\U{2009}', '\U{200A}', '\U{2028}', '\U{2029}', '\U{202F}', '\U{205F}',
                    '\U{3000}'}
  {
  }

  predicate Blank(line: string) {
    forall i :: 0 <= i < |line| ==> IsWhitespace(line[i])
  }

  // ----- What a text means as a log -----

  /** The position of the first newline at or after `pos`, or the end. */
  function LineEnd(text: string, pos: nat): (e: nat)
    requires pos <= |text|
    ensures pos <= e <= |text|
    ensures '\n' !in text[pos..e]
    ensures e < |text| ==> text[e] == '\n'
    decreases |text| - pos
  {
    if pos == |text| || text[pos] == '\n' then pos else LineEnd(text, pos + 1)
  }

  /** A line ended by a newline also loses a carriage return before it. */
  function Trimmed(line: string, ended: bool): string {
    if ended && line != [] && line[|line| - 1] == '\r' then line[..|line| - 1] else line
  }

  /** The lines of the text from `pos` on; a text ending in a newline has no line after it. */
  function LinesFrom(text: string, pos: nat): seq<string>
    requires pos <= |text|
    decreases |text| - pos
  {
    if pos == |text| then []
    else
      var e := LineEnd(text, pos);
      [Trimmed(text[pos..e], e < |text|)] + if e < |text| then LinesFrom(text, e + 1) else []
  }

  predicate Bad<R(!new)>(line: string, parse: string -> Option<R>) {
    !Blank(line) && parse(line).None?
  }

  /** The first line that is neither blank nor a record, or the number of lines. */
  function FirstBad<R(!new)>(lines: seq<string>, parse: string -> Option<R>): (k: nat)
    ensures k <= |lines|
    ensures k < |lines| ==> Bad(lines[k], parse)
    ensures forall i :: 0 <= i < k ==> !Bad(lines[i], parse)
  {
    if lines == [] || Bad(lines[0], parse) then 0 else 1 + FirstBad(lines[1..], parse)
  }

  /** The records of the lines that hold one, in order. */
  function Records<R(!new)>(lines: seq<string>, parse: string -> Option<R>): seq<R> {
    if lines == [] then []
    else
      var last := lines[|lines| - 1];
      Records(lines[..|lines| - 1], parse) + if Blank(last) || parse(last).None? then [] else [parse(last).value]
  }

  function Fold<S, R>(visit: (S, R) -> S, init: S, rs: seq<R>): S {
    if rs == [] then init else visit(Fold(visit, init, rs[..|rs| - 1]), rs[|rs| - 1])
  }

  // ----- The reader -----

  /** The file only ever grows at its end. */
  ghost predicate AppendOnly(live: nat -> string) {
    forall t: nat :: live(0) <= live(t)
  }

  /** for_each_event_record. `live(t)` is the file as found by the t-th read; the first one
      fixes the length to walk. Whatever is appended meanwhile, the outcome is that of the
      snapshot: the records before the first bad line, and that line's verdict. */
  method ForEachEventRecord<S, R(!new)>(live: nat -> string, tolerant: bool, parse: string -> Option<R>,
                                        visit: (S, R) -> S, init: S)
    returns (r: Result<bool, nat>, acc: S)
    requires AppendOnly(live)
    ensures acc == Fold(visit, init, Records(LinesFrom(live(0), 0)[..FirstBad(LinesFrom(live(0), 0), parse)], parse))
    // Only a log without a damaged line is read to its end.
    ensures var lines := LinesFrom(live(0), 0);
            r == Ok(false) <==> forall i :: 0 <= i < |lines| ==> Blank(lines[i]) || parse(lines[i]).Some?
    // A partial tail is the last line alone, and only if tolerated.
    ensures var lines := LinesFrom(live(0), 0);
            r == Ok(true) <==>
              && tolerant && lines != [] && !Blank(lines[|lines| - 1]) && parse(lines[|lines| - 1]).None?
              && forall i :: 0 <= i < |lines| - 1 ==> Blank(lines[i]) || parse(lines[i]).Some?
    // Any other damage is an error, with the number of its first line.
    ensures var lines := LinesFrom(live(0), 0);
            r.Err? ==>
              && 0 < r.error <= |lines| && !Blank(lines[r.error - 1]) && parse(lines[r.error - 1]).None?
              && forall i :: 0 <= i < r.error - 1 ==> Blank(lines[i]) || parse(lines[i]).Some?
  {
    hide LinesFrom, Records, Fold, FirstBad, AppendOnly, Blank, Trimmed;
    var snapshotLen, tick, pos, index := |live(0)|, 1, 0, 0;
    ghost var lines := LinesFrom(live(0), 0);
    acc := init;
    NothingRead(lines, parse, visit, init);
    while pos < snapshotLen
      invariant pos <= snapshotLen
      invariant index <= |lines| && lines[index..] == LinesFrom(live(0), pos)
      invariant index <= FirstBad(lines, parse)
      invariant acc == Fold(visit, init, Records(lines[..index], parse))
      decreases snapshotLen - pos
    {
      SnapshotIsStable(live, tick);
      var text := live(tick)[..snapshotLen];
      tick := tick + 1;
      var e := LineEnd(text, pos);
      var line := Trimmed(text[pos..e], e < snapshotLen);
      NextLine(text, pos);
      pos := if e < snapshotLen then e + 1 else e;
      assert lines[index..][0] == lines[index] && lines[index..][1..] == lines[index + 1..];
      RecordStep(lines, index, parse, visit, init);
      if !Blank(line) {
        var record := parse(line);
        if record.None? {
          StopsAtBad(lines, index, parse);
          if tolerant && pos == snapshotLen {
            return Ok(true), acc;
          }
          return Err(index + 1), acc;
        }
        acc := visit(acc, record.value);
      }
      index := index + 1;
    }
    NextLine(live(0), pos);
    StopsAtEnd(lines, parse);
    assert lines[index..] == [] ==> index == |lines|;
    return Ok(false), acc;
  }

  lemma NothingRead<S, R(!new)>(lines: seq<string>, parse: string -> Option<R>, visit: (S, R) -> S, init: S)
    ensures Fold(visit, init, Records(lines[..0], parse)) == init && lines[0..] == lines
  {
  }

  lemma SnapshotIsStable(live: nat -> string, t: nat)
    requires AppendOnly(live)
    ensures |live(t)| >= |live(0)| && live(t)[..|live(0)|] == live(0)
  {
    assert live(0) <= live(t);
  }

  /** One line is taken off the front; after the last one nothing is left. */
  lemma NextLine(text: string, pos: nat)
    requires pos <= |text|
    ensures var e := LineEnd(text, pos);
            if pos == |text| then LinesFrom(text, pos) == []
            else
              var next := if e < |text| then e + 1 else e;
              && |LinesFrom(text, pos)| > 0
              && LinesFrom(text, pos)[0] == Trimmed(text[pos..e], e < |text|)
              && LinesFrom(text, pos)[1..] == LinesFrom(text, next)
              && (LinesFrom(text, next) == [] <==> next == |text|)
  {
  }

  lemma {:induction false} RecordStep<S, R(!new)>(
    lines: seq<string>, i: nat, parse: string -> Option<R>, visit: (S, R) -> S, init: S)
    requires i < |lines|
    ensures var line := lines[i];
            var before := Fold(visit, init, Records(lines[..i], parse));
            Fold(visit, init, Records(lines[..i + 1], parse)) ==
              if Blank(line) || parse(line).None? then before else visit(before, parse(line).value)
    ensures i <= FirstBad(lines, parse) && !Bad(lines[i], parse) ==> i + 1 <= FirstBad(lines, parse)
  {
    hide Blank, Fold, FirstBad;
    assert lines[..i + 1][..i] == lines[..i];
    if !Blank(lines[i]) && parse(lines[i]).Some? {
      FoldSnoc(visit, init, Records(lines[..i], parse), parse(lines[i]).value);
    } else {
      assert Records(lines[..i + 1], parse) == Records(lines[..i], parse);
    }
  }

  lemma {:induction false} FoldSnoc<S, R>(visit: (S, R) -> S, init: S, rs: seq<R>, r: R)
    ensures Fold(visit, init, rs + [r]) == visit(Fold(visit, init, rs), r)
  {
    assert (rs + [r])[..|rs|] == rs;
  }

  lemma StopsAtBad<R(!new)>(lines: seq<string>, i: nat, parse: string -> Option<R>)
    requires i < |lines| && i <= FirstBad(lines, parse) && Bad(lines[i], parse)
    ensures FirstBad(lines, parse) == i
  {
  }

  lemma StopsAtEnd<R(!new)>(lines: seq<string>, parse: string -> Option<R>)
    ensures FirstBad(lines, parse) <= |lines|
  {
  }

  // ----- Against the recorder -----

  /** The log a recorder leaves: each record's text and a newline. */
  function LogText<R>(rs: seq<R>, enc: R -> string): string {
    if rs == [] then "" else enc(rs[0]) + "\n" + LogText(rs[1..], enc)
  }

  /** How far into a JSON object a text has come. */
  datatype Scan = Before | Open(depth: nat, inString: bool, escaped: bool) | Closed | NoObject

  function ScanStep(s: Scan, c: char): Scan {
    match s
    case Before => if c == '{' then Open(1, false, false) else NoObject
    case Open(d, true, true) => Open(d, true, false)
    case Open(d, true, false) => if c == '"' then Open(d, false, false) else Open(d, true, c == '\\')
    case Open(d, false, _) =>
      if c == '"' then Open(d, true, false)
      else if c == '{' || c == '[' then Open(d + 1, false, false)
      else if c == '}' || c == ']' then (if d <= 1 then Closed else Open(d - 1, false, false))
      else s
    case _ => s
  }

  function ScanText(text: string): Scan {
    if text == [] then Before else ScanStep(ScanText(text[..|text| - 1]), text[|text| - 1])
  }

  /** What is assumed of the record format: a record is written as one JSON object on one line,
      reads back as itself, and a text that starts an object is only accepted once it closes. */
  ghost predicate JsonRecords<R(!new)>(enc: R -> string, parse: string -> Option<R>) {
    && (forall r :: WritesObject(enc(r)) && parse(enc(r)) == Some(r))
    && (forall text: string :: text != [] && text[0] == '{' && parse(text).Some? ==> ScanText(text) == Closed)
  }

  ghost predicate WritesObject(e: string) {
    && |e| > 1 && e[0] == '{' && e[|e| - 1] == '}' && '\n' !in e
    && ScanText(e) == Closed && ScanText(e[..|e| - 1]) != Closed
  }

  lemma {:induction false} ClosedStaysClosed(text: string, n: nat)
    requires n <= |text| && ScanText(text[..n]) == Closed
    ensures ScanText(text) == Closed
    decreases |text|
  {
    if n == |text| {
      assert text[..n] == text;
    } else {
      assert text[..|text| - 1][..n] == text[..n];
      ClosedStaysClosed(text[..|text| - 1], n);
    }
  }

  /** No proper beginning of a record is a record. */
  lemma CutRecordIsBad<R(!new)>(e: string, n: nat, enc: R -> string, parse: string -> Option<R>)
    requires JsonRecords(enc, parse) && WritesObject(e) && 0 < n < |e|
    ensures Bad(e[..n], parse)
  {
    assert e[..n][0] == '{';
    if parse(e[..n]).Some? {
      assert e[..|e| - 1][..n] == e[..n];
      ClosedStaysClosed(e[..|e| - 1], n);
    }
  }

  /** The number of records wholly inside the first `n` characters of the log. */
  function Complete<R>(rs: seq<R>, enc: R -> string, n: nat): (k: nat)
    ensures k <= |rs|
    ensures k > 0 ==> |LogText(rs[..k], enc)| <= n + 1
    ensures k < |rs| ==> n < |LogText(rs[..k], enc)| + |enc(rs[k])|
  {
    if rs == [] || n < |enc(rs[0])| then 0
    else
      var rest := if n == |enc(rs[0])| then 0 else Complete(rs[1..], enc, n - |enc(rs[0])| - 1);
      assert rs[..rest + 1][1..] == rs[1..][..rest];
      assert |rs| > 1 && n == |enc(rs[0])| ==> n < |LogText(rs[..1], enc)| + |enc(rs[1])|;
      rest + 1
  }

  lemma {:induction false} LineEndIs(text: string, pos: nat, e: nat)
    requires pos <= e <= |text| && '\n' !in text[pos..e] && (e < |text| ==> text[e] == '\n')
    ensures LineEnd(text, pos) == e
    decreases e - pos
  {
    if pos < e {
      assert text[pos] == text[pos..e][0] && text[pos + 1..e] == text[pos..e][1..];
      LineEndIs(text, pos + 1, e);
    }
  }

  lemma {:induction false} LinesShift(a: string, b: string, k: nat)
    requires k <= |b|
    ensures LinesFrom(a + b, |a| + k) == LinesFrom(b, k)
    decreases |b| - k
  {
    hide LinesFrom, Trimmed;
    var e, text := LineEnd(b, k), a + b;
    NextLine(b, k);
    NextLine(text, |a| + k);
    if k < |b| {
      MiddleIs(a, b, k, e);
      LineEndIs(text, |a| + k, |a| + e);
      var next := if e < |b| then e + 1 else e;
      LinesShift(a, b, next);
      FirstAndRest(LinesFrom(text, |a| + k), LinesFrom(b, k));
    }
  }

  lemma MiddleIs(a: string, b: string, i: nat, j: nat)
    requires i <= j <= |b|
    ensures (a + b)[|a| + i..|a| + j] == b[i..j]
  {
  }

  lemma FirstAndRest<T>(s: seq<T>, t: seq<T>)
    requires |s| > 0 && |t| > 0 && s[0] == t[0] && s[1..] == t[1..]
    ensures s == t
  {
    assert s == [s[0]] + s[1..] && t == [t[0]] + t[1..];
  }

  /** A whole first line is one line; the rest reads as on its own. */
  lemma WholeLineFirst(e: string, rest: string)
    requires '\n' !in e && e != [] && e[|e| - 1] != '\r'
    ensures LinesFrom(e + "\n" + rest, 0) == [e] + LinesFrom(rest, 0)
    ensures LinesFrom(e, 0) == [e]
  {
    var text := e + "\n" + rest;
    assert text[0..|e|] == e && e[0..|e|] == e;
    LineEndIs(text, 0, |e|);
    LineEndIs(e, 0, |e|);
    LinesShift(e + "\n", rest, 0);
  }

  /** A line may end in a carriage return and a newline; a last line without a newline keeps its
      carriage return. */
  lemma CarriageReturnsGo(e: string, rest: string)
    requires '\n' !in e
    ensures LinesFrom(e + "\r\n" + rest, 0) == [e] + LinesFrom(rest, 0)
    ensures LinesFrom(e + "\r", 0) == [e + "\r"]
  {
    var line := e + "\r";
    var text := line + "\n" + rest;
    assert e + "\r\n" + rest == text;
    assert text[0..|line|] == line && line[0..|line|] == line && line[..|e|] == e;
    LineEndIs(text, 0, |line|);
    LineEndIs(line, 0, |line|);
    LinesShift(line + "\n", rest, 0);
  }

  lemma {:induction false} RecordsCons<R(!new)>(line: string, lines: seq<string>, parse: string -> Option<R>)
    requires !Blank(line) && parse(line).Some?
    ensures Records([line] + lines, parse) == [parse(line).value] + Records(lines, parse)
    decreases |lines|
  {
    var all := [line] + lines;
    if lines == [] {
      assert all[..0] == [];
    } else {
      assert all[..|all| - 1] == [line] + lines[..|lines| - 1];
      RecordsCons(line, lines[..|lines| - 1], parse);
    }
  }

  /** What the lines of a cut log are: `k` good ones holding the first `k` records, and a bad
      one after them exactly when the cut fell inside the next record. */
  ghost predicate CutAt<R(!new)>(lines: seq<string>, rs: seq<R>, k: nat, partial: bool, parse: string -> Option<R>) {
    && k <= |rs| && FirstBad(lines, parse) == k && |lines| == k + (if partial then 1 else 0)
    && Records(lines[..k], parse) == rs[..k]
  }

  lemma CutAtCons<R(!new)>(
    line: string, lines: seq<string>, rs: seq<R>, k: nat, partial: bool, parse: string -> Option<R>)
    requires rs != [] && CutAt(lines, rs[1..], k, partial, parse) && !Blank(line) && parse(line) == Some(rs[0])
    ensures CutAt([line] + lines, rs, k + 1, partial, parse)
  {
    assert ([line] + lines)[1..] == lines;
    assert ([line] + lines)[..k + 1] == [line] + lines[..k];
    RecordsCons(line, lines[..k], parse);
    TakeCons(rs, k);
  }

  lemma TakeCons<T>(s: seq<T>, k: nat)
    requires k < |s|
    ensures s[..k + 1] == [s[0]] + s[1..][..k]
  {
  }

  /** Cut anywhere, the recorder's log reads as exactly the records wholly inside the cut. */
  lemma {:induction false} CutLog<R(!new)>(rs: seq<R>, enc: R -> string, parse: string -> Option<R>, n: nat)
    requires JsonRecords(enc, parse) && n <= |LogText(rs, enc)|
    ensures var k := Complete(rs, enc, n);
            CutAt(LinesFrom(LogText(rs, enc)[..n], 0), rs, k, n > |LogText(rs[..k], enc)|, parse)
    decreases |rs|
  {
    hide *;
    if rs == [] {
      NothingLogged(rs, parse);
      EmptyLog(rs, enc, n);
      return;
    }
    CompleteStep(rs, enc, n);
    LogUncons(rs, enc);
    if n < |enc(rs[0])| {
      CutFirstRecord(rs, enc, parse, n);
    } else if n == |enc(rs[0])| {
      CutBeforeNewline(rs, enc, parse);
    } else {
      var m := n - |enc(rs[0])| - 1;
      var k := Complete(rs[1..], enc, m);
      CutLog(rs[1..], enc, parse, m);
      CutLater(rs, enc, parse, m, k, m > |LogText(rs[1..][..k], enc)|);
      PrefixSize(rs, enc, k);
    }
  }

  lemma EmptyLog<R>(rs: seq<R>, enc: R -> string, n: nat)
    requires rs == []
    ensures LogText(rs, enc) == "" && Complete(rs, enc, n) == 0 && rs[..0] == rs
  {
  }

  lemma CompleteStep<R>(rs: seq<R>, enc: R -> string, n: nat)
    requires rs != []
    ensures Complete(rs, enc, n) ==
              if n < |enc(rs[0])| then 0
              else if n == |enc(rs[0])| then 1 else Complete(rs[1..], enc, n - |enc(rs[0])| - 1) + 1
    ensures LogText(rs[..0], enc) == ""
  {
  }

  lemma PrefixSize<R>(rs: seq<R>, enc: R -> string, k: nat)
    requires k < |rs|
    ensures |LogText(rs[..k + 1], enc)| == |enc(rs[0])| + 1 + |LogText(rs[1..][..k], enc)|
  {
    assert rs[..k + 1][1..] == rs[1..][..k];
    LogUncons(rs[..k + 1], enc);
  }

  lemma NothingLogged<R(!new)>(rs: seq<R>, parse: string -> Option<R>)
    ensures CutAt(LinesFrom([], 0), rs, 0, false, parse)
  {
  }

  lemma RecordLine<R(!new)>(r: R, enc: R -> string, parse: string -> Option<R>)
    requires JsonRecords(enc, parse)
    ensures WritesObject(enc(r)) && !Blank(enc(r)) && parse(enc(r)) == Some(r)
    ensures '\n' !in enc(r) && enc(r) != [] && enc(r)[|enc(r)| - 1] != '\r'
  {
    assert !IsWhitespace(enc(r)[0]);
  }

  lemma {:induction false} CutBeforeNewline<R(!new)>(rs: seq<R>, enc: R -> string, parse: string -> Option<R>)
    requires JsonRecords(enc, parse) && rs != []
    ensures CutAt(LinesFrom(LogText(rs, enc)[..|enc(rs[0])|], 0), rs, 1, false, parse)
    ensures |LogText(rs[..1], enc)| == |enc(rs[0])| + 1
  {
    var e := enc(rs[0]);
    hide CutAt, JsonRecords, LinesFrom, Records, FirstBad, ScanText;
    RecordLine(rs[0], enc, parse);
    assert LogText(rs, enc)[..|e|] == e;
    WholeLineFirst(e, "");
    NothingLogged(rs[1..], parse);
    assert LinesFrom([], 0) == [] by { NextLine([], 0); }
    CutAtCons(e, [], rs, 0, false, parse);
    assert [e] + [] == [e];
    assert rs[..1][1..] == [];
  }

  lemma LogUncons<R>(rs: seq<R>, enc: R -> string)
    requires rs != []
    ensures LogText(rs, enc) == enc(rs[0]) + "\n" + LogText(rs[1..], enc)
  {
  }

  lemma CutConcat(a: string, b: string, m: nat)
    requires m <= |b|
    ensures (a + b)[..|a| + m] == a + b[..m]
  {
  }

  lemma {:induction false} CutLater<R(!new)>(
    rs: seq<R>, enc: R -> string, parse: string -> Option<R>, m: nat, k: nat, partial: bool)
    requires JsonRecords(enc, parse) && rs != [] && m <= |LogText(rs[1..], enc)|
    requires CutAt(LinesFrom(LogText(rs[1..], enc)[..m], 0), rs[1..], k, partial, parse)
    ensures CutAt(LinesFrom(LogText(rs, enc)[..|enc(rs[0])| + 1 + m], 0), rs, k + 1, partial, parse)
  {
    hide *;
    LogUncons(rs, enc);
    var e, rest := enc(rs[0]), LogText(rs[1..], enc)[..m];
    RecordLine(rs[0], enc, parse);
    CutConcat(e + "\n", LogText(rs[1..], enc), m);
    WholeLineFirst(e, rest);
    CutAtCons(e, LinesFrom(rest, 0), rs, k, partial, parse);
  }

  lemma {:induction false} CutFirstRecord<R(!new)>(rs: seq<R>, enc: R -> string, parse: string -> Option<R>, n: nat)
    requires JsonRecords(enc, parse) && rs != [] && n < |enc(rs[0])|
    ensures CutAt(LinesFrom(LogText(rs, enc)[..n], 0), rs, 0, n > 0, parse)
  {
    var e, cut := enc(rs[0]), LogText(rs, enc)[..n];
    assert cut == e[..n] && WritesObject(e);
    if n > 0 {
      CutRecordIsBad(e, n, enc, parse);
      LineEndIs(cut, 0, n);
      assert LinesFrom(cut, 0) == [cut] by { assert cut[0..n] == cut; }
    }
    assert rs[..0] == [];
  }

  /** recompute_command_policy_summary against the recorder: opened when the log had length `n`,
      with the recorder appending throughout, the tolerant reader succeeds, its fold is the
      recorder's own fold over the records complete by then, and it reports a partial tail
      exactly when the next record had been begun; the strict reader refuses just that case. */
  method RecomputeSummary<S, R(!new)>(rs: seq<R>, enc: R -> string, parse: string -> Option<R>, live: nat -> string,
                                      visit: (S, R) -> S, init: S, strict: bool)
    returns (r: Result<bool, nat>, acc: S)
    requires JsonRecords(enc, parse)
    requires AppendOnly(live) && forall t: nat :: live(t) <= LogText(rs, enc)
    ensures var n := |live(0)|;
            var k := Complete(rs, enc, n);
            var partial := n > |LogText(rs[..k], enc)|;
            && acc == Fold(visit, init, rs[..k])
            && r == if strict && partial then Err(k + 1) else Ok(partial)
  {
    hide Blank, LinesFrom, Records, LogText, JsonRecords, CutAt, FirstBad, Complete, Fold;
    r, acc := ForEachEventRecord(live, !strict, parse, visit, init);
    assert live(0) == LogText(rs, enc)[..|live(0)|];
    CutLog(rs, enc, parse, |live(0)|);
    ghost var k := Complete(rs, enc, |live(0)|);
    ghost var lines, partial := LinesFrom(live(0), 0), |live(0)| > |LogText(rs[..k], enc)|;
    CutFacts(lines, rs, k, partial, parse);
    match r {
      case Ok(true) => assert r == Ok(true);
      case Ok(false) => assert r == Ok(false);
      case Err(_) =>
    }
    if partial {
      assert lines[|lines| - 1] == lines[k];
      assert r != Ok(false);
    }
    if r.Err? {
      assert !Blank(lines[r.error - 1]);
      assert r.error - 1 >= k;
    }
  }

  /** What a cut log's lines are, one by one. */
  lemma CutFacts<R(!new)>(lines: seq<string>, rs: seq<R>, k: nat, partial: bool, parse: string -> Option<R>)
    requires CutAt(lines, rs, k, partial, parse)
    ensures |lines| == k + (if partial then 1 else 0) && k <= |rs| && FirstBad(lines, parse) == k
    ensures Records(lines[..k], parse) == rs[..k]
    ensures forall i :: 0 <= i < k ==> Blank(lines[i]) || parse(lines[i]).Some?
    ensures partial ==> !Blank(lines[k]) && parse(lines[k]).None?
  {
    hide Blank, Records;
    forall i | 0 <= i < k ensures Blank(lines[i]) || parse(lines[i]).Some? {
      assert !Bad(lines[i], parse);
    }
  }
}
