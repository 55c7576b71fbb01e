/**
 The Seatbelt rule that lets atomic-write temp files appear beside a writable file: a path is
 escaped into a regular expression inside a quoted string. The reference is a small reader of
 both layers: a scanner for where the string literal ends, and a parser and matcher for the
 expression itself.
 */
module SeatbeltRegex {
  import opened Wrappers

  predicate IsMeta(c: char) {
    c in {'.', '+', '*', '?', '(', ')', '[', ']', '{', '}', '|', '^', '$', '\\', '"'}
  }

  // ----- The escaper -----

  function Escape(path: string): string {
    if path == [] then ""
    else Escape(path[..|path| - 1]) + EscapeChar(path[|path| - 1])
  }

  function EscapeChar(c: char): string {
    if IsMeta(c) then ['\\', c] else [c]
  }

  /** regex_escape_path. */
  method RegexEscapePath(path: string) returns (out: string)
    ensures out == Escape(path)
  {
    out := "";
    for i := 0 to |path|
      invariant out == Escape(path[..i])
    {
      assert path[..i + 1][..i] == path[..i];
      match path[i] {
        case '.' | '+' | '*' | '?' | '(' | ')' | '[' | ']' | '{' | '}' | '|' | '^' | '$' | '\\' | '"' =>
          out := out + ['\\'] + [path[i]];
          assert IsMeta(path[i]);
        case _ =>
          out := out + [path[i]];
          assert !IsMeta(path[i]);
      }
    }
    assert path[..|path|] == path;
  }

  lemma {:induction false} EscapeConcat(a: string, b: string)
    ensures Escape(a + b) == Escape(a) + Escape(b)
    decreases |b|
  {
    if b == [] {
      assert a + b == a;
    } else {
      assert (a + b)[..|a + b| - 1] == a + b[..|b| - 1];
      EscapeConcat(a, b[..|b| - 1]);
    }
  }

  lemma EscapeCons(c: char, rest: string)
    ensures Escape([c] + rest) == EscapeChar(c) + Escape(rest)
  {
    EscapeConcat([c], rest);
    assert [c][..0] == [] && Escape([c]) == Escape([]) + EscapeChar(c);
  }

  /** Each of the fifteen characters is escaped, and no other; a text is escaped character by
      character. */
  lemma EscapeIs(c: char, a: string, b: string)
    ensures Escape([c]) ==
              if || c == '.' || c == '+' || c == '*' || c == '?' || c == '(' || c == ')' || c == '[' || c == ']'
                 || c == '{' || c == '}' || c == '|' || c == '^' || c == '$' || c == '\\' || c == '"'
              then ['\\', c] else [c]
    ensures Escape([]) == [] && Escape(a + b) == Escape(a) + Escape(b)
  {
    EscapeConcat(a, b);
    EscapeCons(c, []);
    assert [c] + [] == [c];
  }

  lemma EscapeUncons(path: string)
    ensures Escape(path) == if path == [] then [] else EscapeChar(path[0]) + Escape(path[1..])
  {
    if path != [] {
      assert path == [path[0]] + path[1..];
      EscapeCons(path[0], path[1..]);
    }
  }

  // ----- The string literal around it -----

  /** Where a string literal that starts at the beginning of `text` is closed: at the first
      quote not consumed by a backslash. */
  function LiteralEnd(text: string): Option<nat> {
    if text == [] then None
    else if text[0] == '"' then Some(0)
    else
      var skip := if text[0] == '\\' then 2 else 1;
      if |text| < skip then None
      else
        var rest :- LiteralEnd(text[skip..]);
        Some(rest + skip)
  }

  /** One step of the scanner, over a backslash and what it consumes or over another character. */
  lemma LiteralStep(head: string, tail: string)
    requires head != [] && head[0] != '"' && |head| == if head[0] == '\\' then 2 else 1
    ensures LiteralEnd(head + tail) ==
              if LiteralEnd(tail).None? then None else Some(LiteralEnd(tail).value + |head|)
  {
    assert (head + tail)[|head|..] == tail;
  }

  lemma EscapedCharStaysInside(c: char, tail: string)
    ensures LiteralEnd(EscapeChar(c) + tail) ==
              if LiteralEnd(tail).None? then None else Some(LiteralEnd(tail).value + |EscapeChar(c)|)
  {
    hide LiteralEnd;
    LiteralStep(EscapeChar(c), tail);
  }

  /** Escaped text never closes the literal: the scanner comes out right behind it. */
  lemma {:induction false} EscapedTextStaysInside(path: string, tail: string)
    ensures LiteralEnd(Escape(path) + tail) ==
              if LiteralEnd(tail).None? then None else Some(LiteralEnd(tail).value + |Escape(path)|)
    decreases |path|
  {
    hide Escape, EscapeChar, LiteralEnd;
    EscapeUncons(path);
    if path == [] {
      assert Escape(path) + tail == tail;
    } else {
      EscapedTextStaysInside(path[1..], tail);
      EscapedCharStaysInside(path[0], Escape(path[1..]) + tail);
      assert Escape(path) + tail == EscapeChar(path[0]) + (Escape(path[1..]) + tail);
    }
  }

  // ----- The expression -----

  type Range = (char, char)

  datatype Item = Lit(c: char) | Plus(ranges: seq<Range>)

  predicate InRanges(c: char, ranges: seq<Range>) {
    exists i :: 0 <= i < |ranges| && ranges[i].0 <= c <= ranges[i].1
  }

  /** The inside of a bracket expression made of ranges, and what follows its `]`. */
  function ParseRanges(text: string): Option<(seq<Range>, string)> {
    if text == [] then None
    else if text[0] == ']' then Some(([], text[1..]))
    else if |text| < 3 || text[1] != '-' then None
    else
      var (ranges, rest) :- ParseRanges(text[3..]);
      Some(([(text[0], text[2])] + ranges, rest))
  }

  /** What has a meaning of its own in an extended regular expression, outside brackets: anchors, the
      wildcard, repetitions and their bounds, groups and alternatives. */
  predicate NeedsEscape(c: char) {
    || c == '^' || c == '$' || c == '.' || c == '*' || c == '+' || c == '?' || c == '{' || c == '}'
    || c == '(' || c == ')' || c == '|' || c == '[' || c == ']'
  }

  /** Literals, escaped characters, and repeated bracket expressions; any other use of a
      metacharacter is outside this grammar. */
  function ParseItems(text: string): Option<seq<Item>>
    decreases |text|
  {
    if text == [] then Some([])
    else if text[0] == '\\' then
      if |text| < 2 then None
      else
        var rest :- ParseItems(text[2..]);
        Some([Lit(text[1])] + rest)
    else if text[0] == '[' then
      var (ranges, after) :- ParseRanges(text[1..]);
      if after == [] || after[0] != '+' || |after| > |text| then None
      else
        var rest :- ParseItems(after[1..]);
        Some([Plus(ranges)] + rest)
    else if NeedsEscape(text[0]) then None
    else
      var rest :- ParseItems(text[1..]);
      Some([Lit(text[0])] + rest)
  }

  /** An expression anchored at both ends. */
  function ParseAnchored(text: string): Option<seq<Item>> {
    if |text| < 2 || text[0] != '^' || text[|text| - 1] != '$' then None
    else ParseItems(text[1..|text| - 1])
  }

  ghost predicate Matches(items: seq<Item>, s: string)
    decreases |items|
  {
    if items == [] then s == []
    else match items[0]
      case Lit(c) => s != [] && s[0] == c && Matches(items[1..], s[1..])
      case Plus(ranges) =>
        exists n :: 0 < n <= |s| && (forall i :: 0 <= i < n ==> InRanges(s[i], ranges)) && Matches(items[1..], s[n..])
  }

  function Lits(s: string): seq<Item> {
    seq(|s|, i requires 0 <= i < |s| => Lit(s[i]))
  }

  lemma EscapedCharIsLiteral(c: char, tail: string)
    ensures ParseItems(EscapeChar(c) + tail) ==
              if ParseItems(tail).None? then None else Some([Lit(c)] + ParseItems(tail).value)
  {
    var text := EscapeChar(c) + tail;
    assert text[|EscapeChar(c)|..] == tail;
    assert c == '[' || c == '\\' ==> IsMeta(c);
  }

  /** Escaping is undone by parsing: the text stands for exactly its own characters. */
  lemma {:induction false} EscapedTextIsLiteral(path: string, tail: string)
    ensures ParseItems(Escape(path) + tail) ==
              if ParseItems(tail).None? then None else Some(Lits(path) + ParseItems(tail).value)
    decreases |path|
  {
    hide ParseItems, Escape, EscapeChar;
    EscapeUncons(path);
    if path == [] {
      assert Escape(path) + tail == tail;
      assert ParseItems(tail).Some? ==> Lits(path) + ParseItems(tail).value == ParseItems(tail).value;
    } else {
      var c, rest := path[0], path[1..];
      EscapedTextIsLiteral(rest, tail);
      EscapedCharIsLiteral(c, Escape(rest) + tail);
      assert Escape(path) + tail == EscapeChar(c) + (Escape(rest) + tail);
      assert Lits(path) == [Lit(c)] + Lits(rest);
      if ParseItems(tail).Some? {
        assert Lits(path) + ParseItems(tail).value == [Lit(c)] + (Lits(rest) + ParseItems(tail).value);
      }
    }
  }

  lemma {:induction false} LitsMatchPrefix(p: string, items: seq<Item>, s: string)
    ensures Matches(Lits(p) + items, s) <==> p <= s && Matches(items, s[|p|..])
    decreases |p|
  {
    var all := Lits(p) + items;
    if p == [] {
      assert all == items && s[0..] == s;
    } else {
      assert all[0] == Lit(p[0]) && all[1..] == Lits(p[1..]) + items;
      if s != [] {
        LitsMatchPrefix(p[1..], items, s[1..]);
        assert p <= s <==> p[0] == s[0] && p[1..] <= s[1..] by {
          assert p == [p[0]] + p[1..] && s == [s[0]] + s[1..];
        }
        if p <= s {
          assert s[1..][|p| - 1..] == s[|p|..];
        }
      }
    }
  }

  // ----- The atomic-write rule -----

  const DIGITS: seq<Range> := [('0', '9')]
  const HEX: seq<Range> := [('0', '9'), ('a', 'f')]

  /** The expression of add_atomic_write_rule for one path. */
  function AtomicWriteRegex(path: string): string {
    "^" + Escape(path) + "\\.tmp\\.[0-9]+\\.[0-9a-f]+$"
  }

  const RULE_OPEN: string := "(allow file-write* file-read-metadata (regex #\""
  const RULE_CLOSE: string := "\"))"

  function AtomicWriteRule(path: string): string {
    RULE_OPEN + AtomicWriteRegex(path) + RULE_CLOSE
  }

  ghost predicate Run(s: string, ranges: seq<Range>) {
    s != [] && forall i :: 0 <= i < |s| ==> InRanges(s[i], ranges)
  }

  /** What the rule is meant to allow: the path, ".tmp.", decimal digits, a dot, and lowercase
      hexadecimal digits. */
  ghost predicate TempName(path: string, s: string) {
    exists digits, hex :: Decimal(digits) && Hexadecimal(hex) && s == path + ".tmp." + digits + "." + hex
  }

  predicate Decimal(s: string) {
    s != [] && forall i :: 0 <= i < |s| ==> '0' <= s[i] <= '9'
  }

  predicate Hexadecimal(s: string) {
    s != [] && forall i :: 0 <= i < |s| ==> '0' <= s[i] <= '9' || 'a' <= s[i] <= 'f'
  }

  lemma RunsAre(s: string)
    ensures Run(s, DIGITS) <==> Decimal(s)
    ensures Run(s, HEX) <==> Hexadecimal(s)
  {
    forall c ensures InRanges(c, DIGITS) <==> '0' <= c <= '9' {
      assert DIGITS[0] == ('0', '9');
    }
    forall c ensures InRanges(c, HEX) <==> '0' <= c <= '9' || 'a' <= c <= 'f' {
      assert HEX[0] == ('0', '9') && HEX[1] == ('a', 'f');
    }
    hide InRanges;
  }

  /** The rule as it is written into the profile. */
  lemma RuleIs(path: string)
    ensures AtomicWriteRule(path) ==
              "(allow file-write* file-read-metadata (regex #\"" + AtomicWriteRegex(path) + "\"))"
  {
    hide AtomicWriteRegex;
  }

  lemma TempMarker()
    ensures Escape(".tmp.") == "\\.tmp\\." && Escape(".") == "\\."
  {
    hide Escape;
    PlainEscape();
    EscapeUncons(".");
    EscapeUncons("");
    assert "."[1..] == "" && Escape(".") == EscapeChar('.') + "" == EscapeChar('.');
    EscapeConcat("tmp", ".");
    EscapeConcat(".", "tmp.");
    assert "tmp." == "tmp" + "." && ".tmp." == "." + "tmp.";
    assert Escape(".tmp.") == Escape(".") + (Escape("tmp") + Escape("."));
    assert EscapeChar('.') == "\\.";
  }

  lemma PlainEscape()
    ensures Escape("tmp") == "tmp"
  {
    hide Escape;
    EscapeUncons("tmp");
    EscapeUncons("mp");
    EscapeUncons("p");
    EscapeUncons("");
    assert "tmp"[1..] == "mp" && "mp"[1..] == "p" && "p"[1..] == "";
    assert EscapeChar('t') == "t" && EscapeChar('m') == "m" && EscapeChar('p') == "p";
  }

  lemma RangeStep(a: char, b: char, tail: string)
    requires a != ']'
    ensures ParseRanges([a, '-', b] + tail) ==
              if ParseRanges(tail).None? then None
              else Some(([(a, b)] + ParseRanges(tail).value.0, ParseRanges(tail).value.1))
  {
    assert ([a, '-', b] + tail)[3..] == tail;
  }

  lemma RangesEnd(tail: string)
    ensures ParseRanges("]" + tail) == Some(([], tail))
  {
    assert ("]" + tail)[1..] == tail;
  }

  lemma ClassStep(inside: string, ranges: seq<Range>, tail: string)
    requires ParseRanges(inside + ("+" + tail)) == Some((ranges, "+" + tail))
    ensures ParseItems("[" + inside + "+" + tail) ==
              if ParseItems(tail).None? then None else Some([Plus(ranges)] + ParseItems(tail).value)
  {
    hide ParseRanges;
    var text := "[" + inside + "+" + tail;
    assert text[1..] == inside + ("+" + tail) && ("+" + tail)[1..] == tail;
  }

  lemma DigitClass(tail: string)
    ensures ParseItems("[0-9]+" + tail) ==
              if ParseItems(tail).None? then None else Some([Plus(DIGITS)] + ParseItems(tail).value)
  {
    hide ParseRanges, ParseItems;
    RangesEnd("+" + tail);
    RangeStep('0', '9', "]" + ("+" + tail));
    assert "0-9]" + ("+" + tail) == ['0', '-', '9'] + ("]" + ("+" + tail));
    assert [('0', '9')] + [] == DIGITS;
    ClassStep("0-9]", DIGITS, tail);
    assert "[0-9]+" + tail == "[" + "0-9]" + "+" + tail;
  }

  lemma HexClass(tail: string)
    ensures ParseItems("[0-9a-f]+" + tail) ==
              if ParseItems(tail).None? then None else Some([Plus(HEX)] + ParseItems(tail).value)
  {
    hide ParseRanges, ParseItems;
    RangesEnd("+" + tail);
    RangeStep('a', 'f', "]" + ("+" + tail));
    RangeStep('0', '9', ['a', '-', 'f'] + ("]" + ("+" + tail)));
    assert "0-9a-f]" + ("+" + tail) == ['0', '-', '9'] + (['a', '-', 'f'] + ("]" + ("+" + tail)));
    assert [('0', '9')] + ([('a', 'f')] + []) == HEX;
    ClassStep("0-9a-f]", HEX, tail);
    assert "[0-9a-f]+" + tail == "[" + "0-9a-f]" + "+" + tail;
  }

  /** The items the whole expression parses to. */
  function TempItems(path: string): seq<Item> {
    Lits(path + ".tmp.") + [Plus(DIGITS), Lit('.'), Plus(HEX)]
  }

  lemma RegexParses(path: string)
    ensures ParseAnchored(AtomicWriteRegex(path)) == Some(TempItems(path))
  {
    hide ParseItems, Escape, Lits;
    var regex := AtomicWriteRegex(path);
    TempMarker();
    EscapeConcat(path, ".tmp.");
    var afterHex := "";
    var hex := "[0-9a-f]+" + afterHex;
    var dotHex := Escape(".") + hex;
    var digits := "[0-9]+" + dotHex;
    assert regex[1..|regex| - 1] == Escape(path + ".tmp.") + digits;
    assert ParseItems(afterHex) == Some([]) by { NothingToParse(); }
    HexClass(afterHex);
    EscapedTextIsLiteral(".", hex);
    DigitClass(dotHex);
    EscapedTextIsLiteral(path + ".tmp.", digits);
    OneLit('.');
    assert [Plus(DIGITS)] + ([Lit('.')] + ([Plus(HEX)] + [])) == [Plus(DIGITS), Lit('.'), Plus(HEX)];
  }

  lemma NothingToParse()
    ensures ParseItems("") == Some([])
  {
  }

  lemma OneLit(c: char)
    ensures Lits([c]) == [Lit(c)]
  {
  }

  /** The digit, dot and hex part of the expression. */
  lemma TailMatches(s: string)
    ensures Matches([Plus(DIGITS), Lit('.'), Plus(HEX)], s) <==>
              exists digits, hex :: Run(digits, DIGITS) && Run(hex, HEX) && s == digits + "." + hex
  {
    hide Matches, InRanges;
    var items := [Plus(DIGITS), Lit('.'), Plus(HEX)];
    PlusMatches(items, s);
    if Matches(items, s) {
      var n :| 0 < n <= |s| && Run(s[..n], DIGITS) && Matches(items[1..], s[n..]);
      DotHexMatches(s[n..]);
      assert items[1..] == [Lit('.'), Plus(HEX)];
      var hex :| Run(hex, HEX) && s[n..] == "." + hex;
      assert s == s[..n] + "." + hex;
    }
    if digits, hex :| Run(digits, DIGITS) && Run(hex, HEX) && s == digits + "." + hex {
      var n := |digits|;
      DotHexMatches(s[n..]);
      assert items[1..] == [Lit('.'), Plus(HEX)];
      assert s[..n] == digits && s[n..] == "." + hex;
    }
  }

  lemma PlusMatches(items: seq<Item>, s: string)
    requires items != [] && items[0].Plus?
    ensures Matches(items, s) <==>
              exists n :: 0 < n <= |s| && Run(s[..n], items[0].ranges) && Matches(items[1..], s[n..])
  {
    hide InRanges;
    var ranges := items[0].ranges;
    forall n | 0 < n <= |s| ensures Run(s[..n], ranges) <==> forall i :: 0 <= i < n ==> InRanges(s[i], ranges) {
      if Run(s[..n], ranges) {
        assert forall i :: 0 <= i < n ==> s[i] == s[..n][i];
      }
    }
  }

  lemma DotHexMatches(s: string)
    ensures Matches([Lit('.'), Plus(HEX)], s) <==> exists hex :: Run(hex, HEX) && s == "." + hex
  {
    hide Run;
    var items := [Lit('.'), Plus(HEX)];
    assert items[1..] == [Plus(HEX)];
    if s != [] {
      LastPlus(s[1..]);
      assert s == [s[0]] + s[1..];
    }
    forall hex | s == "." + hex ensures s[1..] == hex {
    }
  }

  lemma LastPlus(s: string)
    ensures Matches([Plus(HEX)], s) <==> Run(s, HEX)
  {
    if Matches([Plus(HEX)], s) {
      var n :| 0 < n <= |s| && (forall i :: 0 <= i < n ==> InRanges(s[i], HEX)) && Matches([Plus(HEX)][1..], s[n..]);
      assert |s[n..]| == 0;
    }
    if Run(s, HEX) {
      assert s[|s|..] == [] && Matches([Plus(HEX)][1..], s[|s|..]);
    }
  }

  /** The rule allows exactly the temp names of its own path, whatever characters it holds. */
  lemma RegexMatchesExactly(path: string, s: string)
    ensures ParseAnchored(AtomicWriteRegex(path)).Some?
    ensures Matches(ParseAnchored(AtomicWriteRegex(path)).value, s) <==> TempName(path, s)
  {
    hide Matches, ParseAnchored, AtomicWriteRegex, Run, Lits, Decimal, Hexadecimal;
    RegexParses(path);
    forall part ensures (Run(part, DIGITS) <==> Decimal(part)) && (Run(part, HEX) <==> Hexadecimal(part)) {
      RunsAre(part);
    }
    var prefix := path + ".tmp.";
    LitsMatchPrefix(prefix, [Plus(DIGITS), Lit('.'), Plus(HEX)], s);
    if prefix <= s {
      TailMatches(s[|prefix|..]);
      assert s == prefix + s[|prefix|..];
      forall digits, hex | Run(digits, DIGITS) && Run(hex, HEX)
        ensures s[|prefix|..] == digits + "." + hex <==> s == path + ".tmp." + digits + "." + hex
      {
        assert path + ".tmp." + digits + "." + hex == prefix + (digits + "." + hex);
      }
    } else {
      forall digits, hex ensures s != path + ".tmp." + digits + "." + hex {
        assert path + ".tmp." + digits + "." + hex == prefix + (digits + "." + hex);
      }
    }
  }

  /** The literal in the generated rule is closed by its own final quote and by nothing earlier. */
  lemma RuleLiteralIsClosed(path: string, after: string)
    ensures LiteralEnd(AtomicWriteRegex(path) + "\"" + after) == Some(|AtomicWriteRegex(path)|)
  {
    hide Escape, LiteralEnd;
    TempMarker();
    EscapeConcat(path, ".tmp.");
    var tail := "[0-9]+" + (Escape(".") + ("[0-9a-f]+" + ("$" + ("\"" + after))));
    RuleTailIsClosed(after);
    EscapedTextStaysInside(path + ".tmp.", tail);
    PlainStaysInside("^", Escape(path + ".tmp.") + tail);
    assert AtomicWriteRegex(path) + "\"" + after == "^" + (Escape(path + ".tmp.") + tail);
  }

  /** The part of the literal after the path. */
  lemma RuleTailIsClosed(after: string)
    ensures LiteralEnd("[0-9]+" + (Escape(".") + ("[0-9a-f]+" + ("$" + ("\"" + after))))) ==
              Some(6 + |Escape(".")| + 9 + 1)
  {
    hide Escape, LiteralEnd;
    var end := "$" + ("\"" + after);
    QuoteCloses(after);
    PlainStaysInside("$", "\"" + after);
    PlainStaysInside("[0-9a-f]+", end);
    EscapedTextStaysInside(".", "[0-9a-f]+" + end);
    PlainStaysInside("[0-9]+", Escape(".") + ("[0-9a-f]+" + end));
  }

  lemma QuoteCloses(after: string)
    ensures LiteralEnd("\"" + after) == Some(0)
  {
  }

  /** Read back from the profile, the rule is its fixed frame around exactly that expression. */
  lemma RuleReadsBack(path: string)
    ensures RULE_OPEN <= AtomicWriteRule(path)
    ensures var rest := AtomicWriteRule(path)[|RULE_OPEN|..];
            && LiteralEnd(rest) == Some(|AtomicWriteRegex(path)|)
            && |AtomicWriteRegex(path)| <= |rest|
            && rest[..|AtomicWriteRegex(path)|] == AtomicWriteRegex(path)
            && rest[|AtomicWriteRegex(path)|..] == RULE_CLOSE
  {
    hide LiteralEnd, AtomicWriteRegex;
    var rest := AtomicWriteRule(path)[|RULE_OPEN|..];
    RuleLiteralIsClosed(path, "))");
    assert AtomicWriteRule(path) == RULE_OPEN + (AtomicWriteRegex(path) + RULE_CLOSE);
    assert rest == AtomicWriteRegex(path) + RULE_CLOSE == AtomicWriteRegex(path) + "\"" + "))";
  }

  lemma {:induction false} PlainStaysInside(plain: string, tail: string)
    requires '"' !in plain && '\\' !in plain
    ensures LiteralEnd(plain + tail) == if LiteralEnd(tail).None? then None else Some(LiteralEnd(tail).value + |plain|)
    decreases |plain|
  {
    if plain == [] {
      assert plain + tail == tail;
    } else {
      assert (plain + tail)[1..] == plain[1..] + tail;
      PlainStaysInside(plain[1..], tail);
    }
  }
}
