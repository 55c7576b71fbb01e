/**
 Stripping terminal control text. The reference is a five-state machine over single characters
 that recognises the control sequences of ECMA-48 (CSI in section 5.4, and the string
 sequences OSC, DCS, APC, PM and SOS); the program itself works with a peekable iterator and
 nested loops.
 */
module Sanitizer {
  const ESC: char := '\U{001B}'
  const BEL: char := '\U{0007}'

  /** Unicode general category Cc. */
  predicate IsControl(c: char) {
    c <= '\U{001F}' || '\U{007F}' <= c <= '\U{009F}'
  }

  predicate ControlFree(s: string) {
    forall i :: 0 <= i < |s| ==> !IsControl(s[i])
  }

  predicate CsiFinal(c: char) {
    '\U{0040}' <= c <= '\U{007E}'
  }

  predicate OpensString(c: char) {
    c == ']' || c == 'P' || c == '_' || c == '^' || c == 'X'
  }

  // ----- The reference machine -----

  /** `Text(true)` follows an ESC that has not yet opened a sequence; `InString(true)` follows an
      ESC inside a string sequence. */
  datatype State = Text(afterEsc: bool) | InCsi | InString(afterEsc: bool)

  const START: State := Text(false)

  function Next(s: State, c: char): State {
    match s
    case Text(true) => if c == '[' then InCsi else if OpensString(c) then InString(false) else Text(c == ESC)
    case Text(false) => Text(c == ESC)
    case InCsi => if CsiFinal(c) then START else InCsi
    case InString(afterEsc) => if c == BEL || (afterEsc && c == '\\') then START else InString(c == ESC)
  }

  function Emit(s: State, c: char): string {
    if !s.Text? || !Next(s, c).Text? || c == ESC then ""
    else if IsControl(c) then " "
    else [c]
  }

  function StateAfter(s: State, input: string): State
    decreases |input|
  {
    if input == [] then s else StateAfter(Next(s, input[0]), input[1..])
  }

  function Run(s: State, input: string): string
    decreases |input|
  {
    if input == [] then "" else Emit(s, input[0]) + Run(Next(s, input[0]), input[1..])
  }

  function Sanitized(input: string): string {
    Run(START, input)
  }

  lemma RunStep(s: State, input: string, pos: nat)
    requires pos <= |input|
    ensures Run(s, input[pos..]) ==
              if pos == |input| then "" else Emit(s, input[pos]) + Run(Next(s, input[pos]), input[pos + 1..])
    ensures input[0..] == input
  {
    if pos < |input| {
      assert input[pos..][1..] == input[pos + 1..];
    }
  }

  // ----- What sanitizing guarantees -----

  lemma {:induction false} OutputIsControlFree(s: State, input: string)
    ensures ControlFree(Run(s, input)) && |Run(s, input)| <= |input|
    decreases |input|
  {
    if input != [] {
      OutputIsControlFree(Next(s, input[0]), input[1..]);
    }
  }

  lemma {:induction false} IdentityOnCleanText(input: string)
    requires ControlFree(input)
    ensures Sanitized(input) == input
  {
    if input != [] {
      assert ControlFree(input[1..]);
      IdentityOnCleanText(input[1..]);
    }
  }

  lemma SanitizingIsIdempotent(input: string)
    ensures Sanitized(Sanitized(input)) == Sanitized(input)
  {
    OutputIsControlFree(START, input);
    IdentityOnCleanText(Sanitized(input));
  }

  /** Reading on: the machine's state is all a continuation depends on. */
  lemma {:induction false} RunConcat(s: State, a: string, b: string)
    ensures Run(s, a + b) == Run(s, a) + Run(StateAfter(s, a), b)
    ensures StateAfter(s, a + b) == StateAfter(StateAfter(s, a), b)
    decreases |a|
  {
    hide Next, Emit;
    if a == [] {
      assert a + b == b;
    } else {
      assert (a + b)[1..] == a[1..] + b;
      RunConcat(Next(s, a[0]), a[1..], b);
    }
  }

  /** Sanitizing distributes over everything that may follow a text exactly when the text ends
      outside any sequence, started or merely announced by an ESC. */
  lemma DistributesIffEndsInText(a: string)
    ensures (forall b :: Sanitized(a + b) == Sanitized(a) + Sanitized(b)) <==> StateAfter(START, a) == START
  {
    forall b ensures Sanitized(a + b) == Sanitized(a) + Run(StateAfter(START, a), b) {
      RunConcat(START, a, b);
    }
    var s := StateAfter(START, a);
    if s != START {
      var probe := if s == Text(true) then "[" else if s.InCsi? then "@" else [BEL];
      RunStep(s, probe, 0);
      RunStep(START, probe, 0);
      assert Sanitized(a + probe) != Sanitized(a) + Sanitized(probe);
    }
  }

  /** In particular after any text without an ESC. */
  lemma {:induction false} EscFreeTextEndsInText(a: string)
    requires ESC !in a
    ensures StateAfter(START, a) == START
  {
    if a != [] {
      EscFreeTextEndsInText(a[1..]);
    }
  }

  // ----- The sequences, written out -----

  /** A character outside any sequence: a control character becomes a space, any other stays. */
  lemma CharacterBecomes(c: char, rest: string)
    requires c != '\U{001B}'
    ensures Sanitized([c] + rest) ==
              (if c <= '\U{001F}' || '\U{007F}' <= c <= '\U{009F}' then " " else [c]) + Sanitized(rest)
  {
    assert ([c] + rest)[1..] == rest;
  }

  /** ESC [ parameters final: gone, with everything up to the first byte from 0x40 to 0x7E. */
  lemma {:induction false} CsiIsRemoved(params: string, final: char, rest: string)
    requires forall i :: 0 <= i < |params| ==> !('@' <= params[i] <= '~')
    requires '@' <= final <= '~'
    ensures Sanitized("\U{001B}[" + params + [final] + rest) == Sanitized(rest)
    ensures Sanitized("\U{001B}[" + params) == ""
  {
    hide Run;
    CsiBody(params, [final] + rest);
    CsiBody(params, "");
    assert params + "" == params;
    RunStep(InCsi, [final] + rest, 0);
    RunStep(InCsi, "", 0);
    assert ([final] + rest)[1..] == rest && ([final] + rest)[0..] == [final] + rest;
    assert "\U{001B}[" + params + [final] + rest == "\U{001B}[" + (params + ([final] + rest));
    assert "\U{001B}[" == "\U{001B}" + ['['];
    Opened('[', params + ([final] + rest));
    Opened('[', params);
  }

  lemma {:induction false} CsiBody(params: string, rest: string)
    requires forall i :: 0 <= i < |params| ==> !('@' <= params[i] <= '~')
    ensures Run(InCsi, params + rest) == Run(InCsi, rest)
    decreases |params|
  {
    if params == [] {
      assert params + rest == rest;
    } else {
      assert (params + rest)[1..] == params[1..] + rest;
      CsiBody(params[1..], rest);
    }
  }

  /** What an ESC and the character after it lead to. */
  lemma Opened(c: char, rest: string)
    ensures c == '[' ==> Sanitized("\U{001B}" + [c] + rest) == Run(InCsi, rest)
    ensures c == ']' || c == 'P' || c == '_' || c == '^' || c == 'X' ==>
              Sanitized("\U{001B}" + [c] + rest) == Run(InString(false), rest)
    ensures !(c == '[' || c == ']' || c == 'P' || c == '_' || c == '^' || c == 'X') ==>
              Sanitized("\U{001B}" + [c] + rest) == Sanitized([c] + rest)
    ensures Sanitized("\U{001B}") == ""
  {
    hide Run;
    var text := "\U{001B}" + [c] + rest;
    assert text[2..] == rest && text[1..] == [c] + rest && text[0..] == text && text[1] == c;
    EscStep(text, 0);
    EscStep("\U{001B}", 0);
    RunStep(START, "\U{001B}", 0);
    RunStep(START, "\U{001B}", 1);
  }

  /** ESC and one of ] P _ ^ X: gone up to the first BEL or ESC \, or to the end. */
  lemma StringIsRemoved(opener: char, body: string, rest: string)
    requires opener == ']' || opener == 'P' || opener == '_' || opener == '^' || opener == 'X'
    requires '\U{0007}' !in body && forall i :: 0 < i < |body| ==> !(body[i - 1] == '\U{001B}' && body[i] == '\\')
    ensures Sanitized("\U{001B}" + [opener] + body + "\U{0007}" + rest) == Sanitized(rest)
    ensures body == [] || body[|body| - 1] != '\U{001B}' ==>
              Sanitized("\U{001B}" + [opener] + body + "\U{001B}\\" + rest) == Sanitized(rest)
    ensures Sanitized("\U{001B}" + [opener] + body) == ""
  {
    hide Run;
    var bel, st := "\U{0007}" + rest, "\U{001B}\\" + rest;
    assert "\U{001B}" + [opener] + body + "\U{0007}" + rest == "\U{001B}" + [opener] + (body + bel);
    assert "\U{001B}" + [opener] + body + "\U{001B}\\" + rest == "\U{001B}" + [opener] + (body + st);
    Opened(opener, body + bel);
    Opened(opener, body + st);
    Opened(opener, body);
    assert body + "" == body;
    StringBody(false, body, "");
    StringBody(false, body, bel);
    StringBody(false, body, st);
    StringEnds(EndsInEsc(false, body), rest);
  }

  predicate EndsInEsc(afterEsc: bool, body: string) {
    if body == [] then afterEsc else body[|body| - 1] == ESC
  }

  lemma {:induction false} StringBody(afterEsc: bool, body: string, rest: string)
    requires BEL !in body && forall i :: 0 < i < |body| ==> !(body[i - 1] == ESC && body[i] == '\\')
    requires afterEsc && body != [] ==> body[0] != '\\'
    ensures Run(InString(afterEsc), body + rest) == Run(InString(EndsInEsc(afterEsc, body)), rest)
    decreases |body|
  {
    if body == [] {
      assert body + rest == rest;
    } else {
      assert (body + rest)[1..] == body[1..] + rest;
      StringBody(body[0] == ESC, body[1..], rest);
    }
  }

  lemma StringEnds(afterEsc: bool, rest: string)
    ensures Run(InString(afterEsc), "\U{0007}" + rest) == Run(START, rest)
    ensures Run(InString(afterEsc), "\U{001B}\\" + rest) == Run(START, rest)
    ensures Run(InString(afterEsc), "") == ""
  {
    var bel, st := "\U{0007}" + rest, "\U{001B}\\" + rest;
    assert bel[1..] == rest && st[1..][1..] == rest && st[1..][0] == '\\';
  }

  // ----- The program -----

  /** The inner loop of a CSI sequence: stops after the first final byte. */
  method SkipCsi(input: string, start: nat) returns (pos: nat)
    requires start <= |input|
    ensures start <= pos <= |input|
    ensures Run(InCsi, input[start..]) == Run(START, input[pos..])
  {
    pos := start;
    while pos < |input|
      invariant start <= pos <= |input|
      invariant Run(InCsi, input[start..]) == Run(InCsi, input[pos..])
    {
      var c := input[pos];
      RunStep(InCsi, input, pos);
      pos := pos + 1;
      if CsiFinal(c) {
        return;
      }
    }
  }

  /** The inner loop of a string sequence: stops after BEL or ESC \. */
  method SkipString(input: string, start: nat) returns (pos: nat)
    requires start <= |input|
    ensures start <= pos <= |input|
    ensures Run(InString(false), input[start..]) == Run(START, input[pos..])
  {
    pos := start;
    var prev := '\U{0000}';
    while pos < |input|
      invariant start <= pos <= |input|
      invariant Run(InString(false), input[start..]) == Run(InString(prev == ESC), input[pos..])
    {
      var c := input[pos];
      RunStep(InString(prev == ESC), input, pos);
      pos := pos + 1;
      if c == BEL || (prev == ESC && c == '\\') {
        return;
      }
      prev := c;
    }
  }

  /** One character outside any sequence. */
  lemma PlainStep(input: string, pos: nat)
    requires pos < |input| && input[pos] != ESC
    ensures Run(START, input[pos..]) ==
              (if IsControl(input[pos]) then " " else [input[pos]]) + Run(START, input[pos + 1..])
  {
    hide Run;
    RunStep(START, input, pos);
  }

  /** The four ways on after an ESC: the end, a CSI sequence, a string sequence, or neither. */
  lemma EscStep(input: string, pos: nat)
    requires pos < |input| && input[pos] == ESC
    ensures Run(START, input[pos..]) ==
              if pos + 1 < |input| && input[pos + 1] == '[' then Run(InCsi, input[pos + 2..])
              else if pos + 1 < |input| && OpensString(input[pos + 1]) then Run(InString(false), input[pos + 2..])
              else Run(START, input[pos + 1..])
  {
    hide Run;
    RunStep(START, input, pos);
    RunStep(Text(true), input, pos + 1);
    RunStep(START, input, pos + 1);
  }

  /** sanitize_for_terminal. */
  method SanitizeForTerminal(input: string) returns (result: string)
    ensures result == Sanitized(input)
    ensures ControlFree(result) && |result| <= |input|
  {
    hide Run, IsControl, OpensString, ControlFree;
    result := "";
    var pos := 0;
    assert input[0..] == input;
    while pos < |input|
      invariant pos <= |input|
      invariant Sanitized(input) == result + Run(START, input[pos..])
      decreases |input| - pos
    {
      var c := input[pos];
      if c == ESC {
        EscStep(input, pos);
      } else {
        PlainStep(input, pos);
      }
      pos := pos + 1;
      if c == ESC {
        if pos < |input| {
          if input[pos] == '[' {
            pos := SkipCsi(input, pos + 1);
          } else if OpensString(input[pos]) {
            pos := SkipString(input, pos + 1);
          }
        }
        continue;
      }
      result := result + if IsControl(c) then " " else [c];
    }
    RunStep(START, input, pos);
    OutputIsControlFree(START, input);
  }

  const MAX_REASON_CHARS: nat := 4096

  /** truncate_chars: when cut, the last three characters are dots. */
  function TruncateChars(s: string, maxLen: nat): string {
    if |s| <= maxLen then s
    else s[..if maxLen < 3 then 0 else maxLen - 3] + "..."
  }

  lemma TruncationIsBounded(s: string, maxLen: nat)
    ensures |TruncateChars(s, maxLen)| <= maxLen <==> |s| <= maxLen || maxLen >= 3
    ensures ControlFree(s) ==> ControlFree(TruncateChars(s, maxLen))
    ensures |s| <= maxLen ==> TruncateChars(s, maxLen) == s
    ensures |s| > maxLen >= 3 ==> TruncateChars(s, maxLen) == s[..maxLen - 3] + "..."
    ensures |s| > maxLen && maxLen < 3 ==> TruncateChars(s, maxLen) == "..."
  {
  }

  /** sanitize_reason_for_terminal. */
  method SanitizeReason(input: string) returns (result: string)
    ensures result == TruncateChars(Sanitized(input), MAX_REASON_CHARS)
    ensures ControlFree(result) && |result| <= MAX_REASON_CHARS
    ensures result == if |Sanitized(input)| <= 4096 then Sanitized(input) else Sanitized(input)[..4093] + "..."
  {
    var sanitized := SanitizeForTerminal(input);
    TruncationIsBounded(sanitized, MAX_REASON_CHARS);
    return TruncateChars(sanitized, MAX_REASON_CHARS);
  }
}
