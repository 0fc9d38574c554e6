/** The prior conversation rendered into the prompt of a task that resumes without a session. */
module ResumeTranscript {
  import opened JsText
  import opened Options

  const RESUME_TRANSCRIPT_MAX_CHARS: nat := 24000
  const RESUME_MESSAGE_MAX_CHARS: nat := 2000

  datatype Role = User | Assistant | Other

  /** `content` is `None` when it is not a string. */
  datatype Message = Message(role: Role, content: Option<JsString>)

  predicate Usable(m: Message) {
    !m.role.Other? && m.content.Some? && Trim(m.content.value) != []
  }

  function Truncated(): JsString {
    Units("\n") + [0x2026] + Units("[truncated]")
  }

  function Label(role: Role): JsString
    requires !role.Other?
  {
    if role.User? then Units("[user]\n") else Units("[assistant]\n")
  }

  function Body(content: JsString): JsString {
    if |content| > RESUME_MESSAGE_MAX_CHARS then content[..RESUME_MESSAGE_MAX_CHARS] + Truncated() else content
  }

  function Line(m: Message): JsString
    requires Usable(m)
  {
    Label(m.role) + Body(m.content.value)
  }

  /** One line for each usable message, in order. */
  function Lines(history: seq<Message>): seq<JsString> {
    if history == [] then []
    else
      var before, m := Lines(history[..|history| - 1]), history[|history| - 1];
      if Usable(m) then before + [Line(m)] else before
  }

  /** The room the lines take, a blank line after each. */
  function Size(lines: seq<JsString>): nat {
    if lines == [] then 0 else |lines[0]| + 2 + Size(lines[1..])
  }

  /** From `start` on the lines are the longest suffix that fits. */
  predicate LongestSuffix(lines: seq<JsString>, start: nat) {
    && start < |lines|
    && Size(lines[start..]) <= RESUME_TRANSCRIPT_MAX_CHARS
    && (start > 0 ==> Size(lines[start - 1..]) > RESUME_TRANSCRIPT_MAX_CHARS)
  }

  /** Joined by blank lines. */
  function Joined(lines: seq<JsString>): JsString {
    if lines == [] then []
    else if |lines| == 1 then lines[0]
    else lines[0] + Units("\n\n") + Joined(lines[1..])
  }

  function Decimal(n: nat): JsString {
    (if n < 10 then [] else Decimal(n / 10)) + ['0' as int + n % 10]
  }

  function Omitted(start: nat): JsString {
    if start == 0 then [] else Units("(") + Decimal(start) + Units(" earlier message(s) omitted)\n\n")
  }

  function Heading(): JsString {
    Units("### Prior conversation (task resumed ") + [0x2014] + Units(" do NOT redo completed work)\n")
  }

  lemma SizeOfSuffix(lines: seq<JsString>, start: nat)
    requires start < |lines|
    ensures Size(lines[start..]) == |lines[start]| + 2 + Size(lines[start + 1..])
  {
    assert lines[start..][1..] == lines[start + 1..];
  }

  /** Label, 2000 characters and the truncation mark: no line is longer than 2025 characters. */
  lemma LineLength(m: Message)
    requires Usable(m)
    ensures |Line(m)| <= 2025
  {
  }

  lemma {:induction false} LineLengths(history: seq<Message>)
    ensures forall i :: 0 <= i < |Lines(history)| ==> |Lines(history)[i]| <= 2025
  {
    if history != [] {
      LineLengths(history[..|history| - 1]);
      if Usable(history[|history| - 1]) {
        LineLength(history[|history| - 1]);
      }
    }
  }

  /** The newest messages that fit are kept, with a count of the older ones left out; since a single
      line always fits, the bound holds even when only the last message is kept. */
  method Render(history: seq<Message>) returns (out: JsString)
    ensures var lines := Lines(history);
      if lines == [] then out == []
      else exists start: nat :: LongestSuffix(lines, start)
             && out == Heading() + Omitted(start) + Joined(lines[start..])
  {
    var lines := [];
    for i := 0 to |history|
      invariant lines == Lines(history[..i])
    {
      var m := history[i];
      assert history[..i + 1][..i] == history[..i];
      if m.role != User && m.role != Assistant {
        continue;
      }
      if m.content.None? || Trim(m.content.value) == [] {
        continue;
      }
      lines := lines + [Label(m.role) + Body(m.content.value)];
    }
    assert history[..|history|] == history;
    if |lines| == 0 {
      return [];
    }
    LineLengths(history);
    hide Lines, Size, Joined, Heading, Omitted;
    var start, total := 0, Size(lines);
    assert lines[0..] == lines;
    while total > RESUME_TRANSCRIPT_MAX_CHARS && start < |lines| - 1
      invariant start < |lines| && total == Size(lines[start..])
      invariant start > 0 ==> Size(lines[start - 1..]) > RESUME_TRANSCRIPT_MAX_CHARS
    {
      SizeOfSuffix(lines, start);
      total := total - (|lines[start]| + 2);
      start := start + 1;
    }
    SizeOfSuffix(lines, start);
    SizeOfNothing(lines);
    assert LongestSuffix(lines, start);
    out := Heading() + Omitted(start) + Joined(lines[start..]);
  }

  lemma SizeOfNothing(lines: seq<JsString>)
    ensures Size(lines[|lines|..]) == 0
  {
  }

  /** There is only one longest suffix, so the number left out is determined by the history. */
  lemma LongestSuffixUnique(lines: seq<JsString>, a: nat, b: nat)
    requires LongestSuffix(lines, a) && LongestSuffix(lines, b)
    ensures a == b
  {
    if a < b {
      SizeShrinks(lines, a, b - 1);
    } else if b < a {
      SizeShrinks(lines, b, a - 1);
    }
  }

  lemma {:induction false} SizeShrinks(lines: seq<JsString>, a: nat, b: nat)
    requires a <= b <= |lines|
    ensures Size(lines[b..]) <= Size(lines[a..])
    decreases b - a
  {
    if a < b {
      SizeOfSuffix(lines, a);
      SizeShrinks(lines, a + 1, b);
    }
  }

  /** The kept lines, joined, take two characters less than their size. */
  lemma {:induction false} JoinedLength(lines: seq<JsString>)
    requires lines != []
    ensures |Joined(lines)| == Size(lines) - 2
  {
    if |lines| > 1 {
      JoinedLength(lines[1..]);
    }
  }

  /** What is kept takes 23998 characters at most, and would take more with one more line. */
  lemma KeptLength(lines: seq<JsString>, start: nat)
    requires LongestSuffix(lines, start)
    ensures |Joined(lines[start..])| <= 23998
    ensures start > 0 ==> |Joined(lines[start - 1..])| > 23998
  {
    JoinedLength(lines[start..]);
    if start > 0 { JoinedLength(lines[start - 1..]); }
  }

  /** Joining keeps the order of the lines and puts one blank line between any two of them. */
  lemma {:induction false} JoinedSplits(a: seq<JsString>, b: seq<JsString>)
    requires a != [] && b != []
    ensures |a| == 1 ==> Joined(a) == a[0]
    ensures Joined(a + b) == Joined(a) + [0x0A, 0x0A] + Joined(b)
  {
    assert (a + b)[1..] == a[1..] + b;
    if |a| > 1 {
      JoinedSplits(a[1..], b);
      assert Joined(a + b) == a[0] + Units("\n\n") + (Joined(a[1..]) + [0x0A, 0x0A] + Joined(b));
    }
  }

  /** A message of one of the two parties whose content is a string with more than white space. */
  predicate IsSpoken(m: Message) {
    && (m.role == User || m.role == Assistant)
    && m.content.Some? && exists i :: 0 <= i < |m.content.value| && !IsSpace(m.content.value[i])
  }

  function Spoken(history: seq<Message>): seq<Message> {
    if history == [] then []
    else
      var before, m := Spoken(history[..|history| - 1]), history[|history| - 1];
      if IsSpoken(m) then before + [m] else before
  }

  /** The bracketed role, then the content, or its first 2000 characters and a mark. */
  predicate Quotes(line: JsString, m: Message)
    requires m.content.Some?
  {
    var content, role := m.content.value, if m.role == User then Units("[user]\n") else Units("[assistant]\n");
    if |content| <= 2000 then line == role + content
    else line == role + content[..2000] + [0x0A, 0x2026] + Units("[truncated]")
  }

  lemma {:induction false} OnlySpaceTrimmed(s: JsString)
    ensures TrimStart(s) == [] <==> forall i :: 0 <= i < |s| ==> IsSpace(s[i])
    ensures TrimStart(s) != [] ==> !IsSpace(TrimStart(s)[0])
  {
    if s != [] && IsSpace(s[0]) {
      OnlySpaceTrimmed(s[1..]);
      assert forall i :: 1 <= i < |s| ==> s[i] == s[1..][i - 1];
    }
  }

  lemma {:induction false} EndStops(s: JsString)
    requires s != [] && !IsSpace(s[0])
    ensures TrimEnd(s) != []
  {
    if IsSpace(s[|s| - 1]) { EndStops(s[..|s| - 1]); }
  }

  lemma UsableIsSpoken(m: Message)
    ensures Usable(m) <==> IsSpoken(m)
  {
    if m.content.Some? {
      var start := TrimStart(m.content.value);
      OnlySpaceTrimmed(m.content.value);
      if start != [] { EndStops(start); }
    }
  }

  lemma LineQuotes(m: Message)
    requires Usable(m)
    ensures Quotes(Line(m), m)
  {
    assert Units("\n") + [0x2026] == [0x0A, 0x2026];
  }

  /** The lines quote what was spoken, message by message. */
  lemma {:induction false} LinesQuote(history: seq<Message>)
    ensures |Lines(history)| == |Spoken(history)|
    ensures forall i :: 0 <= i < |Lines(history)| ==>
      IsSpoken(Spoken(history)[i]) && Quotes(Lines(history)[i], Spoken(history)[i])
  {
    if history != [] {
      LinesQuote(history[..|history| - 1]);
      var m := history[|history| - 1];
      UsableIsSpoken(m);
      if Usable(m) { LineQuotes(m); }
      hide IsSpoken, Line, Quotes, Usable;
    }
  }

  /** What a decimal numeral stands for. */
  function Numeral(digits: JsString): int {
    if digits == [] then 0 else 10 * Numeral(digits[..|digits| - 1]) + digits[|digits| - 1] - 0x30
  }

  lemma {:induction false} DecimalReads(n: nat)
    ensures Numeral(Decimal(n)) == n && Decimal(n) != []
    ensures forall i :: 0 <= i < |Decimal(n)| ==> 0x30 <= Decimal(n)[i] <= 0x39
    ensures n > 0 ==> Decimal(n)[0] != 0x30
  {
    if n >= 10 { DecimalReads(n / 10); }
    var digits := Decimal(n);
    assert digits[..|digits| - 1] == if n < 10 then [] else Decimal(n / 10);
  }

  /** If messages are left out their number is told, in decimal digits without a leading zero. */
  lemma OmittedReads(start: nat)
    ensures start == 0 <==> Omitted(start) == []
    ensures start > 0 ==>
      exists digits: JsString :: Numeral(digits) == start && digits != [] && digits[0] != 0x30
        && (forall i :: 0 <= i < |digits| ==> 0x30 <= digits[i] <= 0x39)
        && Omitted(start) == Units("(") + digits + Units(" earlier message(s) omitted)\n\n")
  {
    DecimalReads(start);
  }
}
