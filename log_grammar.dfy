/** The log-line grammar of the philosophers program's output (main.py:12):
      ^([0-9]+)\s([0-9]+)\s\s(is thinking|is sleeping|has taken a fork|is eating|died)$
    searched with Python's `re.search`. Without the MULTILINE flag `^` only
    matches at the start of the line, and `$` matches at the end of the line or
    just before a single final "\n". `\s` is any one of Python's 29 Unicode
    whitespace characters, "\n" included. */
module LogGrammar {
  import opened Wrappers
  import opened Text

  /** The five actions, normalised from their log phrases (main.py:313-317). */
  datatype Action = Think | Sleep | Fork | Eat | Died

  /** One decoded log line: timestamp, philosopher id, action (main.py:309-311). */
  datatype Event = Event(time: nat, id: nat, action: Action)

  /** The phrase each action is printed as. */
  function PhraseText(a: Action): string {
    match a
    case Think => "is thinking"
    case Sleep => "is sleeping"
    case Fork => "has taken a fork"
    case Eat => "is eating"
    case Died => "died"
  }

  /** The alternatives of the third group, in the order the pattern lists them. */
  const Alternatives: seq<Action> := [Think, Sleep, Fork, Eat, Died]

  /** The characters Python's `\s` matches in a `str` pattern. */
  predicate IsSpace(c: char) {
    var k := c as int;
    (0x09 <= k <= 0x0D) || (0x1C <= k <= 0x20) || k == 0x85 || k == 0xA0 ||
    k == 0x1680 || (0x2000 <= k <= 0x200A) || k == 0x2028 || k == 0x2029 ||
    k == 0x202F || k == 0x205F || k == 0x3000
  }

  /** What `$` lets through after the phrase: nothing, or one final newline. */
  function EndText(newline: bool): string {
    if newline then "\n" else ""
  }

  /** The parts of a line the pattern matches, one per pattern element. */
  datatype LineShape = LineShape(
    time: string, sep: char, id: string, gap1: char, gap2: char,
    action: Action, newline: bool)

  predicate WellFormed(sh: LineShape) {
    |sh.time| > 0 && AllDigits(sh.time) && IsSpace(sh.sep) &&
    |sh.id| > 0 && AllDigits(sh.id) && IsSpace(sh.gap1) && IsSpace(sh.gap2)
  }

  /** The text a shape stands for: timestamp, separator, then the rest. */
  function Render(sh: LineShape): string {
    sh.time + [sh.sep] + RenderRest(sh)
  }

  /** The id, the two gap characters, the phrase and the optional newline. */
  function RenderRest(sh: LineShape): string {
    sh.id + [sh.gap1, sh.gap2] + RenderTail(sh)
  }

  function RenderTail(sh: LineShape): string {
    PhraseText(sh.action) + EndText(sh.newline)
  }

  /** The length of the longest run of ASCII digits at the start of `s`: what the
      greedy `[0-9]+` consumes (it never gives a digit back, since `\s` after it
      cannot match a digit). */
  function LeadingDigits(s: string): (n: nat)
    ensures n <= |s| && AllDigits(s[..n])
    ensures n < |s| ==> !IsDigit(s[n])
  {
    if s == [] || !IsDigit(s[0]) then 0
    else
      var m := LeadingDigits(s[1..]);
      assert s[..m + 1] == [s[0]] + s[1..][..m];
      m + 1
  }

  /** `(phrase)$` on the rest of the line, trying the given alternatives in order. */
  function MatchTail(s: string, alts: seq<Action>): (r: Option<(Action, bool)>)
    ensures r.Some? ==> r.value.0 in alts && s == PhraseText(r.value.0) + EndText(r.value.1)
  {
    if alts == [] then None
    else if s == PhraseText(alts[0]) then Some((alts[0], false))
    else if s == PhraseText(alts[0]) + "\n" then Some((alts[0], true))
    else MatchTail(s, alts[1..])
  }

  /** The anchored match of the whole pattern against one line: the first
      digit run and the whitespace character after it. */
  function Parse(line: string): (r: Option<LineShape>)
    ensures r.Some? ==> WellFormed(r.value) && Render(r.value) == line
  {
    var n := LeadingDigits(line);
    if n == 0 || n == |line| || !IsSpace(line[n]) then None
    else
      assert line == line[..n] + [line[n]] + line[n + 1..];
      ParseRest(line[..n], line[n], line[n + 1..])
  }

  /** The rest of the match, once the timestamp and its separator are read:
      the second digit run, two whitespace characters, then `(phrase)$`. */
  function ParseRest(time: string, sep: char, rest: string): (r: Option<LineShape>)
    requires |time| > 0 && AllDigits(time) && IsSpace(sep)
    ensures r.Some? ==> WellFormed(r.value) && Render(r.value) == time + [sep] + rest
  {
    var m := LeadingDigits(rest);
    if m == 0 || m + 2 > |rest| || !IsSpace(rest[m]) || !IsSpace(rest[m + 1]) then None
    else
      var tail := MatchTail(rest[m + 2..], Alternatives);
      if tail.None? then None
      else
        assert rest == rest[..m] + [rest[m], rest[m + 1]] + rest[m + 2..];
        Some(LineShape(time, sep, rest[..m], rest[m], rest[m + 1], tail.value.0, tail.value.1))
  }

  /** `re.search(log_regex, line) != None` (main.py:18-19, 305-306). */
  predicate Matches(line: string) {
    Parse(line).Some?
  }

  /** The decoded event of a matching line, `int()` applied to both groups. */
  function Decode(line: string): (r: Option<Event>)
    ensures r.Some? <==> Matches(line)
  {
    match Parse(line)
    case None => None
    case Some(sh) => Some(Event(DigitsValue(sh.time), DigitsValue(sh.id), sh.action))
  }

  lemma {:induction false} LeadingDigitsOfNumeral(d: string, tail: string)
    requires AllDigits(d)
    requires tail == [] || !IsDigit(tail[0])
    ensures LeadingDigits(d + tail) == |d|
  {
    if d != [] {
      assert (d + tail)[1..] == d[1..] + tail;
      LeadingDigitsOfNumeral(d[1..], tail);
    } else {
      assert d + tail == tail;
    }
  }

  lemma {:induction false} MatchTailFinds(a: Action, nl: bool, alts: seq<Action>)
    requires a in alts
    ensures MatchTail(PhraseText(a) + EndText(nl), alts) == Some((a, nl))
  {
    var s := PhraseText(a) + EndText(nl);
    if s == PhraseText(alts[0]) {
      PhraseInjective(a, nl, alts[0], false);
    } else if s == PhraseText(alts[0]) + "\n" {
      PhraseInjective(a, nl, alts[0], true);
    } else {
      MatchTailFinds(a, nl, alts[1..]);
    }
  }

  /** No phrase, with or without the newline, is another one's text. */
  lemma PhraseInjective(a: Action, nl: bool, b: Action, nl': bool)
    requires PhraseText(a) + EndText(nl) == PhraseText(b) + EndText(nl')
    ensures a == b && nl == nl'
  {
    var s := PhraseText(a) + EndText(nl);
    assert s[|s| - 1] == '\n' <==> nl;
    assert s[|s| - 1] == '\n' <==> nl';
    assert nl == nl';
    assert PhraseText(a) == s[..|s| - |EndText(nl)|];
    assert PhraseText(b) == s[..|s| - |EndText(nl)|];
    assert PhraseText(a)[3] == PhraseText(b)[3];
  }

  /** Every line built by the grammar is accepted and split back into exactly
      the parts it was built from. */
  lemma ParseRender(sh: LineShape)
    requires WellFormed(sh)
    ensures Parse(Render(sh)) == Some(sh)
  {
    var line, rest := Render(sh), RenderRest(sh);
    SplitAround(sh.time, [sh.sep], rest);
    LeadingDigitsOfNumeral(sh.time, [sh.sep] + rest);
    assert line[|sh.time|] == sh.sep;
    ParseRestRender(sh);
    ParseOf(sh, line);
  }

  lemma ParseOf(sh: LineShape, line: string)
    requires WellFormed(sh)
    requires LeadingDigits(line) == |sh.time| && |sh.time| < |line|
    requires line[..|sh.time|] == sh.time && line[|sh.time|] == sh.sep
    requires ParseRest(sh.time, sh.sep, line[|sh.time| + 1..]) == Some(sh)
    ensures Parse(line) == Some(sh)
  {
  }

  lemma ParseRestRender(sh: LineShape)
    requires WellFormed(sh)
    ensures ParseRest(sh.time, sh.sep, RenderRest(sh)) == Some(sh)
  {
    var rest, tail := RenderRest(sh), RenderTail(sh);
    var m := |sh.id|;
    SplitAround(sh.id, [sh.gap1, sh.gap2], tail);
    LeadingDigitsOfNumeral(sh.id, [sh.gap1, sh.gap2] + tail);
    assert rest[m] == sh.gap1 && rest[m + 1] == sh.gap2;
    MatchTailFinds(sh.action, sh.newline, Alternatives);
    ParseRestOf(sh, rest);
  }

  lemma ParseRestOf(sh: LineShape, rest: string)
    requires WellFormed(sh)
    requires LeadingDigits(rest) == |sh.id| && |sh.id| + 2 <= |rest| && rest[..|sh.id|] == sh.id
    requires rest[|sh.id|] == sh.gap1 && rest[|sh.id| + 1] == sh.gap2
    requires MatchTail(rest[|sh.id| + 2..], Alternatives) == Some((sh.action, sh.newline))
    ensures ParseRest(sh.time, sh.sep, rest) == Some(sh)
  {
  }

  /** Cutting `a + b + c` around its middle part. */
  lemma SplitAround(a: string, b: string, c: string)
    ensures (a + b + c)[..|a|] == a
    ensures (a + b + c)[|a|..] == b + c
    ensures (a + b + c)[|a| + |b|..] == c
    ensures a + b + c == a + (b + c)
  {
  }

  /** A line is accepted exactly when it is digits, one whitespace character,
      digits, two whitespace characters and one of the five phrases, followed
      by nothing or by a single final newline. */
  lemma MatchesIff(line: string)
    ensures Matches(line) <==> exists sh :: WellFormed(sh) && Render(sh) == line
  {
    if sh :| WellFormed(sh) && Render(sh) == line {
      ParseRender(sh);
    }
  }

  /** With a single whitespace character between the id and the phrase, no
      line matches, whatever the numbers and the phrase. */
  lemma SingleGapRejected(time: string, id: string, a: Action, nl: bool)
    requires |time| > 0 && AllDigits(time) && |id| > 0 && AllDigits(id)
    ensures !Matches(time + " " + id + " " + RenderTailOf(a, nl))
  {
    var tail := RenderTailOf(a, nl);
    var rest := id + " " + tail;
    var line := time + " " + rest;
    assert line == time + " " + id + " " + tail;
    AfterTime(time, rest);
    SingleGapAfterId(id, a, nl);
    SingleGapRest(time, rest, |id|);
    ParseAfterTime(line, |time|);
  }

  /** The digit run of a line that starts with a numeral and a space. */
  lemma AfterTime(time: string, rest: string)
    requires |time| > 0 && AllDigits(time)
    ensures var line := time + " " + rest;
      LeadingDigits(line) == |time| && |time| < |line| &&
      line[..|time|] == time && line[|time|] == ' ' && line[|time| + 1..] == rest
  {
    SplitAround(time, " ", rest);
    LeadingDigitsOfNumeral(time, " " + rest);
  }

  /** After the id and one space comes the phrase's first letter. */
  lemma SingleGapAfterId(id: string, a: Action, nl: bool)
    requires AllDigits(id)
    ensures var rest := id + " " + RenderTailOf(a, nl);
      LeadingDigits(rest) == |id| && |id| + 2 <= |rest| && !IsSpace(rest[|id| + 1])
  {
    var tail := RenderTailOf(a, nl);
    var rest := id + " " + tail;
    SplitAround(id, " ", tail);
    LeadingDigitsOfNumeral(id, " " + tail);
    assert rest[|id| + 1] == tail[0] == PhraseText(a)[0];
    PhraseStartsWithLetter(a);
  }

  lemma PhraseStartsWithLetter(a: Action)
    ensures !IsSpace(PhraseText(a)[0])
  {
    match a
    case Think =>
    case Sleep =>
    case Fork =>
    case Eat =>
    case Died =>
  }

  lemma ParseAfterTime(line: string, n: nat)
    requires LeadingDigits(line) == n && 0 < n < |line| && IsSpace(line[n])
    ensures Parse(line) == ParseRest(line[..n], line[n], line[n + 1..])
  {
  }

  lemma SingleGapRest(time: string, rest: string, m: nat)
    requires |time| > 0 && AllDigits(time)
    requires LeadingDigits(rest) == m && m + 2 <= |rest| && !IsSpace(rest[m + 1])
    ensures ParseRest(time, ' ', rest) == None
  {
  }

  /** The phrase and the optional newline. */
  function RenderTailOf(a: Action, nl: bool): string {
    PhraseText(a) + EndText(nl)
  }

  /** The line the philosophers program prints for an event. */
  function Format(e: Event): string {
    NatToString(e.time) + " " + NatToString(e.id) + "  " + PhraseText(e.action)
  }

  /** Decoding a printed event, with or without its newline, gives the event back. */
  lemma DecodeFormat(e: Event, newline: bool)
    ensures Decode(Format(e) + EndText(newline)) == Some(e)
  {
    var sh := PrintedShape(e, newline);
    FormatRender(e, newline);
    ParseRender(sh);
    DigitsValueOfNatToString(e.time);
    DigitsValueOfNatToString(e.id);
    DecodeOf(Format(e) + EndText(newline), sh);
  }

  /** The parts of a printed line: single spaces for the three gap characters. */
  function PrintedShape(e: Event, newline: bool): LineShape {
    LineShape(NatToString(e.time), ' ', NatToString(e.id), ' ', ' ', e.action, newline)
  }

  lemma FormatRender(e: Event, newline: bool)
    ensures Render(PrintedShape(e, newline)) == Format(e) + EndText(newline)
  {
    var sh := PrintedShape(e, newline);
    SplitAround(NatToString(e.time), " ", RenderRest(sh));
  }

  lemma DecodeOf(line: string, sh: LineShape)
    requires Parse(line) == Some(sh)
    ensures Decode(line) == Some(Event(DigitsValue(sh.time), DigitsValue(sh.id), sh.action))
  {
  }
}
