/**
 * Reading a rendered episode back into its turns (internal/distill/distill.go).
 *
 * Scan is the reader's loop as the source runs it, with its section, current
 * turn and body variables. Segments is the reference: which lines of a file
 * belong to which turn, said without any of that state.
 */
module EpisodeParser {
  import opened Wrappers
  import opened Text

  datatype Turn = Turn(index: int, timestamp: string, text: string)

  datatype Episode = Episode(id: string, users: seq<Turn>, assistants: seq<Turn>)

  datatype Section = Outside | User | Assistant

  const RULE := "---"
  const USER_HEAD := "## User messages (verbatim)"
  const ASSISTANT_HEAD := "## Assistant responses (verbatim)"
  const MAX_INT := 0x7FFF_FFFF_FFFF_FFFF
  const MAX_LINE_BYTES := 0x100_0000

  // ------------------------------------------------------------ the two regular expressions

  /** \s in Go's regexp: ASCII white space without the vertical tab. */
  predicate ReSpace(c: char) {
    c == ' ' || c == '\t' || c == '\n' || c == '\U{0C}' || c == '\r'
  }

  predicate NotReSpace(c: char) {
    !ReSpace(c)
  }

  predicate Digit(c: char) {
    '0' <= c <= '9'
  }

  /** The length of the longest prefix of s whose characters all satisfy p. */
  function Span(p: char -> bool, s: string): (n: nat)
    ensures n <= |s|
  {
    if s != "" && p(s[0]) then 1 + Span(p, s[1..]) else 0
  }

  function Spaces(s: string): (n: nat) ensures n <= |s| { Span(ReSpace, s) }
  function Digits(s: string): (n: nat) ensures n <= |s| { Span(Digit, s) }
  function Word(s: string): (n: nat) ensures n <= |s| { Span(NotReSpace, s) }

  /** idLineRe: ^id:\s*(\S+). */
  function IdLine(line: string): Option<string> {
    if !HasPrefix(line, "id:") then None
    else
      var rest := line[3..];
      var value := rest[Spaces(rest)..];
      if Word(value) == 0 then None else Some(value[..Word(value)])
  }

  /** The part of turnHeadRe after the digits: white space, a dash, white space and the word. */
  function DashWord(s: string): Option<string> {
    var d := s[Spaces(s)..];
    if Spaces(s) == 0 || d == "" || (d[0] != '—' && d[0] != '-') then None
    else
      var e := d[1..];
      var f := e[Spaces(e)..];
      if Spaces(e) == 0 || Word(f) == 0 then None else Some(f[..Word(f)])
  }

  /**
   * turnHeadRe: ^###\s+(\d+)\s+[—-]\s+(\S+), as the digits and the timestamp. Neighbouring
   * classes have no character in common, so the longest run at each step is the only match.
   */
  function TurnHead(line: string): Option<(string, string)> {
    if !HasPrefix(line, "###") then None
    else
      var a := line[3..];
      var b := a[Spaces(a)..];
      if Spaces(a) == 0 || Digits(b) == 0 then None
      else
        match DashWord(b[Digits(b)..])
        case None => None
        case Some(word) => Some((b[..Digits(b)], word))
  }

  /** The number a string of digits denotes. */
  function Number(digits: string): int {
    if digits == "" then 0 else 10 * Number(digits[..|digits| - 1]) + (digits[|digits| - 1] as int - '0' as int)
  }

  /** strconv.Atoi on a string of digits: only the range can fail. */
  function Atoi(digits: string): Option<int> {
    if Number(digits) <= MAX_INT then Some(Number(digits)) else None
  }

  // ------------------------------------------------------------ what the expressions match

  lemma {:induction false} SpanOfRun(p: char -> bool, a: string, b: string)
    requires forall i | 0 <= i < |a| :: p(a[i])
    requires b == "" || !p(b[0])
    ensures Span(p, a + b) == |a|
  {
    if a == "" {
      assert a + b == b;
    } else {
      assert (a + b)[1..] == a[1..] + b;
      SpanOfRun(p, a[1..], b);
    }
  }

  lemma {:induction false} SpanSatisfies(p: char -> bool, s: string)
    ensures forall i | 0 <= i < Span(p, s) :: p(s[i])
  {
    if s != "" && p(s[0]) {
      SpanSatisfies(p, s[1..]);
      assert forall i | 1 <= i < |s| :: s[i] == s[1..][i - 1];
    }
  }

  lemma {:induction false} SpanEnds(p: char -> bool, s: string)
    ensures Span(p, s) < |s| ==> !p(s[Span(p, s)])
  {
    if s != "" && p(s[0]) {
      SpanEnds(p, s[1..]);
    }
  }

  /** One or more characters of the class the expressions write \s. */
  ghost predicate Gap(s: string) {
    s != "" && forall i | 0 <= i < |s| :: s[i] in " \t\n\U{0C}\r"
  }

  ghost predicate AllDigits(s: string) {
    s != "" && forall i | 0 <= i < |s| :: '0' <= s[i] <= '9'
  }

  /** A word up to the white space after it, or to the end. */
  ghost predicate WordThen(word: string, tail: string) {
    && word != "" && (forall i | 0 <= i < |word| :: word[i] !in " \t\n\U{0C}\r")
    && (tail == "" || tail[0] in " \t\n\U{0C}\r")
  }

  /** Every line of the form of a turn header is read as its digits and its word. */
  lemma HeadIsMatched(a: string, digits: string, b: string, dash: char, c: string, word: string, tail: string)
    requires Gap(a) && AllDigits(digits) && Gap(b) && (dash == '—' || dash == '-') && Gap(c) && WordThen(word, tail)
    ensures TurnHead("###" + (a + (digits + (b + ([dash] + (c + (word + tail))))))) == Some((digits, word))
  {
    hide Spaces;
    hide Digits;
    hide Word;
    var f := word + tail;
    var e := c + f;
    var d := [dash] + e;
    var c' := b + d;
    var b' := digits + c';
    var a' := a + b';
    var line := "###" + a';
    SpacesThen(a, b');
    DigitsEnd(digits, c');
    SpacesThen(b, d);
    SpacesThen(c, f);
    WordOf(word, tail);
    assert line[..3] == "###" && line[3..] == a' && a'[|a|..] == b' && b'[..|digits|] == digits && b'[|digits|..] == c';
    assert c'[|b|..] == d && d[0] == dash && d[1..] == e && e[|c|..] == f && f[..|word|] == word;
  }

  lemma SpacesThen(gap: string, rest: string)
    requires Gap(gap) && rest != "" && !ReSpace(rest[0])
    ensures Spaces(gap + rest) == |gap|
  {
    SpanOfRun(ReSpace, gap, rest);
  }

  lemma DigitsEnd(digits: string, rest: string)
    requires AllDigits(digits) && rest != "" && !Digit(rest[0])
    ensures Digits(digits + rest) == |digits|
  {
    SpanOfRun(Digit, digits, rest);
  }

  lemma WordOf(word: string, tail: string)
    requires WordThen(word, tail)
    ensures Word(word + tail) == |word|
  {
    SpanOfRun(NotReSpace, word, tail);
  }

  lemma Splits(s: string, n: nat)
    requires n <= |s|
    ensures s == s[..n] + s[n..]
  {
  }

  /** What a line that is read as a turn header holds from the digits on. */
  lemma HeadDigits(line: string) returns (a: string, digits: string, rest: string)
    requires TurnHead(line).Some?
    ensures line == "###" + (a + (digits + rest)) && Gap(a) && AllDigits(digits)
    ensures TurnHead(line) == match DashWord(rest) case None => None case Some(word) => Some((digits, word))
  {
    hide Digits;
    hide Spaces;
    hide Word;
    var a' := line[3..];
    var b' := a'[Spaces(a')..];
    a, digits, rest := a'[..Spaces(a')], b'[..Digits(b')], b'[Digits(b')..];
    LeadingGap(a');
    LeadingDigits(b');
    hide Gap;
    hide AllDigits;
    Splits(line, 3);
    Splits(a', Spaces(a'));
    Splits(b', Digits(b'));
  }

  lemma DashWordIs(s: string) returns (b: string, dash: char, c: string, tail: string)
    requires DashWord(s).Some?
    ensures s == b + ([dash] + (c + (DashWord(s).value + tail)))
    ensures Gap(b) && (dash == '—' || dash == '-') && Gap(c) && WordThen(DashWord(s).value, tail)
  {
    hide Spaces;
    hide Word;
    var d := s[Spaces(s)..];
    var e := d[1..];
    var f := e[Spaces(e)..];
    b, dash, c, tail := s[..Spaces(s)], d[0], e[..Spaces(e)], f[Word(f)..];
    LeadingGap(s);
    LeadingGap(e);
    LeadingWord(f);
    hide Gap;
    hide WordThen;
    Splits(s, Spaces(s));
    assert d == [dash] + e;
    Splits(e, Spaces(e));
    Splits(f, Word(f));
  }

  /** And only such lines are read as a turn header. */
  lemma HeadMatches(line: string) returns (a: string, b: string, dash: char, c: string, tail: string)
    requires TurnHead(line).Some?
    ensures var (digits, word) := TurnHead(line).value;
            && line == "###" + (a + (digits + (b + ([dash] + (c + (word + tail))))))
            && Gap(a) && AllDigits(digits) && Gap(b) && (dash == '—' || dash == '-') && Gap(c) && WordThen(word, tail)
  {
    hide Gap;
    hide AllDigits;
    hide WordThen;
    hide DashWord;
    var digits, rest;
    a, digits, rest := HeadDigits(line);
    hide TurnHead;
    b, dash, c, tail := DashWordIs(rest);
  }

  lemma LeadingGap(s: string)
    requires Spaces(s) > 0
    ensures Gap(s[..Spaces(s)])
  {
    SpanSatisfies(ReSpace, s);
  }

  lemma LeadingDigits(s: string)
    requires Digits(s) > 0
    ensures AllDigits(s[..Digits(s)])
  {
    SpanSatisfies(Digit, s);
  }

  lemma LeadingWord(s: string)
    requires Word(s) > 0
    ensures WordThen(s[..Word(s)], s[Word(s)..])
  {
    SpanSatisfies(NotReSpace, s);
    SpanEnds(NotReSpace, s);
  }

  /** Every line of the form of an id line is read as its first word, with or without white space before it. */
  lemma IdIsMatched(gap: string, word: string, tail: string)
    requires (gap == "" || Gap(gap)) && WordThen(word, tail)
    ensures IdLine("id:" + (gap + (word + tail))) == Some(word)
  {
    var rest := gap + (word + tail);
    var line := "id:" + rest;
    assert line[..3] == "id:" && line[3..] == rest;
    SpanOfRun(ReSpace, gap, word + tail);
    WordOf(word, tail);
    assert rest[|gap|..] == word + tail && (word + tail)[..|word|] == word;
  }

  lemma IdMatches(line: string) returns (gap: string, tail: string)
    requires IdLine(line).Some?
    ensures line == "id:" + (gap + (IdLine(line).value + tail)) && (gap == "" || Gap(gap)) && WordThen(IdLine(line).value, tail)
  {
    var rest := line[3..];
    var value := rest[Spaces(rest)..];
    gap, tail := rest[..Spaces(rest)], value[Word(value)..];
    SpanSatisfies(ReSpace, rest);
    LeadingWord(value);
    Splits(line, 3);
    Splits(rest, Spaces(rest));
    Splits(value, Word(value));
  }

  // ------------------------------------------------------------ lines

  function Utf8Bytes(s: string): nat {
    if s == "" then 0
    else (if s[0] < '\U{80}' then 1 else if s[0] < '\U{800}' then 2 else if s[0] < '\U{10000}' then 3 else 4) + Utf8Bytes(s[1..])
  }

  function DropCr(line: string): string {
    TrimSuffix(line, "\r")
  }

  function DropCrs(lines: seq<string>): (r: seq<string>)
    ensures |r| == |lines| && forall i | 0 <= i < |lines| :: r[i] == DropCr(lines[i])
  {
    seq(|lines|, i requires 0 <= i < |lines| => DropCr(lines[i]))
  }

  /** The lines a bufio.Scanner meets, carriage returns included: a final newline ends the last line. */
  function RawLines(content: string): seq<string> {
    var lines := Split(content, '\n');
    if lines[|lines| - 1] == "" then lines[..|lines| - 1] else lines
  }

  /** stripBlockquote. */
  function Unquote(line: string): string {
    if line == ">" then "" else TrimPrefix(line, "> ")
  }

  function Unquoted(lines: seq<string>): (r: seq<string>)
    ensures |r| == |lines| && forall i | 0 <= i < |lines| :: r[i] == Unquote(lines[i])
  {
    seq(|lines|, i requires 0 <= i < |lines| => Unquote(lines[i]))
  }

  method StripBlockquote(s: string) returns (r: string)
    ensures r == Join(Unquoted(Split(s, '\n')), "\n")
  {
    var lines := Split(s, '\n');
    ghost var were := lines;
    for i := 0 to |lines|
      invariant |lines| == |were|
      invariant forall k | 0 <= k < i :: lines[k] == Unquote(were[k])
      invariant forall k | i <= k < |lines| :: lines[k] == were[k]
    {
      if lines[i] == ">" {
        lines := lines[i := ""];
      } else {
        lines := lines[i := TrimPrefix(lines[i], "> ")];
      }
    }
    assert lines == Unquoted(were);
    r := Join(lines, "\n");
  }

  // ------------------------------------------------------------ which lines belong to which turn

  /** The lines outside the frontmatter, without the rules that delimit it (or any later rule). */
  function Content(lines: seq<string>, seen: bool, inFront: bool): seq<string> {
    if lines == [] then []
    else if lines[0] == RULE then Content(lines[1..], true, !seen)
    else if inFront then Content(lines[1..], seen, inFront)
    else [lines[0]] + Content(lines[1..], seen, inFront)
  }

  /** The last id line inside the frontmatter, or the id given. */
  function FrontId(lines: seq<string>, seen: bool, inFront: bool, id: string): string {
    if lines == [] then id
    else if lines[0] == RULE then FrontId(lines[1..], true, !seen, id)
    else FrontId(lines[1..], seen, inFront, if inFront then IdLine(lines[0]).GetOr(id) else id)
  }

  predicate IsHeading(line: string) {
    line == USER_HEAD || line == ASSISTANT_HEAD
  }

  /** A line that can end a turn's text: a message-section heading or a turn header. */
  predicate Structural(line: string) {
    IsHeading(line) || TurnHead(line).Some?
  }

  function SectionOf(heading: string): Section {
    if heading == USER_HEAD then User else Assistant
  }

  /** The lines up to the next structural one. */
  function Body(lines: seq<string>): seq<string> {
    if lines == [] || Structural(lines[0]) then [] else [lines[0]] + Body(lines[1..])
  }

  datatype Segment = Segment(section: Section, index: int, timestamp: string, body: seq<string>)

  /** The turns in lines, each with the lines that are its own; section is the one the lines start in. */
  function Segments(section: Section, lines: seq<string>): seq<Segment>
    decreases |lines|
  {
    if lines == [] then []
    else if IsHeading(lines[0]) then Segments(SectionOf(lines[0]), lines[1..])
    else
      var rest := Segments(section, lines[1..]);
      if section == Outside || TurnHead(lines[0]).None? then rest
      else
        var (digits, timestamp) := TurnHead(lines[0]).value;
        if Atoi(digits).None? then rest
        else [Segment(section, Atoi(digits).value, timestamp, Body(lines[1..]))] + rest
  }

  /** The bodies of the segments, one after another. */
  function Bodies(segments: seq<Segment>): seq<string> {
    if segments == [] then [] else segments[0].body + Bodies(segments[1..])
  }

  /** The lines some turn owns, decided line by line: those after a valid turn header, up to the next structural line. */
  function Owned(section: Section, owned: bool, lines: seq<string>): seq<string>
    decreases |lines|
  {
    if lines == [] then []
    else if IsHeading(lines[0]) then Owned(SectionOf(lines[0]), false, lines[1..])
    else if TurnHead(lines[0]).Some? then
      Owned(section, section != Outside && Atoi(TurnHead(lines[0]).value.0).Some?, lines[1..])
    else (if owned then [lines[0]] else []) + Owned(section, owned, lines[1..])
  }

  /** Every line a turn owns is in exactly one turn's text, and in the order of the file. */
  lemma {:induction false} BodiesAreOwnedLines(section: Section, owned: bool, lines: seq<string>)
    ensures Owned(section, owned, lines) == (if owned then Body(lines) else []) + Bodies(Segments(section, lines))
    decreases |lines|
  {
    hide TurnHead;
    hide Atoi;
    if lines != [] {
      var rest := lines[1..];
      if IsHeading(lines[0]) {
        BodiesAreOwnedLines(SectionOf(lines[0]), false, rest);
      } else if TurnHead(lines[0]).Some? {
        var valid := section != Outside && Atoi(TurnHead(lines[0]).value.0).Some?;
        BodiesAreOwnedLines(section, valid, rest);
        if valid {
          var s := Segments(section, lines)[0];
          assert Segments(section, lines) == [s] + Segments(section, rest) && ([s] + Segments(section, rest))[1..] == Segments(section, rest);
        }
      } else {
        BodiesAreOwnedLines(section, owned, rest);
      }
    }
  }

  function TextOf(section: Section, body: seq<string>): string {
    var text := Join(body, "\n");
    TrimSpace(if section == User then Join(Unquoted(Split(text, '\n')), "\n") else text)
  }

  function Turns(section: Section, segments: seq<Segment>): seq<Turn> {
    if segments == [] then []
    else
      var s := segments[0];
      (if s.section == section then [Turn(s.index, s.timestamp, TextOf(section, s.body))] else []) + Turns(section, segments[1..])
  }

  /** How many turn headers whose index is in range lie inside a section, counted line by line. */
  function ValidHeaders(section: Section, lines: seq<string>): nat
    decreases |lines|
  {
    if lines == [] then 0
    else if IsHeading(lines[0]) then ValidHeaders(SectionOf(lines[0]), lines[1..])
    else
      (if section != Outside && TurnHead(lines[0]).Some? && Atoi(TurnHead(lines[0]).value.0).Some? then 1 else 0)
      + ValidHeaders(section, lines[1..])
  }

  lemma OneTurnMore(s: Segment, rest: seq<Segment>)
    requires s.section != Outside
    ensures |Turns(User, [s] + rest)| + |Turns(Assistant, [s] + rest)| == 1 + |Turns(User, rest)| + |Turns(Assistant, rest)|
  {
    hide TextOf;
    assert ([s] + rest)[1..] == rest;
  }

  /** There are as many turns as valid headers. */
  lemma {:induction false} OneTurnPerHeader(section: Section, lines: seq<string>)
    ensures |Turns(User, Segments(section, lines))| + |Turns(Assistant, Segments(section, lines))| == ValidHeaders(section, lines)
    decreases |lines|
  {
    hide TurnHead;
    hide Atoi;
    hide Turns;
    hide Body;
    if lines == [] {
      NoSegments();
    } else if IsHeading(lines[0]) {
      OneTurnPerHeader(SectionOf(lines[0]), lines[1..]);
    } else {
      OneTurnPerHeader(section, lines[1..]);
      if section != Outside && TurnHead(lines[0]).Some? && Atoi(TurnHead(lines[0]).value.0).Some? {
        var s := Segment(section, Atoi(TurnHead(lines[0]).value.0).value, TurnHead(lines[0]).value.1, Body(lines[1..]));
        OneTurnMore(s, Segments(section, lines[1..]));
      }
    }
  }

  lemma NoSegments()
    ensures Turns(User, []) == Turns(Assistant, []) == []
  {
  }

  function ReadLines(stem: string, lines: seq<string>): Episode {
    var segments := Segments(Outside, Content(lines, false, false));
    Episode(FrontId(lines, false, false, stem), Turns(User, segments), Turns(Assistant, segments))
  }

  predicate TooLong(lines: seq<string>) {
    exists l | l in lines :: Utf8Bytes(l) >= MAX_LINE_BYTES
  }

  /** What ParseEpisodeFile returns for a file of that name and content. */
  function Parse(stem: string, content: string): Result<Episode, string> {
    if TooLong(RawLines(content)) then Err("scan episode: token too long")
    else Ok(ReadLines(stem, DropCrs(RawLines(content))))
  }

  // ------------------------------------------------------------ the loop

  datatype Current = Current(index: int, timestamp: string)

  function Flushed(section: Section, cur: Option<Current>, body: seq<string>): seq<Segment> {
    match cur case None => [] case Some(c) => [Segment(section, c.index, c.timestamp, body)]
  }

  datatype State = State(section: Section, cur: Option<Current>, body: seq<string>)

  /** One line outside the frontmatter: the segment it finishes, if any, and the state after it. */
  function Next(s: State, line: string): (seq<Segment>, State) {
    if IsHeading(line) then (Flushed(s.section, s.cur, s.body), State(SectionOf(line), None, []))
    else if s.section == Outside then ([], s)
    else match TurnHead(line)
      case Some((digits, timestamp)) =>
        (Flushed(s.section, s.cur, s.body),
         State(s.section, match Atoi(digits) case None => None case Some(n) => Some(Current(n, timestamp)), []))
      case None => ([], if s.cur.Some? then s.(body := s.body + [line]) else s)
  }

  ghost predicate InSection(s: State) {
    s.cur.Some? ==> s.section != Outside
  }

  /** The segments still to come: the current turn's, if any, and those of the lines ahead. */
  function Ahead(s: State, lines: seq<string>): seq<Segment> {
    Flushed(s.section, s.cur, s.body + Body(lines)) + Segments(s.section, lines)
  }

  lemma NextTakesOneLine(s: State, line: string, rest: seq<string>)
    requires InSection(s)
    ensures var (done, after) := Next(s, line);
            && InSection(after)
            && Ahead(s, [line] + rest) == done + Ahead(after, rest)
  {
    hide TurnHead;
    hide Atoi;
    var all := [line] + rest;
    assert all[1..] == rest;
    if Structural(line) {
      assert s.body + Body(all) == s.body && [] + Body(rest) == Body(rest);
    } else {
      assert s.body + Body(all) == (s.body + [line]) + Body(rest);
    }
  }

  lemma {:induction false} TurnsOf(section: Section, a: seq<Segment>, b: seq<Segment>)
    ensures Turns(section, a + b) == Turns(section, a) + Turns(section, b)
  {
    if a == [] {
      assert a + b == b;
    } else {
      assert (a + b)[1..] == a[1..] + b;
      TurnsOf(section, a[1..], b);
    }
  }

  class Reader {
    var id: string
    var users: seq<Turn>
    var assistants: seq<Turn>
    var section: Section
    var cur: Option<Current>
    var body: seq<string>

    constructor (stem: string)
      ensures id == stem && users == [] && assistants == [] && At() == State(Outside, None, [])
    {
      id, users, assistants, section, cur, body := stem, [], [], Outside, None, [];
    }

    function At(): State
      reads this
    {
      State(section, cur, body)
    }

    /** The flush closure: the current turn joins its section's list. */
    method Flush()
      modifies `users, `assistants, `cur, `body
      ensures cur == None && body == []
      ensures users == old(users) + Turns(User, Flushed(section, old(cur), old(body)))
      ensures assistants == old(assistants) + Turns(Assistant, Flushed(section, old(cur), old(body)))
    {
      if cur.Some? {
        var c := cur.value;
        var text := Join(body, "\n");
        match section {
          case User =>
            var clean := StripBlockquote(text);
            users := users + [Turn(c.index, c.timestamp, TrimSpace(clean))];
          case Assistant =>
            assistants := assistants + [Turn(c.index, c.timestamp, TrimSpace(text))];
          case Outside =>
        }
      }
      cur, body := None, [];
    }

    /** The switch of the scan loop. */
    method Take(line: string)
      modifies `users, `assistants, `section, `cur, `body
      ensures At() == Next(old(At()), line).1
      ensures users == old(users) + Turns(User, Next(old(At()), line).0)
      ensures assistants == old(assistants) + Turns(Assistant, Next(old(At()), line).0)
    {
      if line == USER_HEAD {
        Flush();
        section := User;
      } else if line == ASSISTANT_HEAD {
        Flush();
        section := Assistant;
      } else if section == Outside {
      } else {
        var head := TurnHead(line);
        if head.Some? {
          Flush();
          var index := Atoi(head.value.0);
          if index.Some? {
            cur := Some(Current(index.value, head.value.1));
          }
        } else if cur.Some? {
          body := body + [line];
        }
      }
    }

    /** Taking a line moves what it finishes from what is ahead to what is read. */
    method TakeBefore(line: string, ghost rest: seq<string>)
      requires InSection(At())
      modifies `users, `assistants, `section, `cur, `body
      ensures InSection(At())
      ensures users + Turns(User, Ahead(At(), rest)) == old(users) + Turns(User, Ahead(old(At()), [line] + rest))
      ensures assistants + Turns(Assistant, Ahead(At(), rest)) == old(assistants) + Turns(Assistant, Ahead(old(At()), [line] + rest))
    {
      hide Next;
      hide Ahead;
      hide Turns;
      NextTakesOneLine(At(), line, rest);
      ghost var (done, after) := Next(At(), line);
      TurnsOf(User, done, Ahead(after, rest));
      TurnsOf(Assistant, done, Ahead(after, rest));
      Take(line);
    }

    /** The scan loop, over the lines the scanner delivers. */
    method ReadAll(lines: seq<string>)
      requires users == [] && assistants == [] && At() == State(Outside, None, [])
      modifies this
      ensures Episode(id, users, assistants) == ReadLines(old(id), lines)
    {
      hide TurnHead;
      hide IdLine;
      hide Turns;
      var inFrontmatter, seen := false, false;
      ghost var segments := Segments(Outside, Content(lines, false, false));
      assert lines[0..] == lines && Ahead(At(), Content(lines, false, false)) == segments;
      for i := 0 to |lines|
        invariant InSection(At())
        invariant FrontId(lines[i..], seen, inFrontmatter, id) == FrontId(lines, false, false, old(id))
        invariant Turns(User, segments) == users + Turns(User, Ahead(At(), Content(lines[i..], seen, inFrontmatter)))
        invariant Turns(Assistant, segments) == assistants + Turns(Assistant, Ahead(At(), Content(lines[i..], seen, inFrontmatter)))
      {
        var line := lines[i];
        assert lines[i..][1..] == lines[i + 1..];
        if line == RULE {
          inFrontmatter, seen := !seen, true;
        } else if inFrontmatter {
          var m := IdLine(line);
          if m.Some? {
            id := m.value;
          }
        } else {
          TakeBefore(line, Content(lines[i + 1..], seen, inFrontmatter));
        }
      }
      assert Ahead(At(), []) == Flushed(section, cur, body) by {
        assert body + Body([]) == body;
      }
      Flush();
    }
  }

  /** ParseEpisodeFile on the content of a file; stem is its name without .md. */
  method ParseEpisodeFile(stem: string, content: string) returns (r: Result<Episode, string>)
    ensures r == Parse(stem, content)
  {
    var raw := RawLines(content);
    for i := 0 to |raw|
      invariant forall k | 0 <= k < i :: Utf8Bytes(raw[k]) < MAX_LINE_BYTES
    {
      if Utf8Bytes(raw[i]) >= MAX_LINE_BYTES {
        return Err("scan episode: token too long");
      }
    }
    var reader := new Reader(stem);
    reader.ReadAll(DropCrs(raw));
    r := Ok(Episode(reader.id, reader.users, reader.assistants));
  }
}
