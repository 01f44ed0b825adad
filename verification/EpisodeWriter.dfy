/**
 * The episode writer (internal/episode/render.go), and how the messages it
 * writes are read back, one section at a time.
 */
module EpisodeWriter {
  import opened Wrappers
  import opened Text
  import opened EpisodeParser

  datatype Message = Message(timestamp: string, text: string)

  /** The lists of commits, pull requests, files and tool counts are held as the lines they print. */
  datatype Captured = Captured(
    id: string, sessionId: string, startedAt: string, endedAt: string, cwd: string, gitBranch: string, agent: string,
    created: string, toolCounts: string, commits: seq<string>, prs: seq<string>, files: seq<string>,
    users: seq<Message>, assistants: seq<Message>)

  const NONE := "_(none)_"

  // ------------------------------------------------------------ the writer

  function Decimal(n: nat): string {
    if n < 10 then ['0' + n as char] else Decimal(n / 10) + ['0' + (n % 10) as char]
  }

  function Header(i: nat, timestamp: string): string {
    "### " + Decimal(i) + " — " + timestamp
  }

  function Quote(lines: seq<string>): (r: seq<string>)
    ensures |r| == |lines| && forall i | 0 <= i < |lines| :: r[i] == "> " + lines[i]
  {
    seq(|lines|, i requires 0 <= i < |lines| => "> " + lines[i])
  }

  function Optional(key: string, value: string): seq<string> {
    if value == "" then [] else [key + value]
  }

  /** Each string of these lists is written with a newline after it. */
  function FrontChunks(ep: Captured): seq<string> {
    ["id: " + ep.id] + FieldChunks(ep)
  }

  function FieldChunks(ep: Captured): seq<string> {
    ["type: episode"] + ["session_id: " + ep.sessionId] + ["started_at: " + ep.startedAt] + ["ended_at: " + ep.endedAt]
    + Optional("cwd: ", ep.cwd) + Optional("git_branch: ", ep.gitBranch)
    + ["tags:"] + ["  - episode"] + Optional("  - ", ep.agent) + ["created: " + ep.created]
  }

  function ListChunks(heading: string, lines: seq<string>): seq<string> {
    [heading] + [""] + (if lines == [] then [NONE] else lines) + [""]
  }

  function PreambleChunks(ep: Captured): seq<string> {
    MetadataChunks(ep)
    + ListChunks("## Commits made", ep.commits) + ListChunks("## PRs opened", ep.prs) + ListChunks("## Files touched", ep.files)
  }

  function MetadataChunks(ep: Captured): seq<string> {
    TitleChunks(ep) + CountChunks(ep)
  }

  function TitleChunks(ep: Captured): seq<string> {
    ["", "# Episode — " + ep.id, "", "## Metadata", ""]
  }

  function CountChunks(ep: Captured): seq<string> {
    ["- User messages: " + Decimal(|ep.users|), "- Assistant text blocks: " + Decimal(|ep.assistants|),
     "- Tool calls: " + ep.toolCounts, "- Files touched: " + Decimal(|ep.files|), ""]
  }

  function UserChunks(messages: seq<Message>, first: nat): seq<string> {
    if messages == [] then []
    else
      [Header(first, messages[0].timestamp), "", Join(Quote(Split(messages[0].text, '\n')), "\n"), ""] + UserChunks(messages[1..], first + 1)
  }

  function AssistantChunks(messages: seq<Message>, first: nat): seq<string> {
    if messages == [] then []
    else [Header(first, messages[0].timestamp), "", messages[0].text, ""] + AssistantChunks(messages[1..], first + 1)
  }

  function Chunks(ep: Captured): seq<string> {
    [RULE] + FrontChunks(ep) + [RULE] + PreambleChunks(ep)
    + [USER_HEAD, ""] + (if ep.users == [] then [NONE, ""] else UserChunks(ep.users, 1))
    + [ASSISTANT_HEAD, ""] + (if ep.assistants == [] then [NONE, ""] else AssistantChunks(ep.assistants, 1))
  }

  function Written(chunks: seq<string>): string {
    if chunks == [] then "" else chunks[0] + "\n" + Written(chunks[1..])
  }

  /** RenderMarkdown. */
  function RenderMarkdown(ep: Captured): string {
    Written(Chunks(ep))
  }

  // ------------------------------------------------------------ what the reader should give back

  /** A message's text as the scanner's lines carry it: without a carriage return before a newline. */
  function MessageLines(m: Message): seq<string> {
    DropCrs(Split(m.text, '\n'))
  }

  function TurnOf(m: Message, i: nat): Turn {
    Turn(i, m.timestamp, TrimSpace(Join(MessageLines(m), "\n")))
  }

  function ExpectedTurns(messages: seq<Message>, first: nat): seq<Turn> {
    if messages == [] then []
    else [TurnOf(messages[0], first)] + ExpectedTurns(messages[1..], first + 1)
  }

  function Expected(ep: Captured): Episode {
    Episode(ep.id, ExpectedTurns(ep.users, 1), ExpectedTurns(ep.assistants, 1))
  }

  predicate IsToken(s: string) {
    s != "" && forall i | 0 <= i < |s| :: !ReSpace(s[i])
  }

  predicate OneLine(s: string) {
    '\n' !in s
  }

  /** Metadata of one line each and an id of one word, none of it a message-section heading. */
  ghost predicate PlainMetadata(ep: Captured) {
    && IsToken(ep.id)
    && OneLine(ep.sessionId) && OneLine(ep.startedAt) && OneLine(ep.endedAt) && OneLine(ep.cwd) && OneLine(ep.gitBranch)
    && OneLine(ep.agent) && OneLine(ep.created) && OneLine(ep.toolCounts)
    && (forall l | l in ep.commits + ep.prs + ep.files :: OneLine(l) && !IsHeading(DropCr(l)))
  }

  /** Every timestamp is one word. */
  ghost predicate Stamped(messages: seq<Message>) {
    forall m | m in messages :: IsToken(m.timestamp)
  }

  predicate PlainLine(line: string) {
    line != RULE && !Structural(line)
  }

  /** No line of an assistant message is a rule, a section heading or a turn header. */
  ghost predicate Unstructured(messages: seq<Message>) {
    forall m | m in messages :: forall l | l in MessageLines(m) :: PlainLine(l)
  }

  // ------------------------------------------------------------ headers read back

  lemma {:induction false} DecimalReadsBack(n: nat)
    ensures Number(Decimal(n)) == n && Decimal(n) != ""
    ensures forall i | 0 <= i < |Decimal(n)| :: Digit(Decimal(n)[i])
  {
    var d := Decimal(n);
    if n < 10 {
      assert d[..|d| - 1] == "" && d[0] == '0' + n as char;
    } else {
      DecimalReadsBack(n / 10);
      assert d[..|d| - 1] == Decimal(n / 10);
    }
  }

  lemma OneSpace(rest: string)
    requires rest == "" || !ReSpace(rest[0])
    ensures Spaces(" " + rest) == 1 && (" " + rest)[1..] == rest
  {
    SpanOfRun(ReSpace, " ", rest);
  }

  lemma DigitsThen(digits: string, rest: string)
    requires forall i | 0 <= i < |digits| :: Digit(digits[i])
    requires rest != "" && !Digit(rest[0])
    ensures Digits(digits + rest) == |digits|
    ensures (digits + rest)[..|digits|] == digits && (digits + rest)[|digits|..] == rest
  {
    SpanOfRun(Digit, digits, rest);
  }

  lemma TokenAlone(token: string)
    requires IsToken(token)
    ensures Word(token) == |token| && token[..|token|] == token
  {
    SpanOfRun(NotReSpace, token, "");
    assert token + "" == token;
  }

  lemma TurnHeadOfParts(digits: string, timestamp: string)
    requires digits != "" && (forall i | 0 <= i < |digits| :: Digit(digits[i])) && (timestamp == "" || IsToken(timestamp))
    ensures TurnHead("###" + (" " + (digits + (" " + ("—" + (" " + timestamp)))))) ==
              if timestamp == "" then None else Some((digits, timestamp))
  {
    hide Spaces;
    hide Digits;
    hide Word;
    var e := " " + timestamp;
    var d := "—" + e;
    var c := " " + d;
    var b := digits + c;
    var a := " " + b;
    var line := "###" + a;
    OneSpace(timestamp);
    OneSpace(d);
    DigitsThen(digits, c);
    OneSpace(b);
    if timestamp == "" {
      assert Word("") == 0;
    } else {
      TokenAlone(timestamp);
    }
    assert line[..3] == "###" && line[3..] == a && d[1..] == e;
  }

  /** A turn header's timestamp is one word, whatever the line. */
  lemma HeadTimestampIsToken(line: string)
    requires TurnHead(line).Some?
    ensures IsToken(TurnHead(line).value.1)
  {
    hide Spaces;
    hide Digits;
    var a := line[3..];
    var b := a[Spaces(a)..];
    var c := b[Digits(b)..];
    var d := c[Spaces(c)..];
    var e := d[1..];
    var f := e[Spaces(e)..];
    SpanSatisfies(NotReSpace, f);
    assert TurnHead(line).value.1 == f[..Word(f)];
  }

  lemma HeaderOfToken(i: nat, timestamp: string)
    requires IsToken(timestamp)
    ensures TurnHead(Header(i, timestamp)) == Some((Decimal(i), timestamp))
    ensures OneLine(Header(i, timestamp)) && DropCr(Header(i, timestamp)) == Header(i, timestamp)
  {
    hide TurnHead;
    var h := Header(i, timestamp);
    DecimalReadsBack(i);
    TurnHeadOfParts(Decimal(i), timestamp);
    assert h == "###" + (" " + (Decimal(i) + (" " + ("—" + (" " + timestamp)))));
    assert '\n' !in timestamp;
    assert '\n' !in Decimal(i);
    assert h[|h| - 1] == timestamp[|timestamp| - 1];
  }

  /** A written turn header reads back as its index and timestamp exactly when the timestamp is one word. */
  lemma HeaderReadsBack(i: nat, timestamp: string)
    ensures TurnHead(Header(i, timestamp)) == Some((Decimal(i), timestamp)) <==> IsToken(timestamp)
    ensures Number(Decimal(i)) == i
  {
    hide TurnHead;
    DecimalReadsBack(i);
    if IsToken(timestamp) {
      HeaderOfToken(i, timestamp);
    } else if TurnHead(Header(i, timestamp)) == Some((Decimal(i), timestamp)) {
      HeadTimestampIsToken(Header(i, timestamp));
    }
  }

  /** Atoi reads a number's decimal form, with or without leading zeros, if it fits an int of 64 bits. */
  lemma AtoiReads(zeros: string, n: nat)
    requires forall i | 0 <= i < |zeros| :: zeros[i] == '0'
    ensures Atoi(zeros + Decimal(n)) == if n <= 0x7FFF_FFFF_FFFF_FFFF then Some(n) else None
  {
    DecimalReadsBack(n);
    ZerosInFront(zeros, Decimal(n));
  }

  lemma {:induction false} ZerosInFront(zeros: string, digits: string)
    requires forall i | 0 <= i < |zeros| :: zeros[i] == '0'
    ensures Number(zeros + digits) == Number(digits)
    decreases |zeros| + |digits|
  {
    var all := zeros + digits;
    if digits != "" {
      assert all[..|all| - 1] == zeros + digits[..|digits| - 1];
      ZerosInFront(zeros, digits[..|digits| - 1]);
    } else if zeros != "" {
      assert all == zeros && zeros[..|zeros| - 1] + "" == zeros[..|zeros| - 1];
      ZerosInFront(zeros[..|zeros| - 1], "");
    }
  }

  // ------------------------------------------------------------ written lines

  function Flat(chunks: seq<string>): seq<string> {
    if chunks == [] then [] else Split(chunks[0], '\n') + Flat(chunks[1..])
  }

  /** The lines the scanner delivers for chunks each written with a newline after it. */
  function Lines(chunks: seq<string>): seq<string> {
    DropCrs(Flat(chunks))
  }

  lemma {:induction false} LinesWritten(chunks: seq<string>)
    ensures Split(Written(chunks), '\n') == Flat(chunks) + [""]
  {
    if chunks != [] {
      LinesWritten(chunks[1..]);
      SplitOfJoinedWord(chunks[0], '\n', Written(chunks[1..]));
    }
  }

  lemma {:induction false} LinesOf(a: seq<string>, b: seq<string>)
    ensures Lines(a + b) == Lines(a) + Lines(b)
  {
    if a == [] {
      assert a + b == b;
    } else {
      assert (a + b)[1..] == a[1..] + b;
      LinesOf(a[1..], b);
    }
  }

  lemma {:induction false} LinesOfOneLiners(chunks: seq<string>)
    requires forall c | c in chunks :: OneLine(c)
    ensures Lines(chunks) == DropCrs(chunks)
  {
    if chunks != [] {
      assert OneLine(chunks[0]);
      SplitOfWord(chunks[0], '\n');
      LinesOfOneLiners(chunks[1..]);
    }
  }

  lemma LinesOfOne(text: string)
    ensures Lines([text]) == DropCrs(Split(text, '\n'))
  {
    assert Flat([text]) == Split(text, '\n') + Flat([text][1..]) == Split(text, '\n');
  }

  function UserLines(messages: seq<Message>, first: nat): seq<string> {
    if messages == [] then []
    else [Header(first, messages[0].timestamp)] + ([""] + Quote(MessageLines(messages[0])) + [""]) + UserLines(messages[1..], first + 1)
  }

  function AssistantLines(messages: seq<Message>, first: nat): seq<string> {
    if messages == [] then []
    else [Header(first, messages[0].timestamp)] + ([""] + MessageLines(messages[0]) + [""]) + AssistantLines(messages[1..], first + 1)
  }

  lemma MessageChunkLines(m: Message, i: nat, text: string)
    requires IsToken(m.timestamp)
    ensures Lines([Header(i, m.timestamp), "", text, ""]) == [Header(i, m.timestamp)] + ([""] + DropCrs(Split(text, '\n')) + [""])
  {
    hide TurnHead;
    hide Decimal;
    hide Lines;
    var h := Header(i, m.timestamp);
    HeaderOfToken(i, m.timestamp);
    LinesOf([h, ""], [text, ""]);
    LinesOf([text], [""]);
    LinesOfOneLiners([h, ""]);
    LinesOfOneLiners([""]);
    assert [text] + [""] == [text, ""] && [h, ""] + [text, ""] == [h, "", text, ""];
    LinesOfOne(text);
    assert DropCrs([h, ""]) == [h, ""] && DropCrs([""]) == [""];
  }

  lemma DropCrOfQuoted(l: string)
    ensures DropCr("> " + l) == "> " + DropCr(l)
  {
    var q := "> " + l;
    assert q[|q| - 1..] == [q[|q| - 1]];
    if l == "" {
      assert q[|q| - 1] == ' ';
    } else {
      assert l[|l| - 1..] == [l[|l| - 1]] && q[|q| - 1] == l[|l| - 1];
      assert q[..|q| - 1] == "> " + l[..|l| - 1];
    }
  }

  lemma DropCrsOfQuote(lines: seq<string>)
    ensures DropCrs(Quote(lines)) == Quote(DropCrs(lines))
  {
    hide DropCr;
    forall i | 0 <= i < |lines| ensures DropCrs(Quote(lines))[i] == Quote(DropCrs(lines))[i] {
      DropCrOfQuoted(lines[i]);
    }
  }

  lemma {:induction false} UserLinesWritten(messages: seq<Message>, first: nat)
    requires Stamped(messages)
    ensures Lines(UserChunks(messages, first)) == UserLines(messages, first)
  {
    hide TurnHead;
    hide Lines;
    hide Header;
    hide Decimal;
    if messages == [] {
      LinesOfOneLiners([]);
    } else {
      var m := messages[0];
      var quoted := Quote(Split(m.text, '\n'));
      UserLinesWritten(messages[1..], first + 1);
      SplitHasNoSeparator(m.text, '\n');
      SplitUndoesJoin(quoted, '\n');
      MessageChunkLines(m, first, Join(quoted, "\n"));
      DropCrsOfQuote(Split(m.text, '\n'));
      LinesOf([Header(first, m.timestamp), "", Join(quoted, "\n"), ""], UserChunks(messages[1..], first + 1));
    }
  }

  lemma {:induction false} AssistantLinesWritten(messages: seq<Message>, first: nat)
    requires Stamped(messages)
    ensures Lines(AssistantChunks(messages, first)) == AssistantLines(messages, first)
  {
    hide TurnHead;
    hide Lines;
    hide Header;
    hide Decimal;
    if messages == [] {
      LinesOfOneLiners([]);
    } else {
      var m := messages[0];
      AssistantLinesWritten(messages[1..], first + 1);
      MessageChunkLines(m, first, m.text);
      LinesOf([Header(first, m.timestamp), "", m.text, ""], AssistantChunks(messages[1..], first + 1));
    }
  }

  // ------------------------------------------------------------ segments of what was written

  lemma {:induction false} PlainLinesPass(section: Section, plain: seq<string>, rest: seq<string>)
    requires forall l | l in plain :: !Structural(l)
    ensures Segments(section, plain + rest) == Segments(section, rest)
    ensures Body(plain + rest) == plain + Body(rest)
    decreases |plain|
  {
    hide TurnHead;
    if plain == [] {
      assert plain + rest == rest;
    } else {
      var all := plain + rest;
      assert all[0] == plain[0] && all[1..] == plain[1..] + rest && !Structural(plain[0]);
      PlainLinesPass(section, plain[1..], rest);
      assert plain == [plain[0]] + plain[1..];
    }
  }

  lemma HeaderIsNoHeading(i: nat, timestamp: string)
    ensures !IsHeading(Header(i, timestamp)) && Header(i, timestamp) != RULE
  {
    assert Header(i, timestamp)[2] == '#' && USER_HEAD[2] == ' ' && ASSISTANT_HEAD[2] == ' ' && RULE[2] == '-';
  }

  lemma WrittenMessage(section: Section, i: nat, timestamp: string, body: seq<string>, tail: seq<string>)
    requires section != Outside && i <= MAX_INT && IsToken(timestamp)
    requires (forall l | l in body :: !Structural(l)) && Body(tail) == []
    ensures Segments(section, [Header(i, timestamp)] + body + tail)
            == [Segment(section, i, timestamp, body)] + Segments(section, tail)
  {
    hide TurnHead;
    var h := Header(i, timestamp);
    HeaderOfToken(i, timestamp);
    HeaderIsNoHeading(i, timestamp);
    DecimalReadsBack(i);
    assert ([h] + body + tail)[1..] == body + tail;
    PlainLinesPass(section, body, tail);
    assert body + [] == body;
  }

  lemma JoinWrapped(lines: seq<string>)
    requires lines != []
    ensures Join([""] + lines + [""], "\n") == "\n" + Join(lines, "\n") + "\n"
  {
    assert ([""] + lines + [""])[1..] == lines + [""];
    JoinThenEmpty(lines);
  }

  lemma {:induction false} JoinThenEmpty(lines: seq<string>)
    requires lines != []
    ensures Join(lines + [""], "\n") == Join(lines, "\n") + "\n"
  {
    assert (lines + [""])[1..] == lines[1..] + [""];
    if |lines| > 1 {
      JoinThenEmpty(lines[1..]);
    }
  }

  lemma QuotedLinesAreLines(lines: seq<string>)
    requires NoneHas(lines, '\n')
    ensures NoneHas([""] + Quote(lines) + [""], '\n')
  {
  }

  /** Taking the mark off: one mark goes, an empty quoted line becomes empty, and any other line stays. */
  lemma UnquoteIs(line: string)
    ensures Unquote("> " + line) == line && Unquote(">") == ""
    ensures line != ">" && (|line| < 2 || line[0] != '>' || line[1] != ' ') ==> Unquote(line) == line
  {
    var quoted := "> " + line;
    assert quoted[..2] == "> " && quoted[2..] == line;
  }

  lemma UnquotesToItself(lines: seq<string>)
    ensures Unquoted([""] + Quote(lines) + [""]) == [""] + lines + [""]
  {
  }

  /** The text read from a message's lines; a user message's lines come quoted. */
  lemma TextReadBack(lines: seq<string>)
    requires lines != [] && NoneHas(lines, '\n')
    ensures TextOf(User, [""] + Quote(lines) + [""]) == TrimSpace(Join(lines, "\n"))
    ensures TextOf(Assistant, [""] + lines + [""]) == TrimSpace(Join(lines, "\n"))
  {
    hide Join;
    hide Split;
    hide TrimSpace;
    hide NoneHas;
    hide Quote;
    hide Unquoted;
    QuotedLinesAreLines(lines);
    SplitUndoesJoin([""] + Quote(lines) + [""], '\n');
    UnquotesToItself(lines);
    JoinWrapped(lines);
    TrimSpaceOfWrapped(Join(lines, "\n"));
  }

  lemma MessageLinesOneLine(m: Message)
    ensures MessageLines(m) != [] && NoneHas(MessageLines(m), '\n')
  {
    SplitHasNoSeparator(m.text, '\n');
    var raw := Split(m.text, '\n');
    forall i | 0 <= i < |raw| ensures '\n' !in DropCr(raw[i]) {
      assert raw[i] in raw;
    }
  }

  lemma QuotedIsPlain(lines: seq<string>)
    ensures forall l | l in [""] + Quote(lines) + [""] :: PlainLine(l)
  {
    forall l | l in [""] + Quote(lines) + [""] ensures PlainLine(l) {
      if l != "" {
        assert l[0] == '>';
        assert USER_HEAD[0] == '#' && ASSISTANT_HEAD[0] == '#' && RULE[0] == '-' && "###"[0] == '#';
      }
    }
  }

  /** One written message, in section, with tail after it: one turn of that section, then the tail's turns. */
  lemma MessageReadBack(section: Section, i: nat, timestamp: string, body: seq<string>, tail: seq<string>)
    requires section != Outside && i <= MAX_INT && IsToken(timestamp)
    requires (forall l | l in body :: PlainLine(l)) && Body(tail) == []
    ensures var lines := [Header(i, timestamp)] + body + tail;
            && Body(lines) == []
            && Turns(User, Segments(section, lines))
               == (if section == User then [Turn(i, timestamp, TextOf(User, body))] else []) + Turns(User, Segments(section, tail))
            && Turns(Assistant, Segments(section, lines))
               == (if section == Assistant then [Turn(i, timestamp, TextOf(Assistant, body))] else []) + Turns(Assistant, Segments(section, tail))
  {
    hide TurnHead;
    hide TextOf;
    hide Header;
    hide Segments;
    WrittenMessage(section, i, timestamp, body, tail);
    HeaderOfToken(i, timestamp);
    var segment := Segment(section, i, timestamp, body);
    assert ([segment] + Segments(section, tail))[1..] == Segments(section, tail);
  }

  lemma ConcatOf4(a: seq<string>, b: seq<string>, c: seq<string>, d: seq<string>)
    ensures a + b + c + d == a + b + (c + d)
  {
  }

  lemma {:induction false} StampedUsersReadBack(messages: seq<Message>, first: nat, tail: seq<string>)
    requires Stamped(messages) && first + |messages| <= MAX_INT + 1 && Body(tail) == []
    ensures Body(UserLines(messages, first) + tail) == []
    ensures Turns(User, Segments(User, UserLines(messages, first) + tail))
            == ExpectedTurns(messages, first) + Turns(User, Segments(User, tail))
    ensures Turns(Assistant, Segments(User, UserLines(messages, first) + tail)) == Turns(Assistant, Segments(User, tail))
    decreases |messages|
  {
    hide Header;
    hide TurnHead;
    hide Segments;
    hide Body;
    hide Turns;
    hide TurnOf;
    hide MessageLines;
    if messages == [] {
      NoTurns(tail);
      assert UserLines(messages, first) + tail == tail;
    } else {
      var rest := UserLines(messages[1..], first + 1) + tail;
      var here := [Header(first, messages[0].timestamp)];
      var body := [""] + Quote(MessageLines(messages[0])) + [""];
      StampedUsersReadBack(messages[1..], first + 1, tail);
      UserReadBack(messages[0], first, rest);
      ConcatOf4(here, body, UserLines(messages[1..], first + 1), tail);
      assert UserLines(messages, first) + tail == here + body + rest;
    }
  }

  lemma {:induction false} TurnsAreStamped(section: Section, from: Section, lines: seq<string>)
    ensures forall t | t in Turns(section, Segments(from, lines)) :: IsToken(t.timestamp)
    decreases |lines|
  {
    hide TurnHead;
    hide TextOf;
    hide IsToken;
    if lines != [] {
      if IsHeading(lines[0]) {
        TurnsAreStamped(section, SectionOf(lines[0]), lines[1..]);
      } else {
        TurnsAreStamped(section, from, lines[1..]);
        if from != Outside && TurnHead(lines[0]).Some? && Atoi(TurnHead(lines[0]).value.0).Some? {
          HeadTimestampIsToken(lines[0]);
          var s := Segments(from, lines)[0];
          assert Segments(from, lines)[1..] == Segments(from, lines[1..]);
        }
      }
    }
  }

  lemma {:induction false} ExpectedStamps(messages: seq<Message>, first: nat)
    ensures |ExpectedTurns(messages, first)| == |messages|
    ensures forall k | 0 <= k < |messages| :: ExpectedTurns(messages, first)[k].timestamp == messages[k].timestamp
  {
    hide TrimSpace;
    hide MessageLines;
    if messages != [] {
      ExpectedStamps(messages[1..], first + 1);
    }
  }

  /** What a section's turns read as can only be what was written if every timestamp is one word. */
  lemma ReadTurnsAreStamped(messages: seq<Message>, first: nat, section: Section, from: Section, lines: seq<string>)
    requires ExpectedTurns(messages, first) <= Turns(section, Segments(from, lines))
    ensures Stamped(messages)
  {
    hide Segments;
    hide Turns;
    hide ExpectedTurns;
    hide IsToken;
    TurnsAreStamped(section, from, lines);
    ExpectedStamps(messages, first);
    var turns := Turns(section, Segments(from, lines));
    forall m | m in messages ensures IsToken(m.timestamp) {
      var k :| 0 <= k < |messages| && messages[k] == m;
      assert turns[k] == ExpectedTurns(messages, first)[k] && turns[k] in turns;
    }
  }

  /** User messages read back as their turns, before anything that follows, exactly when every timestamp is one word. */
  lemma UsersReadBack(messages: seq<Message>, first: nat, tail: seq<string>)
    requires first + |messages| <= MAX_INT + 1 && Body(tail) == []
    ensures Turns(User, Segments(User, UserLines(messages, first) + tail))
            == ExpectedTurns(messages, first) + Turns(User, Segments(User, tail))
            <==> Stamped(messages)
  {
    hide Segments;
    hide Turns;
    hide ExpectedTurns;
    if Stamped(messages) {
      StampedUsersReadBack(messages, first, tail);
    } else if Turns(User, Segments(User, UserLines(messages, first) + tail)) == ExpectedTurns(messages, first) + Turns(User, Segments(User, tail)) {
      ReadTurnsAreStamped(messages, first, User, User, UserLines(messages, first) + tail);
    }
  }

  lemma NoTurns(tail: seq<string>)
    ensures [] + Turns(User, Segments(User, tail)) == Turns(User, Segments(User, tail))
  {
  }

  lemma UserReadBack(m: Message, i: nat, tail: seq<string>)
    requires i <= MAX_INT && IsToken(m.timestamp) && Body(tail) == []
    ensures var lines := [Header(i, m.timestamp)] + ([""] + Quote(MessageLines(m)) + [""]) + tail;
            && Body(lines) == []
            && Turns(User, Segments(User, lines)) == [TurnOf(m, i)] + Turns(User, Segments(User, tail))
            && Turns(Assistant, Segments(User, lines)) == Turns(Assistant, Segments(User, tail))
  {
    QuotedIsPlain(MessageLines(m));
    MessageLinesOneLine(m);
    TextReadBack(MessageLines(m));
    MessageReadBack(User, i, m.timestamp, [""] + Quote(MessageLines(m)) + [""], tail);
  }

  lemma AssistantReadBack(m: Message, i: nat, tail: seq<string>)
    requires i <= MAX_INT && IsToken(m.timestamp) && Body(tail) == []
    requires forall l | l in MessageLines(m) :: PlainLine(l)
    ensures var lines := [Header(i, m.timestamp)] + ([""] + MessageLines(m) + [""]) + tail;
            && Body(lines) == []
            && Turns(Assistant, Segments(Assistant, lines)) == [TurnOf(m, i)] + Turns(Assistant, Segments(Assistant, tail))
            && Turns(User, Segments(Assistant, lines)) == Turns(User, Segments(Assistant, tail))
  {
    QuotedIsPlain([]);
    assert PlainLine("") by { assert "" in [""] + Quote([]) + [""]; }
    MessageLinesOneLine(m);
    TextReadBack(MessageLines(m));
    MessageReadBack(Assistant, i, m.timestamp, [""] + MessageLines(m) + [""], tail);
  }

  lemma {:induction false} AssistantsReadBack(messages: seq<Message>, first: nat)
    requires Stamped(messages) && first + |messages| <= MAX_INT + 1 && Unstructured(messages)
    ensures Body(AssistantLines(messages, first)) == []
    ensures Turns(Assistant, Segments(Assistant, AssistantLines(messages, first))) == ExpectedTurns(messages, first)
    ensures Turns(User, Segments(Assistant, AssistantLines(messages, first))) == []
    decreases |messages|
  {
    if messages != [] {
      AssistantsReadBack(messages[1..], first + 1);
      AssistantReadBack(messages[0], first, AssistantLines(messages[1..], first + 1));
    }
  }

  /** A message whose lines do not end in a carriage return keeps its text up to white space at its ends. */
  lemma TextKept(m: Message, i: nat)
    requires forall l | l in Split(m.text, '\n') :: !HasSuffix(l, "\r")
    ensures TurnOf(m, i).text == TrimSpace(m.text)
  {
    assert MessageLines(m) == Split(m.text, '\n');
    JoinUndoesSplit(m.text, '\n');
  }

  /** Every line of a user message comes back, whatever it is, although the same line ends an assistant message. */
  lemma QuotingProtects(line: string)
    ensures PlainLine("> " + line) && Unquote("> " + line) == line
  {
    QuotedIsPlain([line]);
    assert Quote([line])[0] in [""] + Quote([line]) + [""];
  }
}
