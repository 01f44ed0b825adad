/**
 * Reading a whole written episode back (internal/episode/render.go and
 * internal/distill/distill.go): what comes back is what was written under an
 * exact condition on lines, timestamps, metadata and assistant text.
 */
module EpisodeRoundTrip {
  import opened Wrappers
  import opened Text
  import opened Sorting
  import opened EpisodeParser
  import opened EpisodeWriter

  // ------------------------------------------------------------ the frontmatter and what follows it

  function NoRules(lines: seq<string>): (r: seq<string>)
    ensures forall l | l in r :: l in lines && l != RULE
  {
    if lines == [] then [] else (if lines[0] == RULE then [] else [lines[0]]) + NoRules(lines[1..])
  }

  lemma {:induction false} NoRulesOf(a: seq<string>, b: seq<string>)
    ensures NoRules(a + b) == NoRules(a) + NoRules(b)
  {
    if a == [] {
      assert a + b == b;
    } else {
      assert (a + b)[1..] == a[1..] + b;
      NoRulesOf(a[1..], b);
    }
  }

  lemma {:induction false} NoRulesToDrop(lines: seq<string>)
    requires forall l | l in lines :: l != RULE
    ensures NoRules(lines) == lines
  {
    if lines != [] {
      assert lines[0] in lines && forall l | l in lines[1..] :: l in lines;
      NoRulesToDrop(lines[1..]);
      assert lines == [lines[0]] + lines[1..];
    }
  }

  lemma {:induction false} AfterFrontmatter(lines: seq<string>, id: string)
    ensures Content(lines, true, false) == NoRules(lines) && FrontId(lines, true, false, id) == id
  {
    hide IdLine;
    if lines != [] {
      AfterFrontmatter(lines[1..], id);
    }
  }

  /** Frontmatter lines other than the id's are passed over. */
  lemma {:induction false} FrontmatterPasses(front: seq<string>, rest: seq<string>, id: string)
    requires forall f | f in front :: f != RULE && IdLine(f) == None
    ensures Content(front + [RULE] + rest, true, true) == NoRules(rest)
    ensures FrontId(front + [RULE] + rest, true, true, id) == id
  {
    hide IdLine;
    var all := front + [RULE] + rest;
    if front == [] {
      assert all[0] == RULE && all[1..] == rest;
      AfterFrontmatter(rest, id);
    } else {
      assert all[0] == front[0] && all[1..] == front[1..] + [RULE] + rest;
      assert front[0] in front && forall f | f in front[1..] :: f in front;
      FrontmatterPasses(front[1..], rest, id);
    }
  }

  lemma {:induction false} InFrontmatter(front: seq<string>, rest: seq<string>, id: string)
    requires "---" !in front
    ensures Content(front + rest, true, true) == Content(rest, true, true)
    ensures FrontId(front + rest, true, true, id) == FrontId(rest, true, true, FrontId(front, true, true, id))
  {
    hide IdLine;
    if front == [] {
      assert front + rest == rest;
    } else {
      assert (front + rest)[1..] == front[1..] + rest && front[0] in front;
      InFrontmatter(front[1..], rest, if IdLine(front[0]).Some? then IdLine(front[0]).value else id);
    }
  }

  lemma {:induction false} BeforeFrontmatter(pre: seq<string>, rest: seq<string>, id: string)
    requires "---" !in pre
    ensures Content(pre + rest, false, false) == pre + Content(rest, false, false)
    ensures FrontId(pre + rest, false, false, id) == FrontId(rest, false, false, id)
  {
    hide IdLine;
    if pre == [] {
      assert pre + rest == rest;
    } else {
      assert (pre + rest)[1..] == pre[1..] + rest && pre[0] in pre;
      BeforeFrontmatter(pre[1..], rest, id);
    }
  }

  lemma {:induction false} NoRulesIsFilter(lines: seq<string>)
    ensures NoRules(lines) == Filter((l: string) => l != "---", lines)
  {
    if lines != [] {
      NoRulesIsFilter(lines[1..]);
    }
  }

  /**
   * Which lines of any file are its content: all of them if it has no rule;
   * otherwise those before the first rule and those after the second, without
   * the rules among them. A single rule opens a frontmatter that runs to the end.
   */
  lemma ContentIs(pre: seq<string>, front: seq<string>, rest: seq<string>, stem: string)
    requires "---" !in pre && "---" !in front
    ensures Content(pre, false, false) == pre && FrontId(pre, false, false, stem) == stem
    ensures Content(pre + (["---"] + front), false, false) == pre
    ensures Content(pre + (["---"] + (front + (["---"] + rest))), false, false) == pre + Filter((l: string) => l != "---", rest)
    ensures FrontId(pre + (["---"] + front), false, false, stem)
         == FrontId(pre + (["---"] + (front + (["---"] + rest))), false, false, stem)
         == FrontId(front, true, true, stem)
  {
    hide IdLine;
    BeforeFrontmatter(pre, [], stem);
    assert pre + [] == pre;
    BeforeFrontmatter(pre, ["---"] + front, stem);
    InFrontmatter(front, [], stem);
    assert front + [] == front && (["---"] + front)[1..] == front;
    BeforeFrontmatter(pre, ["---"] + (front + (["---"] + rest)), stem);
    InFrontmatter(front, ["---"] + rest, stem);
    AfterFrontmatter(rest, FrontId(front, true, true, stem));
    NoRulesIsFilter(rest);
    assert (["---"] + (front + (["---"] + rest)))[1..] == front + (["---"] + rest) && (["---"] + rest)[1..] == rest;
  }

  /** The last id line of a frontmatter gives the id, whatever comes before it. */
  lemma LastIdLine(front: seq<string>, line: string, rest: seq<string>, stem: string)
    requires "---" !in front && line != "---" && "---" !in rest && forall l | l in rest :: IdLine(l).None?
    ensures IdLine(line).Some? ==> FrontId(front + ([line] + rest), true, true, stem) == IdLine(line).value
    ensures FrontId(rest, true, true, stem) == stem
  {
    hide IdLine;
    InFrontmatter(front, [line] + rest, stem);
    assert ([line] + rest)[1..] == rest;
    NoIdLine(rest, stem);
    NoIdLine(rest, if IdLine(line).Some? then IdLine(line).value else stem);
  }

  lemma {:induction false} NoIdLine(lines: seq<string>, id: string)
    requires "---" !in lines && forall l | l in lines :: IdLine(l).None?
    ensures FrontId(lines, true, true, id) == id
  {
    hide IdLine;
    if lines != [] {
      assert lines[0] in lines;
      NoIdLine(lines[1..], id);
    }
  }

  lemma IdLineReadsBack(id: string)
    requires IsToken(id)
    ensures IdLine("id: " + id) == Some(id) && "id: " + id != RULE
  {
    var line := "id: " + id;
    assert line[..3] == "id:" && line[3..] == " " + id;
    OneSpace(id);
    TokenAlone(id);
    assert line[0] == 'i' && RULE[0] == '-';
  }

  predicate Field(c: string) {
    OneLine(c) && |c| >= 2 && c[0] != 'i' && c[0] != '-'
  }

  lemma FieldWith(key: string, value: string)
    requires Field(key) && OneLine(value)
    ensures Field(key + value)
  {
  }

  lemma FieldPasses(c: string)
    requires Field(c)
    ensures DropCr(c) != RULE && IdLine(DropCr(c)) == None
  {
  }

  lemma FieldKeys()
    ensures Field("type: episode") && Field("session_id: ") && Field("started_at: ") && Field("ended_at: ") && Field("cwd: ")
  {
  }

  lemma MoreFieldKeys()
    ensures Field("git_branch: ") && Field("tags:") && Field("  - episode") && Field("  - ") && Field("created: ")
  {
  }

  lemma Fields(ep: Captured)
    requires PlainMetadata(ep)
    ensures forall c | c in FieldChunks(ep) :: Field(c)
  {
    hide IsToken;
    hide Stamped;
    hide Field;
    hide OneLine;
    FieldKeys();
    MoreFieldKeys();
    FieldWith("session_id: ", ep.sessionId);
    FieldWith("started_at: ", ep.startedAt);
    FieldWith("ended_at: ", ep.endedAt);
    FieldWith("cwd: ", ep.cwd);
    FieldWith("git_branch: ", ep.gitBranch);
    FieldWith("  - ", ep.agent);
    FieldWith("created: ", ep.created);
  }

  /** A line of the preamble: one line, and not one of the message-section headings. */
  predicate Preface(c: string) {
    OneLine(c) && (|c| < 4 || c[0] != '#' || c[1] != '#' || (c[3] != 'U' && c[3] != 'A'))
  }

  lemma PrefaceWith(key: string, value: string)
    requires Preface(key) && |key| >= 4 && OneLine(value)
    ensures Preface(key + value)
  {
  }

  lemma HeadingsStart()
    ensures |USER_HEAD| >= 4 && USER_HEAD[0] == '#' && USER_HEAD[1] == '#' && USER_HEAD[3] == 'U'
    ensures |ASSISTANT_HEAD| >= 4 && ASSISTANT_HEAD[0] == '#' && ASSISTANT_HEAD[1] == '#' && ASSISTANT_HEAD[3] == 'A'
  {
  }

  lemma DropCrKeeps(c: string)
    ensures DropCr(c) <= c
  {
  }

  lemma PrefaceIsNoHeading(c: string)
    requires Preface(c)
    ensures !IsHeading(DropCr(c))
  {
    hide DropCr;
    hide OneLine;
    DropCrKeeps(c);
    HeadingsStart();
  }

  lemma TokensAreOneLine(ep: Captured)
    requires PlainMetadata(ep)
    ensures OneLine(ep.id) && OneLine(ep.toolCounts) && OneLine(Decimal(|ep.users|)) && OneLine(Decimal(|ep.assistants|)) && OneLine(Decimal(|ep.files|))
  {
    DecimalReadsBack(|ep.users|);
    DecimalReadsBack(|ep.assistants|);
    DecimalReadsBack(|ep.files|);
  }

  lemma PrefaceKeys()
    ensures Preface("# Episode — ") && Preface("- User messages: ") && Preface("- Assistant text blocks: ")
    ensures Preface("- Tool calls: ") && Preface("- Files touched: ")
  {
  }

  lemma PrefaceLines()
    ensures Preface("") && Preface("## Metadata")
  {
  }

  lemma MetadataIsPreface(ep: Captured)
    requires PlainMetadata(ep)
    ensures forall c | c in MetadataChunks(ep) :: Preface(c)
  {
    hide Preface;
    hide OneLine;
    hide Decimal;
    TokensAreOneLine(ep);
    hide PlainMetadata;
    PrefaceKeys();
    PrefaceLines();
    assert forall c | c in TitleChunks(ep) :: Preface(c) by {
      PrefaceWith("# Episode — ", ep.id);
    }
    assert forall c | c in CountChunks(ep) :: Preface(c) by {
      PrefaceWith("- User messages: ", Decimal(|ep.users|));
      PrefaceWith("- Assistant text blocks: ", Decimal(|ep.assistants|));
      PrefaceWith("- Tool calls: ", ep.toolCounts);
      PrefaceWith("- Files touched: ", Decimal(|ep.files|));
    }
    hide TitleChunks;
    hide CountChunks;
  }

  ghost predicate Skipped(chunks: seq<string>) {
    forall c | c in chunks :: OneLine(c) && !IsHeading(DropCr(c))
  }

  lemma ListIsSkipped(heading: string, lines: seq<string>)
    requires Preface(heading) && Skipped(lines)
    ensures Skipped(ListChunks(heading, lines))
  {
    PrefaceIsNoHeading(heading);
    PrefaceIsNoHeading("");
    PrefaceIsNoHeading(NONE);
  }

  lemma Prefaces(ep: Captured)
    requires PlainMetadata(ep)
    ensures Skipped(PreambleChunks(ep))
  {
    MetadataIsPreface(ep);
    forall c | c in MetadataChunks(ep) ensures !IsHeading(DropCr(c)) {
      PrefaceIsNoHeading(c);
    }
    assert Skipped(ep.commits) && Skipped(ep.prs) && Skipped(ep.files) by {
      assert forall c | c in ep.commits || c in ep.prs || c in ep.files :: c in ep.commits + ep.prs + ep.files;
    }
    ListIsSkipped("## Commits made", ep.commits);
    ListIsSkipped("## PRs opened", ep.prs);
    ListIsSkipped("## Files touched", ep.files);
  }

  lemma {:induction false} OutsidePasses(lines: seq<string>, rest: seq<string>)
    requires forall l | l in lines :: !IsHeading(l)
    ensures Segments(Outside, lines + rest) == Segments(Outside, rest)
  {
    hide TurnHead;
    hide IsHeading;
    if lines == [] {
      assert lines + rest == rest;
    } else {
      var all := lines + rest;
      assert all[0] == lines[0] && lines[0] in lines && all[1..] == lines[1..] + rest;
      assert forall l | l in lines[1..] :: l in lines;
      OutsidePasses(lines[1..], rest);
    }
  }

  // ------------------------------------------------------------ the whole file

  lemma DropCrOfClean(c: string)
    requires c == "" || c[|c| - 1] != '\r'
    ensures DropCr(c) == c
  {
  }

  lemma NoneWritten()
    ensures Lines([NONE, ""]) == [NONE, ""]
  {
    hide DropCr;
    LinesOfOneLiners([NONE, ""]);
    DropCrOfClean(NONE);
    DropCrOfClean("");
    assert DropCrs([NONE, ""]) == [NONE, ""];
  }

  lemma HeadingLines(heading: string)
    requires OneLine(heading) && |heading| > 0 && heading[|heading| - 1] == ')'
    ensures Lines([heading, ""]) == [heading, ""]
  {
    LinesOfOneLiners([heading, ""]);
    assert DropCrs([heading, ""]) == [heading, ""];
  }

  lemma FixedLines()
    ensures Lines([RULE]) == [RULE] && Lines([USER_HEAD, ""]) == [USER_HEAD, ""] && Lines([ASSISTANT_HEAD, ""]) == [ASSISTANT_HEAD, ""]
  {
    hide Lines;
    UserHeadLine();
    AssistantHeadLine();
    assert Lines([RULE]) == [RULE] by {
      LinesOfOneLiners([RULE]);
      assert DropCrs([RULE]) == [RULE];
    }
  }

  lemma UserHeadLine()
    ensures Lines([USER_HEAD, ""]) == [USER_HEAD, ""]
  {
    assert |USER_HEAD| == 27 && USER_HEAD[26] == ')';
    HeadingLines(USER_HEAD);
  }

  lemma AssistantHeadLine()
    ensures Lines([ASSISTANT_HEAD, ""]) == [ASSISTANT_HEAD, ""]
  {
    assert |ASSISTANT_HEAD| == 33 && ASSISTANT_HEAD[32] == ')';
    HeadingLines(ASSISTANT_HEAD);
  }

  /** The lines before the user section's heading. */
  function MetadataPart(ep: Captured): seq<string> {
    Lines([RULE] + FrontChunks(ep) + [RULE] + PreambleChunks(ep))
  }

  /** The lines of the user section after its heading and the empty line. */
  function UserPart(ep: Captured): seq<string> {
    Lines(if ep.users == [] then [NONE, ""] else UserChunks(ep.users, 1))
  }

  function AssistantPart(ep: Captured): seq<string> {
    Lines(if ep.assistants == [] then [NONE, ""] else AssistantChunks(ep.assistants, 1))
  }

  lemma FileLines(ep: Captured)
    ensures Lines(Chunks(ep)) == MetadataPart(ep) + ([USER_HEAD, ""] + UserPart(ep) + ([ASSISTANT_HEAD, ""] + AssistantPart(ep)))
  {
    var u := if ep.users == [] then [NONE, ""] else UserChunks(ep.users, 1);
    var a := if ep.assistants == [] then [NONE, ""] else AssistantChunks(ep.assistants, 1);
    hide Lines;
    hide UserChunks;
    hide AssistantChunks;
    hide FrontChunks;
    hide PreambleChunks;
    FixedLines();
    LinesOfParts([RULE] + FrontChunks(ep) + [RULE] + PreambleChunks(ep), [USER_HEAD, ""], u, [ASSISTANT_HEAD, ""], a);
  }

  lemma LinesOfParts(m: seq<string>, c: seq<string>, d: seq<string>, e: seq<string>, f: seq<string>)
    ensures Lines(m + c + d + e + f) == Lines(m) + (Lines(c) + Lines(d) + (Lines(e) + Lines(f)))
  {
    hide Lines;
    LinesOf(m, c);
    LinesOf(m + c, d);
    LinesOf(m + c + d, e);
    LinesOf(m + c + d + e, f);
  }

  /** The reader's two frontmatter flags after some lines. */
  function Flags(lines: seq<string>, seen: bool, inFront: bool): (bool, bool) {
    if lines == [] then (seen, inFront)
    else if lines[0] == RULE then Flags(lines[1..], true, !seen)
    else Flags(lines[1..], seen, inFront)
  }

  lemma {:induction false} FlagsOf(a: seq<string>, b: seq<string>, seen: bool, inFront: bool)
    ensures Flags(a + b, seen, inFront) == Flags(b, Flags(a, seen, inFront).0, Flags(a, seen, inFront).1)
    decreases |a|
  {
    if a == [] {
      assert a + b == b;
    } else {
      assert (a + b)[1..] == a[1..] + b;
      FlagsOf(a[1..], b, if a[0] == RULE then true else seen, if a[0] == RULE then !seen else inFront);
    }
  }

  /** Frontmatter once seen stays seen, and once left is not entered again. */
  lemma {:induction false} FlagsStay(lines: seq<string>, inFront: bool)
    ensures Flags(lines, true, inFront).0 && (!inFront ==> !Flags(lines, true, inFront).1)
    decreases |lines|
  {
    if lines != [] {
      FlagsStay(lines[1..], if lines[0] == RULE then false else inFront);
    }
  }

  lemma {:induction false} ContentOf(a: seq<string>, b: seq<string>, seen: bool, inFront: bool, id: string)
    ensures var (s, f) := Flags(a, seen, inFront);
            && Content(a + b, seen, inFront) == Content(a, seen, inFront) + Content(b, s, f)
            && FrontId(a + b, seen, inFront, id) == FrontId(b, s, f, FrontId(a, seen, inFront, id))
    decreases |a|
  {
    hide IdLine;
    if a == [] {
      assert a + b == b;
    } else {
      assert (a + b)[1..] == a[1..] + b;
      if a[0] == RULE {
        ContentOf(a[1..], b, true, !seen, id);
      } else {
        ContentOf(a[1..], b, seen, inFront, if inFront then IdLine(a[0]).GetOr(id) else id);
      }
    }
  }

  /** Whatever the metadata, the reader is past the frontmatter at the end of it. */
  lemma MetadataEnds(ep: Captured)
    ensures Flags(MetadataPart(ep), false, false) == (true, false)
  {
    var front, preamble := Lines(FrontChunks(ep)), Lines(PreambleChunks(ep));
    var open := [RULE] + front + [RULE];
    assert MetadataPart(ep) == open + preamble by {
      hide Lines;
      FixedLines();
      LinesOf([RULE], FrontChunks(ep));
      LinesOf([RULE] + FrontChunks(ep), [RULE]);
      LinesOf([RULE] + FrontChunks(ep) + [RULE], PreambleChunks(ep));
    }
    hide Lines;
    hide MetadataPart;
    OneRule(front);
    FlagsOf([RULE] + front, [RULE], false, false);
    FlagsOf(open, preamble, false, false);
    FlagsStay(preamble, false);
  }

  lemma OneRule(front: seq<string>)
    ensures Flags([RULE] + front, false, false).0
    ensures Flags([RULE], true, false) == Flags([RULE], true, true) == (true, false)
  {
    assert ([RULE] + front)[0] == RULE && ([RULE] + front)[1..] == front;
    FlagsStay(front, true);
    assert [RULE][1..] == [];
  }

  /** A message-section heading cuts a text in two that are read apart. */
  lemma {:induction false} SegmentsAtHeading(section: Section, a: seq<string>, heading: string, b: seq<string>)
    requires IsHeading(heading)
    ensures Segments(section, a + ([heading] + b)) == Segments(section, a) + Segments(SectionOf(heading), b)
    ensures Body(a + ([heading] + b)) == Body(a)
    decreases |a|
  {
    hide TurnHead;
    hide Atoi;
    hide IsHeading;
    var all := a + ([heading] + b);
    if a == [] {
      assert all[0] == heading && all[1..] == b;
      assert Structural(heading);
    } else {
      assert all[0] == a[0] && all[1..] == a[1..] + ([heading] + b);
      SegmentsAtHeading(if IsHeading(a[0]) then SectionOf(a[0]) else section, a[1..], heading, b);
    }
  }

  /** The file's segments: those of its three parts, each read by itself. */
  function FileSegments(ep: Captured): seq<Segment> {
    Segments(Outside, Content(MetadataPart(ep), false, false))
    + (Segments(User, NoRules(UserPart(ep))) + Segments(Assistant, NoRules(AssistantPart(ep))))
  }

  lemma SectionsApart(section: Section, before: seq<string>, user: seq<string>, assistant: seq<string>)
    ensures Segments(section, before + NoRules([USER_HEAD, ""] + user + ([ASSISTANT_HEAD, ""] + assistant)))
            == Segments(section, before) + (Segments(User, NoRules(user)) + Segments(Assistant, NoRules(assistant)))
  {
    hide Segments;
    HeadingsKept();
    NoRulesOf([USER_HEAD, ""] + user, [ASSISTANT_HEAD, ""] + assistant);
    NoRulesOf([USER_HEAD, ""], user);
    NoRulesOf([ASSISTANT_HEAD, ""], assistant);
    var u, a := [""] + NoRules(user), [""] + NoRules(assistant);
    assert NoRules([USER_HEAD, ""] + user + ([ASSISTANT_HEAD, ""] + assistant)) == [USER_HEAD] + (u + ([ASSISTANT_HEAD] + a));
    SegmentsAtHeading(section, before, USER_HEAD, u + ([ASSISTANT_HEAD] + a));
    SegmentsAtHeading(User, u, ASSISTANT_HEAD, a);
    NoneIsPlain();
    PlainLinesPass(User, [""], NoRules(user));
    PlainLinesPass(Assistant, [""], NoRules(assistant));
  }

  lemma HeadingsKept()
    ensures NoRules([USER_HEAD, ""]) == [USER_HEAD, ""] && NoRules([ASSISTANT_HEAD, ""]) == [ASSISTANT_HEAD, ""]
    ensures SectionOf(USER_HEAD) == User && SectionOf(ASSISTANT_HEAD) == Assistant
  {
    HeadingsStart();
    assert RULE[0] == '-';
    NoRulesToDrop([USER_HEAD, ""]);
    NoRulesToDrop([ASSISTANT_HEAD, ""]);
  }

  /** For every episode whatever: its file reads as its three parts do, each by itself, and its id comes from the metadata. */
  lemma FileRead(ep: Captured, stem: string)
    ensures ReadLines(stem, Lines(Chunks(ep)))
            == Episode(FrontId(MetadataPart(ep), false, false, stem), Turns(User, FileSegments(ep)), Turns(Assistant, FileSegments(ep)))
  {
    hide Lines;
    hide Segments;
    hide Turns;
    hide MetadataPart;
    hide UserPart;
    hide AssistantPart;
    hide Content;
    hide FrontId;
    hide Flags;
    var rest := [USER_HEAD, ""] + UserPart(ep) + ([ASSISTANT_HEAD, ""] + AssistantPart(ep));
    FileLines(ep);
    MetadataEnds(ep);
    ContentOf(MetadataPart(ep), rest, false, false, stem);
    AfterFrontmatter(rest, FrontId(MetadataPart(ep), false, false, stem));
    SectionsApart(Outside, Content(MetadataPart(ep), false, false), UserPart(ep), AssistantPart(ep));
  }

  // ------------------------------------------------------------ metadata of one line each

  lemma OtherFront(ep: Captured)
    requires PlainMetadata(ep)
    ensures FrontChunks(ep)[0] == "id: " + ep.id && FrontChunks(ep)[1..] == FieldChunks(ep)
    ensures forall c | c in FrontChunks(ep) :: OneLine(c)
    ensures DropCr("id: " + ep.id) == "id: " + ep.id
  {
    var line := "id: " + ep.id;
    assert line[|line| - 1] == ep.id[|ep.id| - 1];
    Fields(ep);
    TokensAreOneLine(ep);
    hide FieldChunks;
  }

  lemma FieldsPass(fields: seq<string>)
    requires forall c | c in fields :: Field(c)
    ensures forall f | f in DropCrs(fields) :: f != RULE && IdLine(f) == None
  {
    hide IdLine;
    hide Field;
    hide DropCr;
    var lines := DropCrs(fields);
    forall f | f in lines ensures f != RULE && IdLine(f) == None {
      var i :| 0 <= i < |lines| && f == lines[i];
      assert fields[i] in fields;
      FieldPasses(fields[i]);
    }
  }

  lemma OpensWithId(id: string, fields: seq<string>, rest: seq<string>, stem: string)
    requires IdLine("id: " + id) == Some(id) && "id: " + id != RULE
    requires forall f | f in fields :: f != RULE && IdLine(f) == None
    ensures var lines := [RULE] + (["id: " + id] + fields) + [RULE] + rest;
            Content(lines, false, false) == NoRules(rest) && FrontId(lines, false, false, stem) == id
  {
    hide IdLine;
    hide NoRules;
    FrontmatterPasses(fields, rest, id);
    var lines := [RULE] + (["id: " + id] + fields) + [RULE] + rest;
    assert lines[0] == RULE && lines[1..][0] == "id: " + id && lines[1..][1..] == fields + [RULE] + rest;
  }

  lemma FrontLines(ep: Captured)
    requires PlainMetadata(ep)
    ensures DropCrs(FrontChunks(ep)) == ["id: " + ep.id] + DropCrs(FieldChunks(ep))
  {
    OtherFront(ep);
    hide PlainMetadata;
    hide FrontChunks;
    hide FieldChunks;
    hide DropCr;
    var chunks := FrontChunks(ep);
    assert chunks == [chunks[0]] + chunks[1..];
  }

  lemma ReadFront(ep: Captured, stem: string, rest: seq<string>)
    requires PlainMetadata(ep)
    ensures var lines := [RULE] + DropCrs(FrontChunks(ep)) + [RULE] + rest;
            Content(lines, false, false) == NoRules(rest) && FrontId(lines, false, false, stem) == ep.id
  {
    hide IdLine;
    hide FrontChunks;
    hide FieldChunks;
    hide Content;
    hide FrontId;
    hide NoRules;
    hide Field;
    Fields(ep);
    IdLineReadsBack(ep.id);
    FrontLines(ep);
    FieldsPass(FieldChunks(ep));
    OpensWithId(ep.id, DropCrs(FieldChunks(ep)), rest, stem);
  }

  lemma MetadataLines(ep: Captured)
    requires PlainMetadata(ep)
    ensures MetadataPart(ep) == [RULE] + DropCrs(FrontChunks(ep)) + [RULE] + DropCrs(PreambleChunks(ep))
  {
    OtherFront(ep);
    Prefaces(ep);
    LinesOfOneLiners(FrontChunks(ep));
    LinesOfOneLiners(PreambleChunks(ep));
    FixedLines();
    hide Lines;
    hide DropCrs;
    hide FrontChunks;
    hide PreambleChunks;
    hide PlainMetadata;
    LinesOf([RULE], FrontChunks(ep));
    LinesOf([RULE] + FrontChunks(ep), [RULE]);
    LinesOf([RULE] + FrontChunks(ep) + [RULE], PreambleChunks(ep));
  }

  /** In the part of the file before the messages, the last id line of the frontmatter holds the id, and no turn header lies in a section. */
  ghost predicate MetadataIsQuiet(ep: Captured, stem: string) {
    && FrontId(MetadataPart(ep), false, false, stem) == ep.id
    && ValidHeaders(Outside, Content(MetadataPart(ep), false, false)) == 0
  }

  /** That is, by itself it reads as the id and no turns. */
  lemma QuietReads(ep: Captured, stem: string)
    ensures MetadataIsQuiet(ep, stem) <==> ReadLines(stem, MetadataPart(ep)) == Episode(ep.id, [], [])
  {
    hide MetadataPart;
    hide Turns;
    hide Segments;
    OneTurnPerHeader(Outside, Content(MetadataPart(ep), false, false));
  }

  lemma PlainMetadataIsQuiet(ep: Captured, stem: string)
    requires PlainMetadata(ep)
    ensures MetadataIsQuiet(ep, stem)
  {
    var preamble := DropCrs(PreambleChunks(ep));
    MetadataLines(ep);
    ReadFront(ep, stem, preamble);
    Prefaces(ep);
    forall l | l in NoRules(preamble) ensures !IsHeading(l) {
      var i :| 0 <= i < |preamble| && l == preamble[i];
      assert PreambleChunks(ep)[i] in PreambleChunks(ep);
    }
    hide PreambleChunks;
    hide FrontChunks;
    hide IsHeading;
    hide MetadataPart;
    OutsidePasses(NoRules(preamble), []);
    assert NoRules(preamble) + [] == NoRules(preamble);
    QuietReads(ep, stem);
  }

  // ------------------------------------------------------------ the message sections

  lemma {:induction false} UserLinesHoldNoRule(messages: seq<Message>, first: nat)
    ensures forall l | l in UserLines(messages, first) :: l != RULE
  {
    if messages != [] {
      HeaderIsNoHeading(first, messages[0].timestamp);
      QuotedIsPlain(MessageLines(messages[0]));
      UserLinesHoldNoRule(messages[1..], first + 1);
      hide Header;
    }
  }

  lemma NoneIsPlain()
    ensures PlainLine(NONE) && PlainLine("")
  {
  }

  lemma {:induction false} AssistantLinesHoldNoRule(messages: seq<Message>, first: nat)
    requires Unstructured(messages)
    ensures forall l | l in AssistantLines(messages, first) :: l != RULE
  {
    if messages != [] {
      HeaderIsNoHeading(first, messages[0].timestamp);
      NoneIsPlain();
      assert forall l | l in MessageLines(messages[0]) :: PlainLine(l);
      AssistantLinesHoldNoRule(messages[1..], first + 1);
      hide Header;
      hide MessageLines;
    }
  }

  lemma UserPartRead(ep: Captured)
    requires Stamped(ep.users) && |ep.users| <= MAX_INT
    ensures Turns(User, Segments(User, NoRules(UserPart(ep)))) == ExpectedTurns(ep.users, 1)
    ensures Turns(Assistant, Segments(User, NoRules(UserPart(ep)))) == []
  {
    hide Lines;
    NoneIsPlain();
    if ep.users == [] {
      NoneWritten();
      NoRulesToDrop([NONE, ""]);
      PlainLinesPass(User, [NONE, ""], []);
      assert [NONE, ""] + [] == [NONE, ""];
    } else {
      var lines := UserLines(ep.users, 1);
      UserLinesWritten(ep.users, 1);
      UserLinesHoldNoRule(ep.users, 1);
      NoRulesToDrop(lines);
      hide UserLines;
      hide UserChunks;
      StampedUsersReadBack(ep.users, 1, []);
      assert lines + [] == lines;
      assert ExpectedTurns(ep.users, 1) + [] == ExpectedTurns(ep.users, 1);
    }
  }

  function AssistantSection(ep: Captured): seq<string> {
    if ep.assistants == [] then [NONE, ""] else AssistantLines(ep.assistants, 1)
  }

  lemma AssistantPartWritten(ep: Captured)
    requires Stamped(ep.assistants)
    ensures AssistantPart(ep) == AssistantSection(ep)
  {
    hide Lines;
    NoneWritten();
    AssistantLinesWritten(ep.assistants, 1);
  }

  function AssistantContent(ep: Captured): seq<Segment> {
    Segments(Assistant, NoRules(AssistantSection(ep)))
  }

  lemma AssistantSectionRead(ep: Captured)
    requires Stamped(ep.assistants) && |ep.assistants| <= MAX_INT && Unstructured(ep.assistants)
    ensures Turns(User, AssistantContent(ep)) == [] && Turns(Assistant, AssistantContent(ep)) == ExpectedTurns(ep.assistants, 1)
  {
    if ep.assistants == [] {
      NoneIsPlain();
      NoRulesToDrop([NONE, ""]);
      PlainLinesPass(Assistant, [NONE, ""], []);
      assert [NONE, ""] + [] == [NONE, ""];
    } else {
      AssistantsReadBack(ep.assistants, 1);
      AssistantLinesHoldNoRule(ep.assistants, 1);
      NoRulesToDrop(AssistantLines(ep.assistants, 1));
    }
  }

  lemma {:induction false} HeadersAfter(section: Section, a: seq<string>, b: seq<string>) returns (after: Section)
    requires section != Outside
    ensures after != Outside && ValidHeaders(section, a + b) >= ValidHeaders(after, b)
    decreases |a|
  {
    hide TurnHead;
    hide Atoi;
    if a == [] {
      after := section;
      assert a + b == b;
    } else {
      assert (a + b)[1..] == a[1..] + b;
      after := HeadersAfter(if IsHeading(a[0]) then SectionOf(a[0]) else section, a[1..], b);
    }
  }

  /** Every written header still begins a turn, in one section or the other, whatever the messages hold. */
  lemma {:induction false} EveryHeaderCounts(messages: seq<Message>, first: nat, section: Section)
    requires section != Outside && Stamped(messages) && first + |messages| <= MAX_INT + 1
    ensures ValidHeaders(section, NoRules(AssistantLines(messages, first))) >= |messages|
    decreases |messages|
  {
    hide Header;
    hide MessageLines;
    hide ValidHeaders;
    if messages != [] {
      var m := messages[0];
      var h, body, rest := Header(first, m.timestamp), [""] + MessageLines(m) + [""], AssistantLines(messages[1..], first + 1);
      NoRulesOf([h] + body, rest);
      NoRulesOf([h], body);
      HeaderCounts(section, first, m.timestamp, NoRules(body) + NoRules(rest));
      assert NoRules([h] + body + rest) == [h] + (NoRules(body) + NoRules(rest));
      var after := HeadersAfter(section, NoRules(body), NoRules(rest));
      EveryHeaderCounts(messages[1..], first + 1, after);
    }
  }

  lemma HeaderCounts(section: Section, i: nat, timestamp: string, rest: seq<string>)
    requires section != Outside && i <= MAX_INT && IsToken(timestamp)
    ensures NoRules([Header(i, timestamp)]) == [Header(i, timestamp)]
    ensures ValidHeaders(section, [Header(i, timestamp)] + rest) == 1 + ValidHeaders(section, rest)
  {
    hide TurnHead;
    hide Header;
    hide IsHeading;
    hide ValidHeaders;
    HeaderOfToken(i, timestamp);
    HeaderIsNoHeading(i, timestamp);
    DecimalReadsBack(i);
    NoRulesToDrop([Header(i, timestamp)]);
    HeaderLineCounts(section, Header(i, timestamp), rest);
  }

  lemma HeaderLineCounts(section: Section, h: string, rest: seq<string>)
    requires section != Outside && !IsHeading(h) && TurnHead(h).Some? && Atoi(TurnHead(h).value.0).Some?
    ensures ValidHeaders(section, [h] + rest) == 1 + ValidHeaders(section, rest)
  {
    hide TurnHead;
    hide IsHeading;
    assert ([h] + rest)[1..] == rest;
  }

  // ------------------------------------------------------------ what structure inside a message costs

  function LinesWeight(lines: seq<string>): nat {
    if lines == [] then 0 else Weight(lines[0]) + LinesWeight(lines[1..])
  }

  /** The weight of the lines that can be part of a turn's text. */
  function PlainWeight(lines: seq<string>): nat {
    if lines == [] then 0 else (if Structural(lines[0]) then 0 else Weight(lines[0])) + PlainWeight(lines[1..])
  }

  function TurnsWeight(turns: seq<Turn>): nat {
    if turns == [] then 0 else Weight(turns[0].text) + TurnsWeight(turns[1..])
  }

  lemma {:induction false} WeightOfJoin(lines: seq<string>)
    ensures Weight(Join(lines, "\n")) == LinesWeight(lines)
  {
    if |lines| == 1 {
      assert lines[1..] == [];
    } else if |lines| > 1 {
      WeightOfJoin(lines[1..]);
      WeightOf(lines[0] + "\n", Join(lines[1..], "\n"));
      WeightOf(lines[0], "\n");
      assert Weight("\n") == 0;
    }
  }

  lemma WeightOfTrimSpace(s: string)
    ensures Weight(TrimSpace(s)) == Weight(s)
  {
    WeightOfTrimmed(s);
    WeightOfTrimmed(TrimLeft(s));
  }

  /** No line counts towards two turns: the turns weigh at most the plain lines outside the first body. */
  lemma {:induction false} TurnsWeighNoMore(section: Section, lines: seq<string>)
    ensures TurnsWeight(Turns(Assistant, Segments(section, lines))) + LinesWeight(Body(lines)) <= PlainWeight(lines)
    decreases |lines|
  {
    hide TurnHead;
    hide Atoi;
    hide Weight;
    if lines != [] {
      var rest := lines[1..];
      if IsHeading(lines[0]) {
        TurnsWeighNoMore(SectionOf(lines[0]), rest);
      } else {
        TurnsWeighNoMore(section, rest);
        if TurnHead(lines[0]).Some? {
          WeightOfTrimSpace(Join(Body(rest), "\n"));
          WeightOfJoin(Body(rest));
          TurnsWeighWithFirst(section, lines);
        } else {
          assert ([lines[0]] + Body(rest))[1..] == Body(rest);
        }
      }
    }
  }

  lemma TurnsWeighWithFirst(section: Section, lines: seq<string>)
    requires lines != [] && !IsHeading(lines[0]) && TurnHead(lines[0]).Some?
    ensures TurnsWeight(Turns(Assistant, Segments(section, lines)))
            <= TurnsWeight(Turns(Assistant, Segments(section, lines[1..]))) + Weight(TrimSpace(Join(Body(lines[1..]), "\n")))
  {
    hide TurnHead;
    hide Weight;
    hide TrimSpace;
    hide Body;
    var segments := Segments(section, lines);
    var rest := Segments(section, lines[1..]);
    if segments != rest {
      var s := segments[0];
      assert segments == [s] + rest && segments[1..] == rest;
      if s.section == Assistant {
        assert ([Turn(s.index, s.timestamp, TextOf(Assistant, s.body))] + Turns(Assistant, rest))[1..] == Turns(Assistant, rest);
      } else {
        assert [] + Turns(Assistant, rest) == Turns(Assistant, rest);
      }
    }
  }

  /** The weight of the lines of a message that a reader can keep. */
  function KeptWeight(lines: seq<string>): nat {
    if lines == [] then 0 else (if PlainLine(lines[0]) then Weight(lines[0]) else 0) + KeptWeight(lines[1..])
  }

  lemma {:induction false} KeptIsPlainWithoutRules(lines: seq<string>)
    ensures PlainWeight(NoRules(lines)) == KeptWeight(lines)
  {
    hide TurnHead;
    hide Weight;
    if lines != [] {
      KeptIsPlainWithoutRules(lines[1..]);
      if lines[0] != RULE {
        assert ([lines[0]] + NoRules(lines[1..]))[1..] == NoRules(lines[1..]);
      } else {
        assert [] + NoRules(lines[1..]) == NoRules(lines[1..]);
      }
    }
  }

  lemma {:induction false} KeptWeightOf(a: seq<string>, b: seq<string>)
    ensures KeptWeight(a + b) == KeptWeight(a) + KeptWeight(b)
  {
    if a == [] {
      assert a + b == b;
    } else {
      assert (a + b)[1..] == a[1..] + b;
      KeptWeightOf(a[1..], b);
    }
  }

  lemma StructureHasWeight(line: string)
    requires !PlainLine(line)
    ensures Weight(line) > 0
  {
    assert line != "" && (line[0] == '-' || line[0] == '#') by {
      assert RULE[0] == '-' && USER_HEAD[0] == ASSISTANT_HEAD[0] == '#' && "###"[0] == '#';
      if HasPrefix(line, "###") { assert line[..3][0] == line[0]; }
    }
  }

  lemma {:induction false} KeptWeighsLess(lines: seq<string>)
    ensures KeptWeight(lines) <= LinesWeight(lines)
    ensures (exists l | l in lines :: !PlainLine(l)) ==> KeptWeight(lines) < LinesWeight(lines)
  {
    hide PlainLine;
    hide Weight;
    if lines != [] {
      KeptWeighsLess(lines[1..]);
      if !PlainLine(lines[0]) {
        StructureHasWeight(lines[0]);
      } else if exists l | l in lines :: !PlainLine(l) {
        var l :| l in lines && !PlainLine(l);
        assert l in lines[1..];
      }
    }
  }

  lemma ExpectedWeight(m: Message, i: nat)
    ensures Weight(TurnOf(m, i).text) == LinesWeight(MessageLines(m))
  {
    WeightOfJoin(MessageLines(m));
    WeightOfTrimSpace(Join(MessageLines(m), "\n"));
  }

  lemma KeptOfMessage(m: Message, i: nat)
    requires IsToken(m.timestamp)
    ensures KeptWeight([Header(i, m.timestamp)] + ([""] + MessageLines(m) + [""])) == KeptWeight(MessageLines(m))
  {
    hide TurnHead;
    var h := Header(i, m.timestamp);
    HeaderOfToken(i, m.timestamp);
    KeptWeightOf([h], [""] + MessageLines(m) + [""]);
    KeptWeightOf([""] + MessageLines(m), [""]);
    KeptWeightOf([""], MessageLines(m));
    assert KeptWeight([h]) == 0 && KeptWeight([""]) == 0;
  }

  lemma {:induction false} StructureIsLost(messages: seq<Message>, first: nat)
    requires Stamped(messages)
    ensures KeptWeight(AssistantLines(messages, first)) <= TurnsWeight(ExpectedTurns(messages, first))
    ensures !Unstructured(messages) ==> KeptWeight(AssistantLines(messages, first)) < TurnsWeight(ExpectedTurns(messages, first))
  {
    hide KeptWeight;
    hide PlainLine;
    hide Header;
    hide MessageLines;
    if messages != [] {
      var m := messages[0];
      StructureIsLost(messages[1..], first + 1);
      KeptOfMessage(m, first);
      KeptWeightOf([Header(first, m.timestamp)] + ([""] + MessageLines(m) + [""]), AssistantLines(messages[1..], first + 1));
      KeptWeighsLess(MessageLines(m));
      ExpectedWeight(m, first);
      assert ([TurnOf(m, first)] + ExpectedTurns(messages[1..], first + 1))[1..] == ExpectedTurns(messages[1..], first + 1);
      if !Unstructured(messages) && forall l | l in MessageLines(m) :: PlainLine(l) {
        assert !Unstructured(messages[1..]);
      }
    } else {
      KeptWeightEmpty();
    }
  }

  lemma KeptWeightEmpty()
    ensures KeptWeight([]) == 0
  {
  }

  // ------------------------------------------------------------ the round trip

  lemma LinesRead(ep: Captured)
    ensures DropCrs(RawLines(RenderMarkdown(ep))) == Lines(Chunks(ep))
  {
    LinesWritten(Chunks(ep));
  }

  lemma StructureBreaks(ep: Captured)
    requires Stamped(ep.assistants)
    ensures !Unstructured(ep.assistants) ==> Turns(Assistant, AssistantContent(ep)) != ExpectedTurns(ep.assistants, 1)
  {
    if !Unstructured(ep.assistants) {
      StructureIsLost(ep.assistants, 1);
      KeptIsPlainWithoutRules(AssistantSection(ep));
      TurnsWeighNoMore(Assistant, NoRules(AssistantSection(ep)));
    }
  }

  /** The file's turns, in the order of its parts. */
  lemma TurnsOfParts(ep: Captured, section: Section)
    ensures Turns(section, FileSegments(ep))
            == Turns(section, Segments(Outside, Content(MetadataPart(ep), false, false)))
               + (Turns(section, Segments(User, NoRules(UserPart(ep)))) + Turns(section, Segments(Assistant, NoRules(AssistantPart(ep)))))
  {
    hide Segments;
    hide Turns;
    var u, a := Segments(User, NoRules(UserPart(ep))), Segments(Assistant, NoRules(AssistantPart(ep)));
    TurnsOf(section, u, a);
    TurnsOf(section, Segments(Outside, Content(MetadataPart(ep), false, false)), u + a);
  }

  /** With timestamps of one word, the turns are the metadata's, then every user message's, then what the assistant section gives. */
  lemma StampedFileRead(ep: Captured, stem: string)
    requires Stamped(ep.users) && Stamped(ep.assistants) && |ep.users| <= MAX_INT
    ensures var read, meta := ReadLines(stem, Lines(Chunks(ep))), ReadLines(stem, MetadataPart(ep));
            && read.id == meta.id
            && read.users == meta.users + (ExpectedTurns(ep.users, 1) + Turns(User, AssistantContent(ep)))
            && read.assistants == meta.assistants + Turns(Assistant, AssistantContent(ep))
  {
    hide Lines;
    hide Segments;
    hide Turns;
    hide MetadataPart;
    hide FileSegments;
    hide ExpectedTurns;
    hide AssistantSection;
    FileRead(ep, stem);
    TurnsOfParts(ep, User);
    TurnsOfParts(ep, Assistant);
    UserPartRead(ep);
    AssistantPartWritten(ep);
    hide UserPart;
    hide AssistantPart;
    assert [] + Turns(Assistant, AssistantContent(ep)) == Turns(Assistant, AssistantContent(ep));
  }

  lemma AssistantTurnsCount(ep: Captured)
    requires Stamped(ep.assistants) && |ep.assistants| <= MAX_INT
    ensures |Turns(User, AssistantContent(ep))| + |Turns(Assistant, AssistantContent(ep))| >= |ep.assistants|
  {
    hide Segments;
    hide Turns;
    OneTurnPerHeader(Assistant, NoRules(AssistantSection(ep)));
    if ep.assistants != [] {
      EveryHeaderCounts(ep.assistants, 1, Assistant);
    }
  }

  /** If a file reads back as written, all four conditions hold. */
  lemma ReadsBackOnlyIf(ep: Captured, stem: string)
    requires |ep.users| <= MAX_INT && |ep.assistants| <= MAX_INT && ReadLines(stem, Lines(Chunks(ep))) == Expected(ep)
    ensures Stamped(ep.users) && Stamped(ep.assistants) && MetadataIsQuiet(ep, stem) && Unstructured(ep.assistants)
  {
    QuietReads(ep, stem);
    hide Lines;
    hide Segments;
    hide Turns;
    hide Content;
    hide MetadataPart;
    hide ExpectedTurns;
    hide Stamped;
    hide Unstructured;
    hide AssistantContent;
    hide Chunks;
    var lines := Lines(Chunks(ep));
    ReadTurnsAreStamped(ep.users, 1, User, Outside, Content(lines, false, false));
    ReadTurnsAreStamped(ep.assistants, 1, Assistant, Outside, Content(lines, false, false));
    StampedFileRead(ep, stem);
    hide ReadLines;
    ExpectedStamps(ep.users, 1);
    ExpectedStamps(ep.assistants, 1);
    AssistantTurnsCount(ep);
    var meta := ReadLines(stem, MetadataPart(ep));
    assert |meta.users| == 0 && |meta.assistants| == 0;
    assert [] + Turns(Assistant, AssistantContent(ep)) == Turns(Assistant, AssistantContent(ep));
    StructureBreaks(ep);
  }

  /** What the source's int can count. */
  ghost predicate Countable(ep: Captured) {
    |ep.users| <= MAX_INT && |ep.assistants| <= MAX_INT
  }

  /** What reading back gives: the messages in their order, numbered from one, with their timestamps and their texts trimmed. */
  lemma ExpectedSays(ep: Captured)
    ensures var e := Expected(ep);
            && e.id == ep.id && |e.users| == |ep.users| && |e.assistants| == |ep.assistants|
            && (forall i | 0 <= i < |ep.users| :: Says(e.users[i], ep.users[i], i + 1))
            && (forall i | 0 <= i < |ep.assistants| :: Says(e.assistants[i], ep.assistants[i], i + 1))
  {
    ExpectedOne(ep.users, 1);
    ExpectedOne(ep.assistants, 1);
  }

  /** Without carriage returns the text is the message's own, trimmed. */
  ghost predicate Says(turn: Turn, m: Message, number: int) {
    turn.index == number && turn.timestamp == m.timestamp && ('\r' !in m.text ==> turn.text == TrimSpace(m.text))
  }

  lemma {:induction false} ExpectedOne(messages: seq<Message>, first: nat)
    ensures |ExpectedTurns(messages, first)| == |messages|
    ensures forall i | 0 <= i < |messages| :: Says(ExpectedTurns(messages, first)[i], messages[i], first + i)
  {
    hide TrimSpace;
    hide Says;
    if messages != [] {
      ExpectedOne(messages[1..], first + 1);
      TurnSays(messages[0], first);
      forall i | 1 <= i < |messages| ensures Says(ExpectedTurns(messages, first)[i], messages[i], first + i) {
        assert messages[i] == messages[1..][i - 1];
      }
    }
  }

  lemma TurnSays(m: Message, i: nat)
    ensures Says(TurnOf(m, i), m, i)
  {
    hide TrimSpace;
    if '\r' !in m.text {
      var lines := Split(m.text, '\n');
      forall l | l in lines ensures DropCr(l) == l {
        PartHasOnly(m.text, l);
        assert l != "" ==> l[|l| - 1] in l;
      }
      assert DropCrs(lines) == lines;
      JoinUndoesSplit(m.text, '\n');
    }
  }

  lemma {:induction false} PartHasOnly(s: string, part: string)
    requires part in Split(s, '\n')
    ensures forall c | c in part :: c in s
  {
    if s != "" {
      var rest := Split(s[1..], '\n');
      if part in rest {
        PartHasOnly(s[1..], part);
      } else {
        PartHasOnly(s[1..], rest[0]);
      }
    }
  }

  /**
   * Over every episode: it reads back as written, its texts trimmed, exactly
   * when no line is longer than the scanner takes, every timestamp is one word,
   * the metadata's last id line holds the id and no turn header lies in a
   * section of it, and no line of an
   * assistant message is a rule, a message-section heading or a turn header.
   * The text of user messages is under no condition.
   */
  lemma RoundTrip(ep: Captured, stem: string)
    requires Countable(ep)
    ensures Parse(stem, RenderMarkdown(ep)) == Ok(Expected(ep)) <==>
              && !TooLong(RawLines(RenderMarkdown(ep)))
              && Stamped(ep.users) && Stamped(ep.assistants)
              && MetadataIsQuiet(ep, stem)
              && Unstructured(ep.assistants)
  {
    hide MetadataIsQuiet;
    hide RenderMarkdown;
    hide Lines;
    hide Chunks;
    hide MetadataPart;
    hide Turns;
    hide ExpectedTurns;
    hide AssistantContent;
    hide TooLong;
    hide Unstructured;
    hide Stamped;
    LinesRead(ep);
    if ReadLines(stem, Lines(Chunks(ep))) == Expected(ep) {
      ReadsBackOnlyIf(ep, stem);
    }
    if Stamped(ep.users) && Stamped(ep.assistants) && MetadataIsQuiet(ep, stem) && Unstructured(ep.assistants) {
      ReadsBackIf(ep, stem);
    }
  }

  lemma ReadsBackIf(ep: Captured, stem: string)
    requires Countable(ep) && Stamped(ep.users) && Stamped(ep.assistants) && MetadataIsQuiet(ep, stem) && Unstructured(ep.assistants)
    ensures ReadLines(stem, Lines(Chunks(ep))) == Expected(ep)
  {
    QuietReads(ep, stem);
    hide MetadataIsQuiet;
    hide Lines;
    hide Chunks;
    hide MetadataPart;
    hide Turns;
    hide ExpectedTurns;
    hide AssistantContent;
    StampedFileRead(ep, stem);
    AssistantSectionRead(ep);
    hide ReadLines;
    var users, assistants := ExpectedTurns(ep.users, 1), ExpectedTurns(ep.assistants, 1);
    assert [] + (users + []) == users && [] + assistants == assistants;
  }

  /** For metadata of one line each the metadata is no condition, and user turns are always read, first and in full. */
  lemma PlainRoundTrip(ep: Captured, stem: string)
    requires Countable(ep) && PlainMetadata(ep)
    ensures Parse(stem, RenderMarkdown(ep)) == Ok(Expected(ep)) <==>
              !TooLong(RawLines(RenderMarkdown(ep))) && Stamped(ep.users) && Stamped(ep.assistants) && Unstructured(ep.assistants)
    ensures !TooLong(RawLines(RenderMarkdown(ep))) && Stamped(ep.users) && Stamped(ep.assistants) ==>
              var read := Parse(stem, RenderMarkdown(ep)); read.Ok? && ExpectedTurns(ep.users, 1) <= read.value.users
  {
    hide RenderMarkdown;
    hide Lines;
    hide Chunks;
    hide Turns;
    hide ExpectedTurns;
    hide AssistantContent;
    hide TooLong;
    hide Unstructured;
    hide Stamped;
    hide MetadataPart;
    QuietReads(ep, stem);
    PlainMetadataIsQuiet(ep, stem);
    RoundTrip(ep, stem);
    LinesRead(ep);
    if Stamped(ep.users) && Stamped(ep.assistants) {
      StampedFileRead(ep, stem);
    }
  }

  /** A message captured without a timestamp is lost: its header is no turn header, whatever its place. */
  lemma EmptyTimestampIsLost(ep: Captured, stem: string, m: Message)
    requires Countable(ep) && (m in ep.users || m in ep.assistants) && m.timestamp == ""
    ensures forall i: nat :: TurnHead(Header(i, m.timestamp)) == None
    ensures Parse(stem, RenderMarkdown(ep)) != Ok(Expected(ep))
  {
    forall i: nat ensures TurnHead(Header(i, m.timestamp)) == None {
      NoTimestampNoHead(i);
    }
    assert !Stamped(ep.users) || !Stamped(ep.assistants);
    RoundTrip(ep, stem);
  }

  lemma NoTimestampNoHead(i: nat)
    ensures TurnHead(Header(i, "")) == None
  {
    hide TurnHead;
    DecimalReadsBack(i);
    TurnHeadOfParts(Decimal(i), "");
    assert Header(i, "") == "###" + (" " + (Decimal(i) + (" " + ("—" + (" " + "")))));
  }
}
