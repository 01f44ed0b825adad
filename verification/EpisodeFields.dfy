/**
 * The frontmatter of a written episode, looked up key by key
 * (internal/episode/render.go): the review queue takes the start of an episode
 * from it.
 */
module EpisodeFields {
  import opened Wrappers
  import opened Text
  import opened EpisodeParser
  import opened EpisodeWriter

  /** The value of a key among the lines of a frontmatter, which a rule ends. */
  function ValueOf(lines: seq<string>, key: string): Option<string> {
    if lines == [] || lines[0] == "---" then None
    else if HasPrefix(lines[0], key) then Some(lines[0][|key|..])
    else ValueOf(lines[1..], key)
  }

  /** The two characters a line begins with, which tell the keys of the frontmatter apart. */
  function Mark(line: string): string {
    if |line| >= 2 then line[..2] else ""
  }

  lemma KeyMark(line: string, key: string)
    requires |key| >= 2 && HasPrefix(line, key)
    ensures Mark(line) == Mark(key)
  {
    assert line[..2] == line[..|key|][..2];
  }

  lemma {:induction false} ValuePasses(lines: seq<string>, rest: seq<string>, key: string)
    requires |key| >= 2 && forall l | l in lines :: Mark(l) != "--" && Mark(l) != Mark(key)
    ensures ValueOf(lines + rest, key) == ValueOf(rest, key)
  {
    hide HasPrefix;
    hide Mark;
    if lines == [] {
      assert lines + rest == rest;
    } else {
      var line := lines[0];
      assert (lines + rest)[1..] == lines[1..] + rest && line in lines;
      assert forall l | l in lines[1..] :: l in lines;
      if HasPrefix(line, key) {
        KeyMark(line, key);
      }
      RuleMark();
      ValuePasses(lines[1..], rest, key);
    }
  }

  lemma RuleMark()
    ensures Mark("---") == "--"
  {
  }

  lemma MarkOf(key: string, value: string)
    requires |key| >= 2
    ensures Mark(key + value) == Mark(key) == key[..2]
  {
    assert (key + value)[..2] == key[..2];
  }

  /** A group of lines under one mark is passed over in search of any other. */
  lemma GroupPasses(lines: seq<string>, mark: string, rest: seq<string>)
    requires mark != "--" && forall l | l in lines :: Mark(l) == mark
    ensures forall key: string | |key| >= 2 && Mark(key) != mark :: ValueOf(lines + rest, key) == ValueOf(rest, key)
  {
    hide Mark;
    hide ValueOf;
    forall key: string | |key| >= 2 && Mark(key) != mark ensures ValueOf(lines + rest, key) == ValueOf(rest, key) {
      ValuePasses(lines, rest, key);
    }
  }

  /** A field that may be left out: its value where it is there; and it is passed over in search of another. */
  lemma FieldLine(key: string, value: string, rest: seq<string>)
    requires |key| >= 2 && key[0] != '-'
    ensures ValueOf([key + value] + rest, key) == Some(value)
    ensures forall k: string | |k| >= 2 && Mark(k) != Mark(key) :: ValueOf([key + value] + rest, k) == ValueOf(rest, k)
  {
    var line := key + value;
    MarkOf(key, value);
    assert Mark(key)[0] == key[0] && "--"[0] == '-';
    assert line[..|key|] == key && line[|key|..] == value;
    assert line[0] == key[0] && "---"[0] == '-';
    GroupPasses([line], Mark(key), rest);
    assert ([line] + rest)[1..] == rest;
  }

  lemma OptionalLine(key: string, value: string, rest: seq<string>)
    requires |key| >= 2 && key[0] != '-' && ValueOf(rest, key) == None
    ensures ValueOf(Optional(key, value) + rest, key) == if value == "" then None else Some(value)
    ensures forall k: string | |k| >= 2 && Mark(k) != Mark(key) :: ValueOf(Optional(key, value) + rest, k) == ValueOf(rest, k)
  {
    hide ValueOf;
    hide Mark;
    if value == "" {
      assert [] + rest == rest;
    } else {
      FieldLine(key, value, rest);
    }
  }

  lemma KeyMarks()
    ensures Mark("id: ") == "id" && Mark("session_id: ") == "se" && Mark("started_at: ") == "st" && Mark("ended_at: ") == "en"
    ensures Mark("cwd: ") == "cw" && Mark("git_branch: ") == "gi" && Mark("created: ") == "cr"
    ensures Mark("type: ") == "ty" && Mark("tags:") == "ta" && Mark("  - ") == "  " && Mark("  - episode") == "  "
    ensures "type: " + "episode" == "type: episode" && "tags:" + "" == "tags:" && "  - " + "episode" == "  - episode"
  {
  }

  /** What the keys of a frontmatter hold. */
  datatype Values = Values(
    id: Option<string>, session: Option<string>, started: Option<string>, ended: Option<string>,
    cwd: Option<string>, branch: Option<string>, created: Option<string>)

  function ValuesOf(lines: seq<string>): Values {
    Values(ValueOf(lines, "id: "), ValueOf(lines, "session_id: "), ValueOf(lines, "started_at: "), ValueOf(lines, "ended_at: "),
           ValueOf(lines, "cwd: "), ValueOf(lines, "git_branch: "), ValueOf(lines, "created: "))
  }

  lemma FieldStep(key: string, value: string, rest: seq<string>)
    requires key == "id: " || key == "session_id: " || key == "started_at: " || key == "ended_at: " || key == "created: "
    ensures var v := ValuesOf(rest);
            ValuesOf([key + value] + rest) ==
              if key == "id: " then v.(id := Some(value))
              else if key == "session_id: " then v.(session := Some(value))
              else if key == "started_at: " then v.(started := Some(value))
              else if key == "ended_at: " then v.(ended := Some(value))
              else v.(created := Some(value))
  {
    hide ValueOf;
    hide Mark;
    KeyMarks();
    FieldLine(key, value, rest);
  }

  lemma CwdStep(value: string, rest: seq<string>)
    requires ValuesOf(rest).cwd == None
    ensures ValuesOf(Optional("cwd: ", value) + rest) == ValuesOf(rest).(cwd := if value == "" then None else Some(value))
  {
    hide ValueOf;
    hide Mark;
    hide Optional;
    KeyMarks();
    OptionalLine("cwd: ", value, rest);
  }

  lemma BranchStep(value: string, rest: seq<string>)
    requires ValuesOf(rest).branch == None
    ensures ValuesOf(Optional("git_branch: ", value) + rest) == ValuesOf(rest).(branch := if value == "" then None else Some(value))
  {
    hide ValueOf;
    hide Mark;
    hide Optional;
    KeyMarks();
    OptionalLine("git_branch: ", value, rest);
  }

  /** Lines that hold no key. */
  lemma OtherStep(lines: seq<string>, mark: string, rest: seq<string>)
    requires mark == "ty" || mark == "ta" || mark == "  "
    requires forall l | l in lines :: Mark(l) == mark
    ensures ValuesOf(lines + rest) == ValuesOf(rest)
  {
    hide ValueOf;
    hide Mark;
    KeyMarks();
    GroupPasses(lines, mark, rest);
  }

  lemma NothingAfterRule(rest: seq<string>)
    ensures ValuesOf(["---"] + rest) == Values(None, None, None, None, None, None, None)
  {
  }

  /** The fields from the tags on. */
  lemma LaterFields(ep: Captured, rest: seq<string>)
    ensures ValuesOf(["tags:"] + (["  - episode"] + (Optional("  - ", ep.agent) + (["created: " + ep.created] + (["---"] + rest)))))
         == Values(None, None, None, None, None, None, Some(ep.created))
  {
    hide ValuesOf;
    hide Mark;
    KeyMarks();
    NothingAfterRule(rest);
    FieldStep("created: ", ep.created, ["---"] + rest);
    var created := ["created: " + ep.created] + (["---"] + rest);
    MarkOf("  - ", ep.agent);
    OtherStep(Optional("  - ", ep.agent), "  ", created);
    hide Optional;
    var agent := Optional("  - ", ep.agent) + created;
    OtherStep(["  - episode"], "  ", agent);
    OtherStep(["tags:"], "ta", ["  - episode"] + agent);
  }

  /** The frontmatter's lines as one list, each group in front of the later ones. */
  lemma FrontmatterIs(ep: Captured, rest: seq<string>)
    ensures FrontChunks(ep) + (["---"] + rest)
         == ["id: " + ep.id] + (["type: episode"] + (["session_id: " + ep.sessionId] + (["started_at: " + ep.startedAt]
              + (["ended_at: " + ep.endedAt] + (Optional("cwd: ", ep.cwd) + (Optional("git_branch: ", ep.gitBranch)
              + (["tags:"] + (["  - episode"] + (Optional("  - ", ep.agent) + (["created: " + ep.created] + (["---"] + rest)))))))))))
  {
    hide Optional;
  }

  function FieldsOf(ep: Captured): Values {
    Values(Some(ep.id), Some(ep.sessionId), Some(ep.startedAt), Some(ep.endedAt),
           if ep.cwd == "" then None else Some(ep.cwd), if ep.gitBranch == "" then None else Some(ep.gitBranch), Some(ep.created))
  }

  lemma FieldsReadBack(ep: Captured, rest: seq<string>)
    ensures ValuesOf(FrontChunks(ep) + (["---"] + rest)) == FieldsOf(ep)
  {
    hide ValuesOf;
    hide Mark;
    hide FrontChunks;
    hide Optional;
    FrontmatterIs(ep, rest);
    var r := ["tags:"] + (["  - episode"] + (Optional("  - ", ep.agent) + (["created: " + ep.created] + (["---"] + rest))));
    LaterFields(ep, rest);
    BranchStep(ep.gitBranch, r);
    r := Optional("git_branch: ", ep.gitBranch) + r;
    CwdStep(ep.cwd, r);
    r := Optional("cwd: ", ep.cwd) + r;
    FieldStep("ended_at: ", ep.endedAt, r);
    r := ["ended_at: " + ep.endedAt] + r;
    FieldStep("started_at: ", ep.startedAt, r);
    r := ["started_at: " + ep.startedAt] + r;
    FieldStep("session_id: ", ep.sessionId, r);
    r := ["session_id: " + ep.sessionId] + r;
    TypeStep(r);
    FieldStep("id: ", ep.id, ["type: episode"] + r);
  }

  lemma TypeStep(rest: seq<string>)
    ensures ValuesOf(["type: episode"] + rest) == ValuesOf(rest)
  {
    hide ValuesOf;
    OtherStep(["type: episode"], "ty", rest);
  }

  /** Fields of one line are the lines of the frontmatter. */
  lemma FrontmatterLines(ep: Captured)
    requires PlainFields(ep)
    ensures Flat(FrontChunks(ep)) == FrontChunks(ep)
  {
    forall c | c in FrontChunks(ep) ensures '\n' !in c {
    }
    FlatOfOneLiners(FrontChunks(ep));
  }

  ghost predicate PlainFields(ep: Captured) {
    && OneLine(ep.id) && OneLine(ep.sessionId) && OneLine(ep.startedAt) && OneLine(ep.endedAt) && OneLine(ep.cwd)
    && OneLine(ep.gitBranch) && OneLine(ep.agent) && OneLine(ep.created)
  }

  lemma {:induction false} FlatOfOneLiners(chunks: seq<string>)
    requires forall c | c in chunks :: '\n' !in c
    ensures Flat(chunks) == chunks
  {
    if chunks != [] {
      assert chunks[0] in chunks;
      SplitOfWord(chunks[0], '\n');
      FlatOfOneLiners(chunks[1..]);
    }
  }

  lemma {:induction false} FlatOf(a: seq<string>, b: seq<string>)
    ensures Flat(a + b) == Flat(a) + Flat(b)
  {
    if a == [] {
      assert a + b == b;
    } else {
      assert (a + b)[1..] == a[1..] + b;
      FlatOf(a[1..], b);
    }
  }

  lemma FileBegins(ep: Captured) returns (more: seq<string>)
    ensures Chunks(ep) == ["---"] + (FrontChunks(ep) + (["---"] + more))
  {
    hide FrontChunks;
    hide PreambleChunks;
    hide UserChunks;
    hide AssistantChunks;
    var users := if ep.users == [] then [NONE, ""] else UserChunks(ep.users, 1);
    var assistants := if ep.assistants == [] then [NONE, ""] else AssistantChunks(ep.assistants, 1);
    more := PreambleChunks(ep) + [USER_HEAD, ""] + users + [ASSISTANT_HEAD, ""] + assistants;
  }

  lemma RuleIsALine()
    ensures Flat(["---"]) == ["---"]
  {
    FlatOfOneLiners(["---"]);
  }

  lemma LinesBegin(ep: Captured) returns (rest: seq<string>)
    requires PlainFields(ep)
    ensures Split(RenderMarkdown(ep), '\n') == ["---"] + (FrontChunks(ep) + (["---"] + rest))
  {
    hide FrontChunks;
    hide PlainFields;
    hide Split;
    var more := FileBegins(ep);
    hide Chunks;
    LinesWritten(Chunks(ep));
    FlatOf(["---"], FrontChunks(ep) + (["---"] + more));
    FlatOf(FrontChunks(ep), ["---"] + more);
    FlatOf(["---"], more);
    FrontmatterLines(ep);
    RuleIsALine();
    hide Flat;
    rest := Flat(more) + [""];
  }

  /** A written file begins with a frontmatter that holds each field of one line under its own key. */
  lemma FrontmatterReadsBack(ep: Captured)
    requires PlainFields(ep)
    ensures var lines := Split(RenderMarkdown(ep), '\n');
            && lines[0] == "---"
            && ValueOf(lines[1..], "id: ") == Some(ep.id) && ValueOf(lines[1..], "session_id: ") == Some(ep.sessionId)
            && ValueOf(lines[1..], "started_at: ") == Some(ep.startedAt) && ValueOf(lines[1..], "ended_at: ") == Some(ep.endedAt)
            && ValueOf(lines[1..], "cwd: ") == (if ep.cwd == "" then None else Some(ep.cwd))
            && ValueOf(lines[1..], "git_branch: ") == (if ep.gitBranch == "" then None else Some(ep.gitBranch))
            && ValueOf(lines[1..], "created: ") == Some(ep.created)
  {
    hide ValueOf;
    hide PlainFields;
    hide FrontChunks;
    hide Split;
    hide RenderMarkdown;
    var rest := LinesBegin(ep);
    var lines := Split(RenderMarkdown(ep), '\n');
    assert lines[1..] == FrontChunks(ep) + (["---"] + rest);
    FieldsReadBack(ep, rest);
  }
}
