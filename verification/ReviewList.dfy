/**
 * The list of one episode's messages that a person is asked to judge
 * (internal/distill/review.go).
 */
module ReviewList {
  import opened Text
  import opened Sorting
  import opened EpisodeParser

  const MIN_CHARS := 12
  const AGENT_CHARS := 180
  const PERSON_CHARS := 500

  datatype Message = Message(index: int, agentBefore: string, person: string)

  /** strings.Fields: the maximal runs of characters that are not white space. */
  function Fields(s: string): seq<string> {
    if s == "" then []
    else if IsSpace(s[0]) then Fields(s[1..])
    else if |s| == 1 || IsSpace(s[1]) then [[s[0]]] + Fields(s[1..])
    else
      var rest := Fields(s[1..]);
      if rest == [] then [[s[0]]] else [[s[0]] + rest[0]] + rest[1..]
  }

  function Flatten(s: string): string {
    Join(Fields(s), " ")
  }

  function Clip(s: string, n: nat): string {
    var flat := Flatten(s);
    if |flat| <= n then flat else flat[..n] + "…"
  }

  predicate MachineText(text: string) {
    var t := text[Spaces(text)..];
    || HasPrefix(t, "<") || HasPrefix(t, "[SYSTEM") || HasPrefix(t, "```")
    || HasPrefix(t, "This session is being continued from a previous conversation")
  }

  predicate Judgeable(turn: Turn) {
    |TrimSpace(turn.text)| >= MIN_CHARS && !MachineText(TrimSpace(turn.text))
  }

  /** Go's a < b on strings. */
  predicate Less(a: string, b: string) {
    !AtMost(b, a)
  }

  /** How many turns come before the first one that is not earlier than ts. */
  function Earlier(turns: seq<Turn>, ts: string): (n: nat)
    ensures n <= |turns|
    ensures forall k | 0 <= k < n :: Less(turns[k].timestamp, ts)
    ensures n < |turns| ==> !Less(turns[n].timestamp, ts)
  {
    if turns != [] && Less(turns[0].timestamp, ts) then 1 + Earlier(turns[1..], ts) else 0
  }

  function TextBefore(turns: seq<Turn>, ts: string): string {
    var n := Earlier(turns, ts);
    if n == 0 then "" else turns[n - 1].text
  }

  function MessageOf(u: Turn, replies: seq<Turn>): Message {
    Message(u.index, Clip(TextBefore(replies, u.timestamp), AGENT_CHARS), Clip(TrimSpace(u.text), PERSON_CHARS))
  }

  function Messages(users: seq<Turn>, replies: seq<Turn>): seq<Message> {
    if users == [] then []
    else
      var last := |users| - 1;
      Messages(users[..last], replies) + if Judgeable(users[last]) then [MessageOf(users[last], replies)] else []
  }

  method AgentBefore(turns: seq<Turn>, ts: string) returns (text: string)
    ensures text == TextBefore(turns, ts)
  {
    text := "";
    var n := Earlier(turns, ts);
    for i := 0 to |turns|
      invariant i <= n
      invariant text == if i == 0 then "" else turns[i - 1].text
    {
      if AtMost(ts, turns[i].timestamp) {
        break;
      }
      text := turns[i].text;
    }
  }

  method BuildReview(ep: Episode) returns (messages: seq<Message>)
    ensures messages == Messages(ep.users, ep.assistants)
    ensures exists ps :: Lists(messages, ep.users, ep.assistants, ps)
  {
    messages := [];
    for i := 0 to |ep.users|
      invariant messages == Messages(ep.users[..i], ep.assistants)
    {
      assert ep.users[..i + 1][..i] == ep.users[..i];
      var u := ep.users[i];
      var text := TrimSpace(u.text);
      if |text| < MIN_CHARS || MachineText(text) {
        continue;
      }
      var before := AgentBefore(ep.assistants, u.timestamp);
      messages := messages + [Message(u.index, Clip(before, AGENT_CHARS), Clip(text, PERSON_CHARS))];
    }
    assert ep.users[..|ep.users|] == ep.users;
    var _ := MessagesList(ep.users, ep.assistants);
  }

  // ------------------------------------------------------------ what a row says

  /** A message the person wrote and that is long enough to judge, once trimmed. */
  ghost predicate Spoken(text: string) {
    && |text| >= 12
    && !("<" <= text) && !("[SYSTEM" <= text) && !("```" <= text)
    && !("This session is being continued from a previous conversation" <= text)
  }

  ghost function SpokenAt(users: seq<Turn>): (ps: set<nat>)
    ensures forall p: nat :: p in ps <==> p < |users| && Spoken(TrimSpace(users[p].text))
  {
    set p: nat | p < |users| && Spoken(TrimSpace(users[p].text))
  }

  /** n replies are earlier than ts, and the one after them is not. */
  ghost predicate CutAt(replies: seq<Turn>, ts: string, n: nat) {
    && n <= |replies|
    && (forall k | 0 <= k < n :: Less(replies[k].timestamp, ts))
    && (n < |replies| ==> !Less(replies[n].timestamp, ts))
  }

  ghost predicate Shows(m: Message, u: Turn, replies: seq<Turn>) {
    && m.index == u.index
    && m.person == Clip(TrimSpace(u.text), 500)
    && exists n: nat :: CutAt(replies, u.timestamp, n) && m.agentBefore == Clip(if n == 0 then "" else replies[n - 1].text, 180)
  }

  /** The rows are those of the spoken messages, at the positions ps, in their order. */
  ghost predicate Lists(messages: seq<Message>, users: seq<Turn>, replies: seq<Turn>, ps: seq<nat>) {
    && InOrder(ps, SpokenAt(users))
    && |messages| == |ps|
    && forall k | 0 <= k < |ps| :: ps[k] < |users| && Shows(messages[k], users[ps[k]], replies)
  }

  lemma JudgeableIs(u: Turn)
    ensures Judgeable(u) <==> Spoken(TrimSpace(u.text))
  {
    var text := TrimSpace(u.text);
    var i, j := TrimSpaceIs(u.text);
    if text != "" {
      assert text[0] == u.text[i];
      assert Spaces(text) == 0;
      assert text[0..] == text;
    }
  }

  lemma MessageShows(u: Turn, replies: seq<Turn>)
    ensures Shows(MessageOf(u, replies), u, replies)
  {
    hide Clip;
    hide Less;
    assert CutAt(replies, u.timestamp, Earlier(replies, u.timestamp));
  }

  lemma SpokenOneMore(users: seq<Turn>, u: Turn)
    ensures SpokenAt(users + [u]) == SpokenAt(users) + if Spoken(TrimSpace(u.text)) then {|users|} else {}
  {
    var more := users + [u];
    forall p: nat | p < |users| ensures more[p] == users[p] {
    }
  }

  lemma {:induction false} MessagesList(users: seq<Turn>, replies: seq<Turn>) returns (ps: seq<nat>)
    ensures Lists(Messages(users, replies), users, replies, ps)
  {
    hide Judgeable;
    hide MessageOf;
    hide Shows;
    hide Spoken;
    ps := [];
    if users != [] {
      var front, u := users[..|users| - 1], users[|users| - 1];
      ps := MessagesList(front, replies);
      JudgeableIs(u);
      MessageShows(u, replies);
      assert users == front + [u];
      SpokenOneMore(front, u);
      if Judgeable(u) {
        InOrderMore(ps, SpokenAt(front), |front|);
        ps := ps + [|front|];
      }
    }
  }

  /** With replies in time order, the reply shown is the latest of all those strictly before the message. */
  lemma LatestReplyBefore(turns: seq<Turn>, ts: string, k: nat)
    requires k < |turns|
    requires forall i, j | 0 <= i < j < |turns| :: AtMost(turns[i].timestamp, turns[j].timestamp)
    ensures Less(turns[k].timestamp, ts) <==> k < Earlier(turns, ts)
  {
    var n := Earlier(turns, ts);
    if k > n {
      AtMostTransitive(ts, turns[n].timestamp, turns[k].timestamp);
    }
  }

  /** An episode has something to judge exactly when one of its messages is judgeable. */
  lemma {:induction false} SomethingToJudge(users: seq<Turn>, replies: seq<Turn>)
    ensures Messages(users, replies) != [] <==> exists i :: 0 <= i < |users| && Judgeable(users[i])
  {
    hide Judgeable;
    hide MessageOf;
    if users != [] {
      var last := |users| - 1;
      SomethingToJudge(users[..last], replies);
      if i :| 0 <= i < |users| && Judgeable(users[i]) {
        assert i < last ==> users[..last][i] == users[i];
      }
    }
  }

  // ------------------------------------------------------------ clipping

  /** One line, single spaces, no space at either end. */
  ghost predicate Flat(s: string) {
    && (forall i | 0 <= i < |s| && IsSpace(s[i]) :: s[i] == ' ' && 0 < i < |s| - 1)
    && (forall i | 0 <= i < |s| - 1 && IsSpace(s[i]) :: !IsSpace(s[i + 1]))
  }

  ghost predicate Words(parts: seq<string>) {
    forall p | p in parts :: p != "" && forall c | c in p :: !IsSpace(c)
  }

  lemma {:induction false} FieldsAreWords(s: string)
    ensures Words(Fields(s))
  {
    if s != "" {
      FieldsAreWords(s[1..]);
      var rest := Fields(s[1..]);
      assert rest != [] ==> rest[0] in rest;
      assert rest != [] ==> forall p | p in rest[1..] :: p in rest;
    }
  }

  lemma {:induction false} JoinedWordsAreFlat(parts: seq<string>)
    requires Words(parts)
    ensures Flat(Join(parts, " "))
    ensures parts != [] ==> Join(parts, " ") != "" && !IsSpace(Join(parts, " ")[0])
  {
    if parts != [] {
      assert parts[0] in parts;
      assert forall c | c in parts[0] :: !IsSpace(c);
      assert forall i | 0 <= i < |parts[0]| :: parts[0][i] in parts[0];
      if |parts| > 1 {
        assert forall p | p in parts[1..] :: p in parts;
        JoinedWordsAreFlat(parts[1..]);
        FlatJoin(parts[0], Join(parts[1..], " "));
      }
    }
  }

  lemma FlatJoin(a: string, b: string)
    requires a != "" && (forall c | c in a :: !IsSpace(c)) && b != "" && Flat(b) && !IsSpace(b[0])
    ensures Flat(a + " " + b)
  {
  }

  lemma FieldsAtGap(s: string)
    requires |s| > 1 && !IsSpace(s[0]) && IsSpace(s[1])
    ensures Fields(s) == [[s[0]]] + Fields(s[2..])
  {
  }

  lemma JoinFront(c: char, parts: seq<string>)
    requires parts != []
    ensures Join([[c] + parts[0]] + parts[1..], " ") == [c] + Join(parts, " ")
  {
  }

  lemma FlatShape(s: string)
    requires Flat(s) && s != ""
    ensures !IsSpace(s[0])
    ensures |s| > 1 && IsSpace(s[1]) ==> |s| > 2 && s[1] == ' ' && !IsSpace(s[2])
  {
  }

  lemma {:induction false} FlattenOfFlat(s: string)
    requires Flat(s)
    ensures Flatten(s) == s
    ensures s != "" ==> Fields(s) != []
    decreases |s|
  {
    hide IsSpace;
    hide Flat;
    if s != "" {
      FlatShape(s);
      if |s| == 1 {
        assert s[1..] == "" && Fields("") == [] && [s[0]] == s;
        assert [s] + [] == [s];
      } else if IsSpace(s[1]) {
        FlatTail(s, 2);
        FlattenOfFlat(s[2..]);
        FieldsAtGap(s);
        assert s == [s[0]] + " " + s[2..];
      } else {
        FlatTail(s, 1);
        FlattenOfFlat(s[1..]);
        JoinFront(s[0], Fields(s[1..]));
        assert s == [s[0]] + s[1..];
      }
    }
  }

  lemma FlatTail(s: string, k: nat)
    requires Flat(s) && k < |s| && !IsSpace(s[k])
    ensures Flat(s[k..])
  {
  }

  /** Words with the white space around them: gaps[0], words[0], gaps[1], and so on to the last gap. */
  function Laid(gaps: seq<string>, words: seq<string>): string
    requires |gaps| == |words| + 1
  {
    if words == [] then gaps[0] else gaps[0] + words[0] + Laid(gaps[1..], words[1..])
  }

  /** The gaps are white space, and there is some between any two words. */
  ghost predicate Gaps(gaps: seq<string>) {
    && (forall i | 0 <= i < |gaps| :: Blank(gaps[i]))
    && (forall i | 0 < i < |gaps| - 1 :: gaps[i] != "")
  }

  lemma {:induction false} FieldsOfGap(gap: string, s: string)
    requires Blank(gap)
    ensures Fields(gap + s) == Fields(s)
  {
    if gap == "" {
      assert gap + s == s;
    } else {
      assert (gap + s)[1..] == gap[1..] + s;
      FieldsOfGap(gap[1..], s);
    }
  }

  lemma {:induction false} FieldsOfWord(word: string, s: string)
    requires word != "" && (forall c | c in word :: !IsSpace(c)) && (s == "" || IsSpace(s[0]))
    ensures Fields(word + s) == [word] + Fields(s)
  {
    var t := word + s;
    assert word[0] in word;
    assert t[1..] == word[1..] + s;
    if |word| == 1 {
      assert t[1..] == s && word == [t[0]];
    } else {
      FieldsOfWord(word[1..], s);
      assert word[1] in word && word == [word[0]] + word[1..];
    }
  }

  /** The words of a text are read back, however much white space of whatever kind is around them. */
  lemma {:induction false} FieldsOfLaid(gaps: seq<string>, words: seq<string>)
    requires |gaps| == |words| + 1 && Gaps(gaps) && Words(words)
    ensures Fields(Laid(gaps, words)) == words
    decreases |words|
  {
    if words == [] {
      FieldsOfGap(gaps[0], "");
      assert gaps[0] + "" == gaps[0];
    } else {
      var rest := Laid(gaps[1..], words[1..]);
      assert words[0] in words && forall w | w in words[1..] :: w in words;
      FieldsOfLaid(gaps[1..], words[1..]);
      LaidStarts(gaps[1..], words[1..]);
      FieldsOfWord(words[0], rest);
      FieldsOfGap(gaps[0], words[0] + rest);
      assert gaps[0] + (words[0] + rest) == gaps[0] + words[0] + rest;
    }
  }

  lemma LaidStarts(gaps: seq<string>, words: seq<string>)
    requires |gaps| == |words| + 1 && Blank(gaps[0]) && (words != [] ==> gaps[0] != "")
    ensures Laid(gaps, words) == "" || IsSpace(Laid(gaps, words)[0])
  {
  }

  /** Every text is its words with white space around them. */
  lemma {:induction false} TextIsLaid(s: string) returns (gaps: seq<string>)
    ensures |gaps| == |Fields(s)| + 1 && Gaps(gaps) && Laid(gaps, Fields(s)) == s
    ensures s != "" && !IsSpace(s[0]) ==> Fields(s) != [] && gaps[0] == ""
  {
    gaps := [""];
    if s != "" {
      var rest := TextIsLaid(s[1..]);
      var words := Fields(s[1..]);
      if IsSpace(s[0]) {
        gaps := [[s[0]] + rest[0]] + rest[1..];
        assert gaps[1..] == rest[1..];
        LaidGap(s[0], rest, words);
      } else if |s| == 1 || IsSpace(s[1]) {
        gaps := [""] + rest;
        FieldsAreWords(s[1..]);
      RestBegins(s[1..], rest);
        LaidWord(s[0], rest, words);
      } else {
        gaps := rest;
        LaidLetter(s[0], rest, words);
      }
      assert [s[0]] + s[1..] == s;
    }
  }

  lemma RestBegins(s: string, gaps: seq<string>)
    requires |gaps| == |Fields(s)| + 1 && Laid(gaps, Fields(s)) == s && (s == "" || IsSpace(s[0])) && Words(Fields(s))
    ensures Fields(s) != [] ==> gaps[0] != ""
  {
    if Fields(s) != [] {
      assert Fields(s)[0] in Fields(s);
      assert Fields(s)[0][0] in Fields(s)[0];
    }
  }

  lemma LaidGap(c: char, gaps: seq<string>, words: seq<string>)
    requires |gaps| == |words| + 1
    ensures Laid([[c] + gaps[0]] + gaps[1..], words) == [c] + Laid(gaps, words)
  {
  }

  lemma LaidWord(c: char, gaps: seq<string>, words: seq<string>)
    requires |gaps| == |words| + 1
    ensures Laid([""] + gaps, [[c]] + words) == [c] + Laid(gaps, words)
  {
  }

  lemma LaidLetter(c: char, gaps: seq<string>, words: seq<string>)
    requires |gaps| == |words| + 1 && words != [] && gaps[0] == ""
    ensures Laid(gaps, [[c] + words[0]] + words[1..]) == [c] + Laid(gaps, words)
  {
  }

  /**
   * A text whose words, with single blanks between them, take at most n
   * characters is shown as those words; of a longer one the first n characters
   * are shown, and then the mark.
   */
  lemma ClipShows(gaps: seq<string>, words: seq<string>, n: nat)
    requires |gaps| == |words| + 1 && Gaps(gaps) && Words(words)
    ensures var line, shown := Join(words, " "), Clip(Laid(gaps, words), n);
            if |line| <= n then shown == line else |shown| == n + 1 && shown[..n] == line[..n] && shown[n] == '…'
  {
    FieldsOfLaid(gaps, words);
  }

  /**
   * A clipped line is one line of at most n + 1 characters that is its own
   * clipping: what the list shows does not change when it is clipped again.
   */
  lemma ClipIsStable(s: string, n: nat)
    requires n > 0
    ensures |Clip(s, n)| <= n + 1 && Flat(Clip(s, n)) && Clip(Clip(s, n), n) == Clip(s, n)
  {
    FieldsAreWords(s);
    JoinedWordsAreFlat(Fields(s));
    var flat := Flatten(s);
    if |flat| > n {
      var cut := flat[..n] + "…";
      assert forall i | 0 <= i < n :: cut[i] == flat[i];
      assert Flat(cut);
      assert cut[..n] == flat[..n];
    }
    FlattenOfFlat(Clip(s, n));
  }
}
