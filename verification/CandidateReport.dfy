/**
 * Laying out candidate moments by episode, and annotating proposals with the
 * arcs they resemble (internal/distill/report.go and internal/distill/dedup.go).
 */
module CandidateReport {
  import opened Wrappers
  import opened Text
  import opened Sorting

  datatype NearArc = NearArc(id: string, title: string, score: real)

  datatype Candidate = Candidate(rule: string, episode: string, turn: int, timestamp: string, verbatim: string, trigger: string, near: seq<NearArc>)

  datatype DeskEntry = DeskEntry(id: string, title: string, date: string, path: string, snippet: string, near: seq<NearArc>)

  datatype Diagnostic = Note(text: string) | LookupFailed(count: nat, reason: string)

  datatype Report = Report(candidates: seq<Candidate>, desk: seq<DeskEntry>, diagnostics: seq<Diagnostic>)

  // ------------------------------------------------------------ grouping

  datatype Group = Group(id: string, candidates: seq<Candidate>)

  predicate ByTurn(a: Candidate, b: Candidate) {
    a.turn <= b.turn
  }

  function Of(id: string, cands: seq<Candidate>): seq<Candidate> {
    if cands == [] then []
    else
      var last := |cands| - 1;
      Of(id, cands[..last]) + if cands[last].episode == id then [cands[last]] else []
  }

  function Ids(groups: seq<Group>): (r: seq<string>)
    ensures |r| == |groups| && forall i | 0 <= i < |groups| :: r[i] == groups[i].id
  {
    seq(|groups|, i requires 0 <= i < |groups| => groups[i].id)
  }

  function Flatten(groups: seq<Group>): seq<Candidate> {
    if groups == [] then [] else groups[0].candidates + Flatten(groups[1..])
  }

  /** One group per episode named, in order of id; within it the episode's candidates by turn. */
  ghost predicate GroupsOf(cands: seq<Candidate>, groups: seq<Group>) {
    && Sorted(AtMost, Ids(groups)) && Distinct(Ids(groups))
    && (forall id :: id in Ids(groups) <==> Of(id, cands) != [])
    && (forall i | 0 <= i < |groups| :: groups[i].candidates == Sort(ByTurn, Of(groups[i].id, cands)))
  }

  method GroupByEpisode(cands: seq<Candidate>) returns (groups: seq<Group>)
    ensures GroupsOf(cands, groups)
  {
    hide Of;
    hide AtMost;
    var byEp := ByEpisode(cands);
    var ids := Keys(byEp);
    SortedIds(ids);
    ids := Sort(AtMost, ids);
    groups := [];
    for i := 0 to |ids|
      invariant |groups| == i && forall j | 0 <= j < i :: groups[j] == Group(ids[j], Sort(ByTurn, Of(ids[j], cands)))
    {
      assert ids[i] in ids;
      groups := groups + [Group(ids[i], Sort(ByTurn, byEp[ids[i]]))];
    }
    assert Ids(groups) == ids;
  }

  method ByEpisode(cands: seq<Candidate>) returns (byEp: map<string, seq<Candidate>>)
    ensures forall id :: id in byEp <==> Of(id, cands) != []
    ensures forall id | id in byEp :: byEp[id] == Of(id, cands)
  {
    hide Of;
    byEp := map[];
    forall id ensures Of(id, cands[..0]) == [] {
      OfNone(id);
    }
    for i := 0 to |cands|
      invariant forall id :: id in byEp <==> Of(id, cands[..i]) != []
      invariant forall id | id in byEp :: byEp[id] == Of(id, cands[..i])
    {
      forall id ensures Of(id, cands[..i + 1]) == Of(id, cands[..i]) + if cands[i].episode == id then [cands[i]] else [] {
        OfOneMore(id, cands, i);
      }
      var id := cands[i].episode;
      byEp := byEp[id := (if id in byEp then byEp[id] else []) + [cands[i]]];
    }
    assert cands[..|cands|] == cands;
  }

  lemma OfNone(id: string)
    ensures Of(id, []) == []
  {
  }

  lemma OfOneMore(id: string, cands: seq<Candidate>, n: nat)
    requires n < |cands|
    ensures Of(id, cands[..n + 1]) == Of(id, cands[..n]) + if cands[n].episode == id then [cands[n]] else []
  {
    assert cands[..n + 1][..n] == cands[..n];
  }

  lemma SortedIds(ids: seq<string>)
    requires Distinct(ids)
    ensures Sorted(AtMost, Sort(AtMost, ids)) && Distinct(Sort(AtMost, ids))
    ensures forall id :: id in Sort(AtMost, ids) <==> id in ids
  {
    StringOrder();
    SortSorts(AtMost, ids);
    SortPermutes(AtMost, ids);
    DistinctPermutation(ids, Sort(AtMost, ids));
    forall id ensures id in Sort(AtMost, ids) <==> id in ids {
      MemberOfPermutation(Sort(AtMost, ids), ids, id);
    }
  }

  /** A map's keys, in whatever order ranging over it gives. */
  method Keys(m: map<string, seq<Candidate>>) returns (ids: seq<string>)
    ensures Distinct(ids) && forall id :: id in ids <==> id in m
  {
    ids := [];
    var rest := m.Keys;
    while rest != {}
      invariant rest <= m.Keys
      invariant Distinct(ids) && forall id :: id in ids <==> id in m && id !in rest
      decreases |rest|
    {
      var id :| id in rest;
      ids, rest := ids + [id], rest - {id};
    }
  }

  lemma {:induction false} OfCounts(id: string, cands: seq<Candidate>, c: Candidate)
    ensures multiset(Of(id, cands))[c] == if c.episode == id then multiset(cands)[c] else 0
  {
    if cands != [] {
      var last := |cands| - 1;
      var front, x := cands[..last], cands[last];
      OfCounts(id, front, c);
      assert cands == front + [x];
      assert multiset(cands)[c] == multiset(front)[c] + multiset{x}[c];
      if x.episode == id {
        assert multiset(Of(id, front) + [x])[c] == multiset(Of(id, front))[c] + multiset{x}[c];
      } else {
        assert Of(id, front) + [] == Of(id, front);
      }
    }
  }

  lemma {:induction false} FlattenCounts(cands: seq<Candidate>, groups: seq<Group>, c: Candidate)
    requires Distinct(Ids(groups))
    requires forall i | 0 <= i < |groups| :: groups[i].candidates == Sort(ByTurn, Of(groups[i].id, cands))
    ensures multiset(Flatten(groups))[c] == if c.episode in Ids(groups) then multiset(cands)[c] else 0
  {
    if groups != [] {
      assert Ids(groups) == [groups[0].id] + Ids(groups[1..]);
      FlattenCounts(cands, groups[1..], c);
      SortPermutes(ByTurn, Of(groups[0].id, cands));
      OfCounts(groups[0].id, cands, c);
      assert multiset(Flatten(groups))[c] == multiset(groups[0].candidates)[c] + multiset(Flatten(groups[1..]))[c];
    }
  }

  /** Grouping loses nothing and makes nothing up. */
  lemma GroupingPermutes(cands: seq<Candidate>, groups: seq<Group>)
    requires GroupsOf(cands, groups)
    ensures multiset(Flatten(groups)) == multiset(cands)
  {
    forall c ensures multiset(Flatten(groups))[c] == multiset(cands)[c] {
      FlattenCounts(cands, groups, c);
      OfCounts(c.episode, cands, c);
      assert c in cands ==> c in multiset(cands);
    }
  }

  lemma {:induction false} OfIsFilter(id: string, cands: seq<Candidate>)
    ensures Of(id, cands) == Filter((c: Candidate) => c.episode == id, cands)
  {
    if cands != [] {
      var front, c := cands[..|cands| - 1], cands[|cands| - 1];
      assert cands == front + [c];
      OfIsFilter(id, front);
      FilterOneMore((c: Candidate) => c.episode == id, front, c);
    }
  }

  /** Each group is in turn order, and candidates of one episode and turn keep the order they were found in. */
  lemma GroupsAreStable(cands: seq<Candidate>, groups: seq<Group>, i: nat, turn: int)
    requires GroupsOf(cands, groups) && i < |groups|
    ensures var id, found := groups[i].id, groups[i].candidates;
            && (forall j, k | 0 <= j < k < |found| :: found[j].turn <= found[k].turn)
            && (forall c :: c in found <==> c in cands && c.episode == id)
            && Filter((c: Candidate) => c.turn == turn, found) == Filter((c: Candidate) => c.episode == id && c.turn == turn, cands)
  {
    hide Of;
    var id, found := groups[i].id, groups[i].candidates;
    var here, there := (c: Candidate) => c.turn == turn, (c: Candidate) => c.episode == id && c.turn == turn;
    SortSorts(ByTurn, Of(id, cands));
    SortPermutes(ByTurn, Of(id, cands));
    StableGroup(id, cands, turn);
    forall c ensures c in found <==> c in cands && c.episode == id {
      MemberOfPermutation(found, Of(id, cands), c);
      OfHolds(id, cands, c);
    }
  }

  lemma StableGroup(id: string, cands: seq<Candidate>, turn: int)
    ensures Filter((c: Candidate) => c.turn == turn, Sort(ByTurn, Of(id, cands)))
         == Filter((c: Candidate) => c.episode == id && c.turn == turn, cands)
  {
    hide Filter;
    hide Sort;
    hide Of;
    var here, there := (c: Candidate) => c.turn == turn, (c: Candidate) => c.episode == id && c.turn == turn;
    SortIsStable(ByTurn, here, Of(id, cands));
    OfIsFilter(id, cands);
    FilterTwice(here, (c: Candidate) => c.episode == id, there, cands);
  }

  lemma {:induction false} OfHolds(id: string, cands: seq<Candidate>, c: Candidate)
    ensures c in Of(id, cands) <==> c in cands && c.episode == id
  {
    if cands != [] {
      var front, x := cands[..|cands| - 1], cands[|cands| - 1];
      assert cands == front + [x];
      OfHolds(id, front, c);
    }
  }

  /** There is only one way to lay candidates out. */
  lemma GroupsAreUnique(cands: seq<Candidate>, a: seq<Group>, b: seq<Group>)
    requires GroupsOf(cands, a) && GroupsOf(cands, b)
    ensures a == b
  {
    SameIds(Ids(a), Ids(b));
    forall i | 0 <= i < |a| ensures a[i] == b[i] {
      assert Ids(a)[i] == Ids(b)[i];
    }
  }

  lemma SameIds(p: seq<string>, q: seq<string>)
    requires Distinct(p) && Distinct(q) && Sorted(AtMost, p) && Sorted(AtMost, q) && forall id :: id in p <==> id in q
    ensures p == q
  {
    forall id ensures multiset(p)[id] == multiset(q)[id] {
      DistinctCounts(p, id);
      DistinctCounts(q, id);
      assert id in p <==> id in multiset(p);
      assert id in q <==> id in multiset(q);
    }
    forall x, y | AtMost(x, y) && AtMost(y, x) ensures x == y {
      AtMostTotal(x, y);
    }
    forall x ensures AtMost(x, x) {
      AtMostTotal(x, x);
    }
    SortedUnique(AtMost, p, q);
  }

  // ------------------------------------------------------------ annotating

  type Answer = Result<seq<NearArc>, string>

  /** An arc finder: its answer about the text of the proposal at a position, the desk's entries first. */
  type Finder = (nat, string) -> Answer

  /** The first text that is not blank, trimmed. */
  function MatchText(texts: seq<string>): (s: string)
    ensures s == "" <==> forall t | t in texts :: TrimSpace(t) == ""
  {
    if texts == [] then "" else if TrimSpace(texts[0]) != "" then TrimSpace(texts[0]) else MatchText(texts[1..])
  }

  /** What is matched on is the first text that is not blank, trimmed: a desk entry's body before its title. */
  lemma {:induction false} MatchTextIsFirst(texts: seq<string>) returns (i: nat)
    requires MatchText(texts) != ""
    ensures i < |texts| && MatchText(texts) == TrimSpace(texts[i]) && forall j | 0 <= j < i :: TrimSpace(texts[j]) == ""
  {
    hide TrimSpace;
    if TrimSpace(texts[0]) != "" {
      i := 0;
    } else {
      var k := MatchTextIsFirst(texts[1..]);
      i := k + 1;
      assert forall j | 1 <= j < i :: texts[j] == texts[1..][j - 1];
    }
  }

  /** A proposal with nothing to match on asks the finder nothing. */
  function Lookup(find: Finder, at: nat, text: string): Answer {
    if text == "" then Ok([]) else find(at, text)
  }

  /** What each proposal is matched on: a desk entry's body before its title. */
  function Texts(r: Report): (t: seq<string>)
    ensures |t| == |r.desk| + |r.candidates|
    ensures forall i | 0 <= i < |r.desk| :: t[i] == MatchText([r.desk[i].snippet, r.desk[i].title])
    ensures forall i | 0 <= i < |r.candidates| :: t[|r.desk| + i] == MatchText([r.candidates[i].verbatim])
  {
    seq(|r.desk| + |r.candidates|, i requires 0 <= i < |r.desk| + |r.candidates| =>
      if i < |r.desk| then MatchText([r.desk[i].snippet, r.desk[i].title]) else MatchText([r.candidates[i - |r.desk|].verbatim]))
  }

  function Answers(find: Finder, r: Report): (a: seq<Answer>)
    ensures |a| == |r.desk| + |r.candidates|
  {
    seq(|Texts(r)|, i requires 0 <= i < |Texts(r)| => Lookup(find, i, Texts(r)[i]))
  }

  lemma AnswersAre(find: Finder, r: Report)
    ensures forall i | 0 <= i < |r.desk| :: Answers(find, r)[i] == Lookup(find, i, MatchText([r.desk[i].snippet, r.desk[i].title]))
    ensures forall i | 0 <= i < |r.candidates| ::
              Answers(find, r)[|r.desk| + i] == Lookup(find, |r.desk| + i, MatchText([r.candidates[i].verbatim]))
  {
    hide MatchText;
    hide Lookup;
    forall i | 0 <= i < |r.candidates|
      ensures Answers(find, r)[|r.desk| + i] == Lookup(find, |r.desk| + i, MatchText([r.candidates[i].verbatim]))
    {
      assert Texts(r)[|r.desk| + i] == MatchText([r.candidates[i].verbatim]);
    }
  }

  /** The reasons of the failed lookups, in order, repeats included. */
  function Reasons(answers: seq<Answer>): seq<string> {
    if answers == [] then []
    else
      var last := |answers| - 1;
      Reasons(answers[..last]) + if answers[last].Err? then [answers[last].error] else []
  }

  function FirstSeen(reasons: seq<string>): seq<string> {
    if reasons == [] then []
    else
      var last := |reasons| - 1;
      FirstSeen(reasons[..last]) + if reasons[last] in reasons[..last] then [] else [reasons[last]]
  }

  function Failures(reasons: seq<string>): (r: seq<Diagnostic>)
    ensures |r| == |FirstSeen(reasons)|
    ensures forall i | 0 <= i < |r| :: r[i] == LookupFailed(multiset(reasons)[FirstSeen(reasons)[i]], FirstSeen(reasons)[i])
  {
    var order := FirstSeen(reasons);
    seq(|order|, i requires 0 <= i < |order| => LookupFailed(multiset(reasons)[order[i]], order[i]))
  }

  lemma NotedOnce(reasons: seq<string>, reason: string)
    ensures FirstSeen(reasons + [reason]) == FirstSeen(reasons) + if reason in reasons then [] else [reason]
    ensures multiset(reasons + [reason]) == multiset(reasons) + multiset{reason}
    ensures reason in multiset(reasons) <==> reason in reasons
    ensures forall s :: s in reasons + [reason] <==> s in reasons || s == reason
  {
  }

  /** The two things the note closure keeps: how often each reason came, and the order they first came in. */
  class Tally {
    var counts: map<string, nat>
    var order: seq<string>
    ghost var reasons: seq<string>

    constructor ()
      ensures Valid() && reasons == []
    {
      counts, order, reasons := map[], [], [];
    }

    ghost predicate Valid()
      reads this
    {
      && order == FirstSeen(reasons)
      && (forall s :: s in counts <==> s in reasons)
      && (forall s | s in counts :: counts[s] == multiset(reasons)[s])
    }

    method Note(reason: string)
      requires Valid()
      modifies this
      ensures Valid() && reasons == old(reasons) + [reason]
    {
      hide FirstSeen;
      NotedOnce(reasons, reason);
      if reason !in counts {
        order := order + [reason];
      }
      counts := counts[reason := (if reason in counts then counts[reason] else 0) + 1];
      reasons := reasons + [reason];
    }

    /** One line per reason, in the order they first came. */
    method Lines() returns (lines: seq<Diagnostic>)
      requires Valid()
      ensures lines == Failures(reasons)
    {
      FirstSeenIs(reasons);
      lines := [];
      for i := 0 to |order|
        invariant |lines| == i && forall j | 0 <= j < i :: lines[j] == Failures(reasons)[j]
      {
        assert order[i] in order;
        lines := lines + [LookupFailed(counts[order[i]], order[i])];
      }
    }
  }

  /** The first loop, over the desk's entries. */
  method AnnotateDesk(find: Finder, entries: seq<DeskEntry>, tally: Tally, ghost answers: seq<Answer>) returns (desk: seq<DeskEntry>)
    requires |entries| <= |answers|
    requires forall i | 0 <= i < |entries| :: answers[i] == Lookup(find, i, MatchText([entries[i].snippet, entries[i].title]))
    requires tally.Valid() && tally.reasons == Told(answers, 0)
    modifies tally
    ensures tally.Valid() && tally.reasons == Told(answers, |entries|)
    ensures desk == DesksNoted(entries, answers)
  {
    hide MatchText;
    hide Told;
    hide Lookup;
    hide FirstSeen;
    desk := entries;
    for i := 0 to |desk|
      invariant tally.Valid() && tally.reasons == Told(answers, i)
      invariant |desk| == |entries| && forall j | 0 <= j < |desk| :: desk[j] == if j < i then DeskNoted(entries[j], answers[j]) else entries[j]
    {
      OneMoreAnswer(answers, i);
      var near := Lookup(find, i, MatchText([desk[i].snippet, desk[i].title]));
      if near.Err? {
        tally.Note(near.error);
        continue;
      }
      desk := desk[i := desk[i].(near := near.value)];
    }
  }

  /** The second loop, over the candidate moments. */
  method AnnotateCandidates(find: Finder, base: nat, entries: seq<Candidate>, tally: Tally, ghost answers: seq<Answer>) returns (cands: seq<Candidate>)
    requires base + |entries| == |answers|
    requires forall i | 0 <= i < |entries| :: answers[base + i] == Lookup(find, base + i, MatchText([entries[i].verbatim]))
    requires tally.Valid() && tally.reasons == Told(answers, base)
    modifies tally
    ensures tally.Valid() && tally.reasons == Told(answers, |answers|)
    ensures cands == CandidatesNoted(entries, base, answers)
  {
    hide MatchText;
    hide Told;
    hide Lookup;
    hide FirstSeen;
    cands := entries;
    for i := 0 to |cands|
      invariant tally.Valid() && tally.reasons == Told(answers, base + i)
      invariant |cands| == |entries| && forall j | 0 <= j < |cands| :: cands[j] == if j < i then CandidateNoted(entries[j], answers[base + j]) else entries[j]
    {
      OneMoreAnswer(answers, base + i);
      var near := Lookup(find, base + i, MatchText([cands[i].verbatim]));
      if near.Err? {
        tally.Note(near.error);
        continue;
      }
      cands := cands[i := cands[i].(near := near.value)];
    }
  }

  method AnnotateAll(find: Finder, r: Report, tally: Tally) returns (desk: seq<DeskEntry>, cands: seq<Candidate>)
    requires tally.Valid() && tally.reasons == []
    modifies tally
    ensures var answers := Answers(find, r);
            && desk == DesksNoted(r.desk, answers) && cands == CandidatesNoted(r.candidates, |r.desk|, answers)
            && tally.Valid() && tally.reasons == Reasons(answers)
  {
    hide MatchText;
    hide Told;
    hide Lookup;
    hide FirstSeen;
    hide Answers;
    hide DesksNoted;
    hide CandidatesNoted;
    ghost var answers := Answers(find, r);
    ToldEnds(answers);
    AnswersAre(find, r);
    desk := AnnotateDesk(find, r.desk, tally, answers);
    cands := AnnotateCandidates(find, |desk|, r.candidates, tally, answers);
  }

  method AnnotateNearestArcs(r: Report, finder: Option<Finder>) returns (out: Report)
    ensures finder.None? ==> out == r
    ensures finder.Some? ==> out == Annotated(Answers(finder.value, r), r)
    ensures finder.Some? ==> exists answers :: Asked(finder.value, r, answers) && Reported(r, out, answers)
  {
    if finder.None? {
      return r;
    }
    AnnotatedSays(finder.value, r);
    hide FirstSeen;
    hide Answers;
    hide Failures;
    var tally := new Tally();
    var desk, cands := AnnotateAll(finder.value, r, tally);
    var lines := tally.Lines();
    out := Report(cands, desk, r.diagnostics + lines);
  }

  // ------------------------------------------------------------ what an annotated report says

  /** What a text is matched on: nothing asks nothing. */
  ghost predicate AskedOf(find: Finder, at: nat, texts: seq<string>, answer: Answer) {
    && (MatchText(texts) == "" ==> answer == Ok([]))
    && (MatchText(texts) != "" ==> answer == find(at, MatchText(texts)))
  }

  ghost predicate Asked(find: Finder, r: Report, answers: seq<Answer>) {
    && |answers| == |r.desk| + |r.candidates|
    && (forall i | 0 <= i < |r.desk| :: AskedOf(find, i, [r.desk[i].snippet, r.desk[i].title], answers[i]))
    && (forall i | 0 <= i < |r.candidates| :: AskedOf(find, |r.desk| + i, [r.candidates[i].verbatim], answers[|r.desk| + i]))
  }

  /** The neighbours of a proposal: those found, or the ones it had where the lookup failed. */
  ghost predicate NearIs(before: seq<NearArc>, answer: Answer, after: seq<NearArc>) {
    match answer case Ok(arcs) => after == arcs case Err(_) => after == before
  }

  ghost predicate DeskSays(d: DeskEntry, e: DeskEntry, answer: Answer) {
    && e.id == d.id && e.title == d.title && e.date == d.date && e.path == d.path && e.snippet == d.snippet
    && NearIs(d.near, answer, e.near)
  }

  ghost predicate CandidateSays(c: Candidate, d: Candidate, answer: Answer) {
    && d.rule == c.rule && d.episode == c.episode && d.turn == c.turn && d.timestamp == c.timestamp
    && d.verbatim == c.verbatim && d.trigger == c.trigger
    && NearIs(c.near, answer, d.near)
  }

  /** The lookups that failed for this reason. */
  function FailedWith(answers: seq<Answer>, reason: string): (at: set<nat>)
    ensures forall i: nat :: i in at <==> i < |answers| && answers[i] == Err(reason)
  {
    set i: nat | i < |answers| && answers[i] == Err(reason)
  }

  /** One line for each reason with the number of its lookups, in the order the reasons were first met. */
  ghost predicate TellsFailures(answers: seq<Answer>, lines: seq<Diagnostic>) {
    && (forall k | 0 <= k < |lines| :: lines[k].LookupFailed? && lines[k].count == |FailedWith(answers, lines[k].reason)| > 0)
    && (forall i | 0 <= i < |answers| && answers[i].Err? ::
          exists k :: 0 <= k < |lines| && lines[k].LookupFailed? && lines[k].reason == answers[i].error)
    && (forall k, l, i | 0 <= k < l < |lines| && 0 <= i < |answers| && lines[k].LookupFailed? && lines[l].LookupFailed? && answers[i] == Err(lines[l].reason) ::
          exists j :: 0 <= j < i && answers[j] == Err(lines[k].reason))
  }

  /** Every proposal is in the report as it was, with the neighbours found, and the failures are told after the diagnostics it had. */
  ghost predicate Reported(r: Report, out: Report, answers: seq<Answer>)
    requires |answers| == |r.desk| + |r.candidates|
  {
    && |out.desk| == |r.desk| && |out.candidates| == |r.candidates|
    && (forall i | 0 <= i < |r.desk| :: DeskSays(r.desk[i], out.desk[i], answers[i]))
    && (forall i | 0 <= i < |r.candidates| :: CandidateSays(r.candidates[i], out.candidates[i], answers[|r.desk| + i]))
    && r.diagnostics <= out.diagnostics && TellsFailures(answers, out.diagnostics[|r.diagnostics|..])
  }

  lemma FailedWithMore(answers: seq<Answer>, a: Answer, reason: string)
    ensures FailedWith(answers + [a], reason) == FailedWith(answers, reason) + if a == Err(reason) then {|answers|} else {}
  {
    var more := answers + [a];
    forall i: nat | i < |answers| ensures more[i] == answers[i] {
    }
  }

  /** A reason is noted once for each lookup that failed with it. */
  lemma {:induction false} ReasonsCount(answers: seq<Answer>, reason: string)
    ensures multiset(Reasons(answers))[reason] == |FailedWith(answers, reason)|
  {
    if answers == [] {
      assert FailedWith(answers, reason) == {};
    } else {
      var front, a := answers[..|answers| - 1], answers[|answers| - 1];
      assert answers == front + [a];
      ReasonsCount(front, reason);
      FailedWithMore(front, a, reason);
      assert |front| !in FailedWith(front, reason);
    }
  }

  lemma FailedSome(answers: seq<Answer>, reason: string)
    ensures reason in Reasons(answers) <==> exists i :: 0 <= i < |answers| && answers[i] == Err(reason)
  {
    ReasonsCount(answers, reason);
    assert reason in Reasons(answers) <==> reason in multiset(Reasons(answers));
    if i :| 0 <= i < |answers| && answers[i] == Err(reason) {
      assert i in FailedWith(answers, reason);
    }
    if |FailedWith(answers, reason)| > 0 {
      var i :| i in FailedWith(answers, reason);
    }
  }

  lemma WithinPrefix(before: seq<string>, order: seq<string>, l: nat)
    requires before <= order && Distinct(order) && l < |order| && order[l] in before
    ensures l < |before|
  {
    var m :| 0 <= m < |before| && before[m] == order[l];
    assert order[m] == order[l];
  }

  /** Of two reasons told, the first was met before the other ever was. */
  lemma {:induction false} FirstMet(answers: seq<Answer>, k: nat, l: nat, i: nat)
    requires var order := FirstSeen(Reasons(answers)); k < l < |order| && i < |answers| && answers[i] == Err(order[l])
    ensures exists j :: 0 <= j < i && answers[j] == Err(FirstSeen(Reasons(answers))[k])
    decreases |answers|
  {
    hide Reasons;
    hide FirstSeen;
    hide Distinct;
    var front, a := answers[..|answers| - 1], answers[|answers| - 1];
    assert answers == front + [a];
    var order, before := FirstSeen(Reasons(answers)), FirstSeen(Reasons(front));
    FirstSeenGrows(front, a);
    assert order[k] == before[k] && before[k] in before;
    FirstSeenIs(Reasons(front));
    if i < |front| {
      FailedSome(front, order[l]);
      assert front[i] == answers[i] && order[l] in before;
      FirstSeenIs(Reasons(answers));
      WithinPrefix(before, order, l);
      FirstMet(front, k, l, i);
      var j :| 0 <= j < i && front[j] == Err(before[k]);
      assert answers[j] == Err(order[k]);
    } else {
      FailedSome(front, order[k]);
      var j :| 0 <= j < |front| && front[j] == Err(order[k]);
      assert answers[j] == Err(order[k]);
    }
  }

  lemma FirstSeenGrows(front: seq<Answer>, a: Answer)
    ensures var order, before := FirstSeen(Reasons(front + [a])), FirstSeen(Reasons(front));
            before <= order && |order| <= |before| + 1
  {
    var answers := front + [a];
    assert answers[..|answers| - 1] == front && answers[|answers| - 1] == a;
    if a.Err? {
      NotedOnce(Reasons(front), a.error);
    } else {
      assert Reasons(front) + [] == Reasons(front);
    }
  }

  lemma FailuresTell(answers: seq<Answer>)
    ensures TellsFailures(answers, Failures(Reasons(answers)))
  {
    hide FirstSeen;
    hide Reasons;
    var reasons := Reasons(answers);
    var order, lines := FirstSeen(reasons), Failures(reasons);
    FirstSeenIs(reasons);
    forall k | 0 <= k < |lines| ensures lines[k].LookupFailed? && lines[k].count == |FailedWith(answers, lines[k].reason)| > 0 {
      ReasonsCount(answers, order[k]);
      assert order[k] in order && order[k] in multiset(reasons);
    }
    forall i | 0 <= i < |answers| && answers[i].Err?
      ensures exists k :: 0 <= k < |lines| && lines[k].LookupFailed? && lines[k].reason == answers[i].error
    {
      FailedSome(answers, answers[i].error);
      var k :| 0 <= k < |order| && order[k] == answers[i].error;
      assert lines[k].reason == answers[i].error;
    }
    forall k, l, i | 0 <= k < l < |lines| && 0 <= i < |answers| && lines[k].LookupFailed? && lines[l].LookupFailed? && answers[i] == Err(lines[l].reason)
      ensures exists j :: 0 <= j < i && answers[j] == Err(lines[k].reason)
    {
      FirstMet(answers, k, l, i);
    }
  }

  lemma AnnotatedSays(find: Finder, r: Report)
    ensures Asked(find, r, Answers(find, r)) && Reported(r, Annotated(Answers(find, r), r), Answers(find, r))
  {
    hide MatchText;
    hide Answers;
    hide Failures;
    hide TellsFailures;
    var answers := Answers(find, r);
    AnswersAre(find, r);
    FailuresTell(answers);
    var lines := Failures(Reasons(answers));
    assert (r.diagnostics + lines)[|r.diagnostics|..] == lines;
  }

  /** The reasons met in the first n answers. */
  function Told(answers: seq<Answer>, n: nat): seq<string>
    requires n <= |answers|
  {
    Reasons(answers[..n])
  }

  lemma ToldEnds(answers: seq<Answer>)
    ensures Told(answers, 0) == [] && Told(answers, |answers|) == Reasons(answers)
  {
    assert answers[..|answers|] == answers;
  }

  lemma OneMoreAnswer(answers: seq<Answer>, n: nat)
    requires n < |answers|
    ensures Told(answers, n + 1) == Told(answers, n) + if answers[n].Err? then [answers[n].error] else []
  {
    assert answers[..n + 1][..n] == answers[..n];
  }

  function DeskNoted(entry: DeskEntry, answer: Answer): DeskEntry {
    if answer.Ok? then entry.(near := answer.value) else entry
  }

  function CandidateNoted(c: Candidate, answer: Answer): Candidate {
    if answer.Ok? then c.(near := answer.value) else c
  }

  function DesksNoted(entries: seq<DeskEntry>, answers: seq<Answer>): (r: seq<DeskEntry>)
    requires |entries| <= |answers|
    ensures |r| == |entries| && forall i | 0 <= i < |r| :: r[i] == DeskNoted(entries[i], answers[i])
  {
    seq(|entries|, i requires 0 <= i < |entries| => DeskNoted(entries[i], answers[i]))
  }

  function CandidatesNoted(entries: seq<Candidate>, base: nat, answers: seq<Answer>): (r: seq<Candidate>)
    requires base + |entries| <= |answers|
    ensures |r| == |entries| && forall i | 0 <= i < |r| :: r[i] == CandidateNoted(entries[i], answers[base + i])
  {
    seq(|entries|, i requires 0 <= i < |entries| => CandidateNoted(entries[i], answers[base + i]))
  }

  /** Every proposal is there with its own neighbours, or as it was where its lookup failed; each reason is told once. */
  function Annotated(answers: seq<Answer>, r: Report): Report
    requires |answers| == |r.desk| + |r.candidates|
  {
    Report(CandidatesNoted(r.candidates, |r.desk|, answers), DesksNoted(r.desk, answers), r.diagnostics + Failures(Reasons(answers)))
  }

  /** Position i is where its reason first comes. */
  ghost predicate FirstAt(reasons: seq<string>, i: nat) {
    i < |reasons| && reasons[i] !in reasons[..i]
  }

  /** The reasons told are those that occurred, each once, in the order they first occurred. */
  lemma {:induction false} FirstSeenIs(reasons: seq<string>)
    ensures forall s :: s in FirstSeen(reasons) <==> s in reasons
    ensures Distinct(FirstSeen(reasons))
  {
    if reasons != [] {
      var last := |reasons| - 1;
      FirstSeenIs(reasons[..last]);
      assert reasons == reasons[..last] + [reasons[last]];
    }
  }

  /** A reason that first occurs earlier is told earlier. */
  lemma {:induction false} FirstSeenInOrder(reasons: seq<string>, i: nat, j: nat) returns (a: nat, b: nat)
    requires FirstAt(reasons, i) && FirstAt(reasons, j) && i < j
    ensures a < b < |FirstSeen(reasons)| && FirstSeen(reasons)[a] == reasons[i] && FirstSeen(reasons)[b] == reasons[j]
  {
    var last := |reasons| - 1;
    var front := reasons[..last];
    assert front[..i] == reasons[..i];
    if j < last {
      assert front[..j] == reasons[..j];
      a, b := FirstSeenInOrder(front, i, j);
    } else {
      FirstSeenIs(front);
      assert front[i] == reasons[i] && reasons[i] in FirstSeen(front);
      a :| 0 <= a < |FirstSeen(front)| && FirstSeen(front)[a] == reasons[i];
      b := |FirstSeen(front)|;
    }
  }

  function CountOf(d: Diagnostic): nat {
    match d case Note(_) => 0 case LookupFailed(n, _) => n
  }

  function TotalOf(reasons: seq<string>, order: seq<string>): nat {
    if order == [] then 0 else TotalOf(reasons, order[..|order| - 1]) + multiset(reasons)[order[|order| - 1]]
  }

  function Total(ds: seq<Diagnostic>): nat {
    if ds == [] then 0 else Total(ds[..|ds| - 1]) + CountOf(ds[|ds| - 1])
  }

  lemma {:induction false} TotalOfMore(reasons: seq<string>, x: string, order: seq<string>)
    requires Distinct(order)
    ensures TotalOf(reasons + [x], order) == TotalOf(reasons, order) + if x in order then 1 else 0
  {
    if order != [] {
      var last := |order| - 1;
      TotalOfMore(reasons, x, order[..last]);
      assert order == order[..last] + [order[last]];
      assert multiset(reasons + [x]) == multiset(reasons) + multiset{x};
      assert order[last] !in order[..last];
    }
  }

  lemma {:induction false} CountsAddUp(reasons: seq<string>)
    ensures TotalOf(reasons, FirstSeen(reasons)) == |reasons|
  {
    if reasons != [] {
      var last := |reasons| - 1;
      var front, x := reasons[..last], reasons[last];
      CountsAddUp(front);
      FirstSeenIs(front);
      assert reasons == front + [x];
      TotalOfMore(front, x, FirstSeen(front));
      if x !in front {
        var order := FirstSeen(reasons);
        assert order == FirstSeen(front) + [x];
        assert order[..|order| - 1] == FirstSeen(front);
        assert multiset(reasons) == multiset(front) + multiset{x};
        assert x !in multiset(front);
        assert x !in FirstSeen(front);
      } else {
        assert FirstSeen(reasons) == FirstSeen(front);
      }
    }
  }

  lemma {:induction false} TotalIs(reasons: seq<string>, ds: seq<Diagnostic>, order: seq<string>)
    requires |ds| == |order| && forall i | 0 <= i < |ds| :: ds[i] == LookupFailed(multiset(reasons)[order[i]], order[i])
    ensures Total(ds) == TotalOf(reasons, order)
  {
    if ds != [] {
      TotalIs(reasons, ds[..|ds| - 1], order[..|order| - 1]);
    }
  }

  /** The counts told add up to the number of lookups that failed. */
  lemma FailuresAreAllCounted(answers: seq<Answer>)
    ensures Total(Failures(Reasons(answers))) == |FailedAt(answers)|
  {
    CountsAddUp(Reasons(answers));
    TotalIs(Reasons(answers), Failures(Reasons(answers)), FirstSeen(Reasons(answers)));
    FailedCount(answers);
  }

  /** The positions of the proposals whose lookup failed. */
  function FailedAt(answers: seq<Answer>): (r: set<int>)
    ensures forall i :: i in r <==> 0 <= i < |answers| && answers[i].Err?
  {
    set i | 0 <= i < |answers| && answers[i].Err?
  }

  lemma {:induction false} FailedCount(answers: seq<Answer>)
    ensures |FailedAt(answers)| == |Reasons(answers)|
  {
    if answers != [] {
      var last := |answers| - 1;
      FailedCount(answers[..last]);
      assert FailedAt(answers) == FailedAt(answers[..last]) + if answers[last].Err? then {last} else {};
      assert last !in FailedAt(answers[..last]);
    }
  }
}
