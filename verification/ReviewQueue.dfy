/**
 * The queue of episodes awaiting review, and recording a judgement
 * (internal/distill/review_state.go and cmd/arc_review_helpers.go).
 *
 * The queue is stored nowhere: it is computed from the episode files each
 * time, and an entry leaves it when a date is written into its own file.
 */
module ReviewQueue {
  import opened Wrappers
  import opened Text
  import opened Sorting
  import opened EpisodeParser
  import opened ReviewList

  const EXT := ".md"
  const DATE_CHARS := 10

  /** The two frontmatter values the queue reads, trimmed; "" for a missing key. */
  datatype Front = Front(reviewed: string, startedAt: string)

  /** What reading a file gives, and whether mutation.SetFileKey can write its frontmatter. */
  datatype File = File(front: Result<Front, string>, episode: Result<Episode, string>, settable: bool)

  datatype Entry = Entry(file: string, id: string, date: string, messages: nat)

  datatype Verdict = Unreadable(why: string) | Settled | Awaiting(entry: Entry)

  datatype Session = Session(episode: string, file: string, messages: seq<Message>)

  type Files = map<string, File>

  // ------------------------------------------------------------ the queue

  function EpisodeDate(startedAt: string): string {
    if |startedAt| > DATE_CHARS then startedAt[..DATE_CHARS] else startedAt
  }

  function Judge(stem: string, f: File): Verdict {
    if f.front.Err? then Unreadable(f.front.error)
    else if f.front.value.reviewed != "" then Settled
    else if f.episode.Err? then Unreadable(f.episode.error)
    else
      var n := |Messages(f.episode.value.users, f.episode.value.assistants)|;
      if n == 0 then Settled else Awaiting(Entry(stem, f.episode.value.id, EpisodeDate(f.front.value.startedAt), n))
  }

  function JudgeAt(files: Files, stem: string): Verdict {
    if stem in files then Judge(stem, files[stem]) else Settled
  }

  function EntryOf(v: Verdict): seq<Entry> {
    if v.Awaiting? then [v.entry] else []
  }

  function Pendings(stems: seq<string>, files: Files): seq<Entry> {
    if stems == [] then []
    else
      var last := |stems| - 1;
      Pendings(stems[..last], files) + EntryOf(JudgeAt(files, stems[last]))
  }

  function Skips(stems: seq<string>, files: Files): seq<string> {
    if stems == [] then []
    else
      var last := |stems| - 1;
      var v := JudgeAt(files, stems[last]);
      Skips(stems[..last], files) + if v.Unreadable? then ["skipped " + stems[last] + EXT + ": " + v.why] else []
  }

  predicate Before(a: Entry, b: Entry) {
    if a.date != b.date then AtMost(a.date, b.date) else AtMost(a.file, b.file)
  }

  function Queue(stems: seq<string>, files: Files): seq<Entry> {
    Sort(Before, Pendings(stems, files))
  }

  /** The names a directory lists are those of its files, each once; none has a slash. */
  ghost predicate Listing(stems: seq<string>, files: Files) {
    && Distinct(stems)
    && (forall s :: s in stems <==> s in files)
    && (forall s | s in stems :: '/' !in s)
  }

  // ------------------------------------------------------------ recording judgements

  datatype MarkError = NotAnId | NoEpisode | NotWritten

  /** The file MarkReviewed opens for an id; filepath.Base leaves "/" as it is, which names the file ".md". */
  function Target(id: string): Option<string> {
    var name := TrimSuffix(TrimSpace(id), EXT);
    if name == "/" then Some("") else if name == "" || '/' in name then None else Some(name)
  }

  function MarkFault(files: Files, id: string): Option<MarkError> {
    if Target(id).None? then Some(NotAnId)
    else if Target(id).value !in files then Some(NoEpisode)
    else if !files[Target(id).value].settable then Some(NotWritten)
    else None
  }

  /** mutation.SetFileKey changes the one key; stringField trims what it reads back. */
  function WithReviewed(f: File, date: string): File {
    if f.front.Ok? then f.(front := Ok(f.front.value.(reviewed := TrimSpace(date)))) else f
  }

  /** g is f with the date on record, and nothing else about it changed. */
  ghost predicate OnlyDated(f: File, g: File, date: string) {
    && g.episode == f.episode && g.settable == f.settable && (f.front.Err? ==> g == f)
    && (f.front.Ok? ==> g.front.Ok? && g.front.value.reviewed == TrimSpace(date) && g.front.value.startedAt == f.front.value.startedAt)
  }

  /** How many ids can be marked before the first that cannot. */
  function MarkedCount(files: Files, ids: seq<string>): (n: nat)
    ensures n <= |ids|
    ensures forall k | 0 <= k < n :: MarkFault(files, ids[k]).None?
    ensures n < |ids| ==> MarkFault(files, ids[n]).Some?
  {
    if ids != [] && MarkFault(files, ids[0]).None? then 1 + MarkedCount(files, ids[1..]) else 0
  }

  predicate Names(ids: seq<string>, stem: string) {
    exists k | 0 <= k < |ids| :: Target(ids[k]) == Some(stem)
  }

  /** The files once the named ones carry the date. */
  function WithMarks(files: Files, ids: seq<string>, date: string): Files {
    map s | s in files :: if Names(ids, s) then WithReviewed(files[s], date) else files[s]
  }

  function AfterMarking(files: Files, ids: seq<string>, date: string): Files {
    WithMarks(files, ids[..MarkedCount(files, ids)], date)
  }

  function Strip(ids: seq<string>): (r: seq<string>)
    ensures |r| == |ids| && forall i | 0 <= i < |ids| :: r[i] == TrimSuffix(ids[i], EXT)
  {
    seq(|ids|, i requires 0 <= i < |ids| => TrimSuffix(ids[i], EXT))
  }

  function Trimmed(parts: seq<string>): seq<string> {
    if parts == [] then []
    else
      var last := |parts| - 1;
      Trimmed(parts[..last]) + if TrimSpace(parts[last]) != "" then [TrimSpace(parts[last])] else []
  }

  ghost function NonBlankAt(parts: seq<string>): (ps: set<nat>)
    ensures forall p: nat :: p in ps <==> p < |parts| && TrimSpace(parts[p]) != ""
  {
    set p: nat | p < |parts| && TrimSpace(parts[p]) != ""
  }

  lemma NonBlankOneMore(parts: seq<string>, part: string)
    ensures NonBlankAt(parts + [part]) == NonBlankAt(parts) + if TrimSpace(part) != "" then {|parts|} else {}
  {
    hide TrimSpace;
    var more := parts + [part];
    forall p: nat | p < |parts| ensures more[p] == parts[p] {
    }
  }

  /** out holds, in their order, the parts at ps, which are those that are not blank, each trimmed. */
  ghost predicate TrimmedAt(out: seq<string>, parts: seq<string>, ps: seq<nat>) {
    && InOrder(ps, NonBlankAt(parts)) && |out| == |ps|
    && forall k | 0 <= k < |ps| :: ps[k] < |parts| && out[k] == TrimSpace(parts[ps[k]])
  }

  lemma {:induction false} TrimmedAre(parts: seq<string>) returns (ps: seq<nat>)
    ensures TrimmedAt(Trimmed(parts), parts, ps)
  {
    hide TrimSpace;
    ps := [];
    if parts != [] {
      var front, part := parts[..|parts| - 1], parts[|parts| - 1];
      ps := TrimmedAre(front);
      assert parts == front + [part];
      NonBlankOneMore(front, part);
      if TrimSpace(part) != "" {
        InOrderMore(ps, NonBlankAt(front), |front|);
        ps := ps + [|front|];
      }
    }
  }

  method SplitIds(s: string) returns (out: seq<string>)
    ensures out == Trimmed(Split(s, ','))
    ensures exists ps :: TrimmedAt(out, Split(s, ','), ps)
  {
    hide TrimSpace;
    out := [];
    var parts := Split(s, ',');
    for i := 0 to |parts|
      invariant out == Trimmed(parts[..i])
    {
      assert parts[..i + 1][..i] == parts[..i];
      var id := TrimSpace(parts[i]);
      if id != "" {
        out := out + [id];
      }
    }
    assert parts[..|parts|] == parts;
    var _ := TrimmedAre(parts);
  }

  /** filepath.Base. */
  function BaseName(p: string): string {
    if p == "" then "." else if DropSlashes(p) == "" then "/" else LastName(DropSlashes(p))
  }

  function DropSlashes(p: string): string {
    if p != "" && p[|p| - 1] == '/' then DropSlashes(p[..|p| - 1]) else p
  }

  function LastName(p: string): string {
    var parts := Split(p, '/');
    parts[|parts| - 1]
  }

  /** The file reviewEpisodePaths opens for an id. */
  function Opened(id: string): string {
    var base := BaseName(TrimSuffix(id, EXT));
    if base == "/" then "" else base
  }

  /** The base name has no slash, and follows the last slash that has a name after it. */
  lemma BaseNameIs(p: string) returns (front: string, slashes: string)
    ensures p == "" ==> BaseName(p) == "."
    ensures p != "" && (forall c | c in p :: c == '/') ==> BaseName(p) == "/"
    ensures (exists c :: c in p && c != '/') ==>
              && p == front + BaseName(p) + slashes && BaseName(p) != "" && '/' !in BaseName(p)
              && (front == "" || front[|front| - 1] == '/') && forall c | c in slashes :: c == '/'
  {
    slashes := DropSlashesIs(p);
    var q := DropSlashes(p);
    front := "";
    if q != "" {
      front := LastNameIs(q);
      assert q[|q| - 1] in p;
    }
  }

  lemma {:induction false} DropSlashesIs(p: string) returns (slashes: string)
    ensures p == DropSlashes(p) + slashes && forall c | c in slashes :: c == '/'
    ensures DropSlashes(p) != "" ==> DropSlashes(p)[|DropSlashes(p)| - 1] != '/'
  {
    slashes := "";
    if p != "" && p[|p| - 1] == '/' {
      slashes := DropSlashesIs(p[..|p| - 1]);
      slashes := slashes + "/";
    }
  }

  lemma LastNameAfter(a: string, rest: string)
    ensures LastName(a + ['/'] + rest) == LastName(rest)
  {
    SplitOfJoinedWord(a, '/', rest);
  }

  lemma {:induction false} LastNameIs(p: string) returns (front: string)
    requires p != "" && p[|p| - 1] != '/'
    ensures p == front + LastName(p) && LastName(p) != "" && '/' !in LastName(p)
    ensures front == "" || front[|front| - 1] == '/'
  {
    if '/' in p {
      var i :| 0 <= i < |p| && p[i] == '/';
      var rest := p[i + 1..];
      var before := LastNameIs(rest);
      LastNameAfter(p[..i], rest);
      hide LastName;
      assert p == p[..i] + ['/'] + rest;
      front := p[..i + 1] + before;
      assert p == front + LastName(p);
    } else {
      SplitOfWord(p, '/');
      front := "";
    }
  }

  /** The files of a review request, or None when a named one is not there. */
  function Shown(queue: seq<Entry>, files: Files, episodes: string): Option<seq<string>> {
    if TrimSpace(episodes) == "" then Some(if queue == [] then [] else [queue[0].file])
    else OpenedAll(files, Trimmed(Split(episodes, ',')))
  }

  function OpenedAll(files: Files, ids: seq<string>): Option<seq<string>> {
    if ids == [] then Some([])
    else
      match OpenedAll(files, ids[..|ids| - 1])
      case None => None
      case Some(before) =>
        var stem := Opened(ids[|ids| - 1]);
        if stem in files then Some(before + [stem]) else None
  }

  lemma {:induction false} OpenedPrefix(files: Files, ids: seq<string>, k: nat)
    requires k <= |ids| && OpenedAll(files, ids[..k]).None?
    ensures OpenedAll(files, ids).None?
    decreases |ids| - k
  {
    if k < |ids| {
      assert ids[..k + 1][..k] == ids[..k];
      OpenedPrefix(files, ids, k + 1);
    } else {
      assert ids[..k] == ids;
    }
  }

  /** The named files are shown in the order of the ids; a name that is not there is an error. */
  lemma {:induction false} OpenedAre(files: Files, ids: seq<string>)
    ensures OpenedAll(files, ids).Some? <==> forall id | id in ids :: Opened(id) in files
    ensures var r := OpenedAll(files, ids);
            r.Some? ==> |r.value| == |ids| && forall i | 0 <= i < |ids| :: r.value[i] == Opened(ids[i])
  {
    hide Opened;
    if ids != [] {
      var front, id := ids[..|ids| - 1], ids[|ids| - 1];
      assert ids == front + [id];
      OpenedAre(files, front);
    }
  }

  /** An id opens the file of its last path element, without the extension. */
  lemma OpensName(name: string)
    requires name != "" && '/' !in name && !HasSuffix(name, ".md")
    ensures Opened(name) == name && Opened(name + ".md") == name
  {
    var q := name;
    assert name[|name| - 1] in name;
    assert DropSlashes(name) == name;
    SplitOfWord(name, '/');
    assert TrimSuffix(name + ".md", ".md") == name;
  }

  /** One file of the review list. */
  ghost predicate Presents(s: Session, files: Files, stem: string) {
    && stem in files && files[stem].episode.Ok? && s.file == stem
    && var ep := files[stem].episode.value;
       s.episode == ep.id && exists ps :: Lists(s.messages, ep.users, ep.assistants, ps)
  }

  lemma SessionPresents(files: Files, stem: string)
    requires SessionOf(files, stem).Some?
    ensures Presents(SessionOf(files, stem).value, files, stem)
  {
    var ep := files[stem].episode.value;
    var _ := MessagesList(ep.users, ep.assistants);
  }

  function SessionOf(files: Files, stem: string): Option<Session> {
    if stem in files && files[stem].episode.Ok? then
      var ep := files[stem].episode.value;
      Some(Session(ep.id, stem, Messages(ep.users, ep.assistants)))
    else None
  }

  /** The episode files of one vault. */
  class EpisodeDir {
    /** What listing "*.md" gives, in its order. */
    const stems: seq<string>
    var files: Files

    constructor (stems: seq<string>, files: Files)
      requires Listing(stems, files)
      ensures Valid() && this.stems == stems && this.files == files
    {
      this.stems := stems;
      this.files := files;
    }

    ghost predicate Valid()
      reads this
    {
      Listing(stems, files)
    }

    method PendingReviews() returns (out: seq<Entry>, skipped: seq<string>)
      requires Valid()
      ensures out == Queue(stems, files) && skipped == Skips(stems, files)
    {
      out, skipped := [], [];
      for i := 0 to |stems|
        invariant out == Pendings(stems[..i], files) && skipped == Skips(stems[..i], files)
      {
        assert stems[..i + 1][..i] == stems[..i] && stems[i] in stems;
        var v := PendingEpisode(stems[i]);
        if v.Unreadable? {
          skipped := skipped + ["skipped " + stems[i] + EXT + ": " + v.why];
          continue;
        }
        if v.Awaiting? {
          out := out + [v.entry];
        }
      }
      assert stems[..|stems|] == stems;
      out := Sort(Before, out);
    }

    method PendingEpisode(stem: string) returns (v: Verdict)
      requires stem in files
      ensures v == Judge(stem, files[stem])
    {
      var f := files[stem];
      if f.front.Err? {
        return Unreadable(f.front.error);
      }
      if f.front.value.reviewed != "" {
        return Settled;
      }
      if f.episode.Err? {
        return Unreadable(f.episode.error);
      }
      var messages := BuildReview(f.episode.value);
      if |messages| == 0 {
        return Settled;
      }
      v := Awaiting(Entry(stem, f.episode.value.id, EpisodeDate(f.front.value.startedAt), |messages|));
    }

    method MarkReviewed(id: string, date: string) returns (r: Option<MarkError>)
      requires Valid()
      modifies this
      ensures Valid() && r == MarkFault(old(files), id)
      ensures r.Some? ==> files == old(files)
      ensures r.None? ==> files == old(files)[Target(id).value := WithReviewed(old(files)[Target(id).value], date)]
      ensures var name := TrimSuffix(TrimSpace(id), ".md");
              var stem := if name == "/" then "" else name;
              && (r == Some(NotAnId) <==> name == "" || ('/' in name && name != "/"))
              && (r == Some(NoEpisode) <==> r != Some(NotAnId) && stem !in old(files))
              && (r.None? ==> stem in old(files) && old(files)[stem].settable && OnlyDated(old(files)[stem], files[stem], date))
    {
      var name := TrimSuffix(TrimSpace(id), EXT);
      if name == "" || (name != "/" && '/' in name) {
        return Some(NotAnId);
      }
      var stem := if name == "/" then "" else name;
      if stem !in files {
        return Some(NoEpisode);
      }
      if !files[stem].settable {
        return Some(NotWritten);
      }
      files := files[stem := WithReviewed(files[stem], date)];
      r := None;
    }

    /**
     * Marks a list of ids. The ids before the first that cannot be marked are
     * marked and reported, that one's error is returned with them, and nothing
     * else changes.
     */
    method MarkArcReviewed(mark: string, date: string) returns (marked: seq<string>, fault: Option<MarkError>, awaiting: nat)
      requires Valid()
      modifies this
      ensures Valid()
      ensures var ids := Trimmed(Split(mark, ','));
              var n := MarkedCount(old(files), ids);
              && files == AfterMarking(old(files), ids, date)
              && marked == Strip(ids[..n])
              && fault == (if n < |ids| then MarkFault(old(files), ids[n]) else None)
      ensures fault.None? ==> awaiting == |Queue(stems, files)|
    {
      hide Queue;
      hide TrimSpace;
      hide Split;
      hide Trimmed;
      hide WithMarks;
      hide WithReviewed;
      hide MarkFault;
      hide Listing;
      hide Target;
      var ids := SplitIds(mark);
      ghost var was, n := files, MarkedCount(files, ids);
      marked, awaiting := [], 0;
      assert ids[..0] == [];
      NoMarks(was, date);
      for i := 0 to |ids|
        invariant Valid() && i <= n && marked == Strip(ids[..i])
        invariant files == WithMarks(was, ids[..i], date)
      {
        MarksKeepFaults(was, ids[..i], date, ids[i]);
        fault := MarkReviewed(ids[i], date);
        if fault.Some? {
          return;
        }
        MarkOneMore(was, ids, i, date);
        marked := marked + [TrimSuffix(ids[i], EXT)];
        assert marked == Strip(ids[..i + 1]);
      }
      var pending, _ := PendingReviews();
      fault, awaiting := None, |pending|;
    }

    /** The review list of the named episodes, or of the oldest awaiting one. */
    method Review(episodes: string) returns (awaiting: nat, sessions: Option<seq<Session>>)
      requires Valid()
      ensures awaiting == |Queue(stems, files)|
      ensures sessions.Some? <==>
                var shown := Shown(Queue(stems, files), files, episodes);
                shown.Some? && forall s | s in shown.value :: SessionOf(files, s).Some?
      ensures sessions.Some? ==>
                var shown := Shown(Queue(stems, files), files, episodes).value;
                && |sessions.value| == |shown|
                && forall i | 0 <= i < |shown| :: SessionOf(files, shown[i]) == Some(sessions.value[i]) && Presents(sessions.value[i], files, shown[i])
    {
      hide Queue;
      hide Messages;
      hide Shown;
      hide Listing;
      var pending, _ := PendingReviews();
      awaiting := |pending|;
      var shown := EpisodePaths(episodes, pending);
      if shown.None? {
        return awaiting, None;
      }
      var out: seq<Session> := [];
      for i := 0 to |shown.value|
        invariant |out| == i && forall k | 0 <= k < i :: SessionOf(files, shown.value[k]) == Some(out[k])
      {
        var stem := shown.value[i];
        if stem !in files || files[stem].episode.Err? {
          assert SessionOf(files, stem).None? && stem in shown.value;
          return awaiting, None;
        }
        var ep := files[stem].episode.value;
        var messages := BuildReview(ep);
        out := out + [Session(ep.id, stem, messages)];
      }
      sessions := Some(out);
      forall i | 0 <= i < |out| ensures Presents(out[i], files, shown.value[i]) {
        SessionPresents(files, shown.value[i]);
      }
    }

    method EpisodePaths(episodes: string, pending: seq<Entry>) returns (r: Option<seq<string>>)
      ensures r == Shown(pending, files, episodes)
    {
      hide TrimSpace;
      hide Trimmed;
      hide Split;
      hide Opened;
      if TrimSpace(episodes) == "" {
        return Some(if |pending| == 0 then [] else [pending[0].file]);
      }
      var out := [];
      var ids := SplitIds(episodes);
      for i := 0 to |ids|
        invariant OpenedAll(files, ids[..i]) == Some(out)
      {
        assert ids[..i + 1][..i] == ids[..i];
        var stem := Opened(ids[i]);
        if stem !in files {
          OpenedPrefix(files, ids, i + 1);
          return None;
        }
        out := out + [stem];
      }
      assert ids[..|ids|] == ids;
      r := Some(out);
    }
  }

  /** Marking dates the files that an id before the first fault names, and changes nothing else in any file. */
  lemma MarkingDates(files: Files, ids: seq<string>, date: string)
    ensures var after, done := AfterMarking(files, ids, date), ids[..MarkedCount(files, ids)];
            && after.Keys == files.Keys
            && forall s | s in files ::
                 if exists id :: id in done && Target(id) == Some(s) then OnlyDated(files[s], after[s], date) else after[s] == files[s]
  {
    hide Target;
    hide TrimSpace;
    var done := ids[..MarkedCount(files, ids)];
    forall s ensures Names(done, s) <==> exists id :: id in done && Target(id) == Some(s) {
      if id :| id in done && Target(id) == Some(s) {
        var k :| 0 <= k < |done| && done[k] == id;
        assert Target(done[k]) == Some(s);
      }
    }
  }

  lemma NoMarks(files: Files, date: string)
    ensures WithMarks(files, [], date) == files
  {
  }

  lemma MarksKeepFaults(files: Files, ids: seq<string>, date: string, id: string)
    ensures MarkFault(WithMarks(files, ids, date), id) == MarkFault(files, id)
  {
  }

  lemma MarkOneMore(files: Files, ids: seq<string>, i: nat, date: string)
    requires i < |ids| && MarkFault(files, ids[i]).None?
    ensures var so := WithMarks(files, ids[..i], date);
            var stem := Target(ids[i]).value;
            stem in so && so[stem := WithReviewed(so[stem], date)] == WithMarks(files, ids[..i + 1], date)
  {
    var so, stem := WithMarks(files, ids[..i], date), Target(ids[i]).value;
    var left, right := so[stem := WithReviewed(so[stem], date)], WithMarks(files, ids[..i + 1], date);
    forall s | s in files ensures Names(ids[..i + 1], s) <==> Names(ids[..i], s) || s == stem {
      NamesSnoc(ids, i, s);
    }
    assert left.Keys == right.Keys;
    forall s | s in files ensures left[s] == right[s] {
    }
    assert left == right;
  }

  lemma NamesSnoc(ids: seq<string>, i: nat, s: string)
    requires i < |ids|
    ensures Names(ids[..i + 1], s) <==> Names(ids[..i], s) || Target(ids[i]) == Some(s)
  {
  }

  // ------------------------------------------------------------ what the queue holds

  lemma BeforeIsOrder()
    ensures TotalPreorder(Before)
  {
    forall a, b ensures Before(a, b) || Before(b, a) {
      AtMostTotal(a.date, b.date);
      AtMostTotal(a.file, b.file);
    }
    forall a, b, c | Before(a, b) && Before(b, c) ensures Before(a, c) {
      if AtMost(a.date, b.date) && AtMost(b.date, c.date) { AtMostTransitive(a.date, b.date, c.date); }
      if AtMost(a.file, b.file) && AtMost(b.file, c.file) { AtMostTransitive(a.file, b.file, c.file); }
      AtMostTotal(a.date, b.date);
      AtMostTotal(b.date, c.date);
    }
  }

  /** Comes strictly before, in the order of the queue. */
  ghost predicate StrictlyBefore(a: Entry, b: Entry) {
    Less(a.date, b.date) || (a.date == b.date && Less(a.file, b.file))
  }

  lemma StrictBefore(a: Entry, b: Entry)
    requires Before(a, b) && a.file != b.file
    ensures StrictlyBefore(a, b)
  {
    AtMostTotal(a.date, b.date);
    AtMostTotal(a.file, b.file);
  }

  lemma JudgedByName(files: Files, stem: string)
    ensures JudgeAt(files, stem).Awaiting? ==> JudgeAt(files, stem).entry.file == stem
  {
  }

  lemma {:induction false} PendingsAre(stems: seq<string>, files: Files)
    requires Distinct(stems)
    ensures forall e :: e in Pendings(stems, files) <==> e.file in stems && JudgeAt(files, e.file) == Awaiting(e)
    ensures forall i, j | 0 <= i < j < |Pendings(stems, files)| :: Pendings(stems, files)[i].file != Pendings(stems, files)[j].file
  {
    hide JudgeAt;
    if stems != [] {
      var last := |stems| - 1;
      var stem := stems[last];
      PendingsAre(stems[..last], files);
      JudgedByName(files, stem);
      assert stems == stems[..last] + [stem] && stem !in stems[..last];
      var before := Pendings(stems[..last], files);
      forall i | 0 <= i < |before| ensures before[i].file != stem {
        assert before[i] in before;
      }
    }
  }

  /** The queue holds each file awaiting review exactly once and nothing else, in strict order of date, then file. */
  lemma QueueIsExact(stems: seq<string>, files: Files)
    requires Listing(stems, files)
    ensures forall e :: e in Queue(stems, files) <==> e.file in files && Judge(e.file, files[e.file]) == Awaiting(e)
    ensures forall i, j | 0 <= i < j < |Queue(stems, files)| :: StrictlyBefore(Queue(stems, files)[i], Queue(stems, files)[j])
    ensures Distinct(Queue(stems, files)) && Sorted(Before, Queue(stems, files))
    ensures multiset(Queue(stems, files)) == multiset(Pendings(stems, files))
  {
    hide Judge;
    hide Before;
    hide StrictlyBefore;
    var p, q := Pendings(stems, files), Queue(stems, files);
    BeforeIsOrder();
    PendingsAre(stems, files);
    SortSorts(Before, p);
    SortPermutes(Before, p);
    DistinctPermutation(p, q);
    forall e ensures e in q <==> e in p {
      MemberOfPermutation(q, p, e);
    }
    forall i, j | 0 <= i < j < |q| ensures StrictlyBefore(q[i], q[j]) {
      assert q[i] in q && q[j] in q && q[i] != q[j];
      StrictBefore(q[i], q[j]);
    }
  }

  /** A file awaits review exactly when it can be read, carries no review date and holds a judgeable message. */
  lemma AwaitsWhen(stem: string, f: File)
    ensures Judge(stem, f).Awaiting? <==>
              && f.front.Ok? && f.front.value.reviewed == "" && f.episode.Ok?
              && exists i :: 0 <= i < |f.episode.value.users| && Judgeable(f.episode.value.users[i])
  {
    if f.episode.Ok? {
      SomethingToJudge(f.episode.value.users, f.episode.value.assistants);
    }
  }

  /** What an entry says of its file: the name, the episode's id, the day it started and how many messages there are to judge. */
  lemma EntryIs(stem: string, f: File)
    requires Judge(stem, f).Awaiting?
    ensures var e, ep, started := Judge(stem, f).entry, f.episode.value, f.front.value.startedAt;
            && e.file == stem && e.id == ep.id && e.messages == |SpokenAt(ep.users)|
            && e.date <= started && (|started| <= 10 ==> e.date == started) && (|started| > 10 ==> |e.date| == 10)
  {
    var ep := f.episode.value;
    var ps := MessagesList(ep.users, ep.assistants);
    InOrderCounts(ps, SpokenAt(ep.users));
  }

  /** A file cannot be read when its frontmatter cannot, or when that carries no review date and the turns cannot. */
  lemma UnreadableWhen(stem: string, f: File, why: string)
    ensures Judge(stem, f) == Unreadable(why) <==>
              || f.front == Err(why)
              || (f.front.Ok? && f.front.value.reviewed == "" && f.episode == Err(why))
  {
    if f.episode.Ok? {
      SomethingToJudge(f.episode.value.users, f.episode.value.assistants);
    }
  }

  ghost function UnreadableAt(stems: seq<string>, files: Files): (ps: set<nat>)
    ensures forall p: nat :: p in ps <==> p < |stems| && stems[p] in files && Judge(stems[p], files[stems[p]]).Unreadable?
  {
    set p: nat | p < |stems| && stems[p] in files && Judge(stems[p], files[stems[p]]).Unreadable?
  }

  lemma UnreadableOneMore(stems: seq<string>, files: Files, stem: string)
    ensures UnreadableAt(stems + [stem], files)
         == UnreadableAt(stems, files) + if stem in files && Judge(stem, files[stem]).Unreadable? then {|stems|} else {}
  {
    hide Judge;
    var more := stems + [stem];
    forall p: nat | p < |stems| ensures more[p] == stems[p] {
    }
  }

  /** One diagnostic for each file that cannot be read, in their order, with the reason. */
  lemma {:induction false} SkipsAre(stems: seq<string>, files: Files) returns (ps: seq<nat>)
    ensures InOrder(ps, UnreadableAt(stems, files)) && |Skips(stems, files)| == |ps|
    ensures forall k | 0 <= k < |ps| ::
              && ps[k] < |stems| && stems[ps[k]] in files && Judge(stems[ps[k]], files[stems[ps[k]]]).Unreadable?
              && Skips(stems, files)[k] == "skipped " + stems[ps[k]] + ".md: " + Judge(stems[ps[k]], files[stems[ps[k]]]).why
  {
    hide Judge;
    ps := [];
    if stems != [] {
      var front, stem := stems[..|stems| - 1], stems[|stems| - 1];
      ps := SkipsAre(front, files);
      assert stems == front + [stem];
      UnreadableOneMore(front, files, stem);
      if stem in files && Judge(stem, files[stem]).Unreadable? {
        InOrderMore(ps, UnreadableAt(front, files), |front|);
        ps := ps + [|front|];
        var why := Judge(stem, files[stem]).why;
        assert stem + EXT + ": " + why == stem + ".md: " + why;
        assert "skipped " + stem + EXT + ": " + why == "skipped " + stem + ".md: " + why;
      }
    }
  }

  // ------------------------------------------------------------ marking takes an entry out

  /** An id that survives the list syntax. */
  predicate CleanId(s: string) {
    s != "" && ',' !in s && TrimSpace(s) == s
  }

  /** A file name that --mark-reviewed takes back as the same file. */
  predicate Markable(stem: string) {
    CleanId(stem) && !HasSuffix(stem, EXT)
  }

  predicate Removable(files: Files, stem: string, date: string) {
    Markable(stem) && stem in files && files[stem].settable && TrimSpace(date) != ""
  }

  lemma {:induction false} TrimmedParts(parts: seq<string>)
    ensures forall id | id in Trimmed(parts) :: id != "" && exists p :: p in parts && TrimSpace(p) == id
  {
    if parts != [] {
      var last := |parts| - 1;
      TrimmedParts(parts[..last]);
      forall id | id in Trimmed(parts[..last]) ensures exists p :: p in parts && TrimSpace(p) == id {
        var p :| p in parts[..last] && TrimSpace(p) == id;
        assert p in parts;
      }
      assert parts[last] in parts;
    }
  }

  /** The ids of a list have no comma and no white space at either end. */
  lemma IdsAreClean(s: string, id: string)
    requires id in Trimmed(Split(s, ','))
    ensures id != "" && ',' !in id && TrimSpace(id) == id
  {
    TrimmedParts(Split(s, ','));
    SplitHasNoSeparator(s, ',');
    var p :| p in Split(s, ',') && TrimSpace(p) == id;
    TrimKeeps(p);
  }

  lemma {:induction false} TrimLeftIs(s: string)
    ensures forall c | c in TrimLeft(s) :: c in s
    ensures TrimLeft(s) == "" || !IsSpace(TrimLeft(s)[0])
  {
    if s != "" {
      TrimLeftIs(s[1..]);
    }
  }

  lemma {:induction false} TrimRightIs(s: string)
    ensures TrimRight(s) <= s
    ensures TrimRight(TrimRight(s)) == TrimRight(s)
  {
    if s != "" && IsSpace(s[|s| - 1]) {
      TrimRightIs(s[..|s| - 1]);
    }
  }

  lemma TrimKeeps(s: string)
    ensures TrimSpace(TrimSpace(s)) == TrimSpace(s)
    ensures forall c | c in TrimSpace(s) :: c in s
  {
    TrimLeftIs(s);
    TrimRightIs(TrimLeft(s));
    var t := TrimSpace(s);
    assert t != "" ==> t[0] == TrimLeft(s)[0];
    assert TrimLeft(t) == t;
  }

  lemma MarkableIsItself(stem: string)
    requires Markable(stem) && '/' !in stem
    ensures Trimmed(Split(stem, ',')) == [stem] && Target(stem) == Some(stem)
  {
    SplitOfWord(stem, ',');
    assert [stem][..0] == [];
    assert Trimmed([]) == [];
  }

  /** Only a markable name is named by an id of its own list. */
  lemma OnlyMarkableNamesItself(stem: string, id: string)
    requires id in Trimmed(Split(stem, ',')) && Target(id) == Some(stem) && '/' !in stem
    ensures Markable(stem)
  {
    IdsAreClean(stem, id);
    TrimmedParts(Split(stem, ','));
    var p :| p in Split(stem, ',') && TrimSpace(p) == id;
    PartIsNoLonger(stem, p);
    TrimIsNoLonger(p);
    assert |id| <= |stem|;
    if TrimSuffix(id, EXT) != "/" {
      assert id == stem;
    }
  }

  lemma {:induction false} PartIsNoLonger(s: string, p: string)
    requires p in Split(s, ',')
    ensures |p| <= |s|
  {
    if s != "" {
      var rest := Split(s[1..], ',');
      assert rest[0] in rest;
      if p in rest {
        PartIsNoLonger(s[1..], p);
      } else {
        PartIsNoLonger(s[1..], rest[0]);
      }
    }
  }

  lemma {:induction false} TrimLeftIsNoLonger(s: string)
    ensures |TrimLeft(s)| <= |s|
  {
    if s != "" {
      TrimLeftIsNoLonger(s[1..]);
    }
  }

  lemma TrimIsNoLonger(s: string)
    ensures |TrimSpace(s)| <= |s|
  {
    TrimLeftIsNoLonger(s);
    TrimRightIs(TrimLeft(s));
  }

  /** Writing a date into one file takes its entry, and no other, out of what is pending. */
  lemma {:induction false} PendingsWithout(stems: seq<string>, files: Files, after: Files, stem: string)
    requires Distinct(stems) && JudgeAt(after, stem) == Settled
    requires forall s | s != stem :: JudgeAt(after, s) == JudgeAt(files, s)
    ensures multiset(Pendings(stems, files)) ==
              multiset(Pendings(stems, after)) + multiset(if stem in stems then EntryOf(JudgeAt(files, stem)) else [])
  {
    hide JudgeAt;
    if stems != [] {
      var last := |stems| - 1;
      PendingsWithout(stems[..last], files, after, stem);
      StemsSnoc(stems, stem);
      MultisetMove(Pendings(stems[..last], files), Pendings(stems[..last], after),
        EntryOf(JudgeAt(files, stems[last])), EntryOf(JudgeAt(after, stems[last])),
        if stem in stems[..last] then EntryOf(JudgeAt(files, stem)) else [],
        if stem in stems then EntryOf(JudgeAt(files, stem)) else []);
    }
  }

  lemma StemsSnoc(stems: seq<string>, stem: string)
    requires stems != [] && Distinct(stems)
    ensures stem in stems <==> stem in stems[..|stems| - 1] || stem == stems[|stems| - 1]
    ensures stem == stems[|stems| - 1] ==> stem !in stems[..|stems| - 1]
  {
  }

  lemma MultisetMove(p: seq<Entry>, q: seq<Entry>, x: seq<Entry>, y: seq<Entry>, d: seq<Entry>, e: seq<Entry>)
    requires multiset(p) == multiset(q) + multiset(d)
    requires (x == y && d == e) || (y == d == [] && x == e)
    ensures multiset(p + x) == multiset(q + y) + multiset(e)
  {
  }

  lemma RemovedByMark(stems: seq<string>, files: Files, i: nat, date: string, after: Files)
    requires Listing(stems, files) && i < |Queue(stems, files)|
    requires var stem := Queue(stems, files)[i].file; Removable(files, stem, date) && after == WithMarks(files, [stem], date)
    ensures Queue(stems, after) == Queue(stems, files)[..i] + Queue(stems, files)[i + 1..]
  {
    var q := Queue(stems, files);
    var e := q[i];
    QueueIsExact(stems, files);
    assert e in q;
    MarkableIsItself(e.file);
    OnlyOneMarked(files, e, date);
    assert Listing(stems, after);
    QueueIsExact(stems, after);
    PendingsWithout(stems, files, after, e.file);
    WithoutOne(stems, files, i, Queue(stems, after));
  }

  lemma OnlyOneMarked(files: Files, e: Entry, date: string)
    requires Removable(files, e.file, date) && Target(e.file) == Some(e.file) && Judge(e.file, files[e.file]) == Awaiting(e)
    ensures var after := WithMarks(files, [e.file], date);
            JudgeAt(after, e.file) == Settled && forall s | s != e.file :: JudgeAt(after, s) == JudgeAt(files, s)
  {
    assert [e.file][0] == e.file;
    assert Names([e.file], e.file);
  }

  lemma WithoutOne(stems: seq<string>, files: Files, i: nat, r: seq<Entry>)
    requires Listing(stems, files) && i < |Queue(stems, files)| && Sorted(Before, r)
    requires multiset(r) == multiset(Queue(stems, files)) - multiset{Queue(stems, files)[i]}
    ensures r == Queue(stems, files)[..i] + Queue(stems, files)[i + 1..]
  {
    hide Judge;
    hide Queue;
    hide Before;
    hide StrictlyBefore;
    hide Listing;
    var q := Queue(stems, files);
    var rest := q[..i] + q[i + 1..];
    QueueIsExact(stems, files);
    WithoutIndex(q, i);
    forall x, y | x in rest && y in rest && Before(x, y) && Before(y, x) ensures x == y {
      assert x in q && y in q;
      BothWays(x, y);
    }
    BeforeIsOrder();
    SortedUnique(Before, rest, r);
  }

  lemma WithoutIndex(q: seq<Entry>, i: nat)
    requires i < |q| && Sorted(Before, q)
    ensures multiset(q[..i] + q[i + 1..]) == multiset(q) - multiset{q[i]}
    ensures Sorted(Before, q[..i] + q[i + 1..])
  {
    hide Before;
    assert q == q[..i] + [q[i]] + q[i + 1..];
  }

  lemma BothWays(x: Entry, y: Entry)
    requires Before(x, y) && Before(y, x)
    ensures x.file == y.file
  {
    AtMostTotal(x.date, y.date);
    AtMostTotal(x.file, y.file);
  }

  /** A pending file that a list of marks does not reach is pending as it was. */
  lemma Survives(files: Files, e: Entry, ids: seq<string>, date: string)
    requires e.file in files && Judge(e.file, files[e.file]) == Awaiting(e)
    requires !Names(ids[..MarkedCount(files, ids)], e.file) || TrimSpace(date) == ""
    ensures e.file in AfterMarking(files, ids, date)
    ensures Judge(e.file, AfterMarking(files, ids, date)[e.file]) == Awaiting(e)
  {
  }

  lemma OwnMarkMisses(files: Files, stem: string, date: string)
    requires '/' !in stem && stem in files && !Removable(files, stem, date) && TrimSpace(date) != ""
    ensures var ids := Trimmed(Split(stem, ',')); !Names(ids[..MarkedCount(files, ids)], stem)
  {
    var ids := Trimmed(Split(stem, ','));
    var done := ids[..MarkedCount(files, ids)];
    if Names(done, stem) {
      var k :| 0 <= k < |done| && Target(done[k]) == Some(stem);
      assert ids[k] == done[k] && MarkFault(files, ids[k]).None?;
      assert ids[k] in ids && Target(ids[k]) == Some(stem);
      OnlyMarkableNamesItself(stem, ids[k]);
    }
  }

  /**
   * Marking an entry by its own file name takes exactly it out of the queue
   * and leaves the rest in order, if and only if its name survives the list
   * syntax, its frontmatter can be written and the date is not blank.
   */
  lemma MarkRemovesOne(stems: seq<string>, files: Files, i: nat, date: string)
    requires Listing(stems, files) && i < |Queue(stems, files)|
    ensures var q := Queue(stems, files);
            var after := AfterMarking(files, Trimmed(Split(q[i].file, ',')), date);
            Queue(stems, after) == q[..i] + q[i + 1..] <==> Removable(files, q[i].file, date)
  {
    hide Queue;
    hide Removable;
    hide AfterMarking;
    if Removable(files, Queue(stems, files)[i].file, date) {
      MarkRemoves(stems, files, i, date);
    } else {
      MarkKeeps(stems, files, i, date);
      QueueIsExact(stems, files);
      NotWithoutIt(Queue(stems, files), i);
    }
  }

  lemma MarkRemoves(stems: seq<string>, files: Files, i: nat, date: string)
    requires Listing(stems, files) && i < |Queue(stems, files)| && Removable(files, Queue(stems, files)[i].file, date)
    ensures var q := Queue(stems, files);
            Queue(stems, AfterMarking(files, Trimmed(Split(q[i].file, ',')), date)) == q[..i] + q[i + 1..]
  {
    hide Queue;
    hide Judge;
    hide TrimSpace;
    hide WithMarks;
    var stem := Queue(stems, files)[i].file;
    QueueIsExact(stems, files);
    assert Queue(stems, files)[i] in Queue(stems, files);
    assert stem in stems;
    MarkableIsItself(stem);
    OneMarkable(files, stem);
    RemovedByMark(stems, files, i, date, WithMarks(files, [stem], date));
  }

  lemma OneMarkable(files: Files, stem: string)
    requires MarkFault(files, stem).None?
    ensures [stem][..MarkedCount(files, [stem])] == [stem]
  {
  }

  /** An entry that cannot be removed is in the queue after its own mark. */
  lemma MarkKeeps(stems: seq<string>, files: Files, i: nat, date: string)
    requires Listing(stems, files) && i < |Queue(stems, files)| && !Removable(files, Queue(stems, files)[i].file, date)
    ensures var e := Queue(stems, files)[i];
            e in Queue(stems, AfterMarking(files, Trimmed(Split(e.file, ',')), date))
  {
    hide Queue;
    hide Judge;
    hide TrimSpace;
    hide Split;
    var e := Queue(stems, files)[i];
    var ids := Trimmed(Split(e.file, ','));
    QueueIsExact(stems, files);
    assert e in Queue(stems, files);
    assert e.file in stems;
    if TrimSpace(date) != "" {
      OwnMarkMisses(files, e.file, date);
    }
    hide Removable;
    Survives(files, e, ids, date);
    QueueIsExact(stems, AfterMarking(files, ids, date));
  }

  lemma NotWithoutIt(q: seq<Entry>, i: nat)
    requires i < |q| && Distinct(q)
    ensures q[i] !in q[..i] + q[i + 1..]
  {
  }

  // ------------------------------------------------------------ the queue drains

  /** One sitting: review the head, then give --mark-reviewed its file name as the one argument; a blank name is not a mark. */
  function Round(stems: seq<string>, files: Files, date: string): Files {
    var q := Queue(stems, files);
    if q == [] || TrimSpace(q[0].file) == "" then files else AfterMarking(files, Trimmed(Split(q[0].file, ',')), date)
  }

  function Rounds(stems: seq<string>, files: Files, dates: seq<string>): Files {
    if dates == [] then files else Rounds(stems, Round(stems, files, dates[0]), dates[1..])
  }

  ghost predicate Dated(dates: seq<string>) {
    forall d | d in dates :: TrimSpace(d) != ""
  }

  predicate Clears(files: Files, e: Entry) {
    Markable(e.file) && e.file in files && files[e.file].settable
  }

  lemma RoundKeepsFiles(stems: seq<string>, files: Files, date: string)
    requires Listing(stems, files)
    ensures Listing(stems, Round(stems, files, date))
    ensures forall e: Entry :: Clears(Round(stems, files, date), e) == Clears(files, e)
  {
  }

  /** A head that can be removed is, and the rest moves up. */
  lemma RoundDrains(stems: seq<string>, files: Files, date: string)
    requires Listing(stems, files) && Queue(stems, files) != [] && TrimSpace(date) != ""
    requires Clears(files, Queue(stems, files)[0])
    ensures Queue(stems, Round(stems, files, date)) == Queue(stems, files)[1..]
  {
    hide Queue;
    var q := Queue(stems, files);
    MarkRemovesOne(stems, files, 0, date);
    assert q[..0] + q[1..] == q[1..];
  }

  /** A head that cannot be removed is still the head, whatever its mark removed. */
  lemma RoundJams(stems: seq<string>, files: Files, date: string)
    requires Listing(stems, files) && Queue(stems, files) != [] && TrimSpace(date) != ""
    requires !Clears(files, Queue(stems, files)[0])
    ensures var r := Queue(stems, Round(stems, files, date)); r != [] && r[0] == Queue(stems, files)[0]
  {
    hide Queue;
    var q, after := Queue(stems, files), Round(stems, files, date);
    var head := q[0];
    RoundKeepsFiles(stems, files, date);
    QueueIsExact(stems, files);
    QueueIsExact(stems, after);
    assert head in q;
    if TrimSpace(head.file) != "" {
      OwnMarkMisses(files, head.file, date);
      Survives(files, head, Trimmed(Split(head.file, ',')), date);
    }
    var r := Queue(stems, after);
    assert head in r;
    assert r[0] in r;
    OnlyShrinks(stems, files, date, r[0]);
    HeadIsFirst(q, r, head);
  }

  /** No round puts a file into the queue. */
  lemma OnlyShrinks(stems: seq<string>, files: Files, date: string, e: Entry)
    requires e.file in Round(stems, files, date) && Judge(e.file, Round(stems, files, date)[e.file]) == Awaiting(e) && TrimSpace(date) != ""
    ensures e.file in files && Judge(e.file, files[e.file]) == Awaiting(e)
  {
  }

  lemma HeadIsFirst(q: seq<Entry>, r: seq<Entry>, head: Entry)
    requires q != [] && q[0] == head && head in r && r[0] in q
    requires forall i, j | 0 <= i < j < |q| :: StrictlyBefore(q[i], q[j])
    requires forall i, j | 0 <= i < j < |r| :: StrictlyBefore(r[i], r[j])
    ensures r[0] == head
  {
    var i :| 0 <= i < |q| && q[i] == r[0];
    var j :| 0 <= j < |r| && r[j] == head;
    if i > 0 && j > 0 {
      assert StrictlyBefore(q[0], q[i]) && StrictlyBefore(r[0], r[j]);
      AtMostTotal(head.date, r[0].date);
      AtMostTotal(head.file, r[0].file);
      assert false;
    }
  }

  /** While every head can be removed, sitting k is offered entry k of the original queue. */
  lemma {:induction false} OffersInOrder(stems: seq<string>, files: Files, dates: seq<string>)
    requires Listing(stems, files) && Dated(dates) && |dates| <= |Queue(stems, files)|
    requires forall i | 0 <= i < |dates| :: Clears(files, Queue(stems, files)[i])
    ensures Queue(stems, Rounds(stems, files, dates)) == Queue(stems, files)[|dates|..]
    decreases |dates|
  {
    hide Queue;
    hide Round;
    hide Clears;
    if dates != [] {
      assert dates[0] in dates;
      var next := Round(stems, files, dates[0]);
      RoundDrains(stems, files, dates[0]);
      RoundKeepsFiles(stems, files, dates[0]);
      OffersInOrder(stems, next, dates[1..]);
      assert Queue(stems, files)[1..][|dates[1..]|..] == Queue(stems, files)[|dates|..];
    }
  }

  lemma {:induction false} StaysJammed(stems: seq<string>, files: Files, dates: seq<string>)
    requires Listing(stems, files) && Dated(dates) && Queue(stems, files) != [] && !Clears(files, Queue(stems, files)[0])
    ensures var r := Queue(stems, Rounds(stems, files, dates)); r != [] && r[0] == Queue(stems, files)[0]
    decreases |dates|
  {
    hide Queue;
    hide Round;
    hide Clears;
    if dates != [] {
      assert dates[0] in dates;
      RoundJams(stems, files, dates[0]);
      RoundKeepsFiles(stems, files, dates[0]);
      StaysJammed(stems, Round(stems, files, dates[0]), dates[1..]);
    }
  }

  lemma {:induction false} RoundsAppend(stems: seq<string>, files: Files, a: seq<string>, b: seq<string>)
    ensures Rounds(stems, files, a + b) == Rounds(stems, Rounds(stems, files, a), b)
    decreases |a|
  {
    hide Round;
    if a == [] {
      assert a + b == b;
    } else {
      assert (a + b)[1..] == a[1..] + b;
      RoundsAppend(stems, Round(stems, files, a[0]), a[1..], b);
    }
  }

  lemma {:induction false} RoundsKeepFiles(stems: seq<string>, files: Files, dates: seq<string>)
    requires Listing(stems, files)
    ensures Listing(stems, Rounds(stems, files, dates))
    ensures forall e: Entry :: Clears(Rounds(stems, files, dates), e) == Clears(files, e)
    decreases |dates|
  {
    hide Round;
    hide Clears;
    if dates != [] {
      RoundKeepsFiles(stems, files, dates[0]);
      RoundsKeepFiles(stems, Round(stems, files, dates[0]), dates[1..]);
    }
  }

  /**
   * Reviewing and marking the head as many times as the queue is long empties
   * it if and only if every entry can be removed; otherwise it stops for good
   * at the first that cannot, and no number of sittings moves that one.
   */
  lemma QueueDrains(stems: seq<string>, files: Files, dates: seq<string>)
    requires Listing(stems, files) && Dated(dates) && |dates| >= |Queue(stems, files)|
    ensures Queue(stems, Rounds(stems, files, dates)) == [] <==> forall e | e in Queue(stems, files) :: Clears(files, e)
  {
    hide Queue;
    hide Round;
    hide Clears;
    var q := Queue(stems, files);
    var k := FirstStuck(files, q);
    var first, later := dates[..k], dates[k..];
    assert dates == first + later;
    OffersInOrder(stems, files, first);
    RoundsAppend(stems, files, first, later);
    RoundsKeepFiles(stems, files, first);
    var there := Rounds(stems, files, first);
    if k < |q| {
      assert q[k] in q;
      StaysJammed(stems, there, later);
    } else {
      assert Queue(stems, there) == [];
      EmptyStays(stems, there, later);
    }
  }

  function FirstStuck(files: Files, q: seq<Entry>): (k: nat)
    ensures k <= |q|
    ensures forall i | 0 <= i < k :: Clears(files, q[i])
    ensures k < |q| ==> !Clears(files, q[k])
  {
    if q != [] && Clears(files, q[0]) then 1 + FirstStuck(files, q[1..]) else 0
  }

  lemma {:induction false} EmptyStays(stems: seq<string>, files: Files, dates: seq<string>)
    requires Queue(stems, files) == []
    ensures Rounds(stems, files, dates) == files
    decreases |dates|
  {
    hide Queue;
    if dates != [] {
      EmptyStays(stems, files, dates[1..]);
    }
  }

  // ------------------------------------------------------------ lists of ids

  /** Splitting a joined list of ids gives it back, if and only if each is clean. */
  lemma ListSplitsBack(ids: seq<string>)
    requires ids != []
    ensures Trimmed(Split(Join(ids, ","), ',')) == ids <==> forall s | s in ids :: CleanId(s)
  {
    if forall s | s in ids :: CleanId(s) {
      SplitUndoesJoin(ids, ',');
      TrimmedAlready(ids);
    } else {
      var s :| s in ids && !CleanId(s);
      if s in Trimmed(Split(Join(ids, ","), ',')) {
        IdsAreClean(Join(ids, ","), s);
      }
    }
  }

  lemma TrimmedOneMore(parts: seq<string>, id: string)
    requires id != "" && TrimSpace(id) == id
    ensures Trimmed(parts + [id]) == Trimmed(parts) + [id]
  {
  }

  lemma {:induction false} TrimmedAlready(parts: seq<string>)
    requires forall s | s in parts :: s != "" && TrimSpace(s) == s
    ensures Trimmed(parts) == parts
  {
    hide TrimSpace;
    if parts != [] {
      var front, id := parts[..|parts| - 1], parts[|parts| - 1];
      assert parts == front + [id];
      assert (forall s | s in front :: s in parts) && id in parts;
      TrimmedAlready(front);
      TrimmedOneMore(front, id);
    }
  }

  // ------------------------------------------------------------ marking what is shown

  /** The ids of a list that are marked name exactly these files. */
  ghost predicate MarksExactly(files: Files, ids: seq<string>, shown: seq<string>) {
    forall s :: Names(ids[..MarkedCount(files, ids)], s) <==> s in shown
  }

  /** A name's own target is no longer than it, and as long only if the name is markable and its own target. */
  lemma TargetIsShorter(p: string)
    requires '/' !in p && Target(TrimSpace(p)).Some?
    ensures var s := Target(TrimSpace(p)).value;
            |s| <= |p| && (|s| == |p| && ',' !in p ==> s == p && Markable(p))
  {
    TrimIsNoLonger(p);
    TrimKeeps(p);
    TrimIsWithin(p);
    var name := TrimSuffix(TrimSpace(p), EXT);
    assert forall c | c in name :: c in TrimSpace(p);
  }

  lemma {:induction false} TrimLeftIsSuffix(s: string)
    ensures |TrimLeft(s)| <= |s| && s[|s| - |TrimLeft(s)|..] == TrimLeft(s)
  {
    if s != "" && IsSpace(s[0]) {
      TrimLeftIsSuffix(s[1..]);
    }
  }

  lemma TrimIsWithin(p: string)
    ensures |TrimSpace(p)| == |p| ==> TrimSpace(p) == p
  {
    TrimLeftIsSuffix(p);
    TrimRightIs(TrimLeft(p));
  }

  /** No marked id has a comma, so no marked file has. */
  lemma MarkedHasNoComma(list: string, id: string)
    requires id in Trimmed(Split(list, ',')) && Target(id).Some?
    ensures ',' !in Target(id).value
  {
    IdsAreClean(list, id);
    var name := TrimSuffix(TrimSpace(id), EXT);
    assert forall c | c in name :: c in id;
  }

  /** Each of the names is some name's target; a longest one that were not markable would be a longer one's. */
  lemma {:induction false} AllMarkable(shown: seq<string>, s: string, bound: nat)
    requires forall p | p in shown :: '/' !in p && ',' !in p && |p| <= bound
    requires forall q | q in shown :: exists p :: p in shown && Target(TrimSpace(p)) == Some(q)
    requires s in shown
    ensures Markable(s)
    decreases bound - |s|
  {
    hide TrimSpace;
    hide Target;
    hide Markable;
    var p :| p in shown && Target(TrimSpace(p)) == Some(s);
    TargetIsShorter(p);
    if |p| > |s| {
      AllMarkable(shown, p, bound);
      OwnTarget(p);
    }
  }

  lemma OwnTarget(p: string)
    requires Markable(p) && '/' !in p
    ensures TrimSpace(p) == p && Target(p) == Some(p)
  {
    MarkableIsItself(p);
  }

  function LongestOf(names: seq<string>): (n: nat)
    ensures forall s | s in names :: |s| <= n
  {
    if names == [] then 0
    else
      var rest := LongestOf(names[1..]);
      if |names[0]| > rest then |names[0]| else rest
  }

  lemma ExactMarksAreOwn(files: Files, shown: seq<string>)
    requires shown != [] && forall s | s in shown :: s in files && '/' !in s
    requires MarksExactly(files, Trimmed(Split(Join(shown, ","), ',')), shown)
    ensures forall s | s in shown :: Markable(s) && files[s].settable
  {
    hide TrimSpace;
    hide Target;
    hide Markable;
    hide Split;
    hide Join;
    hide Trimmed;
    hide MarkFault;
    hide Names;
    var list := Join(shown, ",");
    var ids := Trimmed(Split(list, ','));
    forall s | s in shown ensures ',' !in s && files[s].settable && exists id :: id in ids && Target(id) == Some(s) {
      MarkedIsWritten(files, list, s);
    }
    SplitUndoesJoin(shown, ',');
    assert ids == Trimmed(shown);
    forall q | q in shown ensures exists p :: p in shown && Target(TrimSpace(p)) == Some(q) {
      var id :| id in ids && Target(id) == Some(q);
      IdIsTrimmed(shown, id);
    }
    forall s | s in shown ensures Markable(s) {
      AllMarkable(shown, s, LongestOf(shown));
    }
  }

  lemma MarkedIsWritten(files: Files, list: string, s: string)
    requires var ids := Trimmed(Split(list, ',')); Names(ids[..MarkedCount(files, ids)], s)
    ensures ',' !in s && s in files && files[s].settable && exists id :: id in Trimmed(Split(list, ',')) && Target(id) == Some(s)
  {
    hide Target;
    hide Trimmed;
    hide Split;
    var ids := Trimmed(Split(list, ','));
    var done := ids[..MarkedCount(files, ids)];
    var k :| 0 <= k < |done| && Target(done[k]) == Some(s);
    assert done[k] == ids[k] && ids[k] in ids;
    MarkedHasNoComma(list, ids[k]);
    assert MarkFault(files, ids[k]).None?;
  }

  lemma IdIsTrimmed(parts: seq<string>, id: string)
    requires id in Trimmed(parts)
    ensures exists p :: p in parts && TrimSpace(p) == id
  {
    TrimmedParts(parts);
  }

  lemma OwnMarksAreExact(files: Files, shown: seq<string>)
    requires shown != [] && forall s | s in shown :: s in files && '/' !in s && Markable(s) && files[s].settable
    ensures var ids := Trimmed(Split(Join(shown, ","), ','));
            ids == shown && MarkedCount(files, ids) == |ids| && MarksExactly(files, ids, shown)
  {
    hide Split;
    hide Join;
    hide Trimmed;
    forall s | s in shown ensures CleanId(s) && Target(s) == Some(s) {
      OwnTarget(s);
    }
    ListSplitsBack(shown);
    hide Target;
    hide Markable;
    assert forall k | 0 <= k < |shown| :: shown[k] in shown;
    assert MarkedCount(files, shown) == |shown|;
    assert shown[..|shown|] == shown;
    forall s ensures Names(shown, s) <==> s in shown {
      if s in shown {
        var k :| 0 <= k < |shown| && shown[k] == s;
        assert Target(shown[k]) == Some(s);
      }
    }
  }

  /**
   * Giving --mark-reviewed the joined names of some files marks exactly those
   * files, if and only if each name is markable and each frontmatter can be
   * written; the list then goes through without an error.
   */
  lemma JoinedNamesMark(files: Files, shown: seq<string>)
    requires shown != [] && forall s | s in shown :: s in files && '/' !in s
    ensures var ids := Trimmed(Split(Join(shown, ","), ','));
            && (MarksExactly(files, ids, shown) <==> forall s | s in shown :: Markable(s) && files[s].settable)
            && (MarksExactly(files, ids, shown) ==> MarkedCount(files, ids) == |ids|)
  {
    hide Markable;
    hide MarksExactly;
    var ids := Trimmed(Split(Join(shown, ","), ','));
    if MarksExactly(files, ids, shown) {
      ExactMarksAreOwn(files, shown);
    }
    if forall s | s in shown :: Markable(s) && files[s].settable {
      OwnMarksAreExact(files, shown);
    }
  }

  /** These files dated, and no other changed. */
  function Dating(files: Files, shown: seq<string>, date: string): Files {
    map s | s in files :: if s in shown then WithReviewed(files[s], date) else files[s]
  }

  lemma ExactMarksDate(files: Files, ids: seq<string>, shown: seq<string>, date: string)
    requires MarksExactly(files, ids, shown)
    ensures AfterMarking(files, ids, date) == Dating(files, shown, date)
  {
    hide WithReviewed;
  }

  /** With no episode named, the list shows the head of the queue, and exactly the messages the queue counted. */
  lemma ReviewShowsTheHead(stems: seq<string>, files: Files)
    requires Listing(stems, files) && Queue(stems, files) != []
    ensures var head := Queue(stems, files)[0];
            && Shown(Queue(stems, files), files, "") == Some([head.file])
            && SessionOf(files, head.file).Some?
            && |SessionOf(files, head.file).value.messages| == head.messages > 0
            && SessionOf(files, head.file).value.episode == head.id
            && Presents(SessionOf(files, head.file).value, files, head.file)
  {
    QueueIsExact(stems, files);
    var head := Queue(stems, files)[0];
    assert head in Queue(stems, files);
    SessionPresents(files, head.file);
  }
}
