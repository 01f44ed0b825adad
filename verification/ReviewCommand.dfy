/**
 * The commands the review list and the session-start line print for a reader
 * to run (cmd/arc_review_helpers.go). The vault and the file names go into the
 * line as they are, without quotes, so what a shell makes of it depends on
 * their characters.
 */
module ReviewCommand {
  import opened Wrappers
  import opened Text
  import opened ReviewQueue
  import opened ShellQuoting
  import opened UnquotedWords

  /** arcReviewCommand for a vault. */
  function Command(vault: string): string {
    "vaultmind arc review --vault " + vault
  }

  /** The indented line that ends the review list. */
  function Footer(vault: string, shown: seq<string>): string {
    "  " + (Command(vault) + " --mark-reviewed " + Join(shown, ","))
  }

  /** The indented line of the session-start nudge. */
  function Nudge(vault: string): string {
    "  " + Command(vault)
  }

  function CommandWords(vault: string): seq<string> {
    ["vaultmind", "arc", "review", "--vault", vault]
  }

  function FooterWords(vault: string, list: string): seq<string> {
    CommandWords(vault) + ["--mark-reviewed", list]
  }

  /** A word a shell reads exactly as it is written, wherever the line is run. */
  predicate AsIs(w: string) {
    BareWord(w) && !LeadingTilde(w)
  }

  predicate LeadingTilde(w: string) {
    w != "" && w[0] == '~'
  }

  lemma JoinOfFive(a: string, b: string, c: string, d: string, e: string)
    ensures Join([a, b, c, d, e], " ") == a + " " + b + " " + c + " " + d + " " + e
  {
    var words := [a, b, c, d, e];
    assert words[1..] == [b, c, d, e] && [b, c, d, e][1..] == [c, d, e] && [c, d, e][1..] == [d, e] && [d, e][1..] == [e];
    assert Join([d, e], " ") == d + " " + e;
    assert Join([c, d, e], " ") == c + " " + (d + " " + e);
    assert Join([b, c, d, e], " ") == b + " " + (c + " " + (d + " " + e));
  }

  lemma CommandIsWords(vault: string)
    ensures Command(vault) == Join(CommandWords(vault), " ")
  {
    hide Join;
    JoinOfFive("vaultmind", "arc", "review", "--vault", vault);
    assert "vaultmind" + " " + "arc" + " " + "review" + " " + "--vault" + " " == "vaultmind arc review --vault ";
  }

  lemma FooterIsWords(vault: string, list: string)
    ensures Command(vault) + " --mark-reviewed " + list == Join(FooterWords(vault, list), " ")
  {
    hide Command;
    CommandIsWords(vault);
    JoinAppend(CommandWords(vault), ["--mark-reviewed", list]);
    assert ["--mark-reviewed", list][1..] == [list];
    assert Join(["--mark-reviewed", list], " ") == "--mark-reviewed" + " " + list;
    assert Command(vault) + " --mark-reviewed " + list == Command(vault) + " " + ("--mark-reviewed" + " " + list);
  }

  lemma SafeIsAsIs(w: string)
    requires w != "" && AllSafe(w) && w[0] != '~'
    ensures AsIs(w)
  {
    hide Pattern;
    SafeWordIsOrdinary(w);
  }

  lemma FixedWordsAreAsIs()
    ensures AsIs("vaultmind") && AsIs("arc") && AsIs("review") && AsIs("--vault") && AsIs("--mark-reviewed")
  {
    hide AsIs;
    SafeIsAsIs("vaultmind");
    SafeIsAsIs("arc");
    SafeIsAsIs("review");
    SafeIsAsIs("--vault");
    SafeIsAsIs("--mark-reviewed");
  }

  lemma CommandWordsAreAsIs(vault: string, list: string)
    ensures (forall w | w in CommandWords(vault) :: AsIs(w)) <==> AsIs(vault)
    ensures (forall w | w in FooterWords(vault, list) :: AsIs(w)) <==> AsIs(vault) && AsIs(list)
  {
    hide AsIs;
    FixedWordsAreAsIs();
    assert vault in CommandWords(vault) && vault in FooterWords(vault, list) && list in FooterWords(vault, list);
  }

  lemma NudgeReads(vault: string)
    ensures Read(Nudge(vault)) == Some(CommandWords(vault)) && !TildeExpands(Nudge(vault)) <==> AsIs(vault)
  {
    hide Command;
    hide Read;
    hide TildeExpands;
    CommandIsWords(vault);
    Indented(Command(vault));
    UnquotedReadsAsIs(CommandWords(vault));
    CommandWordsAreAsIs(vault, "");
    hide CommandWords;
  }

  /** The nudge's command reaches the vault it names, if and only if the vault's path is read as it is written. */
  lemma NudgeNamesTheVault(vault: string)
    ensures var line := "  vaultmind arc review --vault " + vault;
            && Nudge(vault) == line
            && (Read(line) == Some(["vaultmind", "arc", "review", "--vault", vault]) && !TildeExpands(line) <==> AsIs(vault))
  {
    hide Read;
    hide TildeExpands;
    hide AsIs;
    NudgeReads(vault);
    assert Nudge(vault) == "  vaultmind arc review --vault " + vault;
    assert CommandWords(vault) == ["vaultmind", "arc", "review", "--vault", vault];
  }

  /** The shell passes the flag this list and the vault its own path. */
  predicate Reaches(vault: string, shown: seq<string>) {
    Read(Footer(vault, shown)) == Some(FooterWords(vault, Join(shown, ","))) && !TildeExpands(Footer(vault, shown))
  }

  lemma ReachesSays(vault: string, shown: seq<string>)
    ensures var line := "  vaultmind arc review --vault " + vault + " --mark-reviewed " + Join(shown, ",");
            Reaches(vault, shown) <==>
              && Read(line) == Some(["vaultmind", "arc", "review", "--vault", vault, "--mark-reviewed", Join(shown, ",")])
              && !TildeExpands(line)
  {
    hide Read;
    hide TildeExpands;
    hide Join;
    var list := Join(shown, ",");
    assert Footer(vault, shown) == "  vaultmind arc review --vault " + vault + " --mark-reviewed " + list;
    assert FooterWords(vault, list) == ["vaultmind", "arc", "review", "--vault", vault, "--mark-reviewed", list];
  }

  lemma FooterReaches(vault: string, shown: seq<string>)
    ensures Reaches(vault, shown) <==> AsIs(vault) && AsIs(Join(shown, ","))
  {
    hide Command;
    hide Read;
    hide TildeExpands;
    hide Join;
    var list := Join(shown, ",");
    FooterIsWords(vault, list);
    Indented(Command(vault) + " --mark-reviewed " + list);
    UnquotedReadsAsIs(FooterWords(vault, list));
    CommandWordsAreAsIs(vault, list);
    hide FooterWords;
  }

  /**
   * The command under the list marks, in the vault it names, exactly the files
   * shown, if and only if the vault's path and the joined names are each read
   * as they are written, every name is markable, and every frontmatter can be
   * written. What is then on disk is those files with the date and nothing else
   * changed.
   */
  lemma FooterMarksWhatIsShown(vault: string, shown: seq<string>, files: Files, date: string)
    requires shown != [] && forall s | s in shown :: s in files && '/' !in s
    ensures var ids := Trimmed(Split(Join(shown, ","), ','));
            && (Reaches(vault, shown) && MarksExactly(files, ids, shown) <==>
                  && AsIs(vault) && AsIs(Join(shown, ","))
                  && forall s | s in shown :: Markable(s) && files[s].settable)
            && (MarksExactly(files, ids, shown) ==> AfterMarking(files, ids, date) == Dating(files, shown, date))
    ensures var line := "  vaultmind arc review --vault " + vault + " --mark-reviewed " + Join(shown, ",");
            Reaches(vault, shown) <==>
              && Read(line) == Some(["vaultmind", "arc", "review", "--vault", vault, "--mark-reviewed", Join(shown, ",")])
              && !TildeExpands(line)
  {
    ReachesSays(vault, shown);
    hide Reaches;
    hide AsIs;
    hide Markable;
    hide MarksExactly;
    hide AfterMarking;
    hide Dating;
    FooterReaches(vault, shown);
    JoinedNamesMark(files, shown);
    var ids := Trimmed(Split(Join(shown, ","), ','));
    if MarksExactly(files, ids, shown) {
      ExactMarksDate(files, ids, shown, date);
    }
  }

  lemma FooterOfTwo(vault: string, a: string, b: string)
    ensures Footer(vault, [a + " " + b]) == "  " + Join(FooterWords(vault, a) + [b], " ")
  {
    hide Command;
    hide FooterWords;
    FooterIsWords(vault, a);
    JoinAppend(FooterWords(vault, a), [b]);
    JoinOne(b);
    var front := Command(vault) + " --mark-reviewed ";
    assert front + (a + " " + b) == front + a + " " + b;
  }

  /** A name that ends in ".md" reaches the flag and marks another file: the flag takes the ending off. */
  lemma MdNamesAnother(vault: string)
    requires AsIs(vault)
    ensures Reaches(vault, ["a.md"])
    ensures CleanId("a.md") && Trimmed(Split("a.md", ',')) == ["a.md"] && Target("a.md") == Some("a")
  {
    hide Reaches;
    hide AsIs;
    SafeIsAsIs("a.md");
    FooterReaches(vault, ["a.md"]);
    assert Join(["a.md"], ",") == "a.md";
    assert "a.md"[3] == 'd';
    ListSplitsBack(["a.md"]);
    MdTarget();
  }

  lemma MdTarget()
    ensures Target("a.md") == Some("a")
  {
    assert TrimSpace("a.md") == "a.md" by {
      assert "a.md"[3] == 'd' && "a.md"[0] == 'a';
    }
    assert "a.md"[1..] == ".md" && "a.md"[..1] == "a";
  }

  lemma BlankIsClean()
    ensures CleanId("a b") && CleanId("a")
  {
  }

  /** A clean file name with a blank in it is marked as something else: the shell passes on its first word alone. */
  lemma BlankNamesAnother(vault: string)
    requires AsIs(vault)
    ensures CleanId("a b")
    ensures Read(Footer(vault, ["a b"])) == Some(FooterWords(vault, "a") + ["b"])
    ensures Trimmed(Split("a", ',')) == ["a"]
  {
    hide Command;
    hide Read;
    hide Footer;
    hide CleanId;
    hide AllOrdinary;
    BlankIsClean();
    ListSplitsBack(["a"]);
    assert "a" + " " + "b" == "a b";
    FooterOfTwo(vault, "a", "b");
    SafeIsAsIs("a");
    SafeIsAsIs("b");
    CommandWordsAreAsIs(vault, "a");
    hide FooterWords;
    Indented(Join(FooterWords(vault, "a") + ["b"], " "));
    UnquotedReads(FooterWords(vault, "a") + ["b"]);
  }
}
