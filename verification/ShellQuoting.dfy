/**
 * Text put on a command line for a shell to read back
 * (cmd/identity_paths.go and cmd/hooks_install_helpers.go).
 *
 * The shell is the part of the POSIX.1-2017 Shell Command Language that
 * leaves text as it is: token recognition (section 2.3), the backslash
 * (2.2.1), single quotes (2.2.2) and quote removal (2.6.7), with the blanks of
 * the POSIX locale. A line with anything else unquoted that the shell gives a
 * meaning, or gives one where some files are (a pattern, 2.13), reads as None.
 */
module ShellQuoting {
  import opened Wrappers
  import opened Text

  // ------------------------------------------------------------ the shell

  /** A character of a word before quote removal: what it is and whether it was quoted. */
  datatype Piece = Piece(c: char, quoted: bool)

  datatype Mode = Plain | Escape | Single

  predicate BlankChar(c: char) {
    c == ' ' || c == '\t'
  }

  /** Operators, expansions and double quotes, when unquoted. */
  predicate Active(c: char) {
    c in "|&;<>()$`\"\n"
  }

  /** An unquoted bracket expression: a bracket, perhaps a "!", something without a slash, and the closing bracket. */
  predicate Bracket(w: seq<Piece>, i: int, j: int) {
    && 0 <= i < j < |w| && w[i] == Piece('[', false) && w[j] == Piece(']', false)
    && j > (if w[i + 1] == Piece('!', false) then i + 2 else i + 1)
    && forall k | i < k < j :: w[k].c != '/'
  }

  /** The word matches file names, which the shell puts in its place where there are any. */
  predicate Pattern(w: seq<Piece>) {
    || (exists i | 0 <= i < |w| :: w[i] == Piece('*', false) || w[i] == Piece('?', false))
    || (exists i, j | 0 <= i < |w| && 0 <= j < |w| :: Bracket(w, i, j))
  }

  function Begun(word: Option<seq<Piece>>): seq<Piece> {
    word.GetOr([])
  }

  function Emit(word: Option<seq<Piece>>, rest: Option<seq<seq<Piece>>>): Option<seq<seq<Piece>>> {
    if rest.None? || (word.Some? && Pattern(word.value)) then None else Some((if word.Some? then [word.value] else []) + rest.value)
  }

  /** The words of a line, from inside the word begun so far, if any; a "#" that begins a word begins a comment. */
  function Scan(s: string, mode: Mode, word: Option<seq<Piece>>): Option<seq<seq<Piece>>> {
    if s == "" then
      if mode == Plain then Emit(word, Some([])) else None
    else
      var c, rest := s[0], s[1..];
      match mode
      case Single =>
        if c == '\'' then Scan(rest, Plain, word) else Scan(rest, Single, Some(Begun(word) + [Piece(c, true)]))
      case Escape =>
        // A backslash before a newline disappears with it.
        if c == '\n' then Scan(rest, Plain, word) else Scan(rest, Plain, Some(Begun(word) + [Piece(c, true)]))
      case Plain =>
        if BlankChar(c) then Emit(word, Scan(rest, Plain, None))
        else if c == '\'' then Scan(rest, Single, Some(Begun(word)))
        else if c == '\\' then Scan(rest, Escape, word)
        else if Active(c) || (c == '#' && word.None?) then None
        else Scan(rest, Plain, Some(Begun(word) + [Piece(c, false)]))
  }

  /** Quote removal. */
  function Plaintext(word: seq<Piece>): (s: string)
    ensures |s| == |word| && forall i | 0 <= i < |word| :: s[i] == word[i].c
  {
    seq(|word|, i requires 0 <= i < |word| => word[i].c)
  }

  function Plaintexts(words: seq<seq<Piece>>): (r: seq<string>)
    ensures |r| == |words| && forall i | 0 <= i < |words| :: r[i] == Plaintext(words[i])
  {
    seq(|words|, i requires 0 <= i < |words| => Plaintext(words[i]))
  }

  /** The arguments the shell makes of a line, tilde expansion left out. */
  function Read(line: string): Option<seq<string>> {
    match Scan(line, Plain, None) case None => None case Some(words) => Some(Plaintexts(words))
  }

  /** The word begins with an unquoted tilde. */
  predicate Rewritten(w: seq<Piece>) {
    w != [] && w[0] == Piece('~', false)
  }

  /** Some word begins with an unquoted tilde, which section 2.6.1 replaces by a home directory. */
  predicate TildeExpands(line: string) {
    match Scan(line, Plain, None)
    case None => false
    case Some(words) => exists w | w in words :: Rewritten(w)
  }

  // ------------------------------------------------------------ the quoting functions

  function Escaped(s: string): string {
    if s == "" then ""
    else Escaped(s[..|s| - 1]) + if s[|s| - 1] == '\'' then "'\\''" else [s[|s| - 1]]
  }

  function SingleQuoted(s: string): string {
    "'" + Escaped(s) + "'"
  }

  method ShellSingleQuote(s: string) returns (out: string)
    ensures out == SingleQuoted(s)
  {
    out := "'";
    for i := 0 to |s|
      invariant out == "'" + Escaped(s[..i])
    {
      assert s[..i + 1][..i] == s[..i];
      if s[i] == '\'' {
        out := out + "'\\''";
        continue;
      }
      out := out + [s[i]];
    }
    assert s[..|s|] == s;
    out := out + "'";
  }

  predicate ShellSafe(c: char) {
    || 'a' <= c <= 'z' || 'A' <= c <= 'Z' || '0' <= c <= '9'
    || c in "/._-,:=~"
  }

  predicate AllSafe(s: string) {
    forall i | 0 <= i < |s| :: ShellSafe(s[i])
  }

  function ShellWord(s: string): string {
    if AllSafe(s) then s else SingleQuoted(s)
  }

  function Shelled(args: seq<string>): (r: seq<string>)
    ensures |r| == |args| && forall i | 0 <= i < |args| :: r[i] == ShellWord(args[i])
  {
    seq(|args|, i requires 0 <= i < |args| => ShellWord(args[i]))
  }

  function CommandLine(args: seq<string>): string {
    Join(Shelled(args), " ")
  }

  lemma {:induction false} JoinAppend(a: seq<string>, b: seq<string>)
    requires a != [] && b != []
    ensures Join(a + b, " ") == Join(a, " ") + " " + Join(b, " ")
  {
    assert (a + b)[1..] == a[1..] + b;
    if |a| > 1 {
      JoinAppend(a[1..], b);
    } else {
      assert a[1..] + b == b;
    }
  }

  lemma JoinOne(part: string)
    ensures Join([part], " ") == part
  {
  }

  lemma OneWord(w: string)
    ensures CommandLine([w]) == ShellWord(w)
  {
  }

  // ------------------------------------------------------------ what the shell reads back

  function Marked(s: string, quoted: bool): (r: seq<Piece>)
    ensures |r| == |s| && forall i | 0 <= i < |s| :: r[i] == Piece(s[i], quoted)
  {
    seq(|s|, i requires 0 <= i < |s| => Piece(s[i], quoted))
  }

  lemma OneEscaped(c: char, t: string, w: seq<Piece>)
    ensures Scan((if c == '\'' then "'\\''" else [c]) + t, Single, Some(w)) == Scan(t, Single, Some(w + [Piece(c, true)]))
  {
    if c == '\'' {
      var s := "'\\''" + t;
      assert s[1..] == "\\''" + t && s[1..][1..] == "''" + t && s[1..][1..][1..] == "'" + t && s[1..][1..][1..][1..] == t;
      var more := Some(w + [Piece(c, true)]);
      assert Scan("'" + t, Plain, more) == Scan(t, Single, more);
      assert Scan("''" + t, Escape, Some(w)) == Scan("'" + t, Plain, more);
      assert Scan("\\''" + t, Plain, Some(w)) == Scan("''" + t, Escape, Some(w));
    } else {
      assert ([c] + t)[1..] == t;
    }
  }

  /** Inside single quotes the escaped text is read back as itself, every character quoted. */
  lemma {:induction false} ScanEscaped(s: string, t: string, w: seq<Piece>)
    ensures Scan(Escaped(s) + t, Single, Some(w)) == Scan(t, Single, Some(w + Marked(s, true)))
    decreases |s|
  {
    hide Scan;
    if s == "" {
      assert Escaped(s) + t == t && w + Marked(s, true) == w;
    } else {
      var c := s[|s| - 1];
      var e := if c == '\'' then "'\\''" else [c];
      var front := s[..|s| - 1];
      assert Escaped(s) + t == Escaped(front) + (e + t);
      ScanEscaped(front, e + t, w);
      OneEscaped(c, t, w + Marked(front, true));
      assert w + Marked(front, true) + [Piece(c, true)] == w + Marked(s, true);
    }
  }

  lemma ScanQuoted(s: string, t: string, word: Option<seq<Piece>>)
    ensures Scan(SingleQuoted(s) + t, Plain, word) == Scan(t, Plain, Some(Begun(word) + Marked(s, true)))
  {
    var line := SingleQuoted(s) + t;
    assert line[0] == '\'' && line[1..] == Escaped(s) + ("'" + t);
    ScanEscaped(s, "'" + t, Begun(word));
    assert ("'" + t)[1..] == t;
  }

  /** A character that stands for itself in a word without quotes, the tilde aside. */
  predicate Ordinary(c: char) {
    !BlankChar(c) && !Active(c) && c != '\'' && c != '\\'
  }

  predicate AllOrdinary(s: string) {
    forall i | 0 <= i < |s| :: Ordinary(s[i])
  }

  lemma SafeIsOrdinary(c: char)
    requires ShellSafe(c)
    ensures Ordinary(c) && c != '#' && c != '*' && c != '?' && c != '['
  {
  }

  /** Quoted and safe characters make no pattern. */
  lemma NoPattern(w: seq<Piece>)
    requires forall i | 0 <= i < |w| :: w[i].quoted || ShellSafe(w[i].c)
    ensures !Pattern(w)
  {
    hide ShellSafe;
    forall i | 0 <= i < |w| ensures w[i].quoted || (w[i].c != '*' && w[i].c != '?' && w[i].c != '[') {
      if !w[i].quoted { SafeIsOrdinary(w[i].c); }
    }
  }

  lemma SafeWordIsOrdinary(s: string)
    requires AllSafe(s)
    ensures AllOrdinary(s) && (s != "" ==> s[0] != '#')
    ensures !Pattern(Marked(s, false))
  {
    hide ShellSafe;
    hide Ordinary;
    forall i | 0 <= i < |s| ensures Ordinary(s[i]) && s[i] != '#' {
      SafeIsOrdinary(s[i]);
    }
    NoPattern(Marked(s, false));
  }

  lemma {:induction false} ScanOrdinary(s: string, t: string, word: Option<seq<Piece>>)
    requires AllOrdinary(s) && (s == "" || s[0] != '#' || word.Some?)
    ensures Scan(s + t, Plain, word) == Scan(t, Plain, if s == "" then word else Some(Begun(word) + Marked(s, false)))
    decreases |s|
  {
    if s == "" {
      assert s + t == t;
    } else {
      var more := Begun(word) + [Piece(s[0], false)];
      assert Ordinary(s[0]);
      assert (s + t)[1..] == s[1..] + t;
      ScanOrdinary(s[1..], t, Some(more));
      assert more + Marked(s[1..], false) == Begun(word) + Marked(s, false);
      assert s[1..] == "" ==> more == Begun(word) + Marked(s, false);
    }
  }

  /** The word ShellWord(s) becomes; an empty s leaves no word at all. */
  function WordOf(s: string): Option<seq<Piece>> {
    if s == "" then None else Some(Marked(s, !AllSafe(s)))
  }

  lemma WordOfIsNoPattern(s: string)
    ensures WordOf(s).Some? ==> !Pattern(WordOf(s).value)
  {
    if s != "" {
      NoPattern(Marked(s, !AllSafe(s)));
    }
  }

  lemma ScanShellWord(s: string, t: string)
    ensures Scan(ShellWord(s) + t, Plain, None) == Scan(t, Plain, WordOf(s))
  {
    if AllSafe(s) {
      SafeWordIsOrdinary(s);
      ScanOrdinary(s, t, None);
      assert [] + Marked(s, false) == Marked(s, false);
    } else {
      ScanQuoted(s, t, None);
      assert [] + Marked(s, true) == Marked(s, true);
    }
  }

  function WordsOf(args: seq<string>): seq<seq<Piece>> {
    if args == [] then []
    else (if WordOf(args[0]).Some? then [WordOf(args[0]).value] else []) + WordsOf(args[1..])
  }

  function NonEmpty(args: seq<string>): seq<string> {
    if args == [] then [] else (if args[0] == "" then [] else [args[0]]) + NonEmpty(args[1..])
  }

  lemma ScanEnd(word: Option<seq<Piece>>)
    requires word.Some? ==> !Pattern(word.value)
    ensures Scan("", Plain, word) == Some(if word.Some? then [word.value] else [])
  {
    var here := if word.Some? then [word.value] else [];
    assert here + [] == here;
  }

  lemma ScanBlank(t: string, word: Option<seq<Piece>>)
    ensures Scan(" " + t, Plain, word) == Emit(word, Scan(t, Plain, None))
  {
  }

  lemma {:induction false} ScanCommandLine(args: seq<string>)
    ensures Scan(CommandLine(args), Plain, None) == Some(WordsOf(args))
  {
    hide ShellWord;
    hide WordOf;
    hide Scan;
    hide Pattern;
    if args == [] {
      ScanEnd(None);
    } else {
      var first, words := ShellWord(args[0]), Shelled(args);
      assert words[1..] == Shelled(args[1..]);
      ScanCommandLine(args[1..]);
      WordOfIsNoPattern(args[0]);
      if |args| == 1 {
        assert CommandLine(args) == first + "";
        ScanShellWord(args[0], "");
        ScanEnd(WordOf(args[0]));
        var here := if WordOf(args[0]).Some? then [WordOf(args[0]).value] else [];
        assert WordsOf(args[1..]) == [] && here + [] == here;
      } else {
        assert CommandLine(args) == first + (" " + CommandLine(args[1..]));
        ScanShellWord(args[0], " " + CommandLine(args[1..]));
        ScanBlank(CommandLine(args[1..]), WordOf(args[0]));
      }
    }
  }

  lemma {:induction false} WordsOfSay(args: seq<string>)
    ensures Plaintexts(WordsOf(args)) == NonEmpty(args)
  {
    if args != [] {
      WordsOfSay(args[1..]);
      assert args[0] != "" ==> Plaintext(WordOf(args[0]).value) == args[0];
      assert Plaintexts(WordsOf(args)) ==
        Plaintexts(if WordOf(args[0]).Some? then [WordOf(args[0]).value] else []) + Plaintexts(WordsOf(args[1..]));
    }
  }

  lemma {:induction false} NonEmptyIsAll(args: seq<string>)
    ensures |NonEmpty(args)| <= |args|
    ensures NonEmpty(args) == args <==> "" !in args
  {
    if args != [] {
      NonEmptyIsAll(args[1..]);
      assert args == [args[0]] + args[1..];
      assert args[0] == "" ==> |NonEmpty(args)| < |args|;
    }
  }

  /** A line of quoted words is read back as those words, but for the empty ones, which ShellWord writes as nothing. */
  lemma CommandLineReads(args: seq<string>)
    ensures Read(CommandLine(args)) == Some(NonEmpty(args))
    ensures Read(CommandLine(args)) == Some(args) <==> "" !in args
  {
    ScanCommandLine(args);
    WordsOfSay(args);
    NonEmptyIsAll(args);
  }

  predicate BareTilde(a: string) {
    a != "" && a[0] == '~' && AllSafe(a)
  }

  lemma BareTildeWord(a: string)
    ensures BareTilde(a) <==> WordOf(a).Some? && Rewritten(WordOf(a).value)
  {
  }

  lemma {:induction false} TildeWords(args: seq<string>)
    ensures (exists w | w in WordsOf(args) :: Rewritten(w)) <==> exists a | a in args :: BareTilde(a)
  {
    hide BareTilde;
    hide Rewritten;
    hide WordOf;
    if args != [] {
      TildeWords(args[1..]);
      BareTildeWord(args[0]);
      var here := if WordOf(args[0]).Some? then [WordOf(args[0]).value] else [];
      assert WordsOf(args) == here + WordsOf(args[1..]);
      assert args == [args[0]] + args[1..];
    }
  }

  /** Which lines of quoted words a shell would still rewrite: those with a bare word beginning with a tilde. */
  lemma TildeExpandsWhen(args: seq<string>)
    ensures TildeExpands(CommandLine(args)) <==> exists a | a in args :: BareTilde(a)
  {
    hide BareTilde;
    hide CommandLine;
    ScanCommandLine(args);
    TildeWords(args);
  }

  /** shellWord(s) is read as the one word s, if and only if s is not empty. */
  lemma ShellWordReads(s: string)
    ensures Read(ShellWord(s)) == Some([s]) <==> s != ""
    ensures TildeExpands(ShellWord(s)) <==> BareTilde(s)
  {
    OneWord(s);
    CommandLineReads([s]);
    TildeExpandsWhen([s]);
    assert s in [s];
  }

  /** shellWord leaves a word as it is when every character is a letter, a digit or one of eight marks, and quotes any other. */
  lemma QuotedWhen(s: string)
    ensures ShellWord(s) == s <==>
              forall c | c in s :: 'a' <= c <= 'z' || 'A' <= c <= 'Z' || '0' <= c <= '9' || c in {'/', '.', '_', '-', ',', ':', '=', '~'}
    ensures ShellWord(s) != s ==> ShellWord(s) == SingleQuoted(s)
  {
    assert forall i | 0 <= i < |s| :: s[i] in s;
    if !AllSafe(s) {
      EscapedIsNoShorter(s);
      assert |SingleQuoted(s)| > |s|;
    }
  }

  lemma {:induction false} EscapedIsNoShorter(s: string)
    ensures |Escaped(s)| >= |s|
  {
    if s != "" {
      EscapedIsNoShorter(s[..|s| - 1]);
    }
  }

  /** shellSingleQuote(s) is read as the one word s, for every s, and nothing in it is expanded. */
  lemma SingleQuotedReads(s: string)
    ensures Read(SingleQuoted(s)) == Some([s])
    ensures !TildeExpands(SingleQuoted(s))
  {
    hide Scan;
    ScanQuoted(s, "", None);
    assert SingleQuoted(s) + "" == SingleQuoted(s);
    assert Begun(None) + Marked(s, true) == Marked(s, true);
    assert Plaintext(Marked(s, true)) == s;
    NoPattern(Marked(s, true));
    ScanEnd(Some(Marked(s, true)));
    assert Plaintexts([Marked(s, true)]) == [s];
  }

  /** An assignment printed for eval is read as one word: the name, "=" and the value as it is. */
  lemma AssignmentReads(name: string, value: string)
    requires AllSafe(name)
    ensures Read(name + "=" + SingleQuoted(value)) == Some([name + "=" + value])
  {
    hide Scan;
    hide SingleQuoted;
    var head := name + "=";
    assert AllSafe(head);
    SafeWordIsOrdinary(head);
    ScanOrdinary(head, SingleQuoted(value), None);
    assert Begun(None) + Marked(head, false) == Marked(head, false);
    ScanQuoted(value, "", Some(Marked(head, false)));
    assert SingleQuoted(value) + "" == SingleQuoted(value);
    var word := Marked(head, false) + Marked(value, true);
    assert Plaintext(word) == head + value;
    NoPattern(word);
    ScanEnd(Some(word));
    assert Plaintexts([word]) == [Plaintext(word)];
  }
}
