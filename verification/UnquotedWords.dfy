/**
 * Words put on a command line without quotes, and what the shell of module
 * ShellQuoting makes of them.
 */
module UnquotedWords {
  import opened Wrappers
  import opened Text
  import opened ShellQuoting

  /** Nothing in s is a quote, a backslash or active. */
  predicate Literal(s: string) {
    forall i | 0 <= i < |s| :: s[i] != '\'' && s[i] != '\\' && !Active(s[i])
  }

  /** How long a line of these words is, with a blank after each. */
  function Spread(words: seq<seq<Piece>>): nat {
    if words == [] then 0 else |words[0]| + 1 + Spread(words[1..])
  }

  /** The most that the words of what is left can spread to. */
  function Room(s: string, word: Option<seq<Piece>>): nat {
    |s| + 1 + |Begun(word)|
  }

  lemma LiteralFirst(s: string)
    requires s != ""
    ensures Literal(s) <==> s[0] != '\'' && s[0] != '\\' && !Active(s[0]) && Literal(s[1..])
  {
    if s[0] != '\'' && s[0] != '\\' && !Active(s[0]) && Literal(s[1..]) {
      assert forall i | 1 <= i < |s| :: s[i] == s[1..][i - 1];
    }
  }

  lemma SpreadOfEmit(word: Option<seq<Piece>>, rest: seq<seq<Piece>>)
    requires Emit(word, Some(rest)).Some?
    ensures Spread(Emit(word, Some(rest)).value) == (if word.Some? then |word.value| + 1 else 0) + Spread(rest)
  {
    if word.Some? {
      assert ([word.value] + rest)[1..] == rest;
    } else {
      assert [] + rest == rest;
    }
  }

  /** Quotes, backslashes and needless blanks all cost room: a line that fills it has none. */
  lemma {:induction false} ScanFits(s: string, mode: Mode, word: Option<seq<Piece>>)
    requires Scan(s, mode, word).Some?
    ensures Spread(Scan(s, mode, word).value) <= Room(s, word)
    ensures mode == Plain && Spread(Scan(s, mode, word).value) == Room(s, word) ==> Literal(s)
    decreases |s|
  {
    hide Active;
    hide BlankChar;
    hide Literal;
    hide Pattern;
    if s == "" {
      SpreadOfEmit(word, []);
      NothingIsLiteral();
    } else {
      LiteralFirst(s);
      var c, rest := s[0], s[1..];
      match mode {
        case Single =>
          if c == '\'' { ScanFits(rest, Plain, word); } else { ScanFits(rest, Single, Some(Begun(word) + [Piece(c, true)])); }
        case Escape =>
          if c == '\n' { ScanFits(rest, Plain, word); } else { ScanFits(rest, Plain, Some(Begun(word) + [Piece(c, true)])); }
        case Plain =>
          if BlankChar(c) {
            BlankIsLiteral(c);
            ScanFits(rest, Plain, None);
            SpreadOfEmit(word, Scan(rest, Plain, None).value);
          } else if c == '\'' {
            ScanFits(rest, Single, Some(Begun(word)));
          } else if c == '\\' {
            ScanFits(rest, Escape, word);
          } else {
            ScanFits(rest, Plain, Some(Begun(word) + [Piece(c, false)]));
          }
      }
    }
  }

  lemma NothingIsLiteral()
    ensures Literal("")
  {
  }

  lemma BlankIsLiteral(c: char)
    requires BlankChar(c)
    ensures c != '\'' && c != '\\' && !Active(c)
  {
  }

  predicate PlainPieces(word: seq<Piece>) {
    word != [] && word[0].c != '#' && forall i | 0 <= i < |word| :: Ordinary(word[i].c) && !word[i].quoted
  }

  lemma {:induction false} LiteralWords(s: string, word: Option<seq<Piece>>)
    requires Literal(s) && Scan(s, Plain, word).Some? && (word.Some? ==> PlainPieces(word.value))
    ensures forall w | w in Scan(s, Plain, word).value :: PlainPieces(w) && !Pattern(w)
    decreases |s|
  {
    hide Active;
    hide BlankChar;
    hide Literal;
    hide Pattern;
    if s != "" {
      LiteralFirst(s);
      if BlankChar(s[0]) {
        LiteralWords(s[1..], None);
      } else {
        var more := Begun(word) + [Piece(s[0], false)];
        assert PlainPieces(more);
        LiteralWords(s[1..], Some(more));
      }
    }
  }

  lemma {:induction false} SpreadOfJoin(words: seq<seq<Piece>>)
    requires words != []
    ensures Spread(words) == |Join(Plaintexts(words), " ")| + 1
  {
    if |words| > 1 {
      SpreadOfJoin(words[1..]);
      assert Plaintexts(words)[1..] == Plaintexts(words[1..]);
    } else {
      assert words[1..] == [];
    }
  }

  /** A word a shell reads as it is written wherever it is run, the tilde aside: no comment, no pattern. */
  predicate BareWord(w: string) {
    w != "" && AllOrdinary(w) && w[0] != '#' && !Pattern(Marked(w, false))
  }

  function Unquoted(words: seq<string>): (r: seq<seq<Piece>>)
    ensures |r| == |words| && forall i | 0 <= i < |words| :: r[i] == Marked(words[i], false)
  {
    seq(|words|, i requires 0 <= i < |words| => Marked(words[i], false))
  }

  lemma UnquotedSay(words: seq<string>)
    ensures Plaintexts(Unquoted(words)) == words
  {
    forall i | 0 <= i < |words| ensures Plaintexts(Unquoted(words))[i] == words[i] {
      assert Plaintext(Marked(words[i], false)) == words[i];
    }
  }

  lemma ScanBareWord(w: string, t: string)
    requires BareWord(w)
    ensures Scan(w + t, Plain, None) == Scan(t, Plain, Some(Marked(w, false)))
  {
    hide Scan;
    ScanOrdinary(w, t, None);
    assert [] + Marked(w, false) == Marked(w, false);
  }

  lemma BareIsNoPattern(w: string)
    requires BareWord(w)
    ensures !Pattern(Marked(w, false))
  {
  }

  lemma {:induction false} ScanBareWords(words: seq<string>)
    requires words != [] && forall w | w in words :: BareWord(w)
    ensures Scan(Join(words, " "), Plain, None) == Some(Unquoted(words))
  {
    hide Scan;
    hide BareWord;
    hide Pattern;
    var first := words[0];
    BareIsNoPattern(first);
    assert BareWord(first) && forall w | w in words[1..] :: w in words;
    if |words| == 1 {
      ScanBareWord(first, "");
      assert first + "" == first;
      ScanEnd(Some(Marked(first, false)));
      assert Unquoted(words) == [Marked(first, false)];
    } else {
      var t := Join(words[1..], " ");
      ScanBareWords(words[1..]);
      ScanBareWord(first, " " + t);
      ScanBlank(t, Some(Marked(first, false)));
      assert Join(words, " ") == first + (" " + t);
      assert Unquoted(words) == [Marked(first, false)] + Unquoted(words[1..]);
    }
  }

  /** Words printed without quotes, a blank between them, are read back as they are, wherever the line is run, exactly when each is a bare word. */
  lemma UnquotedReads(words: seq<string>)
    requires words != []
    ensures Read(Join(words, " ")) == Some(words) <==> forall w | w in words :: BareWord(w)
  {
    hide Scan;
    hide Literal;
    hide Pattern;
    var line := Join(words, " ");
    if forall w | w in words :: BareWord(w) {
      ScanBareWords(words);
      UnquotedSay(words);
    } else if Read(line) == Some(words) {
      var pieces := Scan(line, Plain, None).value;
      assert pieces != [] by {
        assert |Plaintexts(pieces)| == |words|;
      }
      SpreadOfJoin(pieces);
      ScanFits(line, Plain, None);
      LiteralWords(line, None);
      forall w | w in words ensures BareWord(w) {
        var i :| 0 <= i < |words| && words[i] == w;
        assert pieces[i] in pieces && w == Plaintext(pieces[i]);
        assert Marked(w, false) == pieces[i];
      }
    }
  }

  /** And none of them is expanded exactly when none begins with a tilde. */
  lemma UnquotedReadsAsIs(words: seq<string>)
    requires words != []
    ensures Read(Join(words, " ")) == Some(words) && !TildeExpands(Join(words, " ")) <==>
              forall w | w in words :: BareWord(w) && w[0] != '~'
  {
    hide Scan;
    hide Read;
    hide BareWord;
    UnquotedReads(words);
    if forall w | w in words :: BareWord(w) {
      ScanBareWords(words);
      BareWordsAreWords(words);
      TildeAmong(words);
    }
  }

  lemma BareWordsAreWords(words: seq<string>)
    requires forall w | w in words :: BareWord(w)
    ensures forall w | w in words :: w != ""
  {
  }

  lemma TildeAmong(words: seq<string>)
    requires forall w | w in words :: w != ""
    ensures (exists p | p in Unquoted(words) :: Rewritten(p)) <==> exists w | w in words :: w[0] == '~'
  {
    var pieces := Unquoted(words);
    if p :| p in pieces && Rewritten(p) {
      var i :| 0 <= i < |pieces| && pieces[i] == p;
      assert words[i] in words && words[i][0] == '~';
    }
    if w :| w in words && w[0] == '~' {
      var i :| 0 <= i < |words| && words[i] == w;
      assert pieces[i] in pieces && Rewritten(pieces[i]);
    }
  }

  /** Blanks in front of a line change nothing. */
  lemma Indented(line: string)
    ensures Read("  " + line) == Read(line) && TildeExpands("  " + line) == TildeExpands(line)
  {
    hide Scan;
    assert "  " + line == " " + (" " + line);
    ScanBlank(" " + line, None);
    ScanBlank(line, None);
    var words := Scan(line, Plain, None);
    assert words.Some? ==> [] + words.value == words.value;
  }
}
