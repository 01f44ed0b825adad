/** The parts of Go's strings package the modelled code calls, on sequences of code points. */
module Text {
  /** unicode.IsSpace. */
  predicate IsSpace(c: char) {
    || c == ' ' || '\t' <= c <= '\r' || c == '\U{85}' || c == '\U{A0}' || c == '\U{1680}'
    || '\U{2000}' <= c <= '\U{200A}' || c == '\U{2028}' || c == '\U{2029}' || c == '\U{202F}' || c == '\U{205F}' || c == '\U{3000}'
  }

  predicate HasPrefix(s: string, p: string) {
    |p| <= |s| && s[..|p|] == p
  }

  function TrimPrefix(s: string, p: string): string {
    if HasPrefix(s, p) then s[|p|..] else s
  }

  predicate HasSuffix(s: string, p: string) {
    |p| <= |s| && s[|s| - |p|..] == p
  }

  function TrimSuffix(s: string, p: string): string {
    if HasSuffix(s, p) then s[..|s| - |p|] else s
  }

  /** strings.Split(s, string(sep)). */
  function Split(s: string, sep: char): (r: seq<string>)
    ensures |r| > 0
  {
    if s == "" then [""]
    else
      var rest := Split(s[1..], sep);
      if s[0] == sep then [""] + rest else [[s[0]] + rest[0]] + rest[1..]
  }

  function Join(parts: seq<string>, sep: string): string {
    if |parts| == 0 then "" else if |parts| == 1 then parts[0] else parts[0] + sep + Join(parts[1..], sep)
  }

  function TrimLeft(s: string): string {
    if s != "" && IsSpace(s[0]) then TrimLeft(s[1..]) else s
  }

  function TrimRight(s: string): string {
    if s != "" && IsSpace(s[|s| - 1]) then TrimRight(s[..|s| - 1]) else s
  }

  function TrimSpace(s: string): string {
    TrimRight(TrimLeft(s))
  }

  predicate Blank(s: string) {
    forall i | 0 <= i < |s| :: IsSpace(s[i])
  }

  /** How many characters of s are not white space. */
  function Weight(s: string): nat {
    if s == "" then 0 else (if IsSpace(s[0]) then 0 else 1) + Weight(s[1..])
  }

  ghost predicate NoneHas(parts: seq<string>, c: char) {
    forall p | p in parts :: c !in p
  }

  // ------------------------------------------------------------ split and join

  lemma {:induction false} SplitOfJoinedWord(a: string, sep: char, b: string)
    ensures Split(a + [sep] + b, sep) == Split(a, sep) + Split(b, sep)
  {
    var s := a + [sep] + b;
    if a == "" {
      assert s[1..] == b;
    } else {
      assert s[1..] == a[1..] + [sep] + b;
      SplitOfJoinedWord(a[1..], sep, b);
    }
  }

  lemma {:induction false} SplitOfWord(a: string, sep: char)
    requires sep !in a
    ensures Split(a, sep) == [a]
  {
    if a != "" {
      SplitOfWord(a[1..], sep);
      assert [a[0]] + a[1..] == a;
    }
  }

  lemma {:induction false} SplitUndoesJoin(parts: seq<string>, sep: char)
    requires |parts| > 0 && NoneHas(parts, sep)
    ensures Split(Join(parts, [sep]), sep) == parts
  {
    SplitOfWord(parts[0], sep);
    if |parts| > 1 {
      SplitUndoesJoin(parts[1..], sep);
      SplitOfJoinedWord(parts[0], sep, Join(parts[1..], [sep]));
    }
  }

  lemma {:induction false} SplitHasNoSeparator(s: string, sep: char)
    ensures NoneHas(Split(s, sep), sep)
  {
    if s != "" {
      SplitHasNoSeparator(s[1..], sep);
      var rest := Split(s[1..], sep);
      assert rest[0] in rest;
      assert forall p | p in rest[1..] :: p in rest;
    }
  }

  lemma {:induction false} JoinUndoesSplit(s: string, sep: char)
    ensures Join(Split(s, sep), [sep]) == s
  {
    if s != "" {
      JoinUndoesSplit(s[1..], sep);
      var rest := Split(s[1..], sep);
      if s[0] == sep {
        assert ([""] + rest)[1..] == rest;
      } else {
        assert ([[s[0]] + rest[0]] + rest[1..])[1..] == rest[1..];
      }
    }
  }

  // ------------------------------------------------------------ trimming

  lemma {:induction false} TrimLeftOf(s: string, t: string)
    ensures TrimLeft(s + t) == if Blank(s) then TrimLeft(t) else TrimLeft(s) + t
  {
    if s == "" {
      assert s + t == t;
    } else {
      assert (s + t)[1..] == s[1..] + t;
      assert Blank(s) <==> IsSpace(s[0]) && Blank(s[1..]) by {
        if IsSpace(s[0]) && Blank(s[1..]) {
          forall i | 0 <= i < |s| ensures IsSpace(s[i]) {
            if i > 0 { assert s[i] == s[1..][i - 1]; }
          }
        }
      }
      TrimLeftOf(s[1..], t);
    }
  }

  /** Trimming takes the white space off both ends, and nothing else. */
  lemma TrimSpaceIs(s: string) returns (i: nat, j: nat)
    ensures i <= j <= |s| && TrimSpace(s) == s[i..j] && Blank(s[..i]) && Blank(s[j..])
    ensures i < j ==> !IsSpace(s[i]) && !IsSpace(s[j - 1])
  {
    i := TrimLeftAt(s);
    var n := TrimRightAt(s[i..]);
    j := i + n;
    assert s[i..][..n] == s[i..j] && s[i..][n..] == s[j..];
  }

  lemma {:induction false} TrimLeftAt(s: string) returns (i: nat)
    ensures i <= |s| && TrimLeft(s) == s[i..] && Blank(s[..i]) && (i < |s| ==> !IsSpace(s[i]))
  {
    i := 0;
    if s != "" && IsSpace(s[0]) {
      i := TrimLeftAt(s[1..]);
      assert s[1..][i..] == s[i + 1..];
      assert forall k | 0 < k < i + 1 :: s[k] == s[1..][..i][k - 1];
      i := i + 1;
    }
  }

  lemma {:induction false} TrimRightAt(s: string) returns (j: nat)
    ensures j <= |s| && TrimRight(s) == s[..j] && Blank(s[j..]) && (j > 0 ==> !IsSpace(s[j - 1]))
  {
    j := |s|;
    if s != "" && IsSpace(s[|s| - 1]) {
      j := TrimRightAt(s[..|s| - 1]);
      assert forall k | j <= k < |s| - 1 :: s[k] == s[..|s| - 1][j..][k - j];
      assert s[..|s| - 1][..j] == s[..j];
    } else {
      assert s[..j] == s;
    }
  }

  /** A newline on either side of a text is trimmed away. */
  lemma TrimSpaceOfWrapped(t: string)
    ensures TrimSpace("\n" + t + "\n") == TrimSpace(t)
  {
    TrimLeftOf("\n", t + "\n");
    assert "\n" + t + "\n" == "\n" + (t + "\n");
    TrimLeftOf(t, "\n");
    if Blank(t) {
      TrimLeftOf(t, "");
      assert t + "" == t;
      assert TrimLeft("\n") == TrimLeft("\n"[1..]) == "";
    } else {
      var x := TrimLeft(t) + "\n";
      assert x[..|x| - 1] == TrimLeft(t);
    }
  }

  lemma {:induction false} WeightOf(s: string, t: string)
    ensures Weight(s + t) == Weight(s) + Weight(t)
  {
    if s == "" {
      assert s + t == t;
    } else {
      assert (s + t)[1..] == s[1..] + t;
      WeightOf(s[1..], t);
    }
  }

  lemma {:induction false} WeightOfTrimmed(s: string)
    ensures Weight(TrimLeft(s)) == Weight(s) && Weight(TrimRight(s)) == Weight(s)
    decreases |s|
  {
    if s != "" {
      WeightOfTrimmed(s[1..]);
      WeightOfTrimmed(s[..|s| - 1]);
      assert s == s[..|s| - 1] + [s[|s| - 1]];
      WeightOf(s[..|s| - 1], [s[|s| - 1]]);
    }
  }
}
