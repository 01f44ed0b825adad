/**
 * Removing terminal escape sequences (internal/check/checks.go). The source
 * cuts one sequence and searches again from the start, because a cut can put
 * an escape character and a bracket side by side that were apart before.
 */
module AnsiStrip {
  const ESC := '\U{1B}'

  predicate IsLetter(c: char) {
    'a' <= c <= 'z' || 'A' <= c <= 'Z'
  }

  predicate OpenerAt(s: string, i: int) {
    0 <= i < |s| - 1 && s[i] == ESC && s[i + 1] == '['
  }

  predicate Clean(s: string) {
    forall i | 0 <= i < |s| - 1 :: !OpenerAt(s, i)
  }

  /** strings.Index of the opener, or -1. */
  function Index(s: string): (i: int)
    ensures i == -1 <==> Clean(s)
    ensures i != -1 ==> OpenerAt(s, i) && forall j | 0 <= j < i :: !OpenerAt(s, j)
  {
    IndexFrom(s, 0)
  }

  function IndexFrom(s: string, from: nat): (i: int)
    requires from <= |s|
    ensures i == -1 <==> forall j | from <= j < |s| - 1 :: !OpenerAt(s, j)
    ensures i != -1 ==> from <= i && OpenerAt(s, i) && forall j | from <= j < i :: !OpenerAt(s, j)
    decreases |s| - from
  {
    if from >= |s| - 1 then -1 else if OpenerAt(s, from) then from else IndexFrom(s, from + 1)
  }

  /** How far a sequence runs into s: up to its first letter and including it, or to the end. */
  function Skip(s: string): (n: nat)
    ensures n <= |s|
  {
    if s == "" then 0 else if IsLetter(s[0]) then 1 else 1 + Skip(s[1..])
  }

  /** s without its first escape sequence. */
  function CutFirst(s: string): (r: string)
    requires !Clean(s)
    ensures |r| <= |s| - 2
  {
    var start := Index(s);
    s[..start] + s[start + 2 + Skip(s[start + 2..])..]
  }

  function Stripped(s: string): string
    decreases |s|
  {
    if Clean(s) then s else Stripped(CutFirst(s))
  }

  method StripANSI(s: string) returns (result: string)
    ensures result == Stripped(s)
  {
    result := s;
    while Index(result) != -1
      invariant Stripped(result) == Stripped(s)
      decreases |result|
    {
      var start := Index(result);
      var end := start + 2;
      while end < |result| && !IsLetter(result[end])
        invariant start + 2 <= end <= |result|
        invariant start + 2 + Skip(result[start + 2..]) == end + Skip(result[end..])
      {
        assert result[end..][1..] == result[end + 1..];
        end := end + 1;
      }
      if end < |result| {
        end := end + 1;
      }
      result := result[..start] + result[end..];
    }
  }

  // ------------------------------------------------------------ one sequence

  /** No escape character that a bracket follows. */
  ghost predicate NoOpener(s: string) {
    forall i | 0 <= i < |s| - 1 && s[i] == '\U{1B}' :: s[i + 1] != '['
  }

  ghost predicate NoLetter(s: string) {
    forall c | c in s :: !('a' <= c <= 'z') && !('A' <= c <= 'Z')
  }

  /**
   * The first sequence of a text goes with everything up to its first letter,
   * and stripping goes on with what was before and after it side by side; a
   * sequence without a letter goes with the rest of the text.
   */
  lemma SequenceGoes(front: string, body: string, letter: char, rest: string)
    requires NoOpener(front + "\U{1B}") && NoLetter(body)
    ensures 'a' <= letter <= 'z' || 'A' <= letter <= 'Z' ==>
              Stripped(front + "\U{1B}[" + body + [letter] + rest) == Stripped(front + rest)
    ensures Stripped(front + "\U{1B}[" + body) == front
    ensures NoOpener(front) && Stripped(front) == front
  {
    hide NoOpener;
    hide NoLetter;
    hide Stripped;
    FrontIsClean(front);
    if 'a' <= letter <= 'z' || 'A' <= letter <= 'Z' {
      ClosedGoes(front, body, letter, rest);
    }
    OpenGoes(front, body);
  }

  lemma FrontIsClean(front: string)
    requires NoOpener(front + "\U{1B}")
    ensures NoOpener(front) && Stripped(front) == front
  {
    var begun := front + "\U{1B}";
    forall i | 0 <= i < |front| - 1 && front[i] == '\U{1B}' ensures front[i + 1] != '[' {
      assert begun[i] == front[i] && begun[i + 1] == front[i + 1];
    }
    CleanIs(front);
  }

  lemma ClosedGoes(front: string, body: string, letter: char, rest: string)
    requires NoOpener(front + "\U{1B}") && NoLetter(body) && IsLetter(letter)
    ensures Stripped(front + "\U{1B}[" + body + [letter] + rest) == Stripped(front + rest)
  {
    hide NoOpener;
    hide NoLetter;
    hide Stripped;
    hide Skip;
    var tail := body + ([letter] + rest);
    SkipOf(body, [letter] + rest);
    FirstCut(front, tail, |body| + 1);
    assert front + "\U{1B}[" + body + [letter] + rest == front + "\U{1B}[" + tail;
    assert tail[|body| + 1..] == rest;
  }

  lemma OpenGoes(front: string, body: string)
    requires NoOpener(front + "\U{1B}") && NoLetter(body)
    ensures Stripped(front + "\U{1B}[" + body) == front
  {
    hide NoOpener;
    hide NoLetter;
    hide Stripped;
    hide Skip;
    SkipOf(body, "");
    assert body + "" == body;
    FirstCut(front, body, |body|);
    assert front + body[|body|..] == front;
    FrontIsClean(front);
  }

  lemma CleanIs(s: string)
    ensures NoOpener(s) <==> Clean(s)
  {
    if NoOpener(s) {
      forall i | 0 <= i < |s| - 1 ensures !OpenerAt(s, i) {
      }
    }
    if Clean(s) {
      forall i | 0 <= i < |s| - 1 && s[i] == '\U{1B}' ensures s[i + 1] != '[' {
        assert !OpenerAt(s, i);
      }
    }
  }

  lemma {:induction false} SkipOf(body: string, rest: string)
    requires NoLetter(body)
    ensures rest == "" ==> Skip(body + rest) == |body|
    ensures rest != "" && IsLetter(rest[0]) ==> Skip(body + rest) == |body| + 1
  {
    if body == "" {
      assert body + rest == rest;
    } else {
      assert body[0] in body && forall c | c in body[1..] :: c in body;
      assert (body + rest)[1..] == body[1..] + rest;
      SkipOf(body[1..], rest);
    }
  }

  lemma FirstOpener(front: string, tail: string)
    requires NoOpener(front + "\U{1B}")
    ensures var s := front + "\U{1B}[" + tail; OpenerAt(s, |front|) && Index(s) == |front|
  {
    var s, begun := front + "\U{1B}[" + tail, front + "\U{1B}";
    assert OpenerAt(s, |front|);
    forall i | 0 <= i < |front| ensures !OpenerAt(s, i) {
      assert s[i] == begun[i] && s[i + 1] == begun[i + 1];
    }
  }

  lemma FirstCut(front: string, tail: string, n: nat)
    requires NoOpener(front + "\U{1B}") && n <= |tail| && Skip(tail) == n
    ensures Stripped(front + "\U{1B}[" + tail) == Stripped(front + tail[n..])
  {
    hide NoOpener;
    hide Skip;
    var s, start := front + "\U{1B}[" + tail, |front|;
    FirstOpener(front, tail);
    hide Index;
    assert !Clean(s);
    hide Clean;
    hide OpenerAt;
    assert s[..start] == front;
    assert s[start + 2..] == tail;
    assert s[start + 2 + n..] == tail[n..];
    assert CutFirst(s) == front + tail[n..];
  }

  // ------------------------------------------------------------ one pass

  /**
   * The same text in one pass: characters go to the output; a bracket that
   * meets an escape character at the output's end takes it back and starts a
   * sequence, which runs to its first letter.
   */
  function OnePass(out: string, inside: bool, rest: string): string
    decreases |rest|
  {
    if rest == "" then out
    else if inside then OnePass(out, !IsLetter(rest[0]), rest[1..])
    else if rest[0] == '[' && out != "" && out[|out| - 1] == ESC then OnePass(out[..|out| - 1], true, rest[1..])
    else OnePass(out + [rest[0]], false, rest[1..])
  }

  lemma {:induction false} PassSkips(out: string, rest: string)
    ensures OnePass(out, true, rest) == OnePass(out, false, rest[Skip(rest)..])
    decreases |rest|
  {
    if rest != "" && !IsLetter(rest[0]) {
      PassSkips(out, rest[1..]);
      assert rest[1..][Skip(rest[1..])..] == rest[Skip(rest)..];
    }
  }

  lemma {:induction false} StrippedIsPass(out: string, rest: string)
    requires Clean(out)
    ensures Stripped(out + rest) == OnePass(out, false, rest)
    decreases |rest|
  {
    if rest == "" {
      assert out + rest == out;
    } else if rest[0] == '[' && out != "" && out[|out| - 1] == ESC {
      var shorter := out[..|out| - 1];
      assert Clean(shorter) by {
        forall i | 0 <= i < |shorter| - 1 ensures !OpenerAt(shorter, i) {
          assert !OpenerAt(out, i);
        }
      }
      CutAtJoin(out, rest);
      PassSkips(shorter, rest[1..]);
      StrippedIsPass(shorter, rest[1..][Skip(rest[1..])..]);
    } else {
      assert Clean(out + [rest[0]]) by {
        forall i | 0 <= i < |out| ensures !OpenerAt(out + [rest[0]], i) {
          assert !OpenerAt(out, i);
        }
      }
      StrippedIsPass(out + [rest[0]], rest[1..]);
      assert out + rest == out + [rest[0]] + rest[1..];
    }
  }

  /** Where clean output ends in an escape character and a bracket follows, the first sequence starts at the join. */
  lemma CutAtJoin(out: string, rest: string)
    requires Clean(out) && out != "" && out[|out| - 1] == ESC && rest != "" && rest[0] == '['
    ensures !Clean(out + rest) && CutFirst(out + rest) == out[..|out| - 1] + rest[1..][Skip(rest[1..])..]
  {
    var s, start := out + rest, |out| - 1;
    assert OpenerAt(s, start);
    forall i | 0 <= i < start ensures !OpenerAt(s, i) {
      assert !OpenerAt(out, i);
    }
    assert Index(s) == start;
    assert s[start + 2..] == rest[1..];
  }

  /** Cutting and searching again gives what one pass over the text gives. */
  lemma OnePassIsEnough(s: string)
    ensures Stripped(s) == OnePass("", false, s)
  {
    StrippedIsPass("", s);
    assert "" + s == s;
  }

  // ------------------------------------------------------------ what is left

  /** t is s with some characters left out. */
  ghost predicate Subsequence(t: string, s: string) {
    t == "" || (s != "" && (Subsequence(t, s[1..]) || (t[0] == s[0] && Subsequence(t[1..], s[1..]))))
  }

  lemma {:induction false} SubsequenceSelf(s: string)
    ensures Subsequence(s, s)
  {
    if s != "" {
      SubsequenceSelf(s[1..]);
    }
  }

  lemma {:induction false} SubsequenceTail(s: string, k: nat)
    requires k <= |s|
    ensures Subsequence(s[k..], s)
  {
    if k == 0 {
      SubsequenceSelf(s);
      assert s[0..] == s;
    } else {
      SubsequenceTail(s[1..], k - 1);
      assert s[1..][k - 1..] == s[k..];
    }
  }

  lemma {:induction false} SubsequenceUnder(p: string, t: string, s: string)
    requires Subsequence(t, s)
    ensures Subsequence(p + t, p + s)
  {
    if p == "" {
      assert p + t == t && p + s == s;
    } else {
      SubsequenceUnder(p[1..], t, s);
      assert (p + t)[1..] == p[1..] + t && (p + s)[1..] == p[1..] + s;
    }
  }

  lemma {:induction false} SubsequenceTransitive(a: string, b: string, c: string)
    requires Subsequence(a, b) && Subsequence(b, c)
    ensures Subsequence(a, c)
    decreases |c|
  {
    if a != "" {
      if Subsequence(b, c[1..]) {
        SubsequenceTransitive(a, b, c[1..]);
      } else if Subsequence(a, b[1..]) {
        SubsequenceTransitive(a, b[1..], c[1..]);
      } else {
        SubsequenceTransitive(a[1..], b[1..], c[1..]);
      }
    }
  }

  /**
   * On every text: what is left has no sequence opener, keeps its characters
   * in order, is the text itself if that had none, and is left alone by
   * stripping it again.
   */
  lemma {:induction false} StrippedIsClean(s: string)
    ensures Clean(Stripped(s))
    ensures Subsequence(Stripped(s), s)
    ensures Stripped(s) == s <==> Clean(s)
    ensures Stripped(Stripped(s)) == Stripped(s)
    decreases |s|
  {
    hide Subsequence;
    hide CutFirst;
    if Clean(s) {
      SubsequenceSelf(s);
    } else {
      StrippedIsClean(CutFirst(s));
      CutIsSubsequence(s);
      SubsequenceTransitive(Stripped(s), CutFirst(s), s);
    }
  }

  lemma CutIsSubsequence(s: string)
    requires !Clean(s)
    ensures Subsequence(CutFirst(s), s)
  {
    hide Subsequence;
    var start := Index(s);
    var tail, k := s[start..], 2 + Skip(s[start + 2..]);
    SubsequenceTail(tail, k);
    SubsequenceUnder(s[..start], tail[k..], tail);
    assert CutFirst(s) == s[..start] + tail[k..] && s == s[..start] + tail;
  }

  /** A cut can make an opener that was not there: here the text has just one, and cutting it leaves another. */
  lemma CutsJoin(s: string)
    requires s == [ESC, ESC, '[', 'm', '[', 'm', 'x']
    ensures OpenerAt(s, 1) && (forall i | i != 1 :: !OpenerAt(s, i)) && !Clean(s)
    ensures CutFirst(s) == [ESC, '[', 'm', 'x'] && !Clean(CutFirst(s))
  {
    assert OpenerAt(s, 1) && Index(s) == 1;
    assert s[3..][0] == 'm' && Skip(s[3..]) == 1;
    var t := CutFirst(s);
    assert t == s[..1] + s[4..] == [ESC, '[', 'm', 'x'];
    assert OpenerAt(t, 0);
  }
}
