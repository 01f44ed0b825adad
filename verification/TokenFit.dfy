/**
 * Fitting texts to a token budget before the embedding model sees them
 * (internal/embedding/bgem3.go, internal/embedding/hugot.go) and the rule that
 * admits a batch (internal/embedding/batch_budget.go). Texts are bytes. The
 * ratio of characters to tokens is an exact rational.
 */
module TokenFit {
  import opened Wrappers

  newtype byte = x: int | 0 <= x < 256

  type Bytes = seq<byte>

  const MAX_TOKENS := 8190
  const EMBED_MAX_TOKENS := 1024
  const MAX_BATCH := 8
  const CHARS_PER_TOKEN := 4
  const HARD_CAP := 16

  // ------------------------------------------------------------ UTF-8

  predicate Cont(b: byte) {
    0x80 <= b <= 0xBF
  }

  /** The size of the well-formed encoding s begins with, or 0. */
  function RuneSize(s: Bytes): (n: nat)
    ensures n <= 4 && n <= |s|
    ensures forall i | 0 < i < n :: s[i] >= 0x80
  {
    if s == [] then 0
    else if s[0] < 0x80 then 1
    else if |s| >= 2 && 0xC2 <= s[0] <= 0xDF && Cont(s[1]) then 2
    else if |s| >= 3 && 0xE0 <= s[0] <= 0xEF && Cont(s[1]) && Cont(s[2])
            && (s[0] == 0xE0 ==> s[1] >= 0xA0) && (s[0] == 0xED ==> s[1] <= 0x9F) then 3
    else if |s| >= 4 && 0xF0 <= s[0] <= 0xF4 && Cont(s[1]) && Cont(s[2]) && Cont(s[3])
            && (s[0] == 0xF0 ==> s[1] >= 0x90) && (s[0] == 0xF4 ==> s[1] <= 0x8F) then 4
    else 0
  }

  predicate ValidUtf8(s: Bytes) {
    s == [] || (RuneSize(s) > 0 && ValidUtf8(s[RuneSize(s)..]))
  }

  lemma RuneSizeOfPrefix(s: Bytes, n: nat)
    requires RuneSize(s) <= n <= |s|
    requires RuneSize(s) > 0
    ensures RuneSize(s[..n]) == RuneSize(s)
  {
  }

  /** A valid text cut before an ASCII byte is valid. */
  lemma {:induction false} ValidBeforeAscii(s: Bytes, n: nat)
    requires ValidUtf8(s) && n < |s| && s[n] < 0x80
    ensures ValidUtf8(s[..n])
  {
    if n > 0 {
      var r := RuneSize(s);
      assert r <= n;
      ValidBeforeAscii(s[r..], n - r);
      RuneSizeOfPrefix(s, n);
      assert s[..n][r..] == s[r..][..n - r];
    }
  }

  /** Somewhere in the last three bytes before any cut of a valid text there is a valid cut. */
  lemma {:induction false} ValidNearby(s: Bytes, n: nat) returns (k: nat)
    requires ValidUtf8(s) && n <= |s|
    ensures k <= 3 && k <= n && ValidUtf8(s[..n - k])
  {
    if n == 0 {
      k := 0;
      assert s[..0] == [];
    } else if n < RuneSize(s) {
      k := n;
      assert s[..0] == [];
    } else {
      var r := RuneSize(s);
      k := ValidNearby(s[r..], n - r);
      RuneSizeOfPrefix(s, n - k);
      assert s[..n - k][r..] == s[r..][..n - r - k];
    }
  }

  // ------------------------------------------------------------ truncation

  /** The last space of cut at an index above both 0 and maxChars - 40, if there is one at or below i. */
  function SpaceAt(cut: Bytes, maxChars: int, i: int): (r: Option<nat>)
    requires i < |cut|
    ensures r.Some? ==> 0 < r.value <= i && r.value > maxChars - 40 && cut[r.value] == 0x20
    ensures r.None? ==> forall j | 0 < j <= i && j > maxChars - 40 :: cut[j] != 0x20
    decreases i + 1
  {
    if i <= maxChars - 40 || i <= 0 then None
    else if cut[i] == 0x20 then Some(i)
    else SpaceAt(cut, maxChars, i - 1)
  }

  /** Bytes come off the end until what is left is valid. */
  function BackOff(cut: Bytes): (r: Bytes)
    ensures r <= cut && ValidUtf8(r)
    ensures forall k | |r| < k <= |cut| :: !ValidUtf8(cut[..k])
  {
    if cut == [] || ValidUtf8(cut) then
      assert cut[..|cut|] == cut;
      cut
    else
      var r := BackOff(cut[..|cut| - 1]);
      assert forall k | 0 <= k < |cut| :: cut[..|cut| - 1][..k] == cut[..k];
      assert cut[..|cut|] == cut;
      r
  }

  /** truncateToChars. */
  function TruncateToChars(text: Bytes, maxChars: int): (r: Bytes)
    ensures r <= text && (|r| <= maxChars || r == [])
    ensures 0 < maxChars && |text| <= maxChars ==> r == text
  {
    if maxChars <= 0 then []
    else if |text| <= maxChars then text
    else
      var cut := text[..maxChars];
      match SpaceAt(cut, maxChars, |cut| - 1)
      case Some(i) => cut[..i]
      case None => BackOff(cut)
  }

  /** Cutting a valid text gives a valid text, and never costs more than 39 bytes of the room there was. */
  lemma TruncationIsGentle(text: Bytes, maxChars: int)
    requires ValidUtf8(text)
    ensures ValidUtf8(TruncateToChars(text, maxChars))
    ensures |text| > maxChars ==> |TruncateToChars(text, maxChars)| >= maxChars - 39
  {
    if 0 < maxChars < |text| {
      var cut := text[..maxChars];
      match SpaceAt(cut, maxChars, |cut| - 1) {
        case Some(i) =>
          ValidBeforeAscii(text, i);
          assert cut[..i] == text[..i];
        case None =>
          var k := ValidNearby(text, maxChars);
          assert cut[..maxChars - k] == text[..maxChars - k];
      }
    }
  }

  /** The cut comes at the last space of the forty bytes before the limit, and without one after as many bytes as make a valid text. */
  lemma TruncationCuts(text: Bytes, maxChars: int)
    requires 0 < maxChars < |text|
    ensures var n := |TruncateToChars(text, maxChars)|;
            && TruncateToChars(text, maxChars) == text[..n]
            && (forall i | 0 < i < maxChars && maxChars - 40 < i && text[i] == 0x20 && (forall j | i < j < maxChars :: text[j] != 0x20) :: n == i)
            && ((forall i | 0 < i < maxChars && maxChars - 40 < i :: text[i] != 0x20) ==>
                  ValidUtf8(text[..n]) && forall k | n < k <= maxChars :: !ValidUtf8(text[..k]))
  {
    var cut := text[..maxChars];
    assert forall k | 0 <= k <= maxChars :: cut[..k] == text[..k];
    match SpaceAt(cut, maxChars, |cut| - 1) {
      case Some(i) =>
        SpaceIsLast(cut, maxChars, |cut| - 1);
      case None =>
    }
  }

  lemma {:induction false} SpaceIsLast(cut: Bytes, maxChars: int, i: int)
    requires i < |cut| && SpaceAt(cut, maxChars, i).Some?
    ensures forall j | SpaceAt(cut, maxChars, i).value < j <= i :: cut[j] != 0x20
    decreases i + 1
  {
    if cut[i] != 0x20 {
      SpaceIsLast(cut, maxChars, i - 1);
    }
  }

  function TruncateForEmbedding(text: Bytes, maxTokens: int): Bytes {
    if maxTokens <= 0 then [] else TruncateToChars(text, maxTokens * CHARS_PER_TOKEN)
  }

  // ------------------------------------------------------------ shrinking

  /** shrinkTowardTokenBudget. */
  function Shrink(text: Bytes, tokenCount: int, maxTokens: int, iter: nat): (r: Bytes)
    requires 0 < maxTokens < tokenCount
    ensures r <= text
    ensures text != [] ==> |r| < |text|
    ensures iter >= 4 ==> |r| <= |text| / 2
  {
    var target := maxTokens * |text| * 9 / (10 * tokenCount);
    if iter < 4 && 0 < target < |text| then TruncateToChars(text, target) else TruncateToChars(text, |text| / 2)
  }

  /** The first cut leaves four bytes a token alone. */
  lemma FirstCutIsLoose(text: Bytes, maxTokens: int)
    requires maxTokens > 0
    ensures |text| <= 4 * maxTokens ==> TruncateForEmbedding(text, maxTokens) == text
    ensures |text| > 4 * maxTokens && ValidUtf8(text) ==> 4 * maxTokens - 39 <= |TruncateForEmbedding(text, maxTokens)| <= 4 * maxTokens
  {
    if ValidUtf8(text) {
      TruncationIsGentle(text, maxTokens * CHARS_PER_TOKEN);
    }
  }

  /** target is nine tenths of the bytes the budget is worth at this text's own ratio of bytes to tokens, rounded down. */
  predicate IsTarget(target: int, text: Bytes, tokenCount: int, maxTokens: int) {
    10 * tokenCount * target <= 9 * maxTokens * |text| < 10 * tokenCount * (target + 1)
  }

  /**
   * How much a shrink keeps: in the first four passes the target, when that is a
   * proper part of the text, and otherwise half, in each case less at most 39
   * bytes for a clean cut.
   */
  lemma ShrinkKeeps(text: Bytes, tokenCount: int, maxTokens: int, iter: nat, target: int)
    requires ValidUtf8(text) && 0 < maxTokens < tokenCount && IsTarget(target, text, tokenCount, maxTokens)
    ensures var r := Shrink(text, tokenCount, maxTokens, iter);
            && ValidUtf8(r)
            && (if iter < 4 && 0 < target < |text| then target - 39 <= |r| <= target else |text| / 2 - 39 <= |r| <= |text| / 2)
  {
    TargetIs(text, tokenCount, maxTokens, target);
    TruncationIsGentle(text, target);
    TruncationIsGentle(text, |text| / 2);
  }

  lemma TargetIs(text: Bytes, tokenCount: int, maxTokens: int, target: int)
    requires tokenCount > 0 && IsTarget(target, text, tokenCount, maxTokens)
    ensures maxTokens * |text| * 9 / (10 * tokenCount) == target
  {
    var n, m := maxTokens * |text| * 9, 10 * tokenCount;
    assert n == 9 * maxTokens * |text|;
    assert m * target == 10 * tokenCount * target && m * (target + 1) == 10 * tokenCount * (target + 1);
    QuotientIs(n, m, target);
  }

  lemma QuotientIs(n: int, m: int, q: int)
    requires m > 0 && m * q <= n < m * (q + 1)
    ensures n / m == q
  {
    var p := n / m;
    assert m * p <= n < m * (p + 1);
    MultipleGrows(m, p - q);
    MultipleGrows(m, q - p);
  }

  lemma MultipleGrows(m: int, x: int)
    requires m > 0
    ensures x >= 1 ==> m * x >= m
  {
  }

  /** One call to the token counter: which call it is, and the texts; None for an error. */
  type Counter = (nat, seq<Bytes>) -> Option<seq<int>>

  ghost predicate Counts(count: Counter) {
    forall iter, texts :: count(iter, texts).Some? ==> |count(iter, texts).value| == |texts|
  }

  datatype Fit = Fitted(texts: seq<Bytes>) | CountFailed | NotConverged

  function FirstCuts(texts: seq<Bytes>, maxTokens: int): (r: seq<Bytes>)
    ensures |r| == |texts| && forall i | 0 <= i < |texts| :: r[i] == if maxTokens > 0 then TruncateForEmbedding(texts[i], maxTokens) else texts[i]
  {
    seq(|texts|, i requires 0 <= i < |texts| => if maxTokens > 0 then TruncateForEmbedding(texts[i], maxTokens) else texts[i])
  }

  function ShrinkOver(work: seq<Bytes>, counts: seq<int>, maxTokens: int, iter: nat): (r: seq<Bytes>)
    requires |counts| == |work| && maxTokens > 0
    ensures |r| == |work|
    ensures forall i | 0 <= i < |work| :: r[i] == if counts[i] <= maxTokens then work[i] else Shrink(work[i], counts[i], maxTokens, iter)
  {
    seq(|work|, i requires 0 <= i < |work| => if counts[i] <= maxTokens then work[i] else Shrink(work[i], counts[i], maxTokens, iter))
  }

  predicate AllWithin(counts: seq<int>, maxTokens: int) {
    forall i | 0 <= i < |counts| :: counts[i] <= maxTokens
  }

  /** The loop from iteration iter on, and how many calls to the counter it makes. */
  ghost function FitFrom(work: seq<Bytes>, maxTokens: int, count: Counter, iter: nat): (Fit, nat)
    requires maxTokens > 0 && Counts(count) && iter <= HARD_CAP
    decreases HARD_CAP - iter
  {
    match count(iter, work)
    case None => (CountFailed, 1)
    case Some(counts) =>
      if AllWithin(counts, maxTokens) then (Fitted(work), 1)
      else if iter >= HARD_CAP then (NotConverged, 1)
      else var (fit, calls) := FitFrom(ShrinkOver(work, counts, maxTokens, iter), maxTokens, count, iter + 1); (fit, calls + 1)
  }

  ghost function FitTexts(texts: seq<Bytes>, maxTokens: int, count: Counter): (Fit, nat)
    requires Counts(count)
  {
    if maxTokens <= 0 then (Fitted(texts), 0) else FitFrom(FirstCuts(texts, maxTokens), maxTokens, count, 0)
  }

  /** One pass over the texts: those over the budget are shrunk in place. */
  method ShrinkPass(work: array<Bytes>, counts: seq<int>, maxTokens: int, iter: nat) returns (over: bool)
    requires |counts| == work.Length && maxTokens > 0
    modifies work
    ensures work[..] == ShrinkOver(old(work[..]), counts, maxTokens, iter)
    ensures over <==> !AllWithin(counts, maxTokens)
  {
    hide Shrink;
    over := false;
    for i := 0 to work.Length
      invariant over <==> exists k :: 0 <= k < i && counts[k] > maxTokens
      invariant forall k | 0 <= k < i :: work[k] == ShrinkOver(old(work[..]), counts, maxTokens, iter)[k]
      invariant forall k | i <= k < work.Length :: work[k] == old(work[..])[k]
    {
      if counts[i] > maxTokens {
        over := true;
        work[i] := Shrink(work[i], counts[i], maxTokens, iter);
      }
    }
  }

  method FitTextsWithinTokenLimit(texts: seq<Bytes>, maxTokens: int, count: Counter) returns (fit: Fit, calls: nat)
    requires Counts(count)
    ensures fit == FitTexts(texts, maxTokens, count).0 && calls == FitTexts(texts, maxTokens, count).1
  {
    hide TruncateForEmbedding;
    calls := 0;
    var work := new Bytes[|texts|](_ => []);
    for i := 0 to |texts|
      invariant forall k | 0 <= k < i :: work[k] == FirstCuts(texts, maxTokens)[k]
    {
      work[i] := texts[i];
      if maxTokens > 0 {
        work[i] := TruncateForEmbedding(texts[i], maxTokens);
      }
    }
    assert work[..] == FirstCuts(texts, maxTokens);
    if maxTokens <= 0 {
      assert FirstCuts(texts, maxTokens) == texts;
      return Fitted(work[..]), calls;
    }
    hide FirstCuts;
    hide ShrinkOver;
    hide AllWithin;
    var iter := 0;
    while true
      invariant iter <= HARD_CAP && calls == iter && work.Length == |texts|
      invariant FitFrom(work[..], maxTokens, count, iter).0 == FitTexts(texts, maxTokens, count).0
      invariant FitFrom(work[..], maxTokens, count, iter).1 + iter == FitTexts(texts, maxTokens, count).1
      decreases HARD_CAP - iter
    {
      var counts := count(iter, work[..]);
      calls := calls + 1;
      if counts.None? {
        return CountFailed, calls;
      }
      ghost var before := work[..];
      var over := ShrinkPass(work, counts.value, maxTokens, iter);
      if !over {
        ShrinkNone(before, counts.value, maxTokens, iter);
        return Fitted(work[..]), calls;
      }
      if iter >= HARD_CAP {
        return NotConverged, calls;
      }
      iter := iter + 1;
    }
  }

  lemma ShrinkNone(work: seq<Bytes>, counts: seq<int>, maxTokens: int, iter: nat)
    requires |counts| == |work| && maxTokens > 0 && AllWithin(counts, maxTokens)
    ensures ShrinkOver(work, counts, maxTokens, iter) == work
  {
  }

  // ------------------------------------------------------------ what the loop guarantees

  ghost predicate Prefixes(work: seq<Bytes>, texts: seq<Bytes>) {
    |work| == |texts| && forall i | 0 <= i < |work| :: work[i] <= texts[i]
  }

  lemma PrefixesCompose(a: seq<Bytes>, b: seq<Bytes>, c: seq<Bytes>)
    requires Prefixes(a, b) && Prefixes(b, c)
    ensures Prefixes(a, c)
  {
  }

  lemma PrefixesSelf(work: seq<Bytes>)
    ensures Prefixes(work, work)
  {
  }

  lemma ShrinkOverCuts(work: seq<Bytes>, counts: seq<int>, maxTokens: int, iter: nat)
    requires |counts| == |work| && maxTokens > 0
    ensures Prefixes(ShrinkOver(work, counts, maxTokens, iter), work)
  {
    hide Shrink;
  }

  lemma {:induction false} FitFromCuts(work: seq<Bytes>, maxTokens: int, count: Counter, iter: nat)
    requires maxTokens > 0 && Counts(count) && iter <= HARD_CAP
    ensures 0 < FitFrom(work, maxTokens, count, iter).1 <= HARD_CAP + 1 - iter
    ensures FitFrom(work, maxTokens, count, iter).0.Fitted? ==> Prefixes(FitFrom(work, maxTokens, count, iter).0.texts, work)
    decreases HARD_CAP - iter
  {
    hide Shrink;
    hide AllWithin;
    hide Prefixes;
    var counted := count(iter, work);
    if counted.Some? && AllWithin(counted.value, maxTokens) {
      PrefixesSelf(work);
    }
    if counted.Some? && !AllWithin(counted.value, maxTokens) && iter < HARD_CAP {
      var next := ShrinkOver(work, counted.value, maxTokens, iter);
      ShrinkOverCuts(work, counted.value, maxTokens, iter);
      FitFromCuts(next, maxTokens, count, iter + 1);
      var fit := FitFrom(next, maxTokens, count, iter + 1).0;
      if fit.Fitted? {
        PrefixesCompose(fit.texts, next, work);
      }
    }
  }

  /** The texts are within the budget at the count numbered call. */
  ghost predicate CountedWithin(count: Counter, call: int, texts: seq<Bytes>, maxTokens: int) {
    call >= 0 && count(call, texts).Some? && AllWithin(count(call, texts).value, maxTokens)
  }

  lemma {:induction false} FitFromCounted(work: seq<Bytes>, maxTokens: int, count: Counter, iter: nat)
    requires maxTokens > 0 && Counts(count) && iter <= HARD_CAP
    ensures var r := FitFrom(work, maxTokens, count, iter); r.0.Fitted? ==> CountedWithin(count, iter + r.1 - 1, r.0.texts, maxTokens)
    decreases HARD_CAP - iter
  {
    hide Shrink;
    hide AllWithin;
    var counted := count(iter, work);
    if counted.Some? && !AllWithin(counted.value, maxTokens) && iter < HARD_CAP {
      FitFromCounted(ShrinkOver(work, counted.value, maxTokens, iter), maxTokens, count, iter + 1);
    }
  }

  /**
   * At most 17 calls are made whatever the counter says, and a fitted batch has
   * one prefix of each input, all within the budget at the last count.
   */
  lemma FitIsSound(texts: seq<Bytes>, maxTokens: int, count: Counter)
    requires Counts(count)
    ensures FitTexts(texts, maxTokens, count).1 <= HARD_CAP + 1
    ensures var r := FitTexts(texts, maxTokens, count);
            r.0.Fitted? ==> Prefixes(r.0.texts, texts) && (maxTokens > 0 ==> CountedWithin(count, r.1 - 1, r.0.texts, maxTokens))
  {
    if maxTokens > 0 {
      var cuts := FirstCuts(texts, maxTokens);
      FitFromCuts(cuts, maxTokens, count, 0);
      FitFromCounted(cuts, maxTokens, count, 0);
      assert Prefixes(cuts, texts);
      hide FitFrom;
      var fit := FitFrom(cuts, maxTokens, count, 0).0;
      if fit.Fitted? {
        PrefixesCompose(fit.texts, cuts, texts);
      }
    }
  }

  /** A tokenizer: it never fails, and a text's count depends on the text alone. */
  ghost predicate IsTokenizer(count: Counter, tokens: Bytes -> int) {
    forall iter, texts :: count(iter, texts).Some? && |count(iter, texts).value| == |texts|
                          && forall i | 0 <= i < |texts| :: count(iter, texts).value[i] == tokens(texts[i])
  }

  /** One text after the given number of iterations. */
  function Trace(text: Bytes, tokens: Bytes -> int, maxTokens: int, iters: nat): (r: Bytes)
    requires maxTokens > 0
    ensures r <= text
  {
    if iters == 0 then text
    else
      var before := Trace(text, tokens, maxTokens, iters - 1);
      if tokens(before) <= maxTokens then before else Shrink(before, tokens(before), maxTokens, iters - 1)
  }

  /** Over the budget after some iterations is over it at every one before. */
  lemma {:induction false} OverThroughout(text: Bytes, tokens: Bytes -> int, maxTokens: int, iters: nat, earlier: nat)
    requires maxTokens > 0 && earlier <= iters && tokens(Trace(text, tokens, maxTokens, iters)) > maxTokens
    ensures tokens(Trace(text, tokens, maxTokens, earlier)) > maxTokens
    decreases iters
  {
    hide Shrink;
    if earlier < iters {
      OverThroughout(text, tokens, maxTokens, iters - 1, earlier);
    }
  }

  function Halved(n: nat, times: nat): nat {
    if times == 0 then n else Halved(n, times - 1) / 2
  }

  lemma {:induction false} HalvedMonotone(a: nat, b: nat, times: nat)
    requires a <= b
    ensures Halved(a, times) <= Halved(b, times)
  {
    if times > 0 {
      HalvedMonotone(a, b, times - 1);
    }
  }

  lemma FourHalvings(n: nat, times: nat)
    ensures Halved(n, times + 4) == Halved(n, times) / 16
  {
    assert Halved(n, times + 2) == Halved(n, times + 1) / 2;
    assert Halved(n, times + 4) == Halved(n, times + 3) / 2;
  }

  lemma TwelveHalvings(n: nat)
    ensures Halved(n, 12) == n / 4096
  {
    FourHalvings(n, 0);
    FourHalvings(n, 4);
    FourHalvings(n, 8);
  }

  function Less(n: nat, k: nat): nat {
    if n < k then 0 else n - k
  }

  /** A text still over the budget lost at least a byte at every iteration before, unless it was empty. */
  lemma {:induction false} OverIsShorter(text: Bytes, tokens: Bytes -> int, maxTokens: int, iters: nat)
    requires maxTokens > 0 && tokens(Trace(text, tokens, maxTokens, iters)) > maxTokens
    ensures |Trace(text, tokens, maxTokens, iters)| <= Less(|text|, iters)
    decreases iters
  {
    if iters > 0 {
      OverThroughout(text, tokens, maxTokens, iters, iters - 1);
      OverIsShorter(text, tokens, maxTokens, iters - 1);
    }
  }

  /** From the fifth iteration on, a text still over the budget has been halved at every one. */
  lemma {:induction false} OverIsHalved(text: Bytes, tokens: Bytes -> int, maxTokens: int, iters: nat)
    requires maxTokens > 0 && iters >= 4 && tokens(Trace(text, tokens, maxTokens, iters)) > maxTokens
    ensures |Trace(text, tokens, maxTokens, iters)| <= Halved(Less(|text|, 4), iters - 4)
    decreases iters
  {
    if iters > 4 {
      OverThroughout(text, tokens, maxTokens, iters, iters - 1);
      OverIsHalved(text, tokens, maxTokens, iters - 1);
    } else {
      OverIsShorter(text, tokens, maxTokens, 4);
    }
  }

  /** How long a text from at most bound bytes can still be when the loop gives up on it. */
  function Residue(bound: nat): nat {
    Less(bound, 4) / 4096
  }

  ghost predicate Traces(work: seq<Bytes>, cuts: seq<Bytes>, tokens: Bytes -> int, maxTokens: int, iter: nat)
    requires maxTokens > 0
  {
    |work| == |cuts| && forall i | 0 <= i < |work| :: work[i] == Trace(cuts[i], tokens, maxTokens, iter)
  }

  lemma {:induction false} FitFromTraces(work: seq<Bytes>, cuts: seq<Bytes>, maxTokens: int, count: Counter, tokens: Bytes -> int, iter: nat)
    requires maxTokens > 0 && Counts(count) && IsTokenizer(count, tokens) && iter <= HARD_CAP && Traces(work, cuts, tokens, maxTokens, iter)
    ensures var (fit, calls) := FitFrom(work, maxTokens, count, iter);
            && (fit.Fitted? ==> Traces(fit.texts, cuts, tokens, maxTokens, iter + calls - 1))
            && (fit.NotConverged? ==> exists i :: 0 <= i < |cuts| && tokens(Trace(cuts[i], tokens, maxTokens, HARD_CAP)) > maxTokens)
            && !fit.CountFailed?
    decreases HARD_CAP - iter
  {
    hide AllWithin;
    hide ShrinkOver;
    hide Traces;
    hide Trace;
    TokenCounts(count, tokens, iter, work);
    var counts := count(iter, work).value;
    if !AllWithin(counts, maxTokens) {
      if iter < HARD_CAP {
        TracesGoOn(work, cuts, counts, maxTokens, tokens, iter);
        FitFromTraces(ShrinkOver(work, counts, maxTokens, iter), cuts, maxTokens, count, tokens, iter + 1);
      } else {
        OneStillOver(work, cuts, counts, maxTokens, tokens);
      }
    }
  }

  lemma TokenCounts(count: Counter, tokens: Bytes -> int, call: nat, texts: seq<Bytes>)
    requires IsTokenizer(count, tokens)
    ensures count(call, texts).Some? && |count(call, texts).value| == |texts|
    ensures forall i | 0 <= i < |texts| :: count(call, texts).value[i] == tokens(texts[i])
  {
  }

  lemma TracesGoOn(work: seq<Bytes>, cuts: seq<Bytes>, counts: seq<int>, maxTokens: int, tokens: Bytes -> int, iter: nat)
    requires maxTokens > 0 && Traces(work, cuts, tokens, maxTokens, iter)
    requires |counts| == |work| && forall i | 0 <= i < |work| :: counts[i] == tokens(work[i])
    ensures Traces(ShrinkOver(work, counts, maxTokens, iter), cuts, tokens, maxTokens, iter + 1)
  {
  }

  lemma OneStillOver(work: seq<Bytes>, cuts: seq<Bytes>, counts: seq<int>, maxTokens: int, tokens: Bytes -> int)
    requires maxTokens > 0 && Traces(work, cuts, tokens, maxTokens, HARD_CAP)
    requires |counts| == |work| && (forall i | 0 <= i < |work| :: counts[i] == tokens(work[i])) && !AllWithin(counts, maxTokens)
    ensures exists i :: 0 <= i < |cuts| && tokens(Trace(cuts[i], tokens, maxTokens, HARD_CAP)) > maxTokens
  {
  }

  lemma {:induction false} WithinStays(text: Bytes, tokens: Bytes -> int, maxTokens: int, iters: nat, later: nat)
    requires maxTokens > 0 && iters <= later && tokens(Trace(text, tokens, maxTokens, iters)) <= maxTokens
    ensures Trace(text, tokens, maxTokens, later) == Trace(text, tokens, maxTokens, iters)
    decreases later
  {
    hide Shrink;
    if iters < later {
      WithinStays(text, tokens, maxTokens, iters, later - 1);
    }
  }

  /** The cuts that are still over the budget after sixteen shrinks. */
  ghost predicate StuckAt(cuts: seq<Bytes>, tokens: Bytes -> int, maxTokens: int, i: int)
    requires maxTokens > 0
  {
    0 <= i < |cuts| && tokens(Trace(cuts[i], tokens, maxTokens, HARD_CAP)) > maxTokens
  }

  lemma CountedText(count: Counter, tokens: Bytes -> int, call: int, texts: seq<Bytes>, maxTokens: int, i: nat)
    requires IsTokenizer(count, tokens) && CountedWithin(count, call, texts, maxTokens) && i < |texts|
    ensures tokens(texts[i]) <= maxTokens
  {
  }

  /** A text within the budget after some iterations is never stuck; one within it at once is never changed. */
  lemma WithinIsFinal(text: Bytes, tokens: Bytes -> int, maxTokens: int, iters: nat)
    requires maxTokens > 0 && iters <= HARD_CAP && tokens(Trace(text, tokens, maxTokens, iters)) <= maxTokens
    ensures tokens(Trace(text, tokens, maxTokens, HARD_CAP)) <= maxTokens
    ensures tokens(text) <= maxTokens ==> Trace(text, tokens, maxTokens, iters) == text
  {
    WithinStays(text, tokens, maxTokens, iters, HARD_CAP);
    if tokens(text) <= maxTokens {
      WithinStays(text, tokens, maxTokens, 0, iters);
    }
  }

  lemma FittedText(cuts: seq<Bytes>, maxTokens: int, count: Counter, tokens: Bytes -> int, i: nat)
    requires maxTokens > 0 && Counts(count) && IsTokenizer(count, tokens) && FitFrom(cuts, maxTokens, count, 0).0.Fitted? && i < |cuts|
    ensures var texts := FitFrom(cuts, maxTokens, count, 0).0.texts;
            |texts| == |cuts| && !StuckAt(cuts, tokens, maxTokens, i)
            && tokens(texts[i]) <= maxTokens && (tokens(cuts[i]) <= maxTokens ==> texts[i] == cuts[i])
  {
    hide FitFrom;
    hide Shrink;
    hide CountedWithin;
    hide IsTokenizer;
    hide Counts;
    FitFromTraces(cuts, cuts, maxTokens, count, tokens, 0);
    FitFromCuts(cuts, maxTokens, count, 0);
    FitFromCounted(cuts, maxTokens, count, 0);
    var r := FitFrom(cuts, maxTokens, count, 0);
    CountedText(count, tokens, r.1 - 1, r.0.texts, maxTokens, i);
    WithinIsFinal(cuts[i], tokens, maxTokens, r.1 - 1);
  }

  lemma StuckIsTiny(cuts: seq<Bytes>, tokens: Bytes -> int, maxTokens: int, i: int, bound: nat)
    requires maxTokens > 0 && StuckAt(cuts, tokens, maxTokens, i) && |cuts[i]| <= bound
    ensures |Trace(cuts[i], tokens, maxTokens, HARD_CAP)| <= Residue(bound)
  {
    OverIsHalved(cuts[i], tokens, maxTokens, HARD_CAP);
    HalvedMonotone(Less(|cuts[i]|, 4), Less(bound, 4), 12);
    TwelveHalvings(Less(bound, 4));
  }

  /**
   * With a tokenizer, the loop gives up exactly when some text is still over
   * the budget after sixteen shrinks, twelve of them halvings; so it never
   * gives up when every text of length at most (L - 4) / 4096 is within the
   * budget, L bounding the first cuts. Texts the first cut fits stay as cut.
   */
  lemma FitConverges(texts: seq<Bytes>, maxTokens: int, count: Counter, tokens: Bytes -> int, bound: nat)
    requires maxTokens > 0 && Counts(count) && IsTokenizer(count, tokens)
    requires forall i | 0 <= i < |texts| :: |FirstCuts(texts, maxTokens)[i]| <= bound
    ensures var fit := FitTexts(texts, maxTokens, count).0; var cuts := FirstCuts(texts, maxTokens);
            && !fit.CountFailed?
            && (fit.NotConverged? <==> exists i :: StuckAt(cuts, tokens, maxTokens, i))
            && (fit.NotConverged? ==> exists t: Bytes :: |t| <= Residue(bound) && tokens(t) > maxTokens)
            && (fit.Fitted? ==> |fit.texts| == |texts| && forall i | 0 <= i < |texts| ::
                 tokens(fit.texts[i]) <= maxTokens && (tokens(cuts[i]) <= maxTokens ==> fit.texts[i] == cuts[i]))
  {
    var cuts := FirstCuts(texts, maxTokens);
    var fit := FitFrom(cuts, maxTokens, count, 0).0;
    FitFromTraces(cuts, cuts, maxTokens, count, tokens, 0);
    if fit.Fitted? {
      forall i | 0 <= i < |cuts| ensures !StuckAt(cuts, tokens, maxTokens, i) && |fit.texts| == |cuts|
        ensures tokens(fit.texts[i]) <= maxTokens && (tokens(cuts[i]) <= maxTokens ==> fit.texts[i] == cuts[i])
      {
        FittedText(cuts, maxTokens, count, tokens, i);
      }
      FitFromCuts(cuts, maxTokens, count, 0);
    } else {
      var i :| 0 <= i < |cuts| && tokens(Trace(cuts[i], tokens, maxTokens, HARD_CAP)) > maxTokens;
      assert StuckAt(cuts, tokens, maxTokens, i);
      StuckIsTiny(cuts, tokens, maxTokens, i, bound);
    }
    hide FitFrom;
  }

  /** A tokenizer whose special tokens alone exceed the budget is the case that never fits. */
  lemma FloorAboveBudget(texts: seq<Bytes>, maxTokens: int, count: Counter, tokens: Bytes -> int)
    requires texts != [] && maxTokens > 0 && Counts(count) && IsTokenizer(count, tokens) && forall t :: tokens(t) > maxTokens
    ensures FitTexts(texts, maxTokens, count).0 == NotConverged
  {
    FitConverges(texts, maxTokens, count, tokens, maxTokens * CHARS_PER_TOKEN);
    assert StuckAt(FirstCuts(texts, maxTokens), tokens, maxTokens, 0);
  }

  /**
   * A text over the budget at the first cut and within it after one shrink is
   * kept to its target, less at most 39 bytes: no more is thrown away.
   */
  lemma OneShrinkKeeps(texts: seq<Bytes>, maxTokens: int, count: Counter, tokens: Bytes -> int, i: nat, target: int)
    requires i < |texts| && maxTokens > 0 && Counts(count) && IsTokenizer(count, tokens) && ValidUtf8(texts[i])
    requires FitTexts(texts, maxTokens, count).0.Fitted?
    requires var cut := TruncateForEmbedding(texts[i], maxTokens);
             && tokens(cut) > maxTokens && tokens(Shrink(cut, tokens(cut), maxTokens, 0)) <= maxTokens
             && IsTarget(target, cut, tokens(cut), maxTokens) && 0 < target < |cut|
    ensures |FitTexts(texts, maxTokens, count).0.texts| == |texts|
    ensures target - 39 <= |FitTexts(texts, maxTokens, count).0.texts[i]| <= target
  {
    hide IsTokenizer;
    hide Counts;
    hide FitTexts;
    hide Shrink;
    hide ValidUtf8;
    hide TruncateToChars;
    var cut := TruncateForEmbedding(texts[i], maxTokens);
    TruncationIsGentle(texts[i], maxTokens * CHARS_PER_TOKEN);
    ShrinkKeeps(cut, tokens(cut), maxTokens, 0, target);
    FittedIsOneShrink(texts, maxTokens, count, tokens, i);
  }

  lemma FittedIsOneShrink(texts: seq<Bytes>, maxTokens: int, count: Counter, tokens: Bytes -> int, i: nat)
    requires i < |texts| && maxTokens > 0 && Counts(count) && IsTokenizer(count, tokens) && FitTexts(texts, maxTokens, count).0.Fitted?
    requires var cut := TruncateForEmbedding(texts[i], maxTokens);
             tokens(cut) > maxTokens && tokens(Shrink(cut, tokens(cut), maxTokens, 0)) <= maxTokens
    ensures var cut := TruncateForEmbedding(texts[i], maxTokens);
            |FitTexts(texts, maxTokens, count).0.texts| == |texts|
            && FitTexts(texts, maxTokens, count).0.texts[i] == Shrink(cut, tokens(cut), maxTokens, 0)
  {
    hide IsTokenizer;
    hide Counts;
    hide FitFrom;
    hide Shrink;
    hide TruncateForEmbedding;
    hide CountedWithin;
    var cuts := FirstCuts(texts, maxTokens);
    FitFromTraces(cuts, cuts, maxTokens, count, tokens, 0);
    FitFromCuts(cuts, maxTokens, count, 0);
    FittedText(cuts, maxTokens, count, tokens, i);
    FitsAfterOne(cuts[i], tokens, maxTokens, FitFrom(cuts, maxTokens, count, 0).1 - 1);
  }

  /** A text that fits after one shrink is that shrink's result as soon as it fits at all. */
  lemma FitsAfterOne(cut: Bytes, tokens: Bytes -> int, maxTokens: int, iters: nat)
    requires maxTokens > 0 && tokens(cut) > maxTokens && tokens(Shrink(cut, tokens(cut), maxTokens, 0)) <= maxTokens
    requires tokens(Trace(cut, tokens, maxTokens, iters)) <= maxTokens
    ensures Trace(cut, tokens, maxTokens, iters) == Shrink(cut, tokens(cut), maxTokens, 0)
  {
    hide Shrink;
    assert Trace(cut, tokens, maxTokens, 0) == cut;
    assert Trace(cut, tokens, maxTokens, 1) == Shrink(cut, tokens(cut), maxTokens, 0);
    if iters >= 1 {
      WithinStays(cut, tokens, maxTokens, 1, iters);
    }
  }

  /** Cutting a text never raises its count. */
  ghost predicate PrefixMonotone(tokens: Bytes -> int) {
    forall t, p | p <= t :: tokens(p) <= tokens(t)
  }

  /**
   * What a caller can tell beforehand. Whatever the tokenizer, when the loop
   * gives up some text of at most the residue's length is over the budget; at
   * budgets up to 1024, the embedder's own, that is the empty text, its special
   * tokens alone. And when the empty text is over, and cutting a text does not
   * raise its count, the loop gives up at every budget.
   */
  lemma GivesUpWhen(texts: seq<Bytes>, maxTokens: int, count: Counter, tokens: Bytes -> int)
    requires texts != [] && maxTokens > 0 && Counts(count) && IsTokenizer(count, tokens)
    ensures var stuck := FitTexts(texts, maxTokens, count).0.NotConverged?;
            && (stuck ==> exists t: Bytes :: |t| <= Residue(maxTokens * CHARS_PER_TOKEN) && tokens(t) > maxTokens)
            && (stuck && maxTokens <= EMBED_MAX_TOKENS ==> tokens([]) > maxTokens)
            && (PrefixMonotone(tokens) && tokens([]) > maxTokens ==> stuck)
            && (PrefixMonotone(tokens) && maxTokens <= EMBED_MAX_TOKENS ==> (stuck <==> tokens([]) > maxTokens))
  {
    hide FitTexts;
    hide IsTokenizer;
    if PrefixMonotone(tokens) && tokens([]) > maxTokens {
      forall t ensures tokens(t) > maxTokens {
        assert [] <= t && tokens([]) <= tokens(t);
      }
      FloorAboveBudget(texts, maxTokens, count, tokens);
    }
    var bound: nat := maxTokens * CHARS_PER_TOKEN;
    FitConverges(texts, maxTokens, count, tokens, bound);
    if maxTokens <= EMBED_MAX_TOKENS {
      assert Residue(bound) == 0;
      assert forall t: Bytes | |t| <= 0 :: t == [];
    }
  }

  // ------------------------------------------------------------ batches

  /** safeTokenizerLimit. */
  function SafeTokenizerLimit(configured: int): (r: int)
    ensures 1 <= r <= MAX_TOKENS
    ensures r == configured <==> 0 < configured <= MAX_TOKENS
    ensures !(0 < configured <= MAX_TOKENS) ==> r == 8190
  {
    if configured > 0 && configured < MAX_TOKENS then configured else MAX_TOKENS
  }

  function TokenEstimate(chars: nat): nat {
    var t := (chars + 2 - 1) / 2;
    if t < EMBED_MAX_TOKENS then t else EMBED_MAX_TOKENS
  }

  predicate BatchFits(count: int, longest: nat) {
    count > 0 && count <= MAX_BATCH && count * TokenEstimate(longest) <= EMBED_MAX_TOKENS
  }

  function Longest(texts: seq<Bytes>): nat {
    if texts == [] then 0
    else var rest := Longest(texts[..|texts| - 1]); var last := |texts[|texts| - 1]|; if rest >= last then rest else last
  }

  /** checkBGEM3Batch: no error. */
  predicate Admitted(texts: seq<Bytes>) {
    texts == [] || BatchFits(|texts|, Longest(texts))
  }

  method CheckBatch(texts: seq<Bytes>) returns (ok: bool)
    ensures ok == Admitted(texts)
  {
    if |texts| == 0 {
      return true;
    }
    var longest := 0;
    for i := 0 to |texts|
      invariant longest == Longest(texts[..i])
    {
      assert texts[..i + 1][..i] == texts[..i];
      longest := if longest >= |texts[i]| then longest else |texts[i]|;
    }
    assert texts[..|texts|] == texts;
    ok := BatchFits(|texts|, longest);
  }

  lemma {:induction false} LongestBounds(texts: seq<Bytes>, i: nat)
    requires i < |texts|
    ensures |texts[i]| <= Longest(texts)
  {
    if i < |texts| - 1 {
      LongestBounds(texts[..|texts| - 1], i);
    }
  }

  lemma {:induction false} LongestAtMost(texts: seq<Bytes>, bound: nat)
    requires forall i | 0 <= i < |texts| :: |texts[i]| <= bound
    ensures Longest(texts) <= bound
  {
    if texts != [] {
      LongestAtMost(texts[..|texts| - 1], bound);
    }
  }

  function TokenEstimates(texts: seq<Bytes>): nat {
    if texts == [] then 0 else TokenEstimates(texts[..|texts| - 1]) + TokenEstimate(|texts[|texts| - 1]|)
  }

  lemma {:induction false} EstimatesAtMost(texts: seq<Bytes>, longest: nat)
    requires forall i | 0 <= i < |texts| :: |texts[i]| <= longest
    ensures TokenEstimates(texts) <= |texts| * TokenEstimate(longest)
  {
    if texts != [] {
      EstimatesAtMost(texts[..|texts| - 1], longest);
      assert |texts| * TokenEstimate(longest) == (|texts| - 1) * TokenEstimate(longest) + TokenEstimate(longest);
    }
  }

  lemma ProductMonotone(a: nat, b: nat, c: nat, d: nat)
    requires a <= b && c <= d
    ensures a * c <= b * d
  {
  }

  /** An estimate is the number of pairs of bytes, an odd byte counting for one, up to the cap. */
  lemma EstimateIsHalf(chars: nat)
    ensures TokenEstimate(chars) <= 1024
    ensures chars <= 2048 ==> chars <= 2 * TokenEstimate(chars) <= chars + 1
    ensures chars > 2048 ==> TokenEstimate(chars) == 1024
  {
  }

  /** Which batches are admitted, said of the texts: none or one, or up to eight that share two bytes a token of the cap. */
  lemma AdmittedExactly(texts: seq<Bytes>)
    ensures Admitted(texts) <==> |texts| <= 1 || (|texts| <= 8 && forall i | 0 <= i < |texts| :: |texts[i]| <= 2 * (1024 / |texts|))
  {
    if |texts| > 1 {
      var n, longest := |texts|, Longest(texts);
      forall i | 0 <= i < n ensures |texts[i]| <= longest {
        LongestBounds(texts, i);
      }
      ShareIsExact(n, longest);
      if forall i | 0 <= i < n :: |texts[i]| <= 2 * (1024 / n) {
        LongestAtMost(texts, 2 * (1024 / n));
      }
    } else if |texts| == 1 {
      OneTextIsAdmitted(texts[0]);
      assert texts == [texts[0]];
    }
  }

  lemma ShareIsExact(n: nat, longest: nat)
    requires 1 < n
    ensures n * TokenEstimate(longest) <= 1024 <==> longest <= 2 * (1024 / n)
  {
    var q := 1024 / n;
    assert n * q <= 1024 < n * (q + 1);
    ShareOf(n, q, TokenEstimate(longest));
    EstimateIsHalf(longest);
    ShareIsSmall(n, q);
    hide TokenEstimate;
  }

  lemma ShareIsSmall(n: nat, q: nat)
    requires 1 < n && n * q <= 1024
    ensures q <= 512
  {
    ProductMonotone(2, n, q, q);
  }

  lemma ShareOf(n: nat, q: nat, e: nat)
    requires n * q <= 1024 < n * (q + 1)
    ensures n * e <= 1024 <==> e <= q
  {
    if e <= q {
      ProductMonotone(n, n, e, q);
    } else {
      ProductMonotone(n, n, q + 1, e);
    }
  }

  /** Admission survives dropping texts and shortening them. */
  lemma AdmittedClosed(texts: seq<Bytes>, fewer: seq<Bytes>)
    requires Admitted(texts) && |fewer| <= |texts|
    requires forall i | 0 <= i < |fewer| :: exists j :: 0 <= j < |texts| && |fewer[i]| <= |texts[j]|
    ensures Admitted(fewer)
  {
    if fewer != [] {
      forall i | 0 <= i < |fewer| ensures |fewer[i]| <= Longest(texts) {
        var j :| 0 <= j < |texts| && |fewer[i]| <= |texts[j]|;
        LongestBounds(texts, j);
      }
      LongestAtMost(fewer, Longest(texts));
      var a, b := TokenEstimate(Longest(fewer)), TokenEstimate(Longest(texts));
      ProductMonotone(|fewer|, |texts|, a, b);
    }
  }

  /** An admitted batch's estimates together stay within one text's cap. */
  lemma AdmittedTotal(texts: seq<Bytes>)
    requires Admitted(texts)
    ensures TokenEstimates(texts) <= EMBED_MAX_TOKENS
  {
    forall i | 0 <= i < |texts| ensures |texts[i]| <= Longest(texts) {
      LongestBounds(texts, i);
    }
    EstimatesAtMost(texts, Longest(texts));
  }

  lemma OneTextIsAdmitted(text: Bytes)
    ensures Admitted([text])
  {
  }

  /**
   * EmbedFullBatch checks the batch and then fits it: what reaches the model is
   * still an admitted batch, one prefix of each text, within the token budget.
   */
  lemma FittedBatchIsAdmitted(texts: seq<Bytes>, maxTokens: int, count: Counter)
    requires Counts(count) && Admitted(texts) && FitTexts(texts, maxTokens, count).0.Fitted?
    ensures var fitted := FitTexts(texts, maxTokens, count).0.texts;
            Admitted(fitted) && Prefixes(fitted, texts) && TokenEstimates(fitted) <= EMBED_MAX_TOKENS
  {
    FitIsSound(texts, maxTokens, count);
    hide FitTexts;
    var fitted := FitTexts(texts, maxTokens, count).0.texts;
    AdmittedClosed(texts, fitted);
    AdmittedTotal(fitted);
  }
}
