/**
 * Flag values as the CLI keeps them across requests: pflag's own slice value
 * with its private "changed" bit, the wrapper that masks that bit after a reset
 * (cmd/flag_reset_helpers.go), and the wrapper that remembers every occurrence
 * of a flag (cmd/ask_vault_flag.go).
 *
 * The first half states what each value does as functions on a state; the
 * classes below are proved against those functions.
 */
module SliceFlags {
  import opened Wrappers

  /** What registration fixed about a flag: how its text is read, and its default. */
  datatype Decl = Decl(
    isSlice: bool,
    parse: string -> Option<string>, decode: string -> Option<seq<string>>, readCsv: string -> Option<seq<string>>,
    defText: string, initial: seq<string>)

  /** pflag.stringSliceValue and stringArrayValue: the destination and the private bit. */
  datatype Slice = Slice(value: seq<string>, changed: bool)

  datatype Base =
    | Scalar(text: string)
    | Plain(inner: Slice)
    | Resettable(inner: Slice, defaults: seq<string>, changed: bool)

  /** A pflag.Flag: its value, whether repeats are tracked, the recorded occurrences, Flag.Changed. */
  datatype Flag = Flag(base: Base, tracked: bool, given: seq<string>, changed: bool)

  // ------------------------------------------------------------ behaviour

  function SetSlice(decode: string -> Option<seq<string>>, s: Slice, text: string): (Slice, bool) {
    match decode(text)
    case None => (s, false)
    case Some(items) => (Slice(if s.changed then s.value + items else items, true), true)
  }

  function SetResettable(decode: string -> Option<seq<string>>, inner: Slice, changed: bool, text: string): (Slice, bool, bool) {
    if changed then
      var (after, ok) := SetSlice(decode, inner, text);
      (after, true, ok)
    else
      var (after, ok) := SetSlice(decode, inner.(value := []), text);
      if ok then (after, true, true) else (after.(value := inner.value), false, false)
  }

  function SetBase(d: Decl, b: Base, text: string): (Base, bool) {
    match b
    case Scalar(_) => (match d.parse(text) case None => (b, false) case Some(v) => (Scalar(v), true))
    case Plain(inner) => var (after, ok) := SetSlice(d.decode, inner, text); (Plain(after), ok)
    case Resettable(inner, defaults, changed) =>
      var (after, changed', ok) := SetResettable(d.decode, inner, changed, text);
      (Resettable(after, defaults, changed'), ok)
  }

  /** pflag's FlagSet.Set: the flag's value takes the text, and Changed records a success. */
  function SetFlag(d: Decl, f: Flag, text: string): (Flag, bool) {
    var (base, ok) := SetBase(d, f.base, text);
    (Flag(base, f.tracked, if f.tracked then f.given + [text] else f.given, f.changed || ok), ok)
  }

  function ReadDefaults(d: Decl): seq<string> {
    var raw := TrimBrackets(d.defText);
    if raw == "" then [] else d.readCsv(raw).GetOr([])
  }

  function TrimBrackets(s: string): string {
    var open := if |s| > 0 && s[0] == '[' then s[1..] else s;
    if |open| > 0 && open[|open| - 1] == ']' then open[..|open| - 1] else open
  }

  function ResetBase(d: Decl, b: Base): Base {
    match b
    case Scalar(_) => SetBase(d, b, d.defText).0
    case Plain(inner) => Resettable(inner.(value := ReadDefaults(d)), ReadDefaults(d), false)
    case Resettable(inner, defaults, _) => Resettable(inner.(value := defaults), defaults, false)
  }

  /** The reset closure of resetFlagsRecursive. */
  function ResetFlag(d: Decl, f: Flag): Flag {
    Flag(ResetBase(d, f.base), f.tracked, if f.tracked then [] else f.given, false)
  }

  /** A flag as a fresh process registers it. */
  function Fresh(d: Decl, tracked: bool): Flag {
    Flag(if d.isSlice then Plain(Slice(d.initial, false)) else Scalar(d.defText), tracked, [], false)
  }

  // ------------------------------------------------------------ what is assumed and kept

  /** pflag's registration contract: a default printed as DefValue reads back as itself. */
  ghost predicate DefaultReadsBack(d: Decl) {
    if d.isSlice then ReadDefaults(d) == d.initial else d.parse(d.defText) == Some(d.defText)
  }

  /** Every flag reachable from registration: the mask never claims a Set the inner value has not seen. */
  ghost predicate WellFormed(d: Decl, f: Flag) {
    && d.isSlice == !f.base.Scalar?
    && (f.base.Resettable? ==> f.base.defaults == d.initial && (f.base.changed ==> f.base.inner.changed))
    && (!f.tracked ==> f.given == [])
  }

  /** What a command can read: the value, Flag.Changed, and the recorded occurrences. */
  datatype View = ScalarView(text: string, changed: bool, given: seq<string>)
                | SliceView(items: seq<string>, changed: bool, given: seq<string>)

  function Look(f: Flag): View {
    match f.base
    case Scalar(text) => ScalarView(text, f.changed, f.given)
    case Plain(inner) => SliceView(inner.value, f.changed, f.given)
    case Resettable(inner, _, _) => SliceView(inner.value, f.changed, f.given)
  }

  datatype Op = Set(text: string) | Reset

  function Apply(d: Decl, f: Flag, op: Op): Flag {
    match op case Set(text) => SetFlag(d, f, text).0 case Reset => ResetFlag(d, f)
  }

  function Run(d: Decl, f: Flag, ops: seq<Op>): (r: Flag)
    ensures r.tracked == f.tracked
    decreases |ops|
  {
    if ops == [] then f else Run(d, Apply(d, f, ops[0]), ops[1..])
  }

  /** Everything observable while the texts are set one after another: each view and each error. */
  function Observe(d: Decl, f: Flag, texts: seq<string>): seq<(View, bool)>
    decreases |texts|
  {
    if texts == [] then []
    else var (next, ok) := SetFlag(d, f, texts[0]); [(Look(next), ok)] + Observe(d, next, texts[1..])
  }

  // ------------------------------------------------------------ refinement

  /** The bit that decides whether the next Set replaces or appends. */
  function Appends(b: Base): bool {
    match b case Scalar(_) => false case Plain(inner) => inner.changed case Resettable(_, _, changed) => changed
  }

  /** Two flags no later Set can tell apart. */
  ghost predicate Alike(d: Decl, f: Flag, g: Flag) {
    WellFormed(d, f) && WellFormed(d, g) && f.tracked == g.tracked && Look(f) == Look(g) && Appends(f.base) == Appends(g.base)
  }

  lemma SetKeepsAlike(d: Decl, f: Flag, g: Flag, text: string)
    requires Alike(d, f, g)
    ensures Alike(d, SetFlag(d, f, text).0, SetFlag(d, g, text).0)
    ensures SetFlag(d, f, text).1 == SetFlag(d, g, text).1
  {
  }

  lemma {:induction false} AlikeObservesAlike(d: Decl, f: Flag, g: Flag, texts: seq<string>)
    requires Alike(d, f, g)
    ensures Observe(d, f, texts) == Observe(d, g, texts)
    decreases |texts|
  {
    if texts != [] {
      SetKeepsAlike(d, f, g, texts[0]);
      AlikeObservesAlike(d, SetFlag(d, f, texts[0]).0, SetFlag(d, g, texts[0]).0, texts[1..]);
    }
  }

  lemma {:induction false} RunKeepsWellFormed(d: Decl, f: Flag, ops: seq<Op>)
    requires DefaultReadsBack(d) && WellFormed(d, f)
    ensures WellFormed(d, Run(d, f, ops))
    decreases |ops|
  {
    if ops != [] {
      RunKeepsWellFormed(d, Apply(d, f, ops[0]), ops[1..]);
    }
  }

  lemma ResetIsFresh(d: Decl, f: Flag)
    requires DefaultReadsBack(d) && WellFormed(d, f)
    ensures Alike(d, ResetFlag(d, f), Fresh(d, f.tracked))
    ensures ResetFlag(d, ResetFlag(d, f)) == ResetFlag(d, f)
  {
  }

  /**
   * Whatever was set, refused or reset before, once a flag is reset every later
   * sequence of Sets gives the values, Changed bits, recorded occurrences and
   * errors of a freshly registered flag.
   */
  lemma ResetRefinesFresh(d: Decl, tracked: bool, history: seq<Op>, texts: seq<string>)
    requires DefaultReadsBack(d)
    ensures var r := ResetFlag(d, Run(d, Fresh(d, tracked), history));
            Look(r) == Look(Fresh(d, tracked)) && Observe(d, r, texts) == Observe(d, Fresh(d, tracked), texts)
  {
    var f := Run(d, Fresh(d, tracked), history);
    RunKeepsWellFormed(d, Fresh(d, tracked), history);
    ResetIsFresh(d, f);
    AlikeObservesAlike(d, ResetFlag(d, f), Fresh(d, tracked), texts);
  }

  /** The texts set since the last reset. */
  function SinceReset(ops: seq<Op>): seq<string> {
    if ops == [] then []
    else match ops[|ops| - 1]
      case Reset => []
      case Set(text) => SinceReset(ops[..|ops| - 1]) + [text]
  }

  lemma {:induction false} RunSnoc(d: Decl, f: Flag, ops: seq<Op>, op: Op)
    ensures Run(d, f, ops + [op]) == Apply(d, Run(d, f, ops), op)
    decreases |ops|
  {
    if ops == [] {
      assert ops + [op] == [op];
      assert Run(d, Apply(d, f, op), []) == Apply(d, f, op);
    } else {
      assert (ops + [op])[1..] == ops[1..] + [op];
      RunSnoc(d, Apply(d, f, ops[0]), ops[1..], op);
    }
  }

  /** A tracked flag holds exactly the texts of the Sets, refused ones included, since the last reset. */
  lemma {:induction false} GivenIsSinceReset(d: Decl, history: seq<Op>)
    requires DefaultReadsBack(d)
    ensures Run(d, Fresh(d, true), history).given == SinceReset(history)
    decreases |history|
  {
    if history != [] {
      var last := |history| - 1;
      GivenIsSinceReset(d, history[..last]);
      RunSnoc(d, Fresh(d, true), history[..last], history[last]);
      assert history[..last] + [history[last]] == history;
    }
  }

  // ------------------------------------------------------------ what Sets give

  function SetOps(texts: seq<string>): (r: seq<Op>)
    ensures |r| == |texts| && forall i | 0 <= i < |texts| :: r[i] == Set(texts[i])
  {
    seq(|texts|, i requires 0 <= i < |texts| => Set(texts[i]))
  }

  /** The items of all the texts that can be decoded, one text after another. */
  function Items(decode: string -> Option<seq<string>>, texts: seq<string>): seq<string> {
    if texts == [] then []
    else Items(decode, texts[..|texts| - 1]) + decode(texts[|texts| - 1]).GetOr([])
  }

  /** The value of the last text that can be read, or the default. */
  function LastRead(parse: string -> Option<string>, default: string, texts: seq<string>): string {
    if texts == [] then default
    else parse(texts[|texts| - 1]).GetOr(LastRead(parse, default, texts[..|texts| - 1]))
  }

  /** The flag's value takes this text. */
  predicate Accepts(d: Decl, text: string) {
    if d.isSlice then d.decode(text).Some? else d.parse(text).Some?
  }

  predicate AcceptsOne(d: Decl, texts: seq<string>) {
    exists i | 0 <= i < |texts| :: Accepts(d, texts[i])
  }

  /** What a command reads of a flag that was registered and given these texts. */
  function Given(d: Decl, tracked: bool, texts: seq<string>): View {
    var given := if tracked then texts else [];
    if d.isSlice then SliceView(if AcceptsOne(d, texts) then Items(d.decode, texts) else d.initial, AcceptsOne(d, texts), given)
    else ScalarView(LastRead(d.parse, d.defText, texts), AcceptsOne(d, texts), given)
  }

  /** A Set fails exactly when the text cannot be read. */
  lemma SetFailsWhen(d: Decl, f: Flag, text: string)
    requires WellFormed(d, f)
    ensures SetFlag(d, f, text).1 <==> Accepts(d, text)
  {
  }

  lemma AcceptsOneMore(d: Decl, texts: seq<string>, text: string)
    ensures AcceptsOne(d, texts + [text]) <==> AcceptsOne(d, texts) || Accepts(d, text)
  {
    if i :| 0 <= i < |texts| && Accepts(d, texts[i]) {
      assert (texts + [text])[i] == texts[i];
    }
    assert (texts + [text])[|texts|] == text;
  }

  /**
   * A registered flag given some texts holds, if a slice, the items of all that
   * can be decoded and its default only if none can; otherwise the last value
   * that can be read. It is Changed exactly if one was accepted.
   */
  lemma {:induction false} FreshSetsGive(d: Decl, tracked: bool, texts: seq<string>)
    ensures var r := Run(d, Fresh(d, tracked), SetOps(texts));
            && Look(r) == Given(d, tracked, texts) && r.tracked == tracked && r.base.Scalar? == !d.isSlice
            && (d.isSlice ==> r.base.Plain? && r.base.inner.changed == AcceptsOne(d, texts))
    decreases |texts|
  {
    if texts == [] {
      assert SetOps(texts) == [];
    } else {
      var front, text := texts[..|texts| - 1], texts[|texts| - 1];
      FreshSetsGive(d, tracked, front);
      assert texts == front + [text] && SetOps(texts) == SetOps(front) + [Set(text)];
      RunSnoc(d, Fresh(d, tracked), SetOps(front), Set(text));
      AcceptsOneMore(d, front, text);
      if !AcceptsOne(d, front) {
        NoneAccepted(d, front);
      }
      assert [] + d.decode(text).GetOr([]) == d.decode(text).GetOr([]);
    }
  }

  lemma {:induction false} NoneAccepted(d: Decl, texts: seq<string>)
    requires !AcceptsOne(d, texts)
    ensures d.isSlice ==> Items(d.decode, texts) == []
    ensures !d.isSlice ==> LastRead(d.parse, d.defText, texts) == d.defText
  {
    if texts != [] {
      var front, text := texts[..|texts| - 1], texts[|texts| - 1];
      assert texts == front + [text];
      AcceptsOneMore(d, front, text);
      NoneAccepted(d, front);
    }
  }

  lemma {:induction false} RunKeepsAlike(d: Decl, f: Flag, g: Flag, texts: seq<string>)
    requires Alike(d, f, g)
    ensures Alike(d, Run(d, f, SetOps(texts)), Run(d, g, SetOps(texts)))
    decreases |texts|
  {
    hide Alike;
    hide SetFlag;
    if texts == [] {
      assert SetOps(texts) == [];
    } else {
      SetKeepsAlike(d, f, g, texts[0]);
      assert SetOps(texts)[1..] == SetOps(texts[1..]);
      RunKeepsAlike(d, SetFlag(d, f, texts[0]).0, SetFlag(d, g, texts[0]).0, texts[1..]);
    }
  }

  /** After any history and a reset, the texts a request gives are all its command reads: nothing older shows. */
  lemma ResetSetsGive(d: Decl, tracked: bool, history: seq<Op>, texts: seq<string>)
    requires DefaultReadsBack(d)
    ensures Look(Run(d, ResetFlag(d, Run(d, Fresh(d, tracked), history)), SetOps(texts))) == Given(d, tracked, texts)
  {
    var f := Run(d, Fresh(d, tracked), history);
    RunKeepsWellFormed(d, Fresh(d, tracked), history);
    ResetIsFresh(d, f);
    RunKeepsAlike(d, ResetFlag(d, f), Fresh(d, tracked), texts);
    FreshSetsGive(d, tracked, texts);
  }

  /**
   * Without the mask the reset would not work: once pflag's own bit is set,
   * Replace and Flag.Changed = false still leave the next Set appending.
   */
  lemma UnmaskedResetLeaks(decode: string -> Option<seq<string>>, s: Slice, defaults: seq<string>, text: string)
    requires s.changed && decode(text).Some?
    ensures SetSlice(decode, s.(value := defaults), text).0.value == defaults + decode(text).value
    ensures SetSlice(decode, s.(value := defaults), text).0.value == SetSlice(decode, Slice(defaults, false), text).0.value
            <==> defaults == []
  {
  }

  // ------------------------------------------------------------ the objects

  class SliceValue {
    const decode: string -> Option<seq<string>>
    var value: seq<string>
    var changed: bool

    constructor (decode: string -> Option<seq<string>>, initial: seq<string>)
      ensures this.decode == decode && State() == Slice(initial, false)
    {
      this.decode, value, changed := decode, initial, false;
    }

    function State(): Slice reads this { Slice(value, changed) }

    method Set(text: string) returns (ok: bool)
      modifies this
      ensures (State(), ok) == SetSlice(decode, old(State()), text)
    {
      var items := decode(text);
      if items.None? { return false; }
      if !changed {
        value := items.value;
      } else {
        value := value + items.value;
      }
      changed := true;
      ok := true;
    }

    method Replace(items: seq<string>)
      modifies this
      ensures State() == Slice(items, old(changed))
    {
      value := items;
    }
  }

  class ResettableSlice {
    const inner: SliceValue
    const defaults: seq<string>
    var changed: bool

    constructor (inner: SliceValue, defaults: seq<string>)
      ensures this.inner == inner && this.defaults == defaults && !changed
    {
      this.inner, this.defaults, changed := inner, defaults, false;
    }

    method Set(text: string) returns (ok: bool)
      modifies this, inner
      ensures (inner.State(), changed, ok) == SetResettable(inner.decode, old(inner.State()), old(changed), text)
    {
      if changed {
        ok := inner.Set(text);
        return;
      }
      var previous := inner.value;
      inner.Replace([]);
      ok := inner.Set(text);
      if !ok {
        inner.Replace(previous);
        return;
      }
      changed := true;
    }
  }

  class ScalarValue {
    const parse: string -> Option<string>
    var text: string

    constructor (parse: string -> Option<string>, text: string)
      ensures this.parse == parse && this.text == text
    {
      this.parse, this.text := parse, text;
    }

    method Set(s: string) returns (ok: bool)
      modifies this
      ensures match parse(s) case None => !ok && text == old(text) case Some(v) => ok && text == v
    {
      var v := parse(s);
      if v.None? { return false; }
      text := v.value;
      ok := true;
    }
  }

  /** The pflag.Value behind a flag, before any repeat tracking. */
  datatype BaseRef = ScalarRef(scalar: ScalarValue) | PlainRef(slice: SliceValue) | ResettableRef(masked: ResettableSlice)

  function BaseState(b: BaseRef): Base
    reads Objects(b)
  {
    match b
    case ScalarRef(v) => Scalar(v.text)
    case PlainRef(v) => Plain(v.State())
    case ResettableRef(v) => Resettable(v.inner.State(), v.defaults, v.changed)
  }

  ghost function Objects(b: BaseRef): set<object> {
    match b case ScalarRef(v) => {v} case PlainRef(v) => {v} case ResettableRef(v) => {v, v.inner}
  }

  ghost predicate ReadsAs(d: Decl, b: BaseRef) {
    match b
    case ScalarRef(v) => !d.isSlice && v.parse == d.parse
    case PlainRef(v) => d.isSlice && v.decode == d.decode
    case ResettableRef(v) => d.isSlice && v.inner.decode == d.decode
  }

  class FlagObject {
    const decl: Decl
    var value: BaseRef
    var tracked: bool
    var given: seq<string>
    var changed: bool

    ghost predicate Valid()
      reads this
    {
      ReadsAs(decl, value) && this !in Objects(value)
    }

    function State(): Flag
      reads this, Objects(value)
    {
      Flag(BaseState(value), tracked, given, changed)
    }

    constructor (decl: Decl)
      ensures Valid() && fresh(Objects(value)) && this.decl == decl && State() == Fresh(decl, false)
    {
      this.decl := decl;
      tracked, given, changed := false, [], false;
      if !decl.isSlice {
        var v := new ScalarValue(decl.parse, decl.defText);
        value := ScalarRef(v);
      } else {
        var v := new SliceValue(decl.decode, decl.initial);
        value := PlainRef(v);
      }
    }

    /** trackRepeats: wrap the value so that it remembers its occurrences, once. */
    method TrackRepeats()
      requires Valid()
      modifies this
      ensures Valid() && value == old(value)
      ensures State() == if old(tracked) then old(State()) else old(State()).(tracked := true, given := [])
    {
      if tracked { return; }
      tracked, given := true, [];
    }

    /** repeatedFlagValue.Set inside pflag's FlagSet.Set. */
    method Set(text: string) returns (ok: bool)
      requires Valid()
      modifies this, Objects(value)
      ensures Valid() && value == old(value)
      ensures (State(), ok) == SetFlag(decl, old(State()), text)
    {
      if tracked {
        given := given + [text];
      }
      match value {
        case ScalarRef(v) => ok := v.Set(text);
        case PlainRef(v) => ok := v.Set(text);
        case ResettableRef(v) => ok := v.Set(text);
      }
      if ok {
        changed := true;
      }
    }

    /** resetFlagValue, Changed = false, and the tracker's Reset, in that order. */
    method Reset()
      requires Valid()
      modifies this, Objects(value)
      ensures Valid() && fresh(Objects(value) - old(Objects(value)))
      ensures State() == ResetFlag(decl, old(State()))
    {
      match value {
        case ScalarRef(v) =>
          var _ := v.Set(decl.defText);
        case PlainRef(v) =>
          var defaults := [];
          var raw := TrimBrackets(decl.defText);
          if raw != "" {
            defaults := decl.readCsv(raw).GetOr([]);
          }
          var masked := new ResettableSlice(v, defaults);
          masked.inner.Replace(masked.defaults);
          value := ResettableRef(masked);
        case ResettableRef(v) =>
          v.inner.Replace(v.defaults);
          v.changed := false;
      }
      changed := false;
      if tracked {
        given := [];
      }
    }
  }
}
