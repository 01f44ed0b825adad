/**
 * The warm server: one process that answers many CLI requests, each in the
 * caller's directory and environment and from a reset CLI
 * (cmd/serve_helpers.go, cmd/execute_helpers.go). Class Process is the state
 * the process keeps between requests; the functions state what each operation
 * does to it, and Isolation says what follows for whole runs of requests.
 */
module WarmServer {
  import opened Wrappers
  import opened SliceFlags

  type FlagName = string

  /** The command tree: each command's local and persistent flags, and its subcommands. */
  datatype Command = Command(name: string, flags: seq<FlagName>, persistent: seq<FlagName>, children: seq<Command>)

  datatype Context = Background | WithSession(session: string)

  /** What registration fixed before the first request. */
  datatype Cli = Cli(root: Command, decls: map<FlagName, Decl>, tracked: set<FlagName>, bindings: seq<(string, FlagName)>)

  /** bare holds inherited environment entries without "=": os.Environ lists them, and nothing can look them up. */
  datatype World = World(
    flags: map<FlagName, Flag>, contexts: map<string, Context>, viper: map<string, FlagName>,
    outputMode: string, commandName: string, configUsed: string, configStatus: string,
    askPath: string, askStart: int, session: Option<string>,
    env: map<string, string>, bare: set<string>, dir: string)

  /** received is None for a zero time. */
  datatype Request = Request(args: seq<string>, dir: string, env: map<string, string>, received: Option<int>)

  /** What the operating system answers during one request. */
  datatype Host = Host(getwd: bool, canEnter: string -> bool, canEnterAfter: string -> bool, now: int)

  /** What the request's command does: it sets flags and may leave anything else behind. */
  datatype Effect = Effect(sets: seq<(FlagName, string)>, left: World)

  const SERVED := "served"

  // ------------------------------------------------------------ the command tree

  function FlagsOf(c: Command): set<FlagName> {
    Elements(c.flags) + Elements(c.persistent) + FlagsOfAll(c.children)
  }

  function Elements(names: seq<FlagName>): set<FlagName> {
    set f | f in names
  }

  function FlagsOfAll(cs: seq<Command>): set<FlagName> {
    if cs == [] then {} else FlagsOfAll(cs[..|cs| - 1]) + FlagsOf(cs[|cs| - 1])
  }

  function NamesOf(c: Command): set<string> {
    {c.name} + NamesOfAll(c.children)
  }

  function NamesOfAll(cs: seq<Command>): set<string> {
    if cs == [] then {} else NamesOfAll(cs[..|cs| - 1]) + NamesOf(cs[|cs| - 1])
  }

  ghost predicate Registered(cli: Cli) {
    cli.decls.Keys == FlagsOf(cli.root) && DefaultsReadBack(cli)
  }

  ghost predicate DefaultsReadBack(cli: Cli) {
    forall f | f in cli.decls :: DefaultReadsBack(cli.decls[f])
  }

  /** A world some run of commands can leave behind, between requests or inside one. */
  ghost predicate Sound(cli: Cli, w: World) {
    && FlagsSound(cli, w.flags)
    && w.contexts.Keys == NamesOf(cli.root)
    && (forall k | k in w.env :: '=' !in k)
    && (forall kv | kv in w.bare :: '=' !in kv)
  }

  ghost predicate FlagsSound(cli: Cli, flags: map<FlagName, Flag>) {
    && flags.Keys == cli.decls.Keys
    && forall f | f in flags :: WellFormed(cli.decls[f], flags[f]) && flags[f].tracked == (f in cli.tracked)
  }

  // ------------------------------------------------------------ the environment

  /** os.Setenv refuses an empty key, a key with = or NUL, and a value with NUL. */
  predicate Settable(k: string, v: string) {
    k != "" && '=' !in k && '\0' !in k && '\0' !in v
  }

  function Setenv(env: map<string, string>, k: string, v: string): map<string, string> {
    if Settable(k, v) then env[k := v] else env
  }

  function SettableOf(env: map<string, string>): map<string, string> {
    map k | k in env && Settable(k, env[k]) :: env[k]
  }

  /** strings.Cut(kv, "="). */
  function Cut(kv: string): Option<(string, string)> {
    if kv == "" then None
    else if kv[0] == '=' then Some(("", kv[1..]))
    else match Cut(kv[1..]) case None => None case Some((k, v)) => Some(([kv[0]] + k, v))
  }

  /** The loop of setEnv, from an empty environment. */
  function SetAll(kvs: seq<string>): map<string, string> {
    if kvs == [] then map[]
    else
      var env := SetAll(kvs[..|kvs| - 1]);
      match Cut(kvs[|kvs| - 1]) case None => env case Some((k, v)) => Setenv(env, k, v)
  }

  /** The loop of tryServer that builds the request's environment. */
  function Packed(kvs: seq<string>): map<string, string> {
    if kvs == [] then map[]
    else
      var env := Packed(kvs[..|kvs| - 1]);
      match Cut(kvs[|kvs| - 1]) case None => env case Some((k, v)) => env[k := v]
  }

  ghost predicate IsEntry(env: map<string, string>, kv: string) {
    exists k :: k in env && kv == k + "=" + env[k]
  }

  /** kvs is what os.Environ may return for an environment, in any order. */
  ghost predicate Lists(kvs: seq<string>, env: map<string, string>, bare: set<string>) {
    && (forall k | k in env :: '=' !in k && k + "=" + env[k] in kvs)
    && (forall kv | kv in bare :: '=' !in kv && kv in kvs)
    && (forall kv | kv in kvs :: IsEntry(env, kv) || kv in bare)
  }

  /** Every entry of the environment can be set again. */
  ghost predicate Resettable(env: map<string, string>, bare: set<string>) {
    bare == {} && forall k | k in env :: Settable(k, env[k])
  }

  lemma {:induction false} CutOfEntry(k: string, v: string)
    requires '=' !in k
    ensures Cut(k + "=" + v) == Some((k, v))
  {
    var kv := k + "=" + v;
    if k == "" {
      assert kv[0] == '=' && kv[1..] == v;
    } else {
      assert kv[0] == k[0] && kv[1..] == k[1..] + "=" + v && k == [k[0]] + k[1..];
      CutOfEntry(k[1..], v);
    }
  }

  lemma {:induction false} CutOfBare(kv: string)
    requires '=' !in kv
    ensures Cut(kv) == None
  {
    if kv != "" {
      CutOfBare(kv[1..]);
    }
  }

  /** A part of a listing: every entry is some entry of env, or bare. */
  ghost predicate Entries(kvs: seq<string>, env: map<string, string>) {
    && (forall k | k in env :: '=' !in k)
    && (forall kv | kv in kvs :: IsEntry(env, kv) || '=' !in kv)
  }

  lemma {:induction false} LoopsReadEntries(kvs: seq<string>, env: map<string, string>)
    requires Entries(kvs, env)
    ensures forall k :: k in SetAll(kvs) <==> k in env && Settable(k, env[k]) && k + "=" + env[k] in kvs
    ensures forall k | k in SetAll(kvs) :: SetAll(kvs)[k] == env[k]
    ensures forall k :: k in Packed(kvs) <==> k in env && k + "=" + env[k] in kvs
    ensures forall k | k in Packed(kvs) :: Packed(kvs)[k] == env[k]
  {
    if kvs != [] {
      var last := |kvs| - 1;
      LoopsReadEntries(kvs[..last], env);
      assert kvs == kvs[..last] + [kvs[last]];
      forall j | j in env && j + "=" + env[j] == kvs[last] ensures Cut(kvs[last]) == Some((j, env[j])) {
        CutOfEntry(j, env[j]);
      }
      if IsEntry(env, kvs[last]) {
        var k :| k in env && kvs[last] == k + "=" + env[k];
      } else {
        CutOfBare(kvs[last]);
      }
    }
  }

  /**
   * Saving an environment and setting it back gives the entries that can be
   * set; that is the whole of it exactly when all can, and none is bare.
   */
  lemma EnvironmentRestored(kvs: seq<string>, env: map<string, string>, bare: set<string>)
    requires Lists(kvs, env, bare)
    ensures SetAll(kvs) == SettableOf(env)
    ensures SetAll(kvs) == env && bare == {} <==> Resettable(env, bare)
  {
    LoopsReadEntries(kvs, env);
  }

  /**
   * The client sends every named entry of its environment and no bare one; the
   * request's command sees the whole of it exactly when every entry can be set.
   */
  lemma ClientEnvironmentForwarded(kvs: seq<string>, env: map<string, string>, bare: set<string>)
    requires Lists(kvs, env, bare)
    ensures Packed(kvs) == env
    ensures SettableOf(Packed(kvs)) == env && bare == {} <==> Resettable(env, bare)
  {
    LoopsReadEntries(kvs, env);
  }

  /** Entry i gives a value to the name k. */
  predicate Names(kvs: seq<string>, i: int, k: string) {
    0 <= i < |kvs| && Cut(kvs[i]).Some? && Cut(kvs[i]).value.0 == k
  }

  predicate Sets(kvs: seq<string>, i: int, k: string) {
    Names(kvs, i, k) && Settable(k, Cut(kvs[i]).value.1)
  }

  /** Whatever the entries, setEnv leaves each name the value of its last entry that can be set, and no other name. */
  lemma {:induction false} LastEntryWins(kvs: seq<string>)
    ensures forall k :: k in SetAll(kvs) <==> exists i :: Sets(kvs, i, k)
    ensures forall k, i | Sets(kvs, i, k) && (forall j | j > i :: !Sets(kvs, j, k)) :: SetAll(kvs)[k] == Cut(kvs[i]).value.1
  {
    if kvs != [] {
      var n := |kvs| - 1;
      var front := kvs[..n];
      LastEntryWins(front);
      forall i, k | i < n ensures Sets(front, i, k) == Sets(kvs, i, k) {
        assert 0 <= i ==> front[i] == kvs[i];
      }
      forall k ensures k in SetAll(kvs) <==> exists i :: Sets(kvs, i, k) {
        if k in SetAll(front) {
          var i :| Sets(front, i, k);
          assert Sets(kvs, i, k);
        }
        if i :| Sets(kvs, i, k) {
          assert i < n ==> Sets(front, i, k);
        }
        assert Sets(kvs, n, k) ==> k in SetAll(kvs);
      }
      forall k, i | Sets(kvs, i, k) && forall j | j > i :: !Sets(kvs, j, k) ensures SetAll(kvs)[k] == Cut(kvs[i]).value.1 {
        if i < n {
          assert !Sets(kvs, n, k) && Sets(front, i, k);
          assert forall j | j > i :: Sets(front, j, k) ==> Sets(kvs, j, k);
        }
      }
    }
  }

  /** An entry with an empty name, which an inherited environment may hold, is lost: the claim is not unconditional. */
  lemma EmptyNameIsLost(v: string)
    ensures Lists(["" + "=" + v], map["" := v], {}) && SetAll(["" + "=" + v]) == map[]
  {
    var env := map["" := v];
    assert "" + "=" + env[""] in ["" + "=" + v];
    EnvironmentRestored(["" + "=" + v], env, {});
  }

  /** And so is an entry without an equals sign. */
  lemma BareEntryIsLost(kv: string)
    requires '=' !in kv
    ensures Lists([kv], map[], {kv}) && SetAll([kv]) == Packed([kv]) == map[]
  {
    LoopsReadEntries([kv], map[]);
  }

  // ------------------------------------------------------------ operations on the world

  ghost predicate IsReset(cli: Cli, before: map<FlagName, Flag>, after: map<FlagName, Flag>, which: set<FlagName>) {
    && after.Keys == before.Keys
    && forall f | f in before :: after[f] == (if f in which && f in cli.decls then ResetFlag(cli.decls[f], before[f]) else before[f])
  }

  function ResetAll(cli: Cli, flags: map<FlagName, Flag>): map<FlagName, Flag> {
    map f | f in flags :: if f in cli.decls then ResetFlag(cli.decls[f], flags[f]) else flags[f]
  }

  function Cleared(contexts: map<string, Context>): map<string, Context> {
    map c | c in contexts :: Background
  }

  function Bound(bindings: seq<(string, FlagName)>): map<string, FlagName> {
    if bindings == [] then map[]
    else Bound(bindings[..|bindings| - 1])[bindings[|bindings| - 1].0 := bindings[|bindings| - 1].1]
  }

  /** Entry i is the last of its key. */
  ghost predicate LastOfKey(bindings: seq<(string, FlagName)>, i: int) {
    0 <= i < |bindings| && forall j | i < j < |bindings| :: bindings[j].0 != bindings[i].0
  }

  /** The config knows exactly the keys bound at registration, each by the flag it was last bound to. */
  ghost predicate Registers(viper: map<string, FlagName>, bindings: seq<(string, FlagName)>) {
    && (forall k :: k in viper <==> exists i :: 0 <= i < |bindings| && bindings[i].0 == k)
    && (forall i | LastOfKey(bindings, i) :: bindings[i].0 in viper && viper[bindings[i].0] == bindings[i].1)
  }

  lemma {:induction false} BoundKeys(bindings: seq<(string, FlagName)>, k: string)
    ensures k in Bound(bindings) <==> exists i :: 0 <= i < |bindings| && bindings[i].0 == k
  {
    if bindings != [] {
      var n := |bindings| - 1;
      var front := bindings[..n];
      BoundKeys(front, k);
      if i :| 0 <= i < |front| && front[i].0 == k {
        assert bindings[i].0 == k;
      }
      if i :| 0 <= i < |bindings| && bindings[i].0 == k {
        assert i < n ==> front[i].0 == k;
      }
    }
  }

  lemma {:induction false} BoundLast(bindings: seq<(string, FlagName)>, i: nat)
    requires LastOfKey(bindings, i)
    ensures bindings[i].0 in Bound(bindings) && Bound(bindings)[bindings[i].0] == bindings[i].1
  {
    var n := |bindings| - 1;
    var front := bindings[..n];
    if i < n {
      assert front[i] == bindings[i] && forall j | i < j < n :: front[j] == bindings[j];
      BoundLast(front, i);
      assert bindings[n].0 != bindings[i].0;
    }
  }

  lemma BoundRegisters(bindings: seq<(string, FlagName)>)
    ensures Registers(Bound(bindings), bindings)
  {
    hide Bound;
    forall k ensures k in Bound(bindings) <==> exists i :: 0 <= i < |bindings| && bindings[i].0 == k {
      BoundKeys(bindings, k);
    }
    forall i | LastOfKey(bindings, i) ensures bindings[i].0 in Bound(bindings) && Bound(bindings)[bindings[i].0] == bindings[i].1 {
      BoundLast(bindings, i);
    }
  }

  lemma {:induction false} LastWithKey(bindings: seq<(string, FlagName)>, i: nat) returns (last: nat)
    requires i < |bindings|
    ensures LastOfKey(bindings, last) && bindings[last].0 == bindings[i].0
    decreases |bindings| - i
  {
    if j :| i < j < |bindings| && bindings[j].0 == bindings[i].0 {
      last := LastWithKey(bindings, j);
    } else {
      last := i;
    }
  }

  lemma RegistersOnce(a: map<string, FlagName>, b: map<string, FlagName>, bindings: seq<(string, FlagName)>)
    requires Registers(a, bindings) && Registers(b, bindings)
    ensures a == b
  {
    forall k | k in a ensures k in b && a[k] == b[k] {
      var i :| 0 <= i < |bindings| && bindings[i].0 == k;
      var last := LastWithKey(bindings, i);
    }
    assert forall k :: k in a <==> k in b;
  }

  /** resetCLIState. */
  function ResetWorld(cli: Cli, w: World): World {
    w.(flags := ResetAll(cli, w.flags),
       contexts := Cleared(w.contexts),
       viper := Bound(cli.bindings),
       outputMode := "", commandName := "", configUsed := "", configStatus := "", askPath := "", askStart := 0)
  }

  /** The world as ExecuteWithIO starts on a request. */
  function Started(cli: Cli, w: World, req: Request, host: Host): World {
    ResetWorld(cli, w.(dir := req.dir, env := SettableOf(req.env), bare := {}))
      .(askPath := SERVED, askStart := req.received.GetOr(host.now))
  }

  function AfterSets(cli: Cli, flags: map<FlagName, Flag>, sets: seq<(FlagName, string)>): (r: map<FlagName, Flag>)
    ensures r.Keys == flags.Keys
    decreases |sets|
  {
    if sets == [] then flags
    else
      var (f, text) := sets[0];
      AfterSets(cli, if f in flags && f in cli.decls then flags[f := SetFlag(cli.decls[f], flags[f], text).0] else flags, sets[1..])
  }

  /** The command sets flags, and otherwise leaves behind whatever world it likes. */
  function Executed(cli: Cli, w: World, effect: Effect): World {
    effect.left.(flags := AfterSets(cli, w.flags, effect.sets))
  }

  /** serveExec: the world its command starts in, if it starts, and the world left afterwards. */
  function Serve(cli: Cli, w: World, req: Request, host: Host, effect: Effect): (Option<World>, World) {
    if !host.getwd then (None, w)
    else if !host.canEnter(req.dir) then (None, w.(env := SettableOf(w.env), bare := {}))
    else
      var start := Started(cli, w, req, host);
      var mid := Executed(cli, start, effect);
      (Some(start), mid.(session := None, dir := if host.canEnterAfter(w.dir) then w.dir else mid.dir, env := SettableOf(w.env), bare := {}))
  }

  // ------------------------------------------------------------ isolation

  /** A process that has just started for this request: nothing ran in it before. */
  function FreshWorld(cli: Cli, req: Request, askPath: string, askStart: int): World {
    World(map f | f in cli.decls :: Fresh(cli.decls[f], f in cli.tracked),
          map c | c in NamesOf(cli.root) :: Background,
          Bound(cli.bindings), "", "", "", "", askPath, askStart, None, SettableOf(req.env), {}, req.dir)
  }

  /** The same said of the world's parts, without how any is computed. */
  ghost predicate StartsFresh(cli: Cli, w: World, req: Request, askStart: int) {
    && w.flags.Keys == cli.decls.Keys && (forall f | f in cli.decls :: w.flags[f] == Fresh(cli.decls[f], f in cli.tracked))
    && w.contexts.Keys == NamesOf(cli.root) && (forall c | c in w.contexts :: w.contexts[c] == Background)
    && Registers(w.viper, cli.bindings)
    && w.outputMode == w.commandName == w.configUsed == w.configStatus == "" && w.askPath == "served" && w.askStart == askStart
    && w.session == None && w.bare == {} && w.dir == req.dir
    && (forall k :: k in w.env <==> k in req.env && Settable(k, req.env[k])) && (forall k | k in w.env :: w.env[k] == req.env[k])
  }

  lemma FreshWorldStartsFresh(cli: Cli, req: Request, askStart: int)
    ensures StartsFresh(cli, FreshWorld(cli, req, SERVED, askStart), req, askStart)
  {
    BoundRegisters(cli.bindings);
  }

  /** There is one such world. */
  lemma FreshWorldIsOne(cli: Cli, w: World, req: Request, askStart: int)
    requires StartsFresh(cli, w, req, askStart)
    ensures w == FreshWorld(cli, req, SERVED, askStart)
  {
    var start := FreshWorld(cli, req, SERVED, askStart);
    FreshWorldStartsFresh(cli, req, askStart);
    RegistersOnce(w.viper, start.viper, cli.bindings);
    assert w.flags == start.flags && w.contexts == start.contexts && w.env == start.env;
  }

  /** No command can tell the two worlds apart, now or after setting flags in both. */
  ghost predicate Indistinct(cli: Cli, a: World, b: World) {
    && a.flags.Keys == b.flags.Keys == cli.decls.Keys
    && (forall f | f in cli.decls :: Alike(cli.decls[f], a.flags[f], b.flags[f]))
    && a == b.(flags := a.flags)
  }

  datatype Served = Served(req: Request, host: Host, effect: Effect)

  ghost predicate LeavesSound(cli: Cli, e: Effect) {
    && e.left.contexts.Keys == NamesOf(cli.root)
    && (forall k | k in e.left.env :: '=' !in k) && (forall kv | kv in e.left.bare :: '=' !in kv)
  }

  function After(cli: Cli, w: World, run: seq<Served>): (r: World)
    requires Sound(cli, w) && Registered(cli)
    requires forall s | s in run :: LeavesSound(cli, s.effect)
    ensures Sound(cli, r) && (w.session.None? ==> r.session.None?)
    decreases |run|
  {
    if run == [] then w
    else
      ServeKeepsSound(cli, w, run[0]);
      After(cli, Serve(cli, w, run[0].req, run[0].host, run[0].effect).1, run[1..])
  }

  lemma {:induction false} AfterSetsSound(cli: Cli, flags: map<FlagName, Flag>, sets: seq<(FlagName, string)>)
    requires FlagsSound(cli, flags)
    ensures FlagsSound(cli, AfterSets(cli, flags, sets))
    decreases |sets|
  {
    if sets != [] {
      var (f, text) := sets[0];
      AfterSetsSound(cli, if f in flags && f in cli.decls then flags[f := SetFlag(cli.decls[f], flags[f], text).0] else flags, sets[1..]);
    }
  }

  lemma StartedSound(cli: Cli, w: World, req: Request, host: Host)
    requires Registered(cli) && Sound(cli, w)
    ensures Sound(cli, Started(cli, w, req, host))
  {
    forall f | f in cli.decls ensures WellFormed(cli.decls[f], ResetFlag(cli.decls[f], w.flags[f])) {
      ResetIsFresh(cli.decls[f], w.flags[f]);
    }
  }

  lemma ServeKeepsSound(cli: Cli, w: World, s: Served)
    requires Registered(cli) && Sound(cli, w) && LeavesSound(cli, s.effect)
    ensures var after := Serve(cli, w, s.req, s.host, s.effect).1;
            Sound(cli, after) && (w.session.None? ==> after.session.None?)
  {
    if s.host.getwd && s.host.canEnter(s.req.dir) {
      StartedSound(cli, w, s.req, s.host);
      AfterSetsSound(cli, Started(cli, w, s.req, s.host).flags, s.effect.sets);
    }
  }

  /**
   * Whatever requests ran before, whatever they did, and whether or not they
   * started, the next request that starts sees a world no command can tell
   * from a fresh process's; it depends on the request alone.
   */
  lemma Isolation(cli: Cli, w: World, history: seq<Served>, next: Served)
    requires Registered(cli) && Sound(cli, w) && w.session.None?
    requires forall s | s in history :: LeavesSound(cli, s.effect)
    ensures var (seen, _) := Serve(cli, After(cli, w, history), next.req, next.host, next.effect);
            && (seen.Some? <==> next.host.getwd && next.host.canEnter(next.req.dir))
            && (seen.Some? ==> Registers(seen.value.viper, cli.bindings))
            && (seen.Some? ==> forall start | StartsFresh(cli, start, next.req, next.req.received.GetOr(next.host.now)) :: Indistinct(cli, seen.value, start))
  {
    var before := After(cli, w, history);
    SeenIsFresh(cli, before, next);
    BoundRegisters(cli.bindings);
    forall start | StartsFresh(cli, start, next.req, next.req.received.GetOr(next.host.now))
      ensures start == FreshWorld(cli, next.req, SERVED, next.req.received.GetOr(next.host.now))
    {
      FreshWorldIsOne(cli, start, next.req, next.req.received.GetOr(next.host.now));
    }
  }

  lemma SeenIsFresh(cli: Cli, before: World, next: Served)
    requires Registered(cli) && Sound(cli, before) && before.session.None?
    ensures var (seen, _) := Serve(cli, before, next.req, next.host, next.effect);
            seen.Some? ==> Indistinct(cli, seen.value, FreshWorld(cli, next.req, SERVED, next.req.received.GetOr(next.host.now)))
  {
    forall f | f in cli.decls
      ensures Alike(cli.decls[f], ResetFlag(cli.decls[f], before.flags[f]), Fresh(cli.decls[f], f in cli.tracked))
    {
      ResetIsFresh(cli.decls[f], before.flags[f]);
    }
  }

  lemma OneSetLasts(cli: Cli, a: World, b: World, f: FlagName, text: string)
    requires Indistinct(cli, a, b) && f in cli.decls
    ensures Indistinct(cli, a.(flags := a.flags[f := SetFlag(cli.decls[f], a.flags[f], text).0]),
                       b.(flags := b.flags[f := SetFlag(cli.decls[f], b.flags[f], text).0]))
  {
    hide SetFlag;
    hide Alike;
    SetKeepsAlike(cli.decls[f], a.flags[f], b.flags[f], text);
  }

  /** Being indistinct lasts: the same Sets in both worlds leave them indistinct. */
  lemma {:induction false} IndistinctLasts(cli: Cli, a: World, b: World, sets: seq<(FlagName, string)>)
    requires Indistinct(cli, a, b)
    ensures Indistinct(cli, a.(flags := AfterSets(cli, a.flags, sets)), b.(flags := AfterSets(cli, b.flags, sets)))
    decreases |sets|
  {
    hide SetFlag;
    hide Alike;
    if sets != [] {
      var (f, text) := sets[0];
      if f in cli.decls {
        OneSetLasts(cli, a, b, f, text);
        IndistinctLasts(cli, a.(flags := a.flags[f := SetFlag(cli.decls[f], a.flags[f], text).0]),
                        b.(flags := b.flags[f := SetFlag(cli.decls[f], b.flags[f], text).0]), sets[1..]);
      } else {
        IndistinctLasts(cli, a, b, sets[1..]);
      }
    }
  }

  /** One request leaves the server in its own directory dir. */
  predicate Returns(dir: string, s: Served) {
    !s.host.getwd || !s.host.canEnter(s.req.dir) || s.host.canEnterAfter(dir) || s.effect.left.dir == dir
  }

  /**
   * The server's own directory and environment come back from one request
   * exactly when the directory can still be entered (or the command stayed in
   * it) and every saved entry can be set again.
   */
  lemma OwnStateRestored(cli: Cli, w: World, s: Served)
    requires s.host.getwd
    ensures var after := Serve(cli, w, s.req, s.host, s.effect).1;
            && (after.dir == w.dir <==> Returns(w.dir, s))
            && (after.env == w.env && after.bare == w.bare <==> Resettable(w.env, w.bare))
            && Resettable(after.env, after.bare)
  {
  }

  lemma NothingServed(cli: Cli, w: World, s: Served)
    requires !s.host.getwd
    ensures Serve(cli, w, s.req, s.host, s.effect).1 == w
  {
  }

  /** After any run that served at all, the environment is the entries of the server's own that can be set. */
  lemma {:induction false} RunSettles(cli: Cli, w: World, run: seq<Served>)
    requires Sound(cli, w) && Registered(cli) && forall s | s in run :: LeavesSound(cli, s.effect)
    ensures var r := After(cli, w, run);
            if exists s | s in run :: s.host.getwd then r.env == SettableOf(w.env) && r.bare == {} else r.env == w.env && r.bare == w.bare
    decreases |run|
  {
    hide Sound;
    hide Registered;
    if run != [] {
      var s, rest := run[0], run[1..];
      assert run == [s] + rest;
      ServeKeepsSound(cli, w, s);
      var next := Serve(cli, w, s.req, s.host, s.effect).1;
      RunSettles(cli, next, rest);
      if s.host.getwd {
        ServeSettles(cli, w, s);
        assert SettableOf(SettableOf(w.env)) == SettableOf(w.env);
      } else {
        NothingServed(cli, w, s);
      }
    }
  }

  lemma ServeSettles(cli: Cli, w: World, s: Served)
    requires s.host.getwd
    ensures var next := Serve(cli, w, s.req, s.host, s.effect).1; next.env == SettableOf(w.env) && next.bare == {}
  {
  }

  /** Where a run leaves a server that stood in dir: where its last request that could not return was left, or in dir. */
  function Stands(dir: string, run: seq<Served>): string {
    if run == [] then dir
    else
      var before := Stands(dir, run[..|run| - 1]);
      if Returns(before, run[|run| - 1]) then before else run[|run| - 1].effect.left.dir
  }

  /** Request i could not return to where it found the server. */
  predicate Strays(dir: string, run: seq<Served>, i: int) {
    0 <= i < |run| && !Returns(Stands(dir, run[..i]), run[i])
  }

  lemma {:induction false} StandsOf(dir: string, a: seq<Served>, b: seq<Served>)
    ensures Stands(dir, a + b) == Stands(Stands(dir, a), b)
    decreases |b|
  {
    hide Returns;
    if b == [] {
      assert a + b == a;
    } else {
      assert (a + b)[..|a + b| - 1] == a + b[..|b| - 1];
      StandsOf(dir, a, b[..|b| - 1]);
    }
  }

  lemma ServeStands(cli: Cli, w: World, s: Served)
    ensures Serve(cli, w, s.req, s.host, s.effect).1.dir == Stands(w.dir, [s])
  {
    assert [s][..0] == [];
  }

  lemma {:induction false} RunStands(cli: Cli, w: World, run: seq<Served>)
    requires Sound(cli, w) && Registered(cli) && forall s | s in run :: LeavesSound(cli, s.effect)
    ensures After(cli, w, run).dir == Stands(w.dir, run)
    decreases |run|
  {
    hide Sound;
    hide Registered;
    hide Stands;
    hide Serve;
    if run == [] {
      StandsStill(w.dir);
    } else {
      assert run[0] in run && (forall s | s in run[1..] :: s in run) && run == [run[0]] + run[1..];
      ServeKeepsSound(cli, w, run[0]);
      ServeStands(cli, w, run[0]);
      RunStands(cli, Serve(cli, w, run[0].req, run[0].host, run[0].effect).1, run[1..]);
      StandsOf(w.dir, [run[0]], run[1..]);
    }
  }

  lemma StandsStill(dir: string)
    ensures Stands(dir, []) == dir
  {
  }

  /** The last request of a run that strayed. */
  ghost predicate LastStray(dir: string, run: seq<Served>, i: int) {
    Strays(dir, run, i) && forall j | i < j < |run| :: !Strays(dir, run, j)
  }

  lemma StraysOfPrefix(dir: string, run: seq<Served>, n: nat, i: int)
    requires n <= |run| && i < n
    ensures Strays(dir, run[..n], i) == Strays(dir, run, i)
  {
    hide Returns;
    hide Stands;
    if 0 <= i {
      assert run[..n][..i] == run[..i];
    }
  }

  lemma {:induction false} StandsWhere(dir: string, run: seq<Served>) returns (i: int)
    ensures i == -1 ==> Stands(dir, run) == dir && forall j :: !Strays(dir, run, j)
    ensures i != -1 ==> LastStray(dir, run, i) && Stands(dir, run) == run[i].effect.left.dir
    decreases |run|
  {
    hide Returns;
    i := -1;
    if run != [] {
      var n := |run| - 1;
      if Strays(dir, run, n) {
        i := n;
      } else {
        i := StandsWhere(dir, run[..n]);
        forall j | j < n ensures Strays(dir, run[..n], j) == Strays(dir, run, j) {
          StraysOfPrefix(dir, run, n, j);
        }
      }
    }
  }

  /**
   * Over any run of requests: the server's own environment is what it was if
   * and only if every entry can be set again or nothing was served, and its
   * directory is where it was if and only if every request could return to
   * where it found the server, or the last that could not was left there.
   */
  lemma OwnStateKept(cli: Cli, w: World, run: seq<Served>)
    requires Sound(cli, w) && Registered(cli) && forall s | s in run :: LeavesSound(cli, s.effect)
    ensures var r := After(cli, w, run);
            && (r.env == w.env && r.bare == w.bare <==> Resettable(w.env, w.bare) || forall s | s in run :: !s.host.getwd)
            && (r.dir == w.dir <==>
                  (forall i :: !Strays(w.dir, run, i)) || exists i :: LastStray(w.dir, run, i) && run[i].effect.left.dir == w.dir)
  {
    hide Sound;
    hide Registered;
    hide Returns;
    hide Stands;
    RunSettles(cli, w, run);
    RunStands(cli, w, run);
    var last := StandsWhere(w.dir, run);
    assert SettableOf(w.env) == w.env <==> forall k | k in w.env :: Settable(k, w.env[k]);
  }

  // ------------------------------------------------------------ the process

  class Process {
    const cli: Cli
    var flags: map<FlagName, Flag>
    var contexts: map<string, Context>
    var viper: map<string, FlagName>
    var outputMode: string
    var commandName: string
    var configUsed: string
    var configStatus: string
    var askPath: string
    var askStart: int
    var session: Option<string>
    var env: map<string, string>
    var bare: set<string>
    var dir: string

    constructor (cli: Cli, w: World)
      ensures this.cli == cli && View() == w
    {
      this.cli := cli;
      flags, contexts, viper := w.flags, w.contexts, w.viper;
      outputMode, commandName, configUsed, configStatus := w.outputMode, w.commandName, w.configUsed, w.configStatus;
      askPath, askStart, session := w.askPath, w.askStart, w.session;
      env, bare, dir := w.env, w.bare, w.dir;
    }

    function View(): World
      reads this
    {
      World(flags, contexts, viper, outputMode, commandName, configUsed, configStatus, askPath, askStart, session, env, bare, dir)
    }

    ghost predicate Valid()
      reads this
    {
      Registered(cli) && Sound(cli, View())
    }

    /** One VisitAll: resetting a flag met twice is resetting it once. */
    method ResetVisited(names: seq<FlagName>)
      requires Registered(cli) && FlagsSound(cli, flags) && forall f | f in names :: f in cli.decls
      modifies this`flags
      ensures FlagsSound(cli, flags) && IsReset(cli, old(flags), flags, Elements(names))
    {
      hide IsReset;
      hide FlagsSound;
      hide ResetFlag;
      hide Registered;
      NoneReset(cli, flags);
      for i := 0 to |names|
        invariant FlagsSound(cli, flags) && IsReset(cli, old(flags), flags, Elements(names[..i]))
      {
        var f := names[i];
        ghost var before := flags;
        OneReset(cli, before, f);
        flags := flags[f := ResetFlag(cli.decls[f], flags[f])];
        ResetKeepsSound(cli, before, flags, {f});
        ResetTwice(cli, old(flags), before, flags, Elements(names[..i]), {f});
        assert Elements(names[..i + 1]) == Elements(names[..i]) + {f};
      }
      assert names[..|names|] == names;
    }

    method ResetFlagsRecursive(cmd: Command)
      requires Registered(cli) && FlagsSound(cli, flags) && FlagsOf(cmd) <= cli.decls.Keys
      modifies this`flags
      ensures FlagsSound(cli, flags) && IsReset(cli, old(flags), flags, FlagsOf(cmd))
      decreases cmd
    {
      hide IsReset;
      hide ResetFlag;
      hide FlagsSound;
      hide Registered;
      assert forall f | f in cmd.flags || f in cmd.persistent :: f in FlagsOf(cmd);
      ghost var own := Elements(cmd.flags) + Elements(cmd.persistent);
      ResetVisited(cmd.flags);
      ghost var first := flags;
      ResetVisited(cmd.persistent);
      ResetTwice(cli, old(flags), first, flags, Elements(cmd.flags), Elements(cmd.persistent));
      assert own == own + FlagsOfAll(cmd.children[..0]);
      for i := 0 to |cmd.children|
        invariant FlagsSound(cli, flags) && IsReset(cli, old(flags), flags, own + FlagsOfAll(cmd.children[..i]))
      {
        FlagsOfChild(cmd.children, i);
        ghost var before := flags;
        ResetFlagsRecursive(cmd.children[i]);
        ResetTwice(cli, old(flags), before, flags, own + FlagsOfAll(cmd.children[..i]), FlagsOf(cmd.children[i]));
        assert own + FlagsOfAll(cmd.children[..i]) + FlagsOf(cmd.children[i]) == own + FlagsOfAll(cmd.children[..i + 1]);
      }
      assert cmd.children[..|cmd.children|] == cmd.children;
    }

    method ResetContexts(cmd: Command)
      requires NamesOf(cmd) <= contexts.Keys
      modifies this`contexts
      ensures contexts == map c | c in old(contexts) :: if c in NamesOf(cmd) then Background else old(contexts)[c]
      decreases cmd
    {
      contexts := contexts[cmd.name := Background];
      for i := 0 to |cmd.children|
        invariant contexts == map c | c in old(contexts) ::
                    if c == cmd.name || c in NamesOfAll(cmd.children[..i]) then Background else old(contexts)[c]
      {
        assert cmd.children[..i + 1][..i] == cmd.children[..i];
        NamesOfChild(cmd.children, i);
        ResetContexts(cmd.children[i]);
      }
      assert cmd.children[..|cmd.children|] == cmd.children;
    }

    /** viper.Reset, then every registered binding again. */
    method Rebind()
      modifies this`viper
      ensures viper == Bound(cli.bindings) && Registers(viper, cli.bindings)
    {
      BoundRegisters(cli.bindings);
      viper := map[];
      for i := 0 to |cli.bindings|
        invariant viper == Bound(cli.bindings[..i])
      {
        assert cli.bindings[..i + 1][..i] == cli.bindings[..i];
        viper := viper[cli.bindings[i].0 := cli.bindings[i].1];
      }
      assert cli.bindings[..|cli.bindings|] == cli.bindings;
    }

    method ResetCliState()
      requires Registered(cli) && FlagsSound(cli, flags) && contexts.Keys == NamesOf(cli.root)
      modifies `flags, `contexts, `viper, `outputMode, `commandName, `configUsed, `configStatus, `askPath, `askStart
      ensures flags == ResetAll(cli, old(flags)) && contexts == Cleared(old(contexts)) && viper == Bound(cli.bindings)
      ensures Registers(viper, cli.bindings)
      ensures outputMode == commandName == configUsed == configStatus == askPath == "" && askStart == 0
    {
      assert flags.Keys == cli.decls.Keys == FlagsOf(cli.root);
      hide IsReset;
      hide FlagsSound;
      hide Registers;
      hide Registered;
      hide ResetAll;
      hide Bound;
      ResetFlagsRecursive(cli.root);
      ResetEverywhere(cli, old(flags), flags);
      ghost var done := flags;
      ResetContexts(cli.root);
      assert contexts == Cleared(old(contexts));
      outputMode, commandName := "", "";
      configUsed, configStatus := "", "";
      askPath, askStart := "", 0;
      Rebind();
      assert flags == done;
    }

    /** os.Environ, in whatever order. */
    method Environ() returns (kvs: seq<string>)
      requires (forall k | k in env :: '=' !in k) && forall kv | kv in bare :: '=' !in kv
      ensures Lists(kvs, env, bare)
    {
      kvs := [];
      var left := env.Keys;
      while left != {}
        invariant left <= env.Keys
        invariant forall k | k in env && k !in left :: k + "=" + env[k] in kvs
        invariant forall kv | kv in kvs :: IsEntry(env, kv)
        decreases left
      {
        var k :| k in left;
        kvs := kvs + [k + "=" + env[k]];
        left := left - {k};
      }
      var rest := bare;
      while rest != {}
        invariant rest <= bare
        invariant forall k | k in env :: k + "=" + env[k] in kvs
        invariant forall kv | kv in bare && kv !in rest :: kv in kvs
        invariant forall kv | kv in kvs :: IsEntry(env, kv) || kv in bare
        decreases rest
      {
        var kv :| kv in rest;
        kvs := kvs + [kv];
        rest := rest - {kv};
      }
    }

    /** setEnv. */
    method SetEnv(kvs: seq<string>)
      modifies `env, `bare
      ensures env == SetAll(kvs) && bare == {}
    {
      env, bare := map[], {};
      for i := 0 to |kvs|
        invariant env == SetAll(kvs[..i]) && bare == {}
      {
        assert kvs[..i + 1][..i] == kvs[..i];
        match Cut(kvs[i]) {
          case None =>
          case Some((k, v)) => env := Setenv(env, k, v);
        }
      }
      assert kvs[..|kvs|] == kvs;
    }

    /** Clearenv, then one Setenv for each entry of the request, in map order. */
    method SetRequestEnv(wanted: map<string, string>)
      modifies `env, `bare
      ensures env == SettableOf(wanted) && bare == {}
    {
      env, bare := map[], {};
      var left := wanted.Keys;
      while left != {}
        invariant left <= wanted.Keys && bare == {}
        invariant env == map k | k in wanted && k !in left && Settable(k, wanted[k]) :: wanted[k]
        decreases left
      {
        var k :| k in left;
        env := Setenv(env, k, wanted[k]);
        left := left - {k};
      }
    }

    method SetFlags(sets: seq<(FlagName, string)>)
      modifies this`flags
      ensures flags == AfterSets(cli, old(flags), sets)
    {
      hide SetFlag;
      var left := sets;
      while left != []
        invariant AfterSets(cli, flags, left) == AfterSets(cli, old(flags), sets)
        decreases |left|
      {
        var (f, text) := left[0];
        if f in flags && f in cli.decls {
          flags := flags[f := SetFlag(cli.decls[f], flags[f], text).0];
        }
        left := left[1..];
      }
    }

    /** The command the request runs. */
    method Execute(effect: Effect)
      modifies this
      ensures View() == Executed(cli, old(View()), effect)
    {
      SetFlags(effect.sets);
      contexts, viper := effect.left.contexts, effect.left.viper;
      outputMode, commandName := effect.left.outputMode, effect.left.commandName;
      configUsed, configStatus := effect.left.configUsed, effect.left.configStatus;
      askPath, askStart, session := effect.left.askPath, effect.left.askStart, effect.left.session;
      env, bare, dir := effect.left.env, effect.left.bare, effect.left.dir;
    }

    method Enter(req: Request)
      modifies `dir, `env, `bare
      ensures View() == old(View()).(dir := req.dir, env := SettableOf(req.env), bare := {})
    {
      dir := req.dir;
      SetRequestEnv(req.env);
    }

    method ResetToFresh()
      requires Registered(cli) && FlagsSound(cli, flags) && contexts.Keys == NamesOf(cli.root)
      modifies `flags, `contexts, `viper, `outputMode, `commandName, `configUsed, `configStatus, `askPath, `askStart
      ensures View() == ResetWorld(cli, old(View()))
    {
      hide ResetAll;
      hide Cleared;
      hide Bound;
      hide FlagsSound;
      ResetCliState();
    }

    /** From entering the request's directory to the start of its command. */
    method Prepare(req: Request, host: Host)
      requires Registered(cli) && FlagsSound(cli, flags) && contexts.Keys == NamesOf(cli.root)
      modifies this
      ensures View() == Started(cli, old(View()), req, host)
    {
      hide ResetWorld;
      hide SettableOf;
      hide FlagsSound;
      Enter(req);
      ResetToFresh();
      askPath := SERVED;
      askStart := if req.received.Some? then req.received.value else host.now;
    }

    /** From entering the request's directory to the command's return. */
    method RunRequest(req: Request, host: Host, effect: Effect) returns (start: World)
      requires Registered(cli) && FlagsSound(cli, flags) && contexts.Keys == NamesOf(cli.root)
      modifies this
      ensures start == Started(cli, old(View()), req, host)
      ensures View() == Executed(cli, start, effect).(session := None)
    {
      hide Executed;
      hide Started;
      Prepare(req, host);
      start := View();
      Execute(effect);
      session := None;
    }

    method ServeExec(req: Request, host: Host, effect: Effect) returns (seen: Option<World>)
      requires Valid()
      modifies this
      ensures seen == Serve(cli, old(View()), req, host, effect).0
      ensures seen.Some? ==> Registers(seen.value.viper, cli.bindings)
      ensures View() == Serve(cli, old(View()), req, host, effect).1
    {
      hide Registers;
      ServeRegisters(cli, View(), req, host, effect);
      hide Started;
      hide Executed;
      hide SetAll;
      hide SettableOf;
      hide Lists;
      if !host.getwd { return None; }
      var here := dir;
      var saved := Environ();
      EnvironmentRestored(saved, env, bare);
      if !host.canEnter(req.dir) {
        SetEnv(saved);
        return None;
      }
      var start := RunRequest(req, host, effect);
      seen := Some(start);
      if host.canEnterAfter(here) {
        dir := here;
      }
      SetEnv(saved);
    }
  }

  lemma ServeRegisters(cli: Cli, w: World, req: Request, host: Host, effect: Effect)
    ensures var seen := Serve(cli, w, req, host, effect).0; seen.Some? ==> Registers(seen.value.viper, cli.bindings)
  {
    BoundRegisters(cli.bindings);
  }

  /** tryServer's environment map. */
  method PackEnvironment(kvs: seq<string>) returns (env: map<string, string>)
    ensures env == Packed(kvs)
  {
    env := map[];
    for i := 0 to |kvs|
      invariant env == Packed(kvs[..i])
    {
      assert kvs[..i + 1][..i] == kvs[..i];
      match Cut(kvs[i]) {
        case None =>
        case Some((k, v)) => env := env[k := v];
      }
    }
    assert kvs[..|kvs|] == kvs;
  }

  lemma ResetKeepsSound(cli: Cli, before: map<FlagName, Flag>, after: map<FlagName, Flag>, which: set<FlagName>)
    requires Registered(cli) && FlagsSound(cli, before) && IsReset(cli, before, after, which)
    ensures FlagsSound(cli, after)
  {
  }

  lemma NoneReset(cli: Cli, flags: map<FlagName, Flag>)
    ensures IsReset(cli, flags, flags, Elements([]))
  {
  }

  lemma OneReset(cli: Cli, flags: map<FlagName, Flag>, f: FlagName)
    requires FlagsSound(cli, flags) && f in cli.decls
    ensures f in flags && IsReset(cli, flags, flags[f := ResetFlag(cli.decls[f], flags[f])], {f})
  {
  }

  /** Resets accumulate: a flag reset by both is reset once. */
  lemma ResetTwice(cli: Cli, a: map<FlagName, Flag>, b: map<FlagName, Flag>, c: map<FlagName, Flag>, first: set<FlagName>, second: set<FlagName>)
    requires Registered(cli) && FlagsSound(cli, a) && IsReset(cli, a, b, first) && IsReset(cli, b, c, second)
    ensures IsReset(cli, a, c, first + second)
  {
    forall f | f in a ensures c[f] == (if f in first + second && f in cli.decls then ResetFlag(cli.decls[f], a[f]) else a[f]) {
      ResetIsFresh(cli.decls[f], a[f]);
    }
  }

  lemma ResetEverywhere(cli: Cli, before: map<FlagName, Flag>, after: map<FlagName, Flag>)
    requires before.Keys == cli.decls.Keys && IsReset(cli, before, after, before.Keys)
    ensures after == ResetAll(cli, before)
  {
  }

  lemma {:induction false} FlagsOfChild(cs: seq<Command>, i: nat)
    requires i < |cs|
    ensures FlagsOf(cs[i]) <= FlagsOfAll(cs) && FlagsOfAll(cs[..i + 1]) == FlagsOfAll(cs[..i]) + FlagsOf(cs[i])
  {
    assert cs[..i + 1][..i] == cs[..i];
    if i < |cs| - 1 {
      FlagsOfChild(cs[..|cs| - 1], i);
      assert cs[..|cs| - 1][i] == cs[i];
    }
  }

  lemma {:induction false} NamesOfChild(cs: seq<Command>, i: nat)
    requires i < |cs|
    ensures NamesOf(cs[i]) <= NamesOfAll(cs) && NamesOfAll(cs[..i + 1]) == NamesOfAll(cs[..i]) + NamesOf(cs[i])
  {
    assert cs[..i + 1][..i] == cs[..i];
    if i < |cs| - 1 {
      NamesOfChild(cs[..|cs| - 1], i);
      assert cs[..|cs| - 1][i] == cs[i];
    }
  }
}
