/**
 * The command that repeats an install of the hooks with one more flag
 * (cmd/hooks_install_helpers.go).
 */
module HooksInstall {
  import opened Wrappers
  import opened Text
  import opened ShellQuoting

  datatype Install = Install(scope: string, projectDir: string, vault: string, profile: string)

  const SCOPE_USER := "user"

  /** The keys of agentWirings. */
  predicate Wired(agent: string) {
    agent == "codex" || agent == "cursor"
  }

  function Place(p: Install): seq<string> {
    var d := TrimSpace(p.projectDir);
    if p.scope == SCOPE_USER then ["--scope", "user"] else if d != "" && d != "." then [d] else []
  }

  function AgentWords(agent: string): seq<string> {
    if Wired(agent) then ["--agent", agent] else []
  }

  function VaultWords(vaults: seq<string>): seq<string> {
    if |vaults| > 0 then ["--vaults", Join(vaults, ",")] else []
  }

  function Optional(flag: string, value: string): seq<string> {
    if value != "" then [flag, value] else []
  }

  /** The arguments a rerun of an install is meant to have. */
  function Arguments(p: Install, agent: string, vaults: seq<string>): seq<string> {
    ["vaultmind", "hooks", "install"]
    + Place(p)
    + AgentWords(agent)
    + Optional("--vault", TrimSpace(p.vault))
    + VaultWords(vaults)
    + Optional("--profile", TrimSpace(p.profile))
  }

  /** The parts spell the command line of the arguments. */
  ghost predicate Spells(parts: seq<string>, args: seq<string>) {
    parts != [] && args != [] && Join(parts, " ") == CommandLine(args)
  }

  method AddPlace(p: Install, parts: seq<string>, ghost args: seq<string>) returns (more: seq<string>)
    requires Spells(parts, args)
    ensures Spells(more, args + Place(p))
  {
    hide Spells;
    hide CommandLine;
    more := parts;
    if p.scope == SCOPE_USER {
      OptionWords("--scope", "user");
      MoreWords(parts, args, "--scope user", ["--scope", "user"]);
      more := more + ["--scope user"];
    } else {
      var d := TrimSpace(p.projectDir);
      if d != "" && d != "." {
        OneWord(d);
        MoreWords(parts, args, ShellWord(d), [d]);
        more := more + [ShellWord(d)];
      } else {
        NoMoreWords(args);
      }
    }
  }

  method AddAgent(agent: string, parts: seq<string>, ghost args: seq<string>) returns (more: seq<string>)
    requires Spells(parts, args)
    ensures Spells(more, args + AgentWords(agent))
  {
    hide Spells;
    hide CommandLine;
    more := parts;
    if Wired(agent) {
      OptionWords("--agent", agent);
      MoreWords(parts, args, "--agent " + agent, ["--agent", agent]);
      more := more + ["--agent " + agent];
    } else {
      NoMoreWords(args);
    }
  }

  method AddFlag(flag: string, value: string, parts: seq<string>, ghost args: seq<string>) returns (more: seq<string>)
    requires AllSafe(flag) && Spells(parts, args)
    ensures Spells(more, args + Optional(flag, value))
  {
    hide Spells;
    hide CommandLine;
    more := parts;
    if value != "" {
      FlagWords(flag, value);
      MoreWords(parts, args, flag + " " + ShellWord(value), [flag, value]);
      more := more + [flag + " " + ShellWord(value)];
    } else {
      NoMoreWords(args);
    }
  }

  method AddVaults(vaults: seq<string>, parts: seq<string>, ghost args: seq<string>) returns (more: seq<string>)
    requires Spells(parts, args)
    ensures Spells(more, args + VaultWords(vaults))
  {
    hide Spells;
    hide CommandLine;
    hide Join;
    more := parts;
    if |vaults| > 0 {
      var list := Join(vaults, ",");
      FlagWords("--vaults", list);
      MoreWords(parts, args, "--vaults " + ShellWord(list), ["--vaults", list]);
      more := more + ["--vaults " + ShellWord(list)];
    } else {
      NoMoreWords(args);
    }
  }

  method HooksInstallRerun(p: Install, agent: string, vaults: seq<string>) returns (line: string)
    ensures line == CommandLine(Arguments(p, agent, vaults))
  {
    hide CommandLine;
    hide Join;
    hide ShellWord;
    hide TrimSpace;
    hide Place;
    hide Optional;
    hide AgentWords;
    hide VaultWords;
    var parts := ["vaultmind hooks install"];
    ghost var args := ["vaultmind", "hooks", "install"];
    StartsAs();
    parts := AddPlace(p, parts, args);
    args := args + Place(p);
    parts := AddAgent(agent, parts, args);
    args := args + AgentWords(agent);
    var v := TrimSpace(p.vault);
    parts := AddFlag("--vault", v, parts, args);
    args := args + Optional("--vault", v);
    parts := AddVaults(vaults, parts, args);
    args := args + VaultWords(vaults);
    var pr := TrimSpace(p.profile);
    parts := AddFlag("--profile", pr, parts, args);
    line := Join(parts, " ");
  }

  /** A part that spells some words, put after parts that spell others. */
  lemma MoreWords(parts: seq<string>, args: seq<string>, part: string, words: seq<string>)
    requires Spells(parts, args) && words != [] && part == CommandLine(words)
    ensures Spells(parts + [part], args + words)
  {
    hide ShellWord;
    hide Join;
    JoinAppend(parts, [part]);
    JoinOne(part);
    JoinAppend(Shelled(args), Shelled(words));
    assert Shelled(args + words) == Shelled(args) + Shelled(words);
  }

  lemma NoMoreWords(args: seq<string>)
    ensures args + [] == args
  {
  }

  lemma FlagWords(flag: string, w: string)
    requires AllSafe(flag)
    ensures CommandLine([flag, w]) == flag + " " + ShellWord(w)
  {
    assert Shelled([flag, w]) == [flag] + [ShellWord(w)];
    JoinAppend([flag], [ShellWord(w)]);
  }

  lemma OptionWords(flag: string, w: string)
    requires AllSafe(flag) && AllSafe(w)
    ensures CommandLine([flag, w]) == flag + " " + w
  {
    FlagWords(flag, w);
  }

  lemma ThreeWords(a: string, b: string, c: string)
    requires AllSafe(a) && AllSafe(b) && AllSafe(c)
    ensures CommandLine([a, b, c]) == a + " " + (b + " " + c)
  {
    hide AllSafe;
    var words := [a, b, c];
    assert ShellWord(a) == a && ShellWord(b) == b && ShellWord(c) == c;
    assert Shelled(words) == words;
    assert Join([c], " ") == c && Join([b, c], " ") == b + " " + c;
    assert words[1..] == [b, c] && words[1..][1..] == [c];
  }

  lemma PlainWord(w: string)
    requires w == "vaultmind" || w == "hooks" || w == "install"
    ensures AllSafe(w)
  {
  }

  lemma StartsAs()
    ensures Join(["vaultmind hooks install"], " ") == CommandLine(["vaultmind", "hooks", "install"])
  {
    hide CommandLine;
    hide Join;
    PlainWord("vaultmind");
    PlainWord("hooks");
    PlainWord("install");
    ThreeWords("vaultmind", "hooks", "install");
    hide AllSafe;
    JoinOne("vaultmind hooks install");
    assert "vaultmind" + " " + ("hooks" + " " + "install") == "vaultmind hooks install";
  }

  // ------------------------------------------------------------ what the shell reads back

  lemma {:induction false} JoinedVaultsEmpty(vaults: seq<string>)
    ensures Join(vaults, ",") == "" <==> vaults == [] || vaults == [""]
  {
  }

  /** A shell makes of the line exactly these arguments, and expands none. */
  predicate ReadAsMeant(args: seq<string>) {
    Read(CommandLine(args)) == Some(args) && !TildeExpands(CommandLine(args))
  }

  /** An argument the rerun prints without quotes and beginning with a tilde. */
  predicate TildeArgument(p: Install, vaults: seq<string>) {
    || (p.scope != SCOPE_USER && BareTilde(TrimSpace(p.projectDir)))
    || BareTilde(TrimSpace(p.vault)) || BareTilde(Join(vaults, ",")) || BareTilde(TrimSpace(p.profile))
  }

  ghost predicate HasTilde(args: seq<string>) {
    exists a | a in args :: BareTilde(a)
  }

  lemma HasTildeOf(a: seq<string>, b: seq<string>)
    ensures HasTilde(a + b) <==> HasTilde(a) || HasTilde(b)
  {
    hide BareTilde;
  }

  lemma TildeParts(p: Install, agent: string, vaults: seq<string>)
    ensures !HasTilde(["vaultmind", "hooks", "install"]) && !HasTilde(AgentWords(agent))
    ensures HasTilde(Place(p)) <==> p.scope != SCOPE_USER && BareTilde(TrimSpace(p.projectDir))
    ensures HasTilde(VaultWords(vaults)) <==> BareTilde(Join(vaults, ","))
  {
    hide TrimSpace;
    hide AllSafe;
    hide Join;
    JoinedVaultsEmpty(vaults);
    assert TrimSpace(p.projectDir) in [TrimSpace(p.projectDir)];
    assert Join(vaults, ",") in ["--vaults", Join(vaults, ",")];
  }

  lemma TildeOption(flag: string, value: string)
    requires !BareTilde(flag)
    ensures HasTilde(Optional(flag, value)) <==> BareTilde(value)
  {
    assert value in [flag, value];
  }

  lemma TildeArgumentIs(p: Install, agent: string, vaults: seq<string>)
    ensures TildeArgument(p, vaults) <==> HasTilde(Arguments(p, agent, vaults))
  {
    hide TrimSpace;
    hide HasTilde;
    hide Join;
    hide AllSafe;
    hide Place;
    hide AgentWords;
    hide VaultWords;
    hide Optional;
    var start, v, pr := ["vaultmind", "hooks", "install"], TrimSpace(p.vault), TrimSpace(p.profile);
    TildeParts(p, agent, vaults);
    TildeOption("--vault", v);
    TildeOption("--profile", pr);
    HasTildeOf(start, Place(p));
    HasTildeOf(start + Place(p), AgentWords(agent));
    HasTildeOf(start + Place(p) + AgentWords(agent), Optional("--vault", v));
    HasTildeOf(start + Place(p) + AgentWords(agent) + Optional("--vault", v), VaultWords(vaults));
    HasTildeOf(start + Place(p) + AgentWords(agent) + Optional("--vault", v) + VaultWords(vaults), Optional("--profile", pr));
  }

  /**
   * The printed command is read back as exactly the arguments of the install,
   * none of them expanded, if and only if the vault list is not the one empty
   * name and no argument begins with a bare tilde.
   */
  lemma RerunReads(p: Install, agent: string, vaults: seq<string>)
    ensures ReadAsMeant(Arguments(p, agent, vaults)) <==> vaults != [""] && !TildeArgument(p, vaults)
  {
    hide Arguments;
    hide CommandLine;
    hide TildeArgument;
    hide BareTilde;
    CommandLineReads(Arguments(p, agent, vaults));
    EmptyArgument(p, agent, vaults);
    TildeExpandsWhen(Arguments(p, agent, vaults));
    TildeArgumentIs(p, agent, vaults);
  }

  lemma EmptyArgument(p: Install, agent: string, vaults: seq<string>)
    ensures "" in Arguments(p, agent, vaults) <==> vaults == [""]
  {
    hide TrimSpace;
    hide Join;
    JoinedVaultsEmpty(vaults);
    var v, pr := Optional("--vault", TrimSpace(p.vault)), Optional("--profile", TrimSpace(p.profile));
    assert "" !in Place(p) && "" !in v && "" !in pr;
    var list := if |vaults| > 0 then ["--vaults", Join(vaults, ",")] else [];
    assert "" in list <==> vaults == [""];
  }

  // ------------------------------------------------------------ what the command asks for

  /** What the install command takes from its arguments; "" for what is not given. */
  datatype Asked = Asked(scope: string, dir: string, agent: string, vault: string, vaults: Option<string>, profile: string)

  const NOTHING := Asked("", "", "", "", None, "")

  /** An argument the flag parser takes for a flag. */
  predicate Dashed(arg: string) {
    |arg| > 1 && arg[0] == '-'
  }

  function Flagged(asked: Asked, flag: string, value: string): Option<Asked> {
    match flag
    case "--scope" => Some(asked.(scope := value))
    case "--agent" => Some(asked.(agent := value))
    case "--vault" => Some(asked.(vault := value))
    case "--vaults" => Some(asked.(vaults := Some(value)))
    case "--profile" => Some(asked.(profile := value))
    case _ => None
  }

  /** Reads arguments as the command does: flags with their values, and at most one place; None for anything else. */
  function Parse(args: seq<string>, asked: Asked): Option<Asked> {
    if args == [] then Some(asked)
    else if !Dashed(args[0]) then
      if asked.dir == "" then Parse(args[1..], asked.(dir := args[0])) else None
    else if |args| == 1 then None
    else
      match Flagged(asked, args[0], args[1])
      case None => None
      case Some(more) => Parse(args[2..], more)
  }

  /** The place is never an argument that looks like a flag. */
  lemma {:induction false} PlaceIsPlain(args: seq<string>, asked: Asked)
    requires !Dashed(asked.dir)
    ensures Parse(args, asked).Some? ==> !Dashed(Parse(args, asked).value.dir)
    decreases |args|
  {
    if args != [] {
      if !Dashed(args[0]) {
        PlaceIsPlain(args[1..], asked.(dir := args[0]));
      } else if |args| > 1 && Flagged(asked, args[0], args[1]).Some? {
        PlaceIsPlain(args[2..], Flagged(asked, args[0], args[1]).value);
      }
    }
  }

  lemma ParseFlag(flag: string, value: string, rest: seq<string>, asked: Asked)
    requires Dashed(flag) && Flagged(asked, flag, value).Some?
    ensures Parse([flag, value] + rest, asked) == Parse(rest, Flagged(asked, flag, value).value)
  {
    assert ([flag, value] + rest)[2..] == rest;
  }

  lemma ParsePlace(p: Install, rest: seq<string>)
    requires p.scope == "user" || !Dashed(TrimSpace(p.projectDir))
    ensures var d := TrimSpace(p.projectDir);
            var asked := Asked(if p.scope == "user" then "user" else "", if p.scope == "user" || d == "." then "" else d, "", "", None, "");
            Parse(Place(p) + rest, NOTHING) == Parse(rest, asked)
  {
    hide TrimSpace;
    var d := TrimSpace(p.projectDir);
    if p.scope == "user" {
      ParseFlag("--scope", "user", rest, NOTHING);
    } else if d != "" && d != "." {
      assert ([d] + rest)[1..] == rest;
    } else {
      assert [] + rest == rest;
    }
  }

  lemma ParseAgent(agent: string, rest: seq<string>, asked: Asked)
    requires asked.agent == ""
    ensures Parse(AgentWords(agent) + rest, asked)
         == Parse(rest, asked.(agent := if agent == "codex" || agent == "cursor" then agent else ""))
  {
    if Wired(agent) {
      ParseFlag("--agent", agent, rest, asked);
    } else {
      assert [] + rest == rest;
    }
  }

  lemma ParseOptional(flag: string, value: string, rest: seq<string>, asked: Asked)
    requires Dashed(flag) && Flagged(asked, flag, value).Some?
    requires value == "" ==> Flagged(asked, flag, value).value == asked
    ensures Parse(Optional(flag, value) + rest, asked) == Parse(rest, Flagged(asked, flag, value).value)
  {
    if value != "" {
      ParseFlag(flag, value, rest, asked);
    } else {
      assert [] + rest == rest;
    }
  }

  lemma ParseVaults(vaults: seq<string>, rest: seq<string>, asked: Asked)
    requires asked.vaults == None
    ensures Parse(VaultWords(vaults) + rest, asked)
         == Parse(rest, asked.(vaults := if vaults == [] then None else Some(Join(vaults, ","))))
  {
    hide Join;
    if vaults != [] {
      ParseFlag("--vaults", Join(vaults, ","), rest, asked);
    } else {
      assert [] + rest == rest;
    }
  }

  /** The arguments after the command's name, each group in front of the later ones. */
  lemma ArgumentsAre(p: Install, agent: string, vaults: seq<string>)
    ensures |Arguments(p, agent, vaults)| >= 3 && Arguments(p, agent, vaults)[..3] == ["vaultmind", "hooks", "install"]
    ensures Arguments(p, agent, vaults)[3..]
         == Place(p) + (AgentWords(agent) + (Optional("--vault", TrimSpace(p.vault))
              + (VaultWords(vaults) + (Optional("--profile", TrimSpace(p.profile)) + []))))
  {
    hide Place;
    hide AgentWords;
    hide Optional;
    hide VaultWords;
    hide TrimSpace;
  }

  /**
   * A rerun asks for what the install was given, each flag with its own value:
   * if and only if the place, where one is printed, does not look like a flag.
   */
  lemma RerunAsks(p: Install, agent: string, vaults: seq<string>)
    ensures var d := TrimSpace(p.projectDir);
            var meant := Asked(if p.scope == "user" then "user" else "",
                               if p.scope == "user" || d == "." then "" else d,
                               if agent == "codex" || agent == "cursor" then agent else "",
                               TrimSpace(p.vault),
                               if vaults == [] then None else Some(Join(vaults, ",")),
                               TrimSpace(p.profile));
            && |Arguments(p, agent, vaults)| >= 3
            && (Parse(Arguments(p, agent, vaults)[3..], NOTHING) == Some(meant) <==> p.scope == "user" || !Dashed(d))
  {
    hide TrimSpace;
    hide Join;
    hide Arguments;
    hide Place;
    hide AgentWords;
    hide Optional;
    hide VaultWords;
    var d, v, pr := TrimSpace(p.projectDir), TrimSpace(p.vault), TrimSpace(p.profile);
    ArgumentsAre(p, agent, vaults);
    PlaceIsPlain(Arguments(p, agent, vaults)[3..], NOTHING);
    if p.scope == "user" || !Dashed(d) {
      hide Parse;
      var last := Optional("--profile", pr) + [];
      var lists := VaultWords(vaults) + last;
      var vaulted := Optional("--vault", v) + lists;
      ParsePlace(p, AgentWords(agent) + vaulted);
      var asked := Asked(if p.scope == "user" then "user" else "", if p.scope == "user" || d == "." then "" else d, "", "", None, "");
      ParseAgent(agent, vaulted, asked);
      asked := asked.(agent := if agent == "codex" || agent == "cursor" then agent else "");
      ParseOptional("--vault", v, lists, asked);
      asked := asked.(vault := v);
      ParseVaults(vaults, last, asked);
      asked := asked.(vaults := if vaults == [] then None else Some(Join(vaults, ",")));
      ParseOptional("--profile", pr, [], asked);
      ParseNothing(asked.(profile := pr));
    }
  }

  lemma ParseNothing(asked: Asked)
    ensures Parse([], asked) == Some(asked)
  {
  }
}
