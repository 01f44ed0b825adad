/**
 * Finding the vaults under a root (internal/discovery/discovery.go): a walk
 * that stops at a depth, does not enter a vault, and fails on a directory it
 * cannot read.
 */
module Discovery {
  import opened Wrappers
  import opened Text
  import opened Sorting

  /** A directory's own answers: whether os.Stat finds its registry, and whether os.ReadDir works. */
  datatype Node = Other | Dir(vault: bool, readable: bool, entries: seq<Entry>)

  datatype Entry = Entry(name: string, node: Node)

  datatype Root = Missing | Found(path: string, node: Node)

  // ------------------------------------------------------------ where things are

  /** filepath.Join of a clean directory and an entry's name. */
  function JoinPath(dir: string, name: string): string {
    if dir == "/" then "/" + name else dir + "/" + name
  }

  function PathString(dir: string, path: seq<string>): string {
    if path == [] then dir else JoinPath(PathString(dir, path[..|path| - 1]), path[|path| - 1])
  }

  predicate CleanName(name: string) {
    name != "" && '/' !in name
  }

  /** Entries of a directory have clean names, all different. */
  ghost predicate Proper(n: Node) {
    n.Dir? ==> ProperAll(n.entries)
  }

  ghost predicate ProperAll(es: seq<Entry>) {
    es != [] ==>
      && CleanName(es[0].name) && Proper(es[0].node)
      && (forall e | e in es[1..] :: e.name != es[0].name)
      && ProperAll(es[1..])
  }

  function Child(es: seq<Entry>, name: string): Option<Node> {
    if es == [] then None else if es[0].name == name then Some(es[0].node) else Child(es[1..], name)
  }

  /** The node a path of names leads to, through directories. */
  function At(n: Node, path: seq<string>): Option<Node>
    decreases |path|
  {
    if path == [] then Some(n)
    else if n.Dir? && Child(n.entries, path[0]).Some? then At(Child(n.entries, path[0]).value, path[1..])
    else None
  }

  ghost predicate IsDirAt(n: Node, path: seq<string>) {
    At(n, path).Some? && At(n, path).value.Dir?
  }

  ghost predicate VaultAt(n: Node, path: seq<string>) {
    IsDirAt(n, path) && At(n, path).value.vault
  }

  ghost predicate NoVaultAbove(n: Node, path: seq<string>) {
    forall k | 0 <= k < |path| :: !VaultAt(n, path[..k])
  }

  /** A vault at most depth levels down with none above it. */
  ghost predicate Topmost(n: Node, depth: int, path: seq<string>) {
    |path| <= depth && VaultAt(n, path) && NoVaultAbove(n, path)
  }

  /** A directory the walk enters and cannot read. */
  ghost predicate Blocked(n: Node, depth: int, path: seq<string>) {
    |path| <= depth && IsDirAt(n, path) && !VaultAt(n, path) && NoVaultAbove(n, path) && !At(n, path).value.readable
  }

  // ------------------------------------------------------------ the walk

  /** The paths of names the walk of a directory finds, depth levels deep; None for a read error. */
  function Walk(n: Node, depth: int): Option<seq<seq<string>>>
    decreases n, 1
  {
    if depth < 0 || n.Other? then Some([])
    else if n.vault then Some([[]])
    else if !n.readable then None
    else WalkAll(n.entries, depth - 1)
  }

  function WalkAll(es: seq<Entry>, depth: int): Option<seq<seq<string>>>
    decreases es, 0
  {
    if es == [] then Some([])
    else
      match Walk(es[0].node, depth)
      case None => None
      case Some(here) =>
        match WalkAll(es[1..], depth)
        case None => None
        case Some(rest) => Some(Under(es[0].name, here) + rest)
  }

  function Under(name: string, paths: seq<seq<string>>): (r: seq<seq<string>>)
    ensures |r| == |paths| && forall i | 0 <= i < |paths| :: r[i] == [name] + paths[i]
  {
    seq(|paths|, i requires 0 <= i < |paths| => [name] + paths[i])
  }

  function Strings(dir: string, paths: seq<seq<string>>): (r: seq<string>)
    ensures |r| == |paths| && forall i | 0 <= i < |paths| :: r[i] == PathString(dir, paths[i])
  {
    seq(|paths|, i requires 0 <= i < |paths| => PathString(dir, paths[i]))
  }

  // ------------------------------------------------------------ what the walk finds

  /** The same two predicates, following the path down. */
  ghost predicate TopmostBelow(n: Node, depth: int, path: seq<string>)
    decreases |path|
  {
    && depth >= 0 && n.Dir?
    && if path == [] then n.vault
       else !n.vault && Child(n.entries, path[0]).Some? && TopmostBelow(Child(n.entries, path[0]).value, depth - 1, path[1..])
  }

  ghost predicate BlockedBelow(n: Node, depth: int, path: seq<string>)
    decreases |path|
  {
    && depth >= 0 && n.Dir? && !n.vault
    && if path == [] then !n.readable
       else Child(n.entries, path[0]).Some? && BlockedBelow(Child(n.entries, path[0]).value, depth - 1, path[1..])
  }

  lemma {:induction false} ClearBelow(n: Node, path: seq<string>)
    requires path != [] && n.Dir? && Child(n.entries, path[0]).Some?
    ensures NoVaultAbove(n, path) <==> !n.vault && NoVaultAbove(Child(n.entries, path[0]).value, path[1..])
  {
    var c := Child(n.entries, path[0]).value;
    assert path[..0] == [];
    forall k | 0 < k <= |path| ensures At(n, path[..k]) == At(c, path[1..][..k - 1]) {
      assert path[..k][0] == path[0] && path[..k][1..] == path[1..][..k - 1];
    }
    if NoVaultAbove(n, path) {
      forall j | 0 <= j < |path[1..]| ensures !VaultAt(c, path[1..][..j]) {
        assert !VaultAt(n, path[..j + 1]);
      }
    } else if !n.vault {
      var k :| 0 <= k < |path| && VaultAt(n, path[..k]);
      assert VaultAt(c, path[1..][..k - 1]);
    }
  }

  lemma {:induction false} SameBelow(n: Node, depth: int, path: seq<string>)
    ensures Topmost(n, depth, path) <==> TopmostBelow(n, depth, path)
    ensures Blocked(n, depth, path) <==> BlockedBelow(n, depth, path)
    decreases |path|
  {
    if path != [] && n.Dir? && Child(n.entries, path[0]).Some? {
      ClearBelow(n, path);
      SameBelow(Child(n.entries, path[0]).value, depth - 1, path[1..]);
    }
  }

  lemma {:induction false} ChildIsEntry(es: seq<Entry>, name: string)
    ensures Child(es, name).Some? ==> exists e :: e in es && e.name == name
  {
    if es != [] {
      assert es[0] in es && forall e | e in es[1..] :: e in es;
      ChildIsEntry(es[1..], name);
    }
  }

  ghost predicate TopmostIn(es: seq<Entry>, depth: int, path: seq<string>) {
    path != [] && Child(es, path[0]).Some? && TopmostBelow(Child(es, path[0]).value, depth, path[1..])
  }

  ghost predicate BlockedIn(es: seq<Entry>, depth: int, path: seq<string>) {
    path != [] && Child(es, path[0]).Some? && BlockedBelow(Child(es, path[0]).value, depth, path[1..])
  }

  lemma {:induction false} WalkFinds(n: Node, depth: int)
    requires Proper(n)
    ensures Walk(n, depth).None? <==> SomeBlocked(n, depth)
    ensures Walk(n, depth).Some? ==> forall p :: p in Walk(n, depth).value <==> TopmostBelow(n, depth, p)
    ensures Walk(n, depth).Some? ==> Distinct(Walk(n, depth).value)
    decreases n, 1
  {
    if depth >= 0 && n.Dir? && !n.vault {
      WalkAllFinds(n.entries, depth - 1);
      BlockedFurther(n, depth);
    }
  }

  ghost predicate SomeBlocked(n: Node, depth: int) {
    exists p :: BlockedBelow(n, depth, p)
  }

  ghost predicate SomeBlockedIn(es: seq<Entry>, depth: int) {
    exists p :: BlockedIn(es, depth, p)
  }

  lemma BlockedFurther(n: Node, depth: int)
    requires depth >= 0 && n.Dir? && !n.vault
    ensures SomeBlocked(n, depth) <==> !n.readable || SomeBlockedIn(n.entries, depth - 1)
  {
    if !n.readable {
      BlockedAt(n, depth, []);
    } else {
      if p :| BlockedBelow(n, depth, p) {
        assert BlockedIn(n.entries, depth - 1, p);
      }
      if SomeBlockedIn(n.entries, depth - 1) {
        var below := depth - 1;
        var p :| BlockedIn(n.entries, below, p);
        assert BlockedBelow(n, depth, p);
      }
    }
  }

  lemma BlockedAt(n: Node, depth: int, p: seq<string>)
    requires BlockedBelow(n, depth, p)
    ensures SomeBlocked(n, depth)
  {
  }

  lemma {:induction false} WalkAllFinds(es: seq<Entry>, depth: int)
    requires ProperAll(es)
    ensures WalkAll(es, depth).None? <==> SomeBlockedIn(es, depth)
    ensures WalkAll(es, depth).Some? ==> forall p :: p in WalkAll(es, depth).value <==> TopmostIn(es, depth, p)
    ensures WalkAll(es, depth).Some? ==> Distinct(WalkAll(es, depth).value)
    decreases es, 0
  {
    if es != [] {
      WalkFinds(es[0].node, depth);
      WalkAllFinds(es[1..], depth);
      FirstIsItsOwn(es, depth);
      var here, rest := Walk(es[0].node, depth), WalkAll(es[1..], depth);
      if here.None? {
        var p :| BlockedBelow(es[0].node, depth, p);
        assert BlockedIn(es, depth, [es[0].name] + p) by { assert ([es[0].name] + p)[1..] == p; }
      } else if rest.None? {
        var p :| BlockedIn(es[1..], depth, p);
        assert BlockedIn(es, depth, p);
      } else {
        WalkAllSome(es, depth, here.value, rest.value);
        forall p ensures !BlockedIn(es, depth, p) {
          assert p != [] && p[0] == es[0].name ==> !BlockedBelow(es[0].node, depth, p[1..]);
          assert p != [] && p[0] != es[0].name ==> !BlockedIn(es[1..], depth, p);
        }
      }
    }
  }

  /** A path through es[0] is not a path through the others. */
  lemma FirstIsItsOwn(es: seq<Entry>, depth: int)
    requires es != [] && ProperAll(es)
    ensures Child(es[1..], es[0].name).None?
    ensures forall p | p != [] && p[0] != es[0].name :: TopmostIn(es, depth, p) == TopmostIn(es[1..], depth, p)
    ensures forall p | p != [] && p[0] != es[0].name :: BlockedIn(es, depth, p) == BlockedIn(es[1..], depth, p)
  {
    ChildIsEntry(es[1..], es[0].name);
  }

  lemma WalkAllSome(es: seq<Entry>, depth: int, here: seq<seq<string>>, rest: seq<seq<string>>)
    requires es != [] && ProperAll(es)
    requires forall p :: p in here <==> TopmostBelow(es[0].node, depth, p)
    requires forall p :: p in rest <==> TopmostIn(es[1..], depth, p)
    requires Distinct(here) && Distinct(rest)
    ensures forall p :: p in Under(es[0].name, here) + rest <==> TopmostIn(es, depth, p)
    ensures Distinct(Under(es[0].name, here) + rest)
  {
    FirstIsItsOwn(es, depth);
    var name := es[0].name;
    var mine := Under(name, here);
    forall p ensures p in mine <==> p != [] && p[0] == name && p[1..] in here {
      if p != [] && p[0] == name && p[1..] in here {
        var i :| 0 <= i < |here| && here[i] == p[1..];
        assert mine[i] == p;
      }
      assert forall i | 0 <= i < |mine| :: mine[i][1..] == here[i];
    }
    forall i, j | 0 <= i < j < |mine| ensures mine[i] != mine[j] {
      assert mine[i][1..] == here[i] && mine[j][1..] == here[j];
    }
    forall i, j | 0 <= i < |mine| && 0 <= j < |rest| ensures mine[i] != rest[j] {
      assert rest[j] in rest;
    }
  }

  // ------------------------------------------------------------ paths as strings

  function Base(dir: string): string {
    if dir == "/" then "" else dir
  }

  lemma {:induction false} PathStringIs(dir: string, path: seq<string>)
    requires path != [] && forall name | name in path :: CleanName(name)
    ensures PathString(dir, path) == Base(dir) + "/" + Join(path, "/")
  {
    hide Join;
    hide CleanName;
    var front, name := path[..|path| - 1], path[|path| - 1];
    if front == [] {
      assert path == [name];
      JoinOne(name);
    } else {
      assert path == front + [name] && forall n | n in front :: n in path;
      PathStringIs(dir, front);
      JoinSnoc(front, name);
      JoinNotSlash(dir, front);
    }
  }

  lemma JoinOne(name: string)
    ensures Join([name], "/") == name
  {
  }

  /** A longer path than the root's own is not the root. */
  lemma JoinNotSlash(dir: string, path: seq<string>)
    requires path != [] && forall name | name in path :: CleanName(name)
    ensures Base(dir) + "/" + Join(path, "/") != "/"
  {
    assert path[0] in path;
    JoinNotEmpty(path);
  }

  lemma {:induction false} JoinSnoc(parts: seq<string>, part: string)
    requires parts != []
    ensures Join(parts + [part], "/") == Join(parts, "/") + "/" + part
  {
    assert (parts + [part])[1..] == parts[1..] + [part];
    if |parts| > 1 {
      JoinSnoc(parts[1..], part);
    }
  }

  /** Different paths of clean names are different strings. */
  lemma PathStringInjective(dir: string, a: seq<string>, b: seq<string>)
    requires (forall name | name in a :: CleanName(name)) && (forall name | name in b :: CleanName(name))
    requires PathString(dir, a) == PathString(dir, b)
    ensures a == b
  {
    var base := Base(dir);
    if a != [] {
      PathStringIs(dir, a);
      assert (base + "/" + Join(a, "/"))[|base| + 1..] == Join(a, "/");
      SplitUndoesJoin(a, '/');
      assert a[0] in a;
    }
    if b != [] {
      PathStringIs(dir, b);
      assert (base + "/" + Join(b, "/"))[|base| + 1..] == Join(b, "/");
      SplitUndoesJoin(b, '/');
      assert b[0] in b;
    }
    if a == [] && b != [] {
      JoinNotEmpty(b);
    } else if b == [] && a != [] {
      JoinNotEmpty(a);
    }
  }

  lemma JoinNotEmpty(parts: seq<string>)
    requires parts != [] && CleanName(parts[0])
    ensures Join(parts, "/") != ""
  {
  }

  lemma {:induction false} ChildIsClean(es: seq<Entry>, name: string)
    requires ProperAll(es) && Child(es, name).Some?
    ensures CleanName(name) && Proper(Child(es, name).value)
  {
    if es[0].name != name {
      ChildIsClean(es[1..], name);
    }
  }

  lemma {:induction false} PathsAreClean(n: Node, path: seq<string>)
    requires Proper(n) && At(n, path).Some?
    ensures forall name | name in path :: CleanName(name)
    decreases |path|
  {
    if path != [] {
      ChildIsClean(n.entries, path[0]);
      PathsAreClean(Child(n.entries, path[0]).value, path[1..]);
      assert path == [path[0]] + path[1..];
    }
  }

  // ------------------------------------------------------------ the walk as it runs

  /** The slice the walk appends to through its pointer. */
  class FoundList {
    var items: seq<string>

    constructor ()
      ensures items == []
    {
      items := [];
    }
  }

  method WalkInto(dir: string, n: Node, depth: int, maxDepth: int, found: FoundList) returns (ok: bool)
    modifies found
    ensures ok == Walk(n, maxDepth - depth).Some?
    ensures ok ==> found.items == old(found.items) + Strings(dir, Walk(n, maxDepth - depth).value)
    decreases n, 1
  {
    if depth > maxDepth || n.Other? {
      return true;
    }
    if n.vault {
      found.items := found.items + [dir];
      assert Strings(dir, [[]]) == [dir];
      return true;
    }
    if !n.readable {
      return false;
    }
    ok := WalkEntries(dir, n.entries, depth + 1, maxDepth, found);
  }

  /** The loop over a directory's entries, from one of them on. */
  method WalkEntries(dir: string, es: seq<Entry>, depth: int, maxDepth: int, found: FoundList) returns (ok: bool)
    modifies found
    ensures ok == WalkAll(es, maxDepth - depth).Some?
    ensures ok ==> found.items == old(found.items) + Strings(dir, WalkAll(es, maxDepth - depth).value)
    decreases es, 0
  {
    hide Walk;
    hide PathString;
    hide Strings;
    hide Under;
    if es == [] {
      NoStrings(dir);
      return true;
    }
    ok := WalkInto(JoinPath(dir, es[0].name), es[0].node, depth, maxDepth, found);
    if !ok {
      return;
    }
    ghost var here := Walk(es[0].node, maxDepth - depth).value;
    StringsUnder(dir, es[0].name, here);
    ok := WalkEntries(dir, es[1..], depth, maxDepth, found);
    if ok {
      StringsOf(dir, Under(es[0].name, here), WalkAll(es[1..], maxDepth - depth).value);
    }
  }

  lemma NoStrings(dir: string)
    ensures Strings(dir, []) == []
  {
  }

  lemma StringsOf(dir: string, a: seq<seq<string>>, b: seq<seq<string>>)
    ensures Strings(dir, a + b) == Strings(dir, a) + Strings(dir, b)
  {
  }

  lemma StringsUnder(dir: string, name: string, paths: seq<seq<string>>)
    ensures Strings(dir, Under(name, paths)) == Strings(JoinPath(dir, name), paths)
  {
    forall i | 0 <= i < |paths| ensures PathString(dir, [name] + paths[i]) == PathString(JoinPath(dir, name), paths[i]) {
      PathStringUnder(dir, name, paths[i]);
    }
  }

  lemma {:induction false} PathStringUnder(dir: string, name: string, path: seq<string>)
    ensures PathString(dir, [name] + path) == PathString(JoinPath(dir, name), path)
    decreases |path|
  {
    if path == [] {
      assert ([name] + path)[..0] == [];
    } else {
      assert ([name] + path)[..|path|] == [name] + path[..|path| - 1];
      PathStringUnder(dir, name, path[..|path| - 1]);
    }
  }

  method DiscoverVaults(root: Root, maxDepth: int) returns (r: Result<seq<string>, string>)
    requires root.Found? ==> Proper(root.node)
    ensures r.Err? <==> root.Missing? || root.node.Other? || Walk(root.node, maxDepth).None?
    ensures r.Ok? ==> r.value == Sort(AtMost, Strings(root.path, Walk(root.node, maxDepth).value))
  {
    if root.Missing? {
      return Err("reading root");
    }
    if root.node.Other? {
      return Err("root is not a directory");
    }
    var found := new FoundList();
    var ok := WalkInto(root.path, root.node, 0, maxDepth, found);
    if !ok {
      return Err("reading directory");
    }
    assert [] + Strings(root.path, Walk(root.node, maxDepth).value) == Strings(root.path, Walk(root.node, maxDepth).value);
    r := Ok(Sort(AtMost, found.items));
  }

  // ------------------------------------------------------------ exactness

  /** What DiscoverVaults returns for a readable root. */
  function Discovered(dir: string, n: Node, maxDepth: int): Option<seq<string>> {
    match Walk(n, maxDepth) case None => None case Some(paths) => Some(Sort(AtMost, Strings(dir, paths)))
  }

  /**
   * Over every directory tree: discovery fails exactly when the walk meets a
   * directory it cannot read, and otherwise returns, in order and without
   * repeats, exactly the vaults within the depth that no vault is above.
   */
  lemma DiscoveryIsExact(dir: string, n: Node, maxDepth: int)
    requires Proper(n)
    ensures Discovered(dir, n, maxDepth).None? <==> exists p :: Blocked(n, maxDepth, p)
    ensures Discovered(dir, n, maxDepth).Some? ==>
              var found := Discovered(dir, n, maxDepth).value;
              && Sorted(AtMost, found) && Distinct(found)
              && (forall s :: s in found <==> exists p :: Topmost(n, maxDepth, p) && s == PathString(dir, p))
  {
    WalkIsExact(n, maxDepth);
    if Walk(n, maxDepth).Some? {
      StringsAreExact(dir, n, maxDepth, Walk(n, maxDepth).value);
    }
  }

  lemma WalkIsExact(n: Node, maxDepth: int)
    requires Proper(n)
    ensures Walk(n, maxDepth).None? <==> exists p :: Blocked(n, maxDepth, p)
    ensures Walk(n, maxDepth).Some? ==> Distinct(Walk(n, maxDepth).value)
    ensures Walk(n, maxDepth).Some? ==> forall p :: p in Walk(n, maxDepth).value <==> Topmost(n, maxDepth, p)
  {
    hide Walk;
    hide Topmost;
    hide Blocked;
    hide TopmostBelow;
    hide BlockedBelow;
    hide Proper;
    WalkFinds(n, maxDepth);
    forall p ensures Topmost(n, maxDepth, p) <==> TopmostBelow(n, maxDepth, p) {
      SameBelow(n, maxDepth, p);
    }
    if p :| Blocked(n, maxDepth, p) {
      SameBelow(n, maxDepth, p);
      assert BlockedBelow(n, maxDepth, p);
    }
    if p :| BlockedBelow(n, maxDepth, p) {
      SameBelow(n, maxDepth, p);
      assert Blocked(n, maxDepth, p);
    }
  }

  lemma StringsAreExact(dir: string, n: Node, maxDepth: int, paths: seq<seq<string>>)
    requires Proper(n) && Distinct(paths) && forall p :: p in paths <==> Topmost(n, maxDepth, p)
    ensures Sorted(AtMost, Sort(AtMost, Strings(dir, paths))) && Distinct(Sort(AtMost, Strings(dir, paths)))
    ensures forall s :: s in Sort(AtMost, Strings(dir, paths)) <==> exists p :: Topmost(n, maxDepth, p) && s == PathString(dir, p)
  {
    hide Topmost;
    hide Proper;
    hide PathString;
    var strings := Strings(dir, paths);
    StringOrder();
    SortSorts(AtMost, strings);
    SortPermutes(AtMost, strings);
    StringsDistinct(dir, n, maxDepth, paths);
    DistinctPermutation(strings, Sort(AtMost, strings));
    forall s ensures s in Sort(AtMost, strings) <==> s in strings {
      MemberOfPermutation(Sort(AtMost, strings), strings, s);
    }
    forall s ensures s in strings <==> exists p :: p in paths && s == PathString(dir, p) {
      StringsMembers(dir, paths, s);
    }
  }

  lemma StringsMembers(dir: string, paths: seq<seq<string>>, s: string)
    ensures s in Strings(dir, paths) <==> exists p :: p in paths && s == PathString(dir, p)
  {
    hide PathString;
    if s in Strings(dir, paths) {
      var i :| 0 <= i < |paths| && Strings(dir, paths)[i] == s;
      assert paths[i] in paths;
    }
    if p :| p in paths && s == PathString(dir, p) {
      var i :| 0 <= i < |paths| && paths[i] == p;
      assert Strings(dir, paths)[i] == s;
    }
  }

  lemma StringsDistinct(dir: string, n: Node, maxDepth: int, paths: seq<seq<string>>)
    requires Proper(n) && Distinct(paths) && forall p | p in paths :: Topmost(n, maxDepth, p)
    ensures Distinct(Strings(dir, paths))
  {
    forall i, j | 0 <= i < j < |paths| ensures PathString(dir, paths[i]) != PathString(dir, paths[j]) {
      assert paths[i] in paths && paths[j] in paths;
      PathsAreClean(n, paths[i]);
      PathsAreClean(n, paths[j]);
      if PathString(dir, paths[i]) == PathString(dir, paths[j]) {
        PathStringInjective(dir, paths[i], paths[j]);
      }
    }
  }

  /** No found vault lies below another. */
  lemma FoundVaultsAreApart(n: Node, maxDepth: int, p: seq<string>, q: seq<string>)
    requires Topmost(n, maxDepth, p) && Topmost(n, maxDepth, q) && p <= q
    ensures p == q
  {
    assert q[..|p|] == p;
  }

  /** A deeper search finds no less, and succeeds only where the shallower one does. */
  lemma DeeperFindsMore(dir: string, n: Node, shallow: int, deep: int)
    requires Proper(n) && shallow <= deep && Discovered(dir, n, deep).Some?
    ensures Discovered(dir, n, shallow).Some?
    ensures forall s | s in Discovered(dir, n, shallow).value :: s in Discovered(dir, n, deep).value
  {
    DiscoveryIsExact(dir, n, shallow);
    DiscoveryIsExact(dir, n, deep);
    assert forall p :: Topmost(n, shallow, p) ==> Topmost(n, deep, p);
    assert forall p :: Blocked(n, shallow, p) ==> Blocked(n, deep, p);
  }
}
