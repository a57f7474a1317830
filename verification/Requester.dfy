/** The walk up the process table, and the names along it (src/requester.rs). */
module Requester {
  import opened Basics
  import opened Strings
  import opened Text

  datatype Ancestor = Ancestor(name: string, path: string)

  datatype Requester = Requester(process: string, origin: seq<Ancestor>)

  const MAX_ORIGIN_DEPTH: nat := 8

  /** The first part of a path that ends in ".app", without that ending. */
  function Bundle(path: string): Option<string> {
    var slash := Find(path, "/", 0);
    var part := if slash.Some? then path[..slash.value] else path;
    if |part| >= 4 && part[|part| - 4..] == ".app" then Some(part[..|part| - 4])
    else if slash.None? then None
    else Bundle(path[slash.value + 1..])
  }

  function FileName(path: string): string {
    var slash := FindLast(path, "/", |path|);
    if slash.Some? then path[slash.value + 1..] else path
  }

  /** The outermost bundle in a path, if it has a name, and otherwise the path's last part. */
  function DisplayName(path: string): string {
    var bundle := Bundle(path);
    if bundle.Some? && bundle.value != "" then bundle.value else FileName(path)
  }

  /** What the system tells of a process: its parent, and its executable's path. */
  datatype Process = Process(parent: Option<int>, path: Option<string>)

  type Table = map<int, Process>

  function ParentOf(t: Table, pid: int): Option<int> {
    if pid in t then t[pid].parent else None
  }

  function PathOf(t: Table, pid: int): Option<string> {
    if pid in t then t[pid].path else None
  }

  /** The pid an ancestor step goes to, if the step can be taken and read. */
  function Above(t: Table, pid: int): Option<(int, string)> {
    var next := ParentOf(t, pid);
    if next.None? || next.value <= 1 then None
    else
      var path := PathOf(t, next.value);
      if path.None? then None else Some((next.value, path.value))
  }

  /** The escaped paths of the ancestors, nearest first, as far as the walk may go. */
  function Walk(t: Table, pid: int, depth: nat): seq<string>
    decreases depth
  {
    if depth == 0 || Above(t, pid).None? then []
    else
      var next := Above(t, pid).value;
      [Escaped(next.1)] + Walk(t, next.0, depth - 1)
  }

  /** Consecutive repeats taken as one. */
  function Collapsed<T(==)>(xs: seq<T>): seq<T> {
    if xs == [] then [] else Appended(Collapsed(xs[..|xs| - 1]), xs[|xs| - 1])
  }

  function Appended<T(==)>(xs: seq<T>, x: T): seq<T> {
    if xs != [] && xs[|xs| - 1] == x then xs else xs + [x]
  }

  lemma CollapsedGrows<T>(xs: seq<T>, x: T)
    ensures Collapsed(xs + [x]) == Appended(Collapsed(xs), x)
  {
    assert (xs + [x])[..|xs|] == xs;
  }

  function Described(path: string): Ancestor { Ancestor(DisplayName(path), path) }

  /** The ancestors at these paths, each named by its own. */
  function Origin(paths: seq<string>): seq<Ancestor> {
    seq(|paths|, i requires 0 <= i < |paths| => Described(paths[i]))
  }

  lemma {:induction false} CollapsedHasNoRepeats<T>(paths: seq<T>)
    ensures var c := Collapsed(paths);
      && |c| <= |paths| && (paths != [] ==> c != [] && c[|c| - 1] == paths[|paths| - 1])
      && (forall i | 0 <= i < |c| - 1 :: c[i] != c[i + 1])
      && (forall i | 0 <= i < |c| :: c[i] in paths)
  {
    if paths != [] {
      CollapsedHasNoRepeats(paths[..|paths| - 1]);
    }
  }

  /** Inert text, named as a function of its path. */
  predicate WellNamed(a: Ancestor) {
    a.name == DisplayName(a.path) && Inert(a.path)
  }

  /** The origin of a request as the prompt and the remembered question need it. */
  predicate WellDescribed(origin: seq<Ancestor>) {
    && |origin| <= MAX_ORIGIN_DEPTH
    && (forall i | 0 <= i < |origin| :: WellNamed(origin[i]))
    && (forall i | 0 <= i < |origin| - 1 :: origin[i].path != origin[i + 1].path)
  }

  lemma {:induction false} WalkIsInert(t: Table, pid: int, depth: nat)
    ensures var paths := Walk(t, pid, depth);
      |paths| <= depth && forall i | 0 <= i < |paths| :: Inert(paths[i])
    decreases depth
  {
    if depth > 0 && Above(t, pid).Some? {
      var next := Above(t, pid).value;
      EscapedIsInert(next.1);
      WalkIsInert(t, next.0, depth - 1);
    }
  }

  /** However the process tree looks, the origin reported is bounded, inert, and without repeats. */
  lemma OriginIsWellDescribed(t: Table, pid: int, depth: nat)
    requires depth <= MAX_ORIGIN_DEPTH
    ensures WellDescribed(Chain(t, pid, depth, []))
  {
    var walked := Walk(t, pid, depth);
    WalkIsInert(t, pid, depth);
    CollapsedHasNoRepeats(walked);
    ChainIsTheCollapsedWalk(t, pid, depth);
    var origin := Origin(Collapsed(walked));
    forall i | 0 <= i < |origin| ensures WellNamed(origin[i]) {
      assert origin[i] == Described(Collapsed(walked)[i]) && Collapsed(walked)[i] in walked;
    }
  }

  /** One more ancestor reported, unless it runs what the last one does. */
  function Noted(ancestors: seq<Ancestor>, path: string): seq<Ancestor> {
    if ancestors != [] && ancestors[|ancestors| - 1].path == path then ancestors
    else ancestors + [Described(path)]
  }

  /** What a walk from here adds to the ancestors reported so far. */
  function Chain(t: Table, pid: int, depth: nat, ancestors: seq<Ancestor>): seq<Ancestor>
    decreases depth
  {
    if depth == 0 || Above(t, pid).None? then ancestors
    else
      var next := Above(t, pid).value;
      Chain(t, next.0, depth - 1, Noted(ancestors, Escaped(next.1)))
  }

  lemma NotedIsAppended(paths: seq<string>, path: string)
    ensures Noted(Origin(paths), path) == Origin(Appended(paths, path))
  {
    if paths == [] || paths[|paths| - 1] != path {
      assert Origin(paths + [path]) == Origin(paths) + [Described(path)];
    }
  }

  function NotedAll(ancestors: seq<Ancestor>, paths: seq<string>): seq<Ancestor>
    decreases |paths|
  {
    if paths == [] then ancestors else NotedAll(Noted(ancestors, paths[0]), paths[1..])
  }

  lemma {:induction false} ChainNotesTheWalk(t: Table, pid: int, depth: nat, ancestors: seq<Ancestor>)
    ensures Chain(t, pid, depth, ancestors) == NotedAll(ancestors, Walk(t, pid, depth))
    decreases depth
  {
    if depth > 0 && Above(t, pid).Some? {
      var next := Above(t, pid).value;
      ChainNotesTheWalk(t, next.0, depth - 1, Noted(ancestors, Escaped(next.1)));
    }
  }

  function AppendedAll<T(==)>(xs: seq<T>, ys: seq<T>): seq<T>
    decreases |ys|
  {
    if ys == [] then xs else AppendedAll(Appended(xs, ys[0]), ys[1..])
  }

  lemma {:induction false} AppendingAllCollapses<T>(xs: seq<T>, ys: seq<T>)
    ensures AppendedAll(Collapsed(xs), ys) == Collapsed(xs + ys)
    decreases |ys|
  {
    if ys == [] {
      assert xs + ys == xs;
    } else {
      CollapsedGrows(xs, ys[0]);
      AppendingAllCollapses(xs + [ys[0]], ys[1..]);
      assert (xs + [ys[0]]) + ys[1..] == xs + ys;
    }
  }

  lemma {:induction false} NotingAllAppends(paths: seq<string>, more: seq<string>)
    ensures NotedAll(Origin(paths), more) == Origin(AppendedAll(paths, more))
    decreases |more|
  {
    if more != [] {
      NotedIsAppended(paths, more[0]);
      NotingAllAppends(Appended(paths, more[0]), more[1..]);
    }
  }

  /** What is reported of a process is its walk, with repeats collapsed and each path named. */
  lemma ChainIsTheCollapsedWalk(t: Table, pid: int, depth: nat)
    ensures Chain(t, pid, depth, []) == Origin(Collapsed(Walk(t, pid, depth)))
  {
    ChainNotesTheWalk(t, pid, depth, []);
    NotingAllAppends([], Walk(t, pid, depth));
    AppendingAllCollapses([], Walk(t, pid, depth));
    assert [] + Walk(t, pid, depth) == Walk(t, pid, depth);
  }

  method OriginChainFrom(pid: int, t: Table, depth: nat) returns (ancestors: seq<Ancestor>)
    ensures ancestors == Chain(t, pid, depth, [])
  {
    ancestors := [];
    var current := pid;
    for step := 0 to depth
      invariant Chain(t, current, depth - step, ancestors) == Chain(t, pid, depth, [])
    {
      var next := ParentOf(t, current);
      if next.None? || next.value <= 1 { return; }
      var found := PathOf(t, next.value);
      if found.None? { return; }
      var path := EscapeForDisplay(found.value);
      if ancestors == [] || ancestors[|ancestors| - 1].path != path {
        ancestors := ancestors + [Ancestor(DisplayName(path), path)];
      }
      current := next.value;
    }
  }
}
