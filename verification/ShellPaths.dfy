/**
 * The directory in which a started command runs, described by the components of the paths
 * rather than by how they are joined.
 */
module ShellPaths {
  import opened Common
  import opened ShellParse
  import opened ShellShape
  import opened ShellRun
  import opened ShellTheorems

  predicate IsAbsolute(path: string) {
    path != [] && path[0] == '/'
  }

  predicate EndsInSlash(path: string) {
    path != [] && path[|path| - 1] == '/'
  }

  /** An absolute directory replaces the path. A relative one follows it, behind one separator
      unless the path is empty or already ends in one. */
  lemma JoinIs(path: string, dir: string)
    ensures IsAbsolute(dir) ==> JoinPath(path, dir) == dir
    ensures !IsAbsolute(dir) ==>
      var rest := JoinPath(path, dir)[|path|..];
      && path <= JoinPath(path, dir)
      && (rest == if path == [] || EndsInSlash(path) then dir else ['/'] + dir)
  {
  }

  // ----- components -----

  function FirstSlash(path: string): (n: nat)
    ensures n <= |path| && '/' !in path[..n]
    ensures n < |path| ==> path[n] == '/'
  {
    if path == [] || path[0] == '/' then 0
    else
      var n := 1 + FirstSlash(path[1..]);
      assert path[..n] == [path[0]] + path[1..][..n - 1];
      n
  }

  lemma {:induction false} FirstSlashIs(path: string, n: nat)
    requires n <= |path| && '/' !in path[..n] && (n < |path| ==> path[n] == '/')
    ensures FirstSlash(path) == n
    decreases n
  {
    if n > 0 {
      assert path[0] == path[..n][0];
      assert path[1..][..n - 1] == path[..n][1..];
      FirstSlashIs(path[1..], n - 1);
    }
  }

  /** The non-empty pieces between the slashes. */
  function Components(path: string): (r: seq<string>)
    ensures forall i :: 0 <= i < |r| ==> r[i] != [] && '/' !in r[i]
    decreases |path|
  {
    if path == [] then []
    else if path[0] == '/' then Components(path[1..])
    else
      var n := FirstSlash(path);
      [path[..n]] + Components(path[n..])
  }

  function AllComponents(paths: seq<string>): seq<string> {
    if paths == [] then [] else AllComponents(paths[..|paths| - 1]) + Components(paths[|paths| - 1])
  }

  lemma ComponentsAt(path: string, n: nat)
    requires 0 < n <= |path| && path[0] != '/' && '/' !in path[..n] && (n < |path| ==> path[n] == '/')
    ensures Components(path) == [path[..n]] + Components(path[n..])
  {
    FirstSlashIs(path, n);
    hide FirstSlash;
  }

  lemma Regroup(a: seq<string>, b: seq<string>, c: seq<string>)
    ensures a + b + c == a + (b + c)
  {
  }

  lemma ComponentsBehind(path: string)
    requires path != [] && path[0] == '/'
    ensures Components(path) == Components(path[1..])
  {
  }

  predicate MeetAtSlash(a: string, b: string) {
    a == [] || EndsInSlash(a) || b == [] || b[0] == '/'
  }

  lemma MeetLater(a: string, b: string, n: nat)
    requires MeetAtSlash(a, b) && n <= |a|
    ensures MeetAtSlash(a[n..], b)
    ensures (a + b)[n..] == a[n..] + b && (a + b)[..n] == a[..n]
    ensures n == |a| > 0 && '/' !in a && b != [] ==> b[0] == '/'
  {
  }

  /** Where two texts meet at a slash their components add up. */
  lemma {:induction false} ComponentsConcat(a: string, b: string)
    requires MeetAtSlash(a, b)
    ensures Components(a + b) == Components(a) + Components(b)
    decreases |a|
  {
    if a == [] {
      assert a + b == b;
    } else {
      hide Components;
      if a[0] == '/' {
        ComponentsBehind(a);
        ComponentsBehind(a + b);
        MeetLater(a, b, 1);
        hide MeetAtSlash;
        ComponentsConcat(a[1..], b);
      } else {
        var n := FirstSlash(a);
        assert n > 0;
        hide FirstSlash;
        MeetLater(a, b, n);
        hide MeetAtSlash;
        ComponentsAt(a, n);
        ComponentsOfBoth(a, b, n);
        ComponentsConcat(a[n..], b);
        Regroup([a[..n]], Components(a[n..]), Components(b));
      }
    }
  }

  lemma ComponentsOfBoth(a: string, b: string, n: nat)
    requires MeetAtSlash(a, b) && 0 < n <= |a| && a[0] != '/' && '/' !in a[..n] && (n < |a| ==> a[n] == '/')
    ensures Components(a + b) == [a[..n]] + Components(a[n..] + b)
  {
    hide Components;
    MeetLater(a, b, n);
    assert a[..|a|] == a;
    assert n < |a| ==> (a + b)[n] == a[n];
    assert n == |a| && b != [] ==> (a + b)[n] == b[0];
    hide MeetAtSlash;
    ComponentsAt(a + b, n);
  }

  lemma JoinComponents(path: string, dir: string)
    requires !IsAbsolute(dir)
    ensures Components(JoinPath(path, dir)) == Components(path) + Components(dir)
  {
    if path == [] || EndsInSlash(path) {
      ComponentsConcat(path, dir);
    } else {
      assert path + "/" + dir == path + ['/'] + dir;
      ComponentsConcat(path + ['/'], dir);
      ComponentsConcat(path, ['/']);
      assert Components(['/']) == Components([]);
    }
  }

  // ----- the directory after a list of nodes -----

  /** The directories named by the `cd`s, in order. */
  function DirNames(nodes: seq<Node>): seq<string> {
    if nodes == [] then []
    else
      var n := nodes[|nodes| - 1];
      DirNames(nodes[..|nodes| - 1]) + if n.Chdir? && n.dir.Some? then [n.dir.value] else []
  }

  /** The position of the last absolute directory, or -1. */
  function LastAbsolute(dirs: seq<string>): (k: int)
    ensures -1 <= k < |dirs| && (k >= 0 ==> IsAbsolute(dirs[k]))
    ensures forall j :: k < j < |dirs| ==> !IsAbsolute(dirs[j])
  {
    if dirs == [] then -1
    else if IsAbsolute(dirs[|dirs| - 1]) then |dirs| - 1
    else LastAbsolute(dirs[..|dirs| - 1])
  }

  /** The last absolute directory, or `cwd` when there is none. */
  function Base(cwd: string, dirs: seq<string>): string {
    var k := LastAbsolute(dirs);
    if k < 0 then cwd else dirs[k]
  }

  /** The directories behind the last absolute one. */
  function Later(dirs: seq<string>): seq<string> {
    dirs[LastAbsolute(dirs) + 1..]
  }

  /** `path` starts with the last absolute directory, or with `cwd` when there is none, and goes
      on with the components of every later directory, in order. */
  predicate LeadsThrough(cwd: string, dirs: seq<string>, path: string) {
    Base(cwd, dirs) <= path && Components(path) == Components(Base(cwd, dirs)) + AllComponents(Later(dirs))
  }

  lemma AllComponentsSnoc(paths: seq<string>, path: string)
    ensures AllComponents(paths + [path]) == AllComponents(paths) + Components(path)
  {
    hide Components;
    assert (paths + [path])[..|paths|] == paths;
  }

  lemma BaseSnoc(cwd: string, dirs: seq<string>, dir: string)
    ensures Base(cwd, dirs + [dir]) == if IsAbsolute(dir) then dir else Base(cwd, dirs)
    ensures Later(dirs + [dir]) == if IsAbsolute(dir) then [] else Later(dirs) + [dir]
  {
    assert (dirs + [dir])[..|dirs|] == dirs;
  }

  lemma LeadsAnew(cwd: string, dirs: seq<string>, dir: string)
    requires IsAbsolute(dir)
    ensures LeadsThrough(cwd, dirs + [dir], dir)
  {
    BaseSnoc(cwd, dirs, dir);
    hide Base;
    hide Later;
    hide Components;
    assert Components(dir) + [] == Components(dir);
  }

  lemma PrefixOfPrefix(a: string, b: string, c: string)
    requires a <= b && b <= c
    ensures a <= c
  {
  }

  lemma LeadsOn(cwd: string, dirs: seq<string>, path: string, dir: string)
    requires !IsAbsolute(dir) && LeadsThrough(cwd, dirs, path)
    ensures LeadsThrough(cwd, dirs + [dir], JoinPath(path, dir))
  {
    hide JoinPath;
    hide Components;
    hide AllComponents;
    hide Base;
    hide Later;
    JoinComponents(path, dir);
    BaseSnoc(cwd, dirs, dir);
    AllComponentsSnoc(Later(dirs), dir);
    JoinIs(path, dir);
    PrefixOfPrefix(Base(cwd, dirs), path, JoinPath(path, dir));
    Regroup(Components(Base(cwd, dirs)), AllComponents(Later(dirs)), Components(dir));
  }

  /** The directory behind a list of nodes. */
  lemma {:induction false} DirectoryAfter(cwd: string, nodes: seq<Node>)
    ensures LeadsThrough(cwd, DirNames(nodes), CwdAfter(cwd, nodes))
  {
    if nodes == [] {
      assert Components(cwd) + [] == Components(cwd);
    } else {
      var front, n := nodes[..|nodes| - 1], nodes[|nodes| - 1];
      DirectoryAfter(cwd, front);
      var dirs, path := DirNames(front), CwdAfter(cwd, front);
      if n.Chdir? && n.dir.Some? {
        assert DirNames(nodes) == dirs + [n.dir.value] && CwdAfter(cwd, nodes) == JoinPath(path, n.dir.value);
        hide DirNames;
        hide CwdAfter;
        if IsAbsolute(n.dir.value) {
          LeadsAnew(cwd, dirs, n.dir.value);
          JoinIs(path, n.dir.value);
        } else {
          LeadsOn(cwd, dirs, path, n.dir.value);
        }
        hide LeadsThrough;
        hide JoinPath;
      } else {
        assert DirNames(nodes) == dirs && CwdAfter(cwd, nodes) == path;
        hide LeadsThrough;
      }
    }
  }

  /** Once a `cd` has been seen the directory is never the initial one again. */
  lemma {:induction false} MovedIffNamed(nodes: seq<Node>)
    ensures CwdAfter(".", nodes) == "." <==> DirNames(nodes) == []
    ensures DirNames(nodes) != [] ==> IsAbsolute(CwdAfter(".", nodes)) || |CwdAfter(".", nodes)| > 1
  {
    if nodes != [] {
      var front, n := nodes[..|nodes| - 1], nodes[|nodes| - 1];
      MovedIffNamed(front);
      if n.Chdir? && n.dir.Some? {
        JoinIs(CwdAfter(".", front), n.dir.value);
        hide JoinPath;
      }
    }
  }

  // ----- started commands -----

  predicate NoChdirs(nodes: seq<Node>) {
    forall j :: 0 <= j < |nodes| ==> !nodes[j].Chdir?
  }

  lemma {:induction false} NamedIffChdir(nodes: seq<Node>)
    requires NamedChdirs(nodes)
    ensures DirNames(nodes) == [] <==> NoChdirs(nodes)
  {
    if nodes != [] {
      var front := nodes[..|nodes| - 1];
      assert forall j :: 0 <= j < |front| ==> front[j] == nodes[j];
      NamedIffChdir(front);
    }
  }

  /** The directory handed to a process behind `nodes`: none if and only if there is no `cd` in
      them; otherwise it leads through all of them. */
  predicate RunsBehind(nodes: seq<Node>, cwd: Option<string>) {
    match cwd
    case None => NoChdirs(nodes)
    case Some(path) => !NoChdirs(nodes) && LeadsThrough(".", DirNames(nodes), path)
  }

  lemma ProcessDirectory(nodes: seq<Node>)
    requires NamedChdirs(nodes)
    ensures RunsBehind(nodes, ProcessCwd(CwdAfter(".", nodes)))
  {
    hide CwdAfter;
    hide DirNames;
    hide LeadsThrough;
    MovedIffNamed(nodes);
    DirectoryAfter(".", nodes);
    NamedIffChdir(nodes);
    hide NamedChdirs;
    hide NoChdirs;
  }

  lemma PlannedDirectory(nodes: seq<Node>, i: nat)
    requires i < |nodes| && nodes[i].Cmd? && NamedChdirs(nodes[..i]) && PlannedAt(nodes, ".", 0, false, i)
    ensures var k, plan := CommandsIn(nodes[..i]), Plan(nodes, ".", 0, false);
      k < |plan| && plan[k].Spawn? && plan[k].argv == nodes[i].cmd.argv && RunsBehind(nodes[..i], plan[k].cwd)
  {
    ProcessDirectory(nodes[..i]);
    hide Plan;
    hide CommandsIn;
    hide CwdAfter;
    hide FedByPipe;
    hide PlannedStdin;
    hide RunsBehind;
    hide NamedChdirs;
    hide ProcessCwd;
  }

  /** In the run of any parsed text, every command that is started runs in the directory of the
      `cd`s before it. */
  lemma StartedDirectory(tokens: seq<string>, verbose: bool, exits: nat -> int, i: nat)
    requires Parse(tokens).Some? && i < |Parse(tokens).value| && Parse(tokens).value[i].Cmd?
    ensures var nodes := Parse(tokens).value;
      var k, started := CommandsIn(nodes[..i]), SpawnsOf(RunFrom(verbose, exits, Initial(nodes)).trace);
      k < |started| ==>
        started[k].Spawn? && started[k].argv == nodes[i].cmd.argv && RunsBehind(nodes[..i], started[k].cwd)
  {
    ParseIsWellFormed(tokens);
    ParsedRunRefinesEval(tokens, verbose, exits);
    var nodes := Parse(tokens).value;
    hide Parse;
    hide RunFrom;
    hide Eval;
    hide Plan;
    hide SpawnsOf;
    hide CommandsIn;
    hide RunsBehind;
    hide PlannedAt;
    hide NamedChdirs;
    PlanByPosition(nodes, ".", 0, false, i);
    hide WellFormed;
    if NamedChdirs(nodes[..i]) {
      PlannedDirectory(nodes, i);
    }
  }
}
