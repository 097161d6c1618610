/**
 * What a run of a parsed pipeline computes and which processes it starts: the loop refines a
 * right-nested reading of the node list, exceptions included.
 */
module ShellTheorems {
  import opened Common
  import opened ShellParse
  import opened ShellShape
  import opened ShellRun

  /** No directory change lacks its argument or stands last. */
  predicate Runnable(nodes: seq<Node>) {
    forall i :: 0 <= i < |nodes| && nodes[i].Chdir? ==> nodes[i].dir.Some? && i + 1 < |nodes|
  }

  // ----- the reference: a right-nested reading of the node list -----

  /** How the list ends, how many of its commands are started, and whether it ends on a bad
      `cd` inside a pipe, with processes still pending. */
  datatype Verdict = Verdict(outcome: Outcome, started: nat, pending: bool)

  function More(v: Verdict, n: nat): Verdict {
    v.(started := v.started + n)
  }

  /** `a || rest` stops when `a` succeeds, `a && rest` when it fails; a command that feeds a
      pipe does not decide anything. A last `cd` has no operator to pop, a bare one no
      directory to join, and a verbose run reads an unassigned status where a job ends early. */
  function Eval(verbose: bool, nodes: seq<Node>, pid: nat, piping: bool, exits: nat -> int): Verdict {
    if nodes == [] then Verdict(NoResult, 0, false)
    else match nodes[0]
    case Chdir(dir) =>
      if |nodes| == 1 then Verdict(IndexError, 0, piping)
      else if dir.None? then Verdict(TypeError, 0, piping)
      else Eval(verbose, nodes[2..], pid, piping, exits)
    case Cmd(_) =>
      if |nodes| == 1 then Verdict(Exit(exits(pid)), 1, false)
      else if nodes[1] == Pipe then More(Eval(verbose, nodes[2..], pid + 1, true, exits), 1)
      else if verbose then Verdict(UnboundLocalError, 1, false)
      else if (nodes[1] == Or) == (exits(pid) == 0) then Verdict(Exit(exits(pid)), 1, false)
      else More(Eval(verbose, nodes[2..], pid + 1, false, exits), 1)
    case _ => Verdict(AssertionError, 0, false)
  }

  function PlannedStdin(c: Command, pid: nat, piped: bool): Stdin {
    if piped && pid > 0 then InPipe(pid - 1) else if c.stdin.Some? then InFile(c.stdin.value) else InDefault
  }

  /** The directory of the commands behind `nodes`: all the `cd`s joined. */
  function CwdAfter(cwd: string, nodes: seq<Node>): string {
    if nodes == [] then cwd
    else
      var n := nodes[|nodes| - 1];
      var before := CwdAfter(cwd, nodes[..|nodes| - 1]);
      if n.Chdir? && n.dir.Some? then JoinPath(before, n.dir.value) else before
  }

  /** Every command of the list as it would be started, whatever the statuses. */
  function Plan(nodes: seq<Node>, cwd: string, pid: nat, piping: bool): seq<Event> {
    if nodes == [] then []
    else match nodes[0]
    case Chdir(dir) =>
      if |nodes| == 1 || dir.None? then [] else Plan(nodes[2..], JoinPath(cwd, dir.value), pid, piping)
    case Cmd(c) =>
      [Spawn(pid, c.argv, PlannedStdin(c, pid, piping), c.stdout, c.stderr, c.env, ProcessCwd(cwd))]
        + if |nodes| == 1 then [] else Plan(nodes[2..], cwd, pid + 1, nodes[1] == Pipe)
    case _ => []
  }

  function SpawnsOf(trace: seq<Event>): seq<Event> {
    if trace == [] then []
    else (if trace[0].Spawn? then [trace[0]] else []) + SpawnsOf(trace[1..])
  }

  lemma SpawnsCons(e: Event, rest: seq<Event>)
    ensures SpawnsOf([e] + rest) == (if e.Spawn? then [e] else []) + SpawnsOf(rest)
  {
    assert ([e] + rest)[1..] == rest;
  }

  lemma {:induction false} SpawnsConcat(a: seq<Event>, b: seq<Event>)
    ensures SpawnsOf(a + b) == SpawnsOf(a) + SpawnsOf(b)
  {
    if a == [] {
      assert a + b == b;
    } else {
      hide SpawnsOf;
      var e, rest := a[0], a[1..];
      assert a == [e] + rest && a + b == [e] + (rest + b);
      SpawnsCons(e, rest);
      SpawnsCons(e, rest + b);
      SpawnsConcat(rest, b);
    }
  }

  lemma {:induction false} WaitsSpawnNothing(procs: seq<Proc>)
    ensures SpawnsOf(Waits(procs)) == []
  {
    if procs != [] {
      WaitsSpawnNothing(procs[..|procs| - 1]);
      SpawnsConcat(Waits(procs[..|procs| - 1]), [Wait(procs[|procs| - 1].pid)]);
    }
  }

  lemma {:induction false} ClosesSpawnNothing(files: seq<Handle>)
    ensures SpawnsOf(Closes(files)) == []
  {
    if files != [] {
      var last := files[|files| - 1];
      ClosesSpawnNothing(files[..|files| - 1]);
      SpawnsConcat(Closes(files[..|files| - 1]), if last.Fd? then [Close(last.fd)] else []);
    }
  }

  lemma SettleSpawnsNothing(st: Exec)
    ensures SpawnsOf(Settle(st)) == []
  {
    WaitsSpawnNothing(st.procs);
    ClosesSpawnNothing(st.files);
    SpawnsConcat(Waits(st.procs), Closes(st.files));
  }

  lemma OpensSpawnNothing(events: seq<Event>, e: Event)
    requires forall i :: 0 <= i < |events| ==> !events[i].Spawn?
    requires e.Spawn?
    ensures SpawnsOf(events + [e]) == [e]
    decreases |events|
  {
    if events == [] {
      assert events + [e] == [e];
      assert SpawnsOf([e]) == [e] + SpawnsOf([]);
    } else {
      assert (events + [e])[1..] == events[1..] + [e];
      OpensSpawnNothing(events[1..], e);
    }
  }

  lemma LaunchSpawnsOne(verbose: bool, st: Exec, c: Command)
    requires st.piping ==> st.procs != []
    ensures SpawnsOf(Launch(verbose, st, c).1) == [SpawnOf(st, c)]
  {
    var (s1, e1) := OpenStdin(st, c);
    var (s2, e2) := OpenStdout(s1, c);
    var (s3, e3) := OpenStderr(s2, c);
    OpensSpawnNothing(e1 + e2 + e3, SpawnOf(st, c));
  }

  /** Between two iterations: inside a pipe the last process is the latest one, with an open
      pipe; otherwise no process is pending and no file open. */
  predicate InJob(st: Exec) {
    && (st.piping <==> st.procs != [])
    && (!st.piping ==> st.files == [])
    && (st.piping ==> st.pid > 0 && st.procs[|st.procs| - 1] == Proc(st.pid - 1, true))
  }

  lemma LaunchAdvances(verbose: bool, st: Exec, c: Command)
    requires InJob(st)
    ensures var s := Launch(verbose, st, c).0;
      s.pid == st.pid + 1 && s.procs[|s.procs| - 1] == Proc(st.pid, c.stdout == OutPipe)
  {
  }

  lemma StatusOfJob(verbose: bool, exits: nat -> int, st: Exec, c: Command)
    requires InJob(st)
    ensures JobStatus(exits, Launch(verbose, st, c).0.procs) == exits(st.pid)
  {
    LaunchAdvances(verbose, st, c);
    hide Launch;
  }

  lemma WellFormedHead(nodes: seq<Node>)
    requires WellFormed(nodes)
    ensures nodes != [] && (nodes[0].Cmd? || nodes[0].Chdir?)
    ensures |nodes| > 1 ==> |nodes| > 2 && LinkOk(nodes[0], nodes[1])
    ensures |nodes| == 1 && nodes[0].Cmd? ==> nodes[0].cmd.stdout != OutPipe
  {
  }

  function EvalOf(verbose: bool, exits: nat -> int, st: Exec): Verdict {
    Eval(verbose, st.nodes, st.pid, st.piping, exits)
  }

  function PlanOf(st: Exec): seq<Event> {
    Plan(st.nodes, st.cwd, st.pid, st.piping)
  }

  /** The run from `st` ends as the reference does, and it has started exactly the first
      commands of the plan, in order, each with its planned input and directory. */
  ghost predicate Refines(verbose: bool, exits: nat -> int, st: Exec)
    requires InJob(st)
  {
    var r, v := RunFrom(verbose, exits, st), EvalOf(verbose, exits, st);
    && r.outcome == v.outcome
    && |SpawnsOf(r.trace)| == v.started
    && SpawnsOf(r.trace) <= PlanOf(st)
  }

  lemma PlanHead(st: Exec)
    requires InJob(st) && st.nodes != [] && st.nodes[0].Cmd?
    ensures PlanOf(st) == [SpawnOf(st, st.nodes[0].cmd)]
      + if |st.nodes| == 1 then [] else Plan(st.nodes[2..], st.cwd, st.pid + 1, st.nodes[1] == Pipe)
  {
  }

  // ----- one iteration of the loop -----

  lemma IterateAtEnd(verbose: bool, exits: nat -> int, st: Exec)
    requires InJob(st) && |st.nodes| == 1 && st.nodes[0].Cmd?
    ensures var (s, events) := Launch(verbose, st, st.nodes[0].cmd);
      Iterate(verbose, exits, st)
        == Ended(Report(Exit(exits(st.pid)), events + Settle(s), if verbose then Some(s.display) else None))
  {
    StatusOfJob(verbose, exits, st, st.nodes[0].cmd);
    hide Launch;
    hide Settle;
    hide JobStatus;
  }

  lemma IterateAtChdir(verbose: bool, exits: nat -> int, st: Exec)
    requires InJob(st) && st.nodes != [] && st.nodes[0].Chdir?
    requires |st.nodes| > 1 ==> st.nodes[1] == And
    ensures Iterate(verbose, exits, st) ==
      if |st.nodes| == 1 then Ended(Report(IndexError, [], None))
      else match st.nodes[0].dir
      case Some(dir) => Continued([], AfterChdir(verbose, st, dir))
      case None => Ended(Report(TypeError, [], None))
  {
  }

  lemma IterateAtPipe(verbose: bool, exits: nat -> int, st: Exec)
    requires InJob(st) && |st.nodes| >= 2 && st.nodes[0].Cmd? && st.nodes[1] == Pipe
    ensures var (s, events) := Launch(verbose, st, st.nodes[0].cmd);
      Iterate(verbose, exits, st) == Continued(events, AfterPipe(s))
  {
    hide Launch;
    hide Settle;
  }

  /** Where a job ends before the list does, its status decides whether the run goes on; a
      verbose run fails there. */
  lemma IterateAtBoundary(verbose: bool, exits: nat -> int, st: Exec)
    requires InJob(st) && |st.nodes| >= 2 && st.nodes[0].Cmd?
    requires st.nodes[1] == And || st.nodes[1] == Or
    ensures var (s, events) := Launch(verbose, st, st.nodes[0].cmd);
      Iterate(verbose, exits, st) ==
        if verbose then Ended(Report(UnboundLocalError, events + Settle(s), None))
        else if Stops(st.nodes[1], exits(st.pid))
        then Ended(Report(Exit(exits(st.pid)), events + Settle(s), None))
        else Continued(events + Settle(s), NextJob(s))
  {
    StatusOfJob(verbose, exits, st, st.nodes[0].cmd);
    hide Launch;
    hide Settle;
    hide JobStatus;
    hide Stops;
  }

  lemma SettledSpawnsOne(verbose: bool, st: Exec, c: Command)
    requires InJob(st)
    ensures var (s, events) := Launch(verbose, st, c); SpawnsOf(events + Settle(s)) == [SpawnOf(st, c)]
  {
    hide Launch;
    hide SpawnsOf;
    var (s, events) := Launch(verbose, st, c);
    LaunchSpawnsOne(verbose, st, c);
    SettleSpawnsNothing(s);
    SpawnsConcat(events, Settle(s));
  }

  // ----- one iteration refines one step of the reference -----

  lemma EndedRefines(verbose: bool, exits: nat -> int, st: Exec, spawned: seq<Event>)
    requires InJob(st) && st.nodes != [] && Iterate(verbose, exits, st).Ended?
    requires var report := Iterate(verbose, exits, st).report;
      SpawnsOf(report.trace) == spawned && EvalOf(verbose, exits, st).outcome == report.outcome
    requires spawned <= PlanOf(st) && EvalOf(verbose, exits, st).started == |spawned|
    ensures Refines(verbose, exits, st)
  {
    hide Iterate;
    hide SpawnsOf;
    hide EvalOf;
    hide PlanOf;
  }

  lemma ContinuedRefines(verbose: bool, exits: nat -> int, st: Exec, spawned: seq<Event>)
    requires InJob(st) && st.nodes != [] && Iterate(verbose, exits, st).Continued?
    requires var step := Iterate(verbose, exits, st);
      && SpawnsOf(step.events) == spawned
      && InJob(step.next) && Refines(verbose, exits, step.next)
      && PlanOf(st) == spawned + PlanOf(step.next)
      && EvalOf(verbose, exits, st) == More(EvalOf(verbose, exits, step.next), |spawned|)
    ensures Refines(verbose, exits, st)
  {
    hide Iterate;
    hide SpawnsOf;
    hide EvalOf;
    hide PlanOf;
    var step := Iterate(verbose, exits, st);
    SpawnsConcat(step.events, RunFrom(verbose, exits, step.next).trace);
  }

  lemma ChdirRefines(verbose: bool, exits: nat -> int, st: Exec)
    requires InJob(st) && st.nodes != [] && st.nodes[0].Chdir?
    requires |st.nodes| > 1 ==> st.nodes[1] == And
    requires |st.nodes| > 1 && st.nodes[0].dir.Some? ==>
      Refines(verbose, exits, AfterChdir(verbose, st, st.nodes[0].dir.value))
    ensures Refines(verbose, exits, st)
  {
    hide Refines;
    hide JoinPath;
    IterateAtChdir(verbose, exits, st);
    hide Iterate;
    if |st.nodes| > 1 && st.nodes[0].dir.Some? {
      var next := AfterChdir(verbose, st, st.nodes[0].dir.value);
      assert PlanOf(st) == [] + PlanOf(next);
      assert EvalOf(verbose, exits, st) == More(EvalOf(verbose, exits, next), 0);
      ContinuedRefines(verbose, exits, st, []);
    } else {
      EndedRefines(verbose, exits, st, []);
    }
  }

  lemma PipeRefines(verbose: bool, exits: nat -> int, st: Exec)
    requires InJob(st) && |st.nodes| >= 2 && st.nodes[0].Cmd? && st.nodes[1] == Pipe
    requires st.nodes[0].cmd.stdout == OutPipe
    requires var next := AfterPipe(Launch(verbose, st, st.nodes[0].cmd).0);
      InJob(next) && Refines(verbose, exits, next)
    ensures Refines(verbose, exits, st)
  {
    var c := st.nodes[0].cmd;
    var next := AfterPipe(Launch(verbose, st, c).0);
    LaunchSpawnsOne(verbose, st, c);
    LaunchAdvances(verbose, st, c);
    PlanHead(st);
    IterateAtPipe(verbose, exits, st);
    hide Launch;
    hide Iterate;
    hide SpawnsOf;
    hide Refines;
    assert EvalOf(verbose, exits, st) == More(EvalOf(verbose, exits, next), 1);
    hide EvalOf;
    ContinuedRefines(verbose, exits, st, [SpawnOf(st, c)]);
  }

  /** A job that ends: with the list, or with the operator that stops the run. */
  lemma JobEndRefines(verbose: bool, exits: nat -> int, st: Exec)
    requires InJob(st) && st.nodes != [] && st.nodes[0].Cmd?
    requires |st.nodes| > 1 ==> st.nodes[1] == And || st.nodes[1] == Or
    requires |st.nodes| > 1 && !verbose ==> Stops(st.nodes[1], exits(st.pid))
    ensures Refines(verbose, exits, st)
  {
    hide Launch;
    hide SpawnsOf;
    hide Settle;
    hide Refines;
    if |st.nodes| == 1 {
      IterateAtEnd(verbose, exits, st);
    } else {
      IterateAtBoundary(verbose, exits, st);
    }
    hide Iterate;
    SettledSpawnsOne(verbose, st, st.nodes[0].cmd);
    PlanHead(st);
    hide Plan;
    hide SpawnOf;
    EndedRefines(verbose, exits, st, [SpawnOf(st, st.nodes[0].cmd)]);
  }

  lemma ProceedRefines(exits: nat -> int, st: Exec)
    requires InJob(st) && |st.nodes| >= 2 && st.nodes[0].Cmd?
    requires st.nodes[1] == And || st.nodes[1] == Or
    requires !Stops(st.nodes[1], exits(st.pid))
    requires Refines(false, exits, NextJob(Launch(false, st, st.nodes[0].cmd).0))
    ensures Refines(false, exits, st)
  {
    hide SpawnsOf;
    hide Settle;
    hide Refines;
    var c := st.nodes[0].cmd;
    var next := NextJob(Launch(false, st, c).0);
    IterateAtBoundary(false, exits, st);
    LaunchAdvances(false, st, c);
    hide Launch;
    hide Iterate;
    SettledSpawnsOne(false, st, c);
    PlanHead(st);
    assert EvalOf(false, exits, st) == More(EvalOf(false, exits, next), 1);
    hide EvalOf;
    ContinuedRefines(false, exits, st, [SpawnOf(st, c)]);
  }

  /** A run refines the reference, for any exit codes and however it ends. */
  lemma {:induction false} RunRefinesEval(verbose: bool, exits: nat -> int, st: Exec)
    requires WellFormed(st.nodes) && InJob(st)
    ensures Refines(verbose, exits, st)
    decreases |st.nodes|
  {
    var nodes := st.nodes;
    WellFormedHead(nodes);
    assert |nodes| > 1 ==> WellFormed(nodes[2..]);
    hide WellFormed;
    hide Refines;
    match nodes[0] {
      case Chdir(dir) =>
        hide JoinPath;
        if |nodes| > 1 && dir.Some? {
          RunRefinesEval(verbose, exits, AfterChdir(verbose, st, dir.value));
        }
        ChdirRefines(verbose, exits, st);
      case Cmd(c) =>
        LaunchAdvances(verbose, st, c);
        hide Launch;
        var s := Launch(verbose, st, c).0;
        if |nodes| > 1 && nodes[1] == Pipe {
          RunRefinesEval(verbose, exits, AfterPipe(s));
          PipeRefines(verbose, exits, st);
        } else if |nodes| > 1 && !verbose && !Stops(nodes[1], exits(st.pid)) {
          RunRefinesEval(verbose, exits, NextJob(s));
          ProceedRefines(exits, st);
        } else {
          JobEndRefines(verbose, exits, st);
        }
    }
  }

  /** The run of any parsed pipeline, for every exit code: it ends as the reference says, and
      starts the first commands of the plan. */
  lemma ParsedRunRefinesEval(tokens: seq<string>, verbose: bool, exits: nat -> int)
    requires Parse(tokens).Some?
    ensures var nodes := Parse(tokens).value;
      var r, v := RunFrom(verbose, exits, Initial(nodes)), Eval(verbose, nodes, 0, false, exits);
      && r.outcome == v.outcome
      && |SpawnsOf(r.trace)| == v.started
      && SpawnsOf(r.trace) <= Plan(nodes, ".", 0, false)
  {
    ParseIsWellFormed(tokens);
    RunRefinesEval(verbose, exits, Initial(Parse(tokens).value));
  }

  // ----- a run always ends in a status exactly when no `cd` is bad -----

  /** A status of the command number `k` that lets the operator behind it go on. */
  function PassCode(nodes: seq<Node>, k: nat): int {
    if |nodes| <= 1 then 0
    else if !nodes[0].Cmd? then PassCode(nodes[2..], k)
    else if k > 0 then PassCode(nodes[2..], k - 1)
    else if nodes[1] == Or then 1 else 0
  }

  ghost predicate Passing(nodes: seq<Node>, pid: nat, exits: nat -> int) {
    forall k: nat :: exits(pid + k) == PassCode(nodes, k)
  }

  lemma PassingTail(nodes: seq<Node>, pid: nat, exits: nat -> int)
    requires Passing(nodes, pid, exits) && |nodes| > 1
    ensures nodes[0].Cmd? ==> exits(pid) == if nodes[1] == Or then 1 else 0
    ensures Passing(nodes[2..], pid + if nodes[0].Cmd? then 1 else 0, exits)
  {
    assert exits(pid + 0) == PassCode(nodes, 0);
    forall k: nat ensures exits(pid + (if nodes[0].Cmd? then 1 else 0) + k) == PassCode(nodes[2..], k) {
      assert exits(pid + (if nodes[0].Cmd? then k + 1 else k)) == PassCode(nodes, if nodes[0].Cmd? then k + 1 else k);
    }
  }

  /** Going through the list, the first `cd` that is bare or last stands inside a pipe. */
  predicate FirstBadInPipe(nodes: seq<Node>, piping: bool) {
    if nodes == [] then false
    else if nodes[0].Chdir? then
      if |nodes| == 1 || nodes[0].dir.None? then piping else FirstBadInPipe(nodes[2..], piping)
    else |nodes| > 1 && FirstBadInPipe(nodes[2..], nodes[1] == Pipe)
  }

  lemma RunnableBehindPair(nodes: seq<Node>)
    requires WellFormed(nodes) && |nodes| > 1
    ensures Runnable(nodes) <==> (nodes[0].Chdir? ==> nodes[0].dir.Some?) && Runnable(nodes[2..])
  {
    WellFormedHead(nodes);
    if Runnable(nodes) {
      forall i | 0 <= i < |nodes[2..]| && nodes[2..][i].Chdir?
        ensures nodes[2..][i].dir.Some? && i + 1 < |nodes[2..]|
      {
        assert nodes[2..][i] == nodes[i + 2];
      }
    } else {
      var i :| 0 <= i < |nodes| && nodes[i].Chdir? && !(nodes[i].dir.Some? && i + 1 < |nodes|);
      assert i > 1 ==> nodes[2..][i - 2] == nodes[i];
    }
  }

  /** Whatever the exit codes, a list without a bad `cd` ends in a status, and one whose first
      bad `cd` is outside a pipe leaves nothing pending. Passing exit codes reach that `cd`. */
  lemma {:induction false} EvalReaches(nodes: seq<Node>, pid: nat, piping: bool, exits: nat -> int)
    requires WellFormed(nodes)
    ensures var v := Eval(false, nodes, pid, piping, exits);
      && (Runnable(nodes) ==> v.outcome.Exit?)
      && (v.pending ==> FirstBadInPipe(nodes, piping))
      && (Passing(nodes, pid, exits) ==>
            (v.outcome.Exit? ==> Runnable(nodes)) && (FirstBadInPipe(nodes, piping) ==> v.pending))
    decreases |nodes|
  {
    WellFormedHead(nodes);
    if |nodes| > 1 {
      RunnableBehindPair(nodes);
      if Passing(nodes, pid, exits) {
        PassingTail(nodes, pid, exits);
      }
      assert WellFormed(nodes[2..]);
      hide WellFormed;
      hide Runnable;
      hide Passing;
      if nodes[0].Cmd? {
        EvalReaches(nodes[2..], pid + 1, nodes[1] == Pipe, exits);
      } else {
        EvalReaches(nodes[2..], pid, piping, exits);
      }
    }
  }

  lemma PassingExits(nodes: seq<Node>) returns (exits: nat -> int)
    ensures Passing(nodes, 0, exits)
  {
    exits := (k: nat) => PassCode(nodes, k);
  }

  /** A parsed pipeline returns a status whatever its commands do if and only if none of its
      `cd`s is bare or last. */
  lemma AlwaysReturnsIffRunnable(nodes: seq<Node>)
    requires WellFormed(nodes)
    ensures Runnable(nodes) <==> forall exits: nat -> int :: RunFrom(false, exits, Initial(nodes)).outcome.Exit?
  {
    forall exits: nat -> int ensures RunFrom(false, exits, Initial(nodes)).outcome == Eval(false, nodes, 0, false, exits).outcome {
      RunRefinesEval(false, exits, Initial(nodes));
    }
    hide RunFrom;
    hide Eval;
    if Runnable(nodes) {
      forall exits: nat -> int ensures RunFrom(false, exits, Initial(nodes)).outcome.Exit? {
        EvalReaches(nodes, 0, false, exits);
      }
    } else {
      var exits := PassingExits(nodes);
      EvalReaches(nodes, 0, false, exits);
      assert !RunFrom(false, exits, Initial(nodes)).outcome.Exit?;
    }
  }

  // ----- the plan, position by position -----

  function CommandsIn(nodes: seq<Node>): nat {
    if nodes == [] then 0 else (if nodes[0].Cmd? then 1 else 0) + CommandsIn(nodes[1..])
  }

  lemma {:induction false} CwdConcat(cwd: string, a: seq<Node>, b: seq<Node>)
    ensures CwdAfter(cwd, a + b) == CwdAfter(CwdAfter(cwd, a), b)
    decreases |b|
  {
    if b == [] {
      assert a + b == a;
    } else {
      assert (a + b)[..|a + b| - 1] == a + b[..|b| - 1];
      CwdConcat(cwd, a, b[..|b| - 1]);
    }
  }

  lemma CwdOfPair(cwd: string, n: Node, op: Node)
    requires !op.Chdir?
    ensures CwdAfter(cwd, [n, op]) == if n.Chdir? && n.dir.Some? then JoinPath(cwd, n.dir.value) else cwd
  {
    assert [n, op][..1] == [n];
    assert [n][..0] == [];
    assert CwdAfter(cwd, [n]) == if n.Chdir? && n.dir.Some? then JoinPath(cwd, n.dir.value) else cwd;
  }

  lemma PrefixBehindPair(cwd: string, nodes: seq<Node>, i: nat)
    requires 2 <= i <= |nodes| && !nodes[1].Chdir? && !nodes[1].Cmd?
    ensures CommandsIn(nodes[..i]) == (if nodes[0].Cmd? then 1 else 0) + CommandsIn(nodes[2..][..i - 2])
    ensures CwdAfter(cwd, nodes[..i]) == CwdAfter(CwdAfter(cwd, [nodes[0], nodes[1]]), nodes[2..][..i - 2])
  {
    assert nodes[..i] == [nodes[0], nodes[1]] + nodes[2..][..i - 2];
    CwdConcat(cwd, [nodes[0], nodes[1]], nodes[2..][..i - 2]);
    assert nodes[..i][1..][1..] == nodes[2..][..i - 2];
  }

  /** The command at position `i` reads a pipe: a `|` stands before it, with nothing but
      directory changes in between, or the list itself was entered inside a pipe. */
  predicate FedByPipe(nodes: seq<Node>, i: nat, piping: bool)
    requires i < |nodes|
  {
    if i < 2 then piping
    else if nodes[i - 2].Chdir? then FedByPipe(nodes, i - 2, piping)
    else nodes[i - 1] == Pipe
  }

  lemma {:induction false} FedByPipeTail(nodes: seq<Node>, i: nat, piping: bool)
    requires 2 <= i < |nodes| && i % 2 == 0
    ensures FedByPipe(nodes, i, piping)
      == FedByPipe(nodes[2..], i - 2, if nodes[0].Chdir? then piping else nodes[1] == Pipe)
  {
    if i > 2 {
      FedByPipeTail(nodes, i - 2, piping);
    }
  }

  /** The command at position `i` is planned under the number of commands before it, with its
      own words, redirects and environment, in the directory of all the `cd`s before it; its
      input is the process just before when a pipe feeds it. */
  predicate PlannedAt(nodes: seq<Node>, cwd: string, pid: nat, piping: bool, i: nat)
    requires i < |nodes| && nodes[i].Cmd?
  {
    var k, plan, c := CommandsIn(nodes[..i]), Plan(nodes, cwd, pid, piping), nodes[i].cmd;
    && k < |plan|
    && plan[k] == Spawn(pid + k, c.argv, PlannedStdin(c, pid + k, FedByPipe(nodes, i, piping)),
                        c.stdout, c.stderr, c.env, ProcessCwd(CwdAfter(cwd, nodes[..i])))
  }

  lemma PlannedFirst(nodes: seq<Node>, cwd: string, pid: nat, piping: bool)
    requires nodes != [] && nodes[0].Cmd?
    ensures PlannedAt(nodes, cwd, pid, piping, 0)
  {
    assert nodes[..0] == [];
  }

  lemma PlannedBehindChdir(nodes: seq<Node>, cwd: string, pid: nat, piping: bool, i: nat)
    requires 2 <= i < |nodes| && i % 2 == 0 && nodes[i].Cmd?
    requires nodes[0].Chdir? && nodes[0].dir.Some? && nodes[1] == And
    requires PlannedAt(nodes[2..], JoinPath(cwd, nodes[0].dir.value), pid, piping, i - 2)
    ensures PlannedAt(nodes, cwd, pid, piping, i)
  {
    PrefixBehindPair(cwd, nodes, i);
    CwdOfPair(cwd, nodes[0], nodes[1]);
    FedByPipeTail(nodes, i, piping);
    assert Plan(nodes, cwd, pid, piping) == Plan(nodes[2..], JoinPath(cwd, nodes[0].dir.value), pid, piping);
    hide Plan;
    hide CommandsIn;
    hide CwdAfter;
    hide JoinPath;
    hide FedByPipe;
    hide PlannedStdin;
  }

  lemma PlannedBehindCommand(nodes: seq<Node>, cwd: string, pid: nat, piping: bool, i: nat)
    requires 2 <= i < |nodes| && i % 2 == 0 && nodes[i].Cmd?
    requires nodes[0].Cmd? && !nodes[1].Chdir? && !nodes[1].Cmd?
    requires PlannedAt(nodes[2..], cwd, pid + 1, nodes[1] == Pipe, i - 2)
    ensures PlannedAt(nodes, cwd, pid, piping, i)
  {
    PrefixBehindPair(cwd, nodes, i);
    CwdOfPair(cwd, nodes[0], nodes[1]);
    FedByPipeTail(nodes, i, piping);
    var plan := Plan(nodes, cwd, pid, piping);
    assert plan[1..] == Plan(nodes[2..], cwd, pid + 1, nodes[1] == Pipe);
    hide Plan;
    hide CommandsIn;
    hide CwdAfter;
    hide JoinPath;
    hide FedByPipe;
    hide PlannedStdin;
  }

  /** Every `cd` of the list names a directory. */
  predicate NamedChdirs(nodes: seq<Node>) {
    forall i :: 0 <= i < |nodes| && nodes[i].Chdir? ==> nodes[i].dir.Some?
  }

  /** The plan holds exactly the commands that no bare `cd` precedes, each as `PlannedAt` says. */
  lemma {:induction false} PlanByPosition(nodes: seq<Node>, cwd: string, pid: nat, piping: bool, i: nat)
    requires WellFormed(nodes) && i < |nodes| && nodes[i].Cmd?
    ensures NamedChdirs(nodes[..i]) ==> PlannedAt(nodes, cwd, pid, piping, i)
    ensures !NamedChdirs(nodes[..i]) ==> |Plan(nodes, cwd, pid, piping)| <= CommandsIn(nodes[..i])
    decreases |nodes|
  {
    WellFormedHead(nodes);
    ShapeByPosition(nodes, i);
    hide PlannedAt;
    if i == 0 {
      PlannedFirst(nodes, cwd, pid, piping);
    } else {
      hide WellFormed;
      NamedBehindPair(nodes, i);
      PrefixBehindPair(cwd, nodes, i);
      hide NamedChdirs;
      hide CommandsIn;
      hide CwdAfter;
      if nodes[0].Cmd? {
        PlanByPosition(nodes[2..], cwd, pid + 1, nodes[1] == Pipe, i - 2);
        if NamedChdirs(nodes[..i]) {
          PlannedBehindCommand(nodes, cwd, pid, piping, i);
        }
      } else if nodes[0].dir.Some? {
        hide JoinPath;
        PlanByPosition(nodes[2..], JoinPath(cwd, nodes[0].dir.value), pid, piping, i - 2);
        if NamedChdirs(nodes[..i]) {
          PlannedBehindChdir(nodes, cwd, pid, piping, i);
        }
      }
    }
  }

  lemma NamedBehindPair(nodes: seq<Node>, i: nat)
    requires 2 <= i <= |nodes| && !nodes[1].Chdir?
    ensures NamedChdirs(nodes[..i]) <==>
      (nodes[0].Chdir? ==> nodes[0].dir.Some?) && NamedChdirs(nodes[2..][..i - 2])
  {
    var front, tail := nodes[..i], nodes[2..][..i - 2];
    assert forall k :: 0 <= k < |tail| ==> tail[k] == front[k + 2];
    if NamedChdirs(front) {
      assert front[0] == nodes[0];
      forall k | 0 <= k < |tail| && tail[k].Chdir? ensures tail[k].dir.Some? {
        assert front[k + 2].dir.Some?;
      }
    } else if nodes[0].Chdir? ==> nodes[0].dir.Some? {
      var k :| 0 <= k < |front| && front[k].Chdir? && front[k].dir.None?;
      assert k >= 2;
      assert tail[k - 2] == front[k];
    }
  }
}
