/**
 * The resource discipline of a run: every process is waited for exactly once and every opened
 * file closed exactly once, before the next job starts, every process is preceded by the opening
 * of its own redirects, and every piped input is the open pipe of the process just before. A run leaves something behind exactly when it fails on a bad
 * `cd` inside a pipe.
 */
module ShellDiscipline {
  import opened Common
  import opened ShellParse
  import opened ShellShape
  import opened ShellRun
  import opened ShellTheorems

  datatype Opened = ForReading(name: string) | ForWriting(name: string)

  /** An observer of the trace: the processes not waited for, the files not closed, what was
      opened since the last start, whether the current job is being released, and the next
      numbers. */
  datatype Monitor = Monitor(
    running: seq<Proc>,
    open: seq<nat>,
    ready: seq<Opened>,
    releasing: bool,
    pid: nat,
    fd: nat)

  predicate Idle(m: Monitor) {
    m.running == [] && m.open == [] && m.ready == [] && !m.releasing
  }

  /** A file that is written to is opened, unless it is the null device. */
  function Output(name: string): seq<Opened> {
    if name == "NUL:" || name == "/dev/null" then [] else [ForWriting(name)]
  }

  /** The files that a process with these redirects needs, in the order in which they are
      opened. */
  function Needed(stdin: Stdin, stdout: Stdout, stderr: Stderr): seq<Opened> {
    (if stdin.InFile? then [ForReading(stdin.name)] else [])
    + (if stdout.OutFile? then Output(stdout.name) else [])
    + (if stderr.ErrFile? then Output(stderr.name) else [])
  }

  function Release(m: Monitor, running: seq<Proc>, open: seq<nat>): Monitor {
    m.(running := running, open := open, releasing := running != [] || open != [])
  }

  /** The rules.  A process starts a job when nothing runs, or reads the open pipe of the last
      process of its job, and exactly its own redirects have been opened for it; a job is
      released by waiting in order, then closing in order. */
  function Observe(m: Monitor, e: Event): Option<Monitor> {
    match e
    case OpenRead(fd, name) =>
      if !m.releasing && fd == m.fd
      then Some(m.(open := m.open + [fd], ready := m.ready + [ForReading(name)], fd := fd + 1))
      else None
    case OpenWrite(fd, name) =>
      if !m.releasing && fd == m.fd
      then Some(m.(open := m.open + [fd], ready := m.ready + [ForWriting(name)], fd := fd + 1))
      else None
    case Spawn(pid, _, stdin, stdout, stderr, _, _) =>
      var connected := match stdin
        case InPipe(source) => m.running != [] && m.running[|m.running| - 1] == Proc(source, true)
        case _ => m.running == [];
      if !m.releasing && pid == m.pid && connected && m.ready == Needed(stdin, stdout, stderr)
      then Some(m.(running := m.running + [Proc(pid, stdout == OutPipe)], ready := [], pid := pid + 1))
      else None
    case Wait(pid) =>
      if m.running != [] && m.ready == [] && m.running[0].pid == pid then Some(Release(m, m.running[1..], m.open)) else None
    case Close(fd) =>
      if m.running == [] && m.releasing && m.open != [] && m.open[0] == fd
      then Some(Release(m, [], m.open[1..])) else None
  }

  function ObserveAll(m: Monitor, trace: seq<Event>): Option<Monitor>
    decreases |trace|
  {
    if trace == [] then Some(m)
    else match Observe(m, trace[0])
    case None => None
    case Some(next) => ObserveAll(next, trace[1..])
  }

  lemma {:induction false} ObserveConcat(m: Monitor, a: seq<Event>, b: seq<Event>)
    requires ObserveAll(m, a).Some?
    ensures ObserveAll(m, a + b) == ObserveAll(ObserveAll(m, a).value, b)
    decreases |a|
  {
    if a == [] {
      assert a + b == b;
    } else {
      assert (a + b)[0] == a[0] && (a + b)[1..] == a[1..] + b;
      hide Observe;
      ObserveConcat(Observe(m, a[0]).value, a[1..], b);
    }
  }

  lemma ObserveOne(m: Monitor, e: Event)
    ensures ObserveAll(m, [e]) == Observe(m, e)
  {
    if Observe(m, e).Some? {
      assert ObserveAll(Observe(m, e).value, []) == Some(Observe(m, e).value);
    }
  }

  lemma ObserveNothing(m: Monitor)
    ensures ObserveAll(m, []) == Some(m)
  {
  }

  // ----- the files of a job -----

  function Fds(files: seq<Handle>): seq<nat> {
    if files == [] then []
    else
      var last := files[|files| - 1];
      Fds(files[..|files| - 1]) + if last.Fd? then [last.fd] else []
  }

  lemma FdsSnoc(files: seq<Handle>, h: Handle)
    ensures Fds(files + [h]) == Fds(files) + if h.Fd? then [h.fd] else []
  {
    assert (files + [h])[..|files|] == files;
  }

  function CloseAll(fds: seq<nat>): seq<Event> {
    if fds == [] then [] else CloseAll(fds[..|fds| - 1]) + [Close(fds[|fds| - 1])]
  }

  lemma {:induction false} ClosesAreFds(files: seq<Handle>)
    ensures Closes(files) == CloseAll(Fds(files))
  {
    if files != [] {
      ClosesAreFds(files[..|files| - 1]);
      var last := files[|files| - 1];
      var front := Fds(files[..|files| - 1]);
      if last.Fd? {
        assert (front + [last.fd])[..|front|] == front;
      } else {
        assert front + [] == front;
      }
    }
  }

  /** The observer that agrees with the executor's lists, when the files of `ready` have been
      opened for the next process. */
  function MonitorFor(st: Exec, ready: seq<Opened>): Monitor {
    Monitor(st.procs, Fds(st.files), ready, false, st.pid, st.fd)
  }

  /** The observer between two iterations. */
  function MonitorOf(st: Exec): Monitor {
    MonitorFor(st, [])
  }

  lemma OpenOutTracked(st: Exec, name: string, ready: seq<Opened>)
    ensures var (s, events) := OpenOut(st, name);
      ObserveAll(MonitorFor(st, ready), events) == Some(MonitorFor(s, ready + Output(name)))
  {
    hide ObserveAll;
    FdsSnoc(st.files, DevNull);
    FdsSnoc(st.files, Fd(st.fd));
    hide Fds;
    ObserveNothing(MonitorFor(st, ready));
    ObserveOne(MonitorFor(st, ready), OpenWrite(st.fd, name));
    assert Fds(st.files) + [] == Fds(st.files);
    assert ready + [] == ready;
  }

  lemma OpenStdinTracked(st: Exec, c: Command)
    ensures var (s, events) := OpenStdin(st, c);
      ObserveAll(MonitorOf(st), events)
        == Some(MonitorFor(s, if !st.piping && c.stdin.Some? then [ForReading(c.stdin.value)] else []))
  {
    hide ObserveAll;
    FdsSnoc(st.files, Fd(st.fd));
    hide Fds;
    ObserveNothing(MonitorOf(st));
    if c.stdin.Some? {
      ObserveOne(MonitorOf(st), OpenRead(st.fd, c.stdin.value));
      var none: seq<Opened> := [];
      assert none + [ForReading(c.stdin.value)] == [ForReading(c.stdin.value)];
    }
  }

  lemma OpenOutputTracked(st: Exec, c: Command, ready: seq<Opened>)
    ensures var (s, events) := OpenStdout(st, c);
      ObserveAll(MonitorFor(st, ready), events)
        == Some(MonitorFor(s, ready + if c.stdout.OutFile? then Output(c.stdout.name) else []))
    ensures var (s, events) := OpenStderr(st, c);
      ObserveAll(MonitorFor(st, ready), events)
        == Some(MonitorFor(s, ready + if c.stderr.ErrFile? then Output(c.stderr.name) else []))
  {
    hide ObserveAll;
    hide OpenOut;
    hide Output;
    hide Fds;
    ObserveNothing(MonitorFor(st, ready));
    assert ready + [] == ready;
    if c.stdout.OutFile? { OpenOutTracked(st, c.stdout.name, ready); }
    if c.stderr.ErrFile? { OpenOutTracked(st, c.stderr.name, ready); }
  }

  lemma OpensTracked(st: Exec, c: Command)
    requires st.piping ==> st.procs != []
    ensures var (s1, e1) := OpenStdin(st, c);
      var (s2, e2) := OpenStdout(s1, c);
      var (s3, e3) := OpenStderr(s2, c);
      ObserveAll(MonitorOf(st), e1 + e2 + e3) == Some(MonitorFor(s3, Needed(StdinOf(st, c), c.stdout, c.stderr)))
  {
    var (s1, e1) := OpenStdin(st, c);
    var (s2, e2) := OpenStdout(s1, c);
    var (s3, e3) := OpenStderr(s2, c);
    hide ObserveAll;
    hide Output;
    hide MonitorFor;
    var r1: seq<Opened> := if !st.piping && c.stdin.Some? then [ForReading(c.stdin.value)] else [];
    var r2 := r1 + if c.stdout.OutFile? then Output(c.stdout.name) else [];
    OpenStdinTracked(st, c);
    OpenOutputTracked(s1, c, r1);
    OpenOutputTracked(s2, c, r2);
    ObserveConcat(MonitorOf(st), e1, e2);
    ObserveConcat(MonitorOf(st), e1 + e2, e3);
  }

  lemma LaunchTracked(verbose: bool, st: Exec, c: Command)
    requires InJob(st)
    ensures var (s, events) := Launch(verbose, st, c);
      ObserveAll(MonitorOf(st), events) == Some(MonitorOf(s))
  {
    hide ObserveAll;
    hide Fds;
    hide Needed;
    var (s1, e1) := OpenStdin(st, c);
    var (s2, e2) := OpenStdout(s1, c);
    var (s3, e3) := OpenStderr(s2, c);
    OpensTracked(st, c);
    ObserveConcat(MonitorOf(st), e1 + e2 + e3, [SpawnOf(st, c)]);
    ObserveOne(MonitorFor(s3, Needed(StdinOf(st, c), c.stdout, c.stderr)), SpawnOf(st, c));
  }

  // ----- releasing a job -----

  lemma {:induction false} WaitsTracked(m: Monitor, k: nat)
    requires k <= |m.running| && m.ready == []
    ensures ObserveAll(m, Waits(m.running[..k]))
      == Some(if k == 0 then m else Release(m, m.running[k..], m.open))
  {
    if k > 0 {
      WaitsTracked(m, k - 1);
      assert m.running[..k][..k - 1] == m.running[..k - 1];
      var before := if k == 1 then m else Release(m, m.running[k - 1..], m.open);
      hide ObserveAll;
      ObserveConcat(m, Waits(m.running[..k - 1]), [Wait(m.running[k - 1].pid)]);
      ObserveOne(before, Wait(m.running[k - 1].pid));
      assert m.running[k - 1..][1..] == m.running[k..];
    }
  }

  lemma {:induction false} ClosesTracked(m: Monitor, k: nat)
    requires k <= |m.open| && m.running == [] && (m.releasing <==> m.open != [])
    ensures ObserveAll(m, CloseAll(m.open[..k])) == Some(Release(m, [], m.open[k..]))
  {
    if k > 0 {
      ClosesTracked(m, k - 1);
      assert m.open[..k][..k - 1] == m.open[..k - 1];
      var before := Release(m, [], m.open[k - 1..]);
      hide ObserveAll;
      ObserveConcat(m, CloseAll(m.open[..k - 1]), [Close(m.open[k - 1])]);
      ObserveOne(before, Close(m.open[k - 1]));
      assert m.open[k - 1..][1..] == m.open[k..];
    } else {
      assert m.open[..0] == [] && m.open[0..] == m.open;
    }
  }

  /** After a job has been settled nothing of it is left. */
  lemma SettleTracked(st: Exec)
    requires st.procs != []
    ensures ObserveAll(MonitorOf(st), Settle(st)) == Some(Monitor([], [], [], false, st.pid, st.fd))
  {
    var m := MonitorOf(st);
    var fds := Fds(st.files);
    WaitsTracked(m, |st.procs|);
    assert st.procs[..|st.procs|] == st.procs && st.procs[|st.procs|..] == [];
    var waited := Release(m, [], fds);
    ClosesAreFds(st.files);
    ClosesTracked(waited, |fds|);
    assert fds[..|fds|] == fds && fds[|fds|..] == [];
    hide ObserveAll;
    ObserveConcat(m, Waits(st.procs), Closes(st.files));
  }

  /** What the observer has seen when the run from `st` is over. */
  function ObservedEnd(verbose: bool, exits: nat -> int, st: Exec): Option<Monitor>
    requires InJob(st)
  {
    ObserveAll(MonitorOf(st), RunFrom(verbose, exits, st).trace)
  }

  /** The run from `st` is accepted, and leaves nothing behind. */
  ghost predicate Disciplined(verbose: bool, exits: nat -> int, st: Exec)
    requires InJob(st)
  {
    var end := ObservedEnd(verbose, exits, st);
    end.Some? && Idle(end.value)
  }

  /** The run from `st` is accepted; it leaves processes behind, not yet being released, when
      the reference ends with pending ones, and nothing otherwise. */
  ghost predicate Accepted(verbose: bool, exits: nat -> int, st: Exec)
    requires InJob(st)
  {
    var end := ObservedEnd(verbose, exits, st);
    end.Some? && if EvalOf(verbose, exits, st).pending then end.value.running != [] else Idle(end.value)
  }

  lemma LaunchSettleTracked(verbose: bool, st: Exec, c: Command)
    requires InJob(st)
    ensures var (s, events) := Launch(verbose, st, c);
      ObserveAll(MonitorOf(st), events + Settle(s)) == Some(Monitor([], [], [], false, s.pid, s.fd))
  {
    hide ObserveAll;
    hide Launch;
    hide Settle;
    var (s, events) := Launch(verbose, st, c);
    LaunchTracked(verbose, st, c);
    SettleTracked(s);
    ObserveConcat(MonitorOf(st), events, Settle(s));
  }

  lemma EndedAccepted(verbose: bool, exits: nat -> int, st: Exec, end: Monitor)
    requires InJob(st) && st.nodes != [] && Iterate(verbose, exits, st).Ended?
    requires ObserveAll(MonitorOf(st), Iterate(verbose, exits, st).report.trace) == Some(end)
    requires if EvalOf(verbose, exits, st).pending then end.running != [] else Idle(end)
    ensures Accepted(verbose, exits, st)
  {
    hide Iterate;
    hide ObserveAll;
    hide EvalOf;
    hide Idle;
  }

  lemma ContinuedAccepted(verbose: bool, exits: nat -> int, st: Exec)
    requires InJob(st) && st.nodes != [] && Iterate(verbose, exits, st).Continued?
    requires var step := Iterate(verbose, exits, st);
      && InJob(step.next) && Accepted(verbose, exits, step.next)
      && ObserveAll(MonitorOf(st), step.events) == Some(MonitorOf(step.next))
      && EvalOf(verbose, exits, st).pending == EvalOf(verbose, exits, step.next).pending
    ensures Accepted(verbose, exits, st)
  {
    hide Iterate;
    hide ObserveAll;
    hide EvalOf;
    hide Idle;
    var step := Iterate(verbose, exits, st);
    ObserveConcat(MonitorOf(st), step.events, RunFrom(verbose, exits, step.next).trace);
  }

  lemma ChdirAccepted(verbose: bool, exits: nat -> int, st: Exec)
    requires InJob(st) && st.nodes != [] && st.nodes[0].Chdir?
    requires |st.nodes| > 1 ==> st.nodes[1] == And
    requires |st.nodes| > 1 && st.nodes[0].dir.Some? ==>
      Accepted(verbose, exits, AfterChdir(verbose, st, st.nodes[0].dir.value))
    ensures Accepted(verbose, exits, st)
  {
    hide Accepted;
    hide JoinPath;
    IterateAtChdir(verbose, exits, st);
    hide Iterate;
    ObserveNothing(MonitorOf(st));
    hide ObserveAll;
    if |st.nodes| > 1 && st.nodes[0].dir.Some? {
      ContinuedAccepted(verbose, exits, st);
    } else {
      EndedAccepted(verbose, exits, st, MonitorOf(st));
    }
  }

  lemma PipeAccepted(verbose: bool, exits: nat -> int, st: Exec)
    requires InJob(st) && |st.nodes| >= 2 && st.nodes[0].Cmd? && st.nodes[1] == Pipe
    requires var next := AfterPipe(Launch(verbose, st, st.nodes[0].cmd).0);
      InJob(next) && Accepted(verbose, exits, next)
    ensures Accepted(verbose, exits, st)
  {
    hide Accepted;
    IterateAtPipe(verbose, exits, st);
    LaunchTracked(verbose, st, st.nodes[0].cmd);
    LaunchAdvances(verbose, st, st.nodes[0].cmd);
    hide Launch;
    hide Iterate;
    hide ObserveAll;
    hide Fds;
    ContinuedAccepted(verbose, exits, st);
  }

  lemma JobEndAccepted(verbose: bool, exits: nat -> int, st: Exec)
    requires InJob(st) && st.nodes != [] && st.nodes[0].Cmd?
    requires |st.nodes| > 1 ==> st.nodes[1] == And || st.nodes[1] == Or
    requires |st.nodes| > 1 && !verbose ==> Stops(st.nodes[1], exits(st.pid))
    ensures Accepted(verbose, exits, st)
  {
    hide Accepted;
    hide Launch;
    hide Settle;
    hide ObserveAll;
    LaunchSettleTracked(verbose, st, st.nodes[0].cmd);
    if |st.nodes| == 1 {
      IterateAtEnd(verbose, exits, st);
    } else {
      IterateAtBoundary(verbose, exits, st);
    }
    hide Iterate;
    var s := Launch(verbose, st, st.nodes[0].cmd).0;
    EndedAccepted(verbose, exits, st, Monitor([], [], [], false, s.pid, s.fd));
  }

  lemma ProceedAccepted(exits: nat -> int, st: Exec)
    requires InJob(st) && |st.nodes| >= 2 && st.nodes[0].Cmd?
    requires st.nodes[1] == And || st.nodes[1] == Or
    requires !Stops(st.nodes[1], exits(st.pid))
    requires Accepted(false, exits, NextJob(Launch(false, st, st.nodes[0].cmd).0))
    ensures Accepted(false, exits, st)
  {
    hide Accepted;
    hide Settle;
    hide ObserveAll;
    IterateAtBoundary(false, exits, st);
    LaunchAdvances(false, st, st.nodes[0].cmd);
    LaunchSettleTracked(false, st, st.nodes[0].cmd);
    hide Launch;
    hide Iterate;
    ContinuedAccepted(false, exits, st);
  }

  /** Every run of a well-formed pipeline is accepted, for any exit codes. */
  lemma {:induction false} RunIsAccepted(verbose: bool, exits: nat -> int, st: Exec)
    requires WellFormed(st.nodes) && InJob(st)
    ensures Accepted(verbose, exits, st)
    decreases |st.nodes|
  {
    var nodes := st.nodes;
    WellFormedHead(nodes);
    assert |nodes| > 1 ==> WellFormed(nodes[2..]);
    hide WellFormed;
    hide Accepted;
    match nodes[0] {
      case Chdir(dir) =>
        hide JoinPath;
        if |nodes| > 1 && dir.Some? {
          RunIsAccepted(verbose, exits, AfterChdir(verbose, st, dir.value));
        }
        ChdirAccepted(verbose, exits, st);
      case Cmd(c) =>
        LaunchAdvances(verbose, st, c);
        hide Launch;
        var s := Launch(verbose, st, c).0;
        if |nodes| > 1 && nodes[1] == Pipe {
          RunIsAccepted(verbose, exits, AfterPipe(s));
          PipeAccepted(verbose, exits, st);
        } else if |nodes| > 1 && !verbose && !Stops(nodes[1], exits(st.pid)) {
          RunIsAccepted(verbose, exits, NextJob(s));
          ProceedAccepted(exits, st);
        } else {
          JobEndAccepted(verbose, exits, st);
        }
    }
  }

  /** Only a bad `cd` leaves processes pending. */
  lemma {:induction false} PendingIsStuck(verbose: bool, nodes: seq<Node>, pid: nat, piping: bool, exits: nat -> int)
    requires Eval(verbose, nodes, pid, piping, exits).pending
    ensures var v := Eval(verbose, nodes, pid, piping, exits); v.outcome == IndexError || v.outcome == TypeError
    decreases |nodes|
  {
    if |nodes| > 1 {
      if nodes[0].Chdir? && nodes[0].dir.Some? {
        PendingIsStuck(verbose, nodes[2..], pid, piping, exits);
      } else if nodes[0].Cmd? {
        PendingIsStuck(verbose, nodes[2..], pid + 1, nodes[1] == Pipe, exits);
      }
    }
  }

  /** A run keeps the discipline exactly when the reference does not end with pending
      processes; so every run that returns a status keeps it, and every verbose run that fails
      on the unassigned status. */
  lemma RunIsDisciplined(verbose: bool, exits: nat -> int, st: Exec)
    requires WellFormed(st.nodes) && InJob(st)
    ensures Disciplined(verbose, exits, st) <==> !EvalOf(verbose, exits, st).pending
    ensures var r := RunFrom(verbose, exits, st);
      r.outcome.Exit? || r.outcome == UnboundLocalError ==> Disciplined(verbose, exits, st)
  {
    RunIsAccepted(verbose, exits, st);
    RunRefinesEval(verbose, exits, st);
    if EvalOf(verbose, exits, st).pending {
      PendingIsStuck(verbose, st.nodes, st.pid, st.piping, exits);
    }
    hide RunFrom;
    hide Eval;
    hide ObserveAll;
  }

  /** No choice of exit codes leaves anything behind if and only if the list's first bad `cd`,
      if there is one, stands outside every pipe. */
  lemma NeverLeaksIff(nodes: seq<Node>)
    requires WellFormed(nodes)
    ensures (forall exits: nat -> int :: Disciplined(false, exits, Initial(nodes))) <==> !FirstBadInPipe(nodes, false)
  {
    hide Disciplined;
    forall exits: nat -> int
      ensures Disciplined(false, exits, Initial(nodes)) <==> !Eval(false, nodes, 0, false, exits).pending
      ensures Eval(false, nodes, 0, false, exits).pending ==> FirstBadInPipe(nodes, false)
    {
      RunIsDisciplined(false, exits, Initial(nodes));
      EvalReaches(nodes, 0, false, exits);
    }
    if FirstBadInPipe(nodes, false) {
      var exits := PassingExits(nodes);
      EvalReaches(nodes, 0, false, exits);
      assert !Disciplined(false, exits, Initial(nodes));
    }
  }

  // ----- what the discipline means -----

  function CountSpawns(trace: seq<Event>, pid: nat): nat {
    if trace == [] then 0 else (if trace[0].Spawn? && trace[0].pid == pid then 1 else 0) + CountSpawns(trace[1..], pid)
  }

  function CountWaits(trace: seq<Event>, pid: nat): nat {
    if trace == [] then 0 else (if trace[0] == Wait(pid) then 1 else 0) + CountWaits(trace[1..], pid)
  }

  function CountOpens(trace: seq<Event>, fd: nat): nat {
    if trace == [] then 0
    else (if (trace[0].OpenRead? || trace[0].OpenWrite?) && trace[0].fd == fd then 1 else 0) + CountOpens(trace[1..], fd)
  }

  function CountCloses(trace: seq<Event>, fd: nat): nat {
    if trace == [] then 0 else (if trace[0] == Close(fd) then 1 else 0) + CountCloses(trace[1..], fd)
  }

  function CountRunning(procs: seq<Proc>, pid: nat): nat {
    if procs == [] then 0 else (if procs[0].pid == pid then 1 else 0) + CountRunning(procs[1..], pid)
  }

  lemma {:induction false} CountRunningSnoc(procs: seq<Proc>, p: Proc, pid: nat)
    ensures CountRunning(procs + [p], pid) == CountRunning(procs, pid) + if p.pid == pid then 1 else 0
  {
    if procs == [] {
      assert [p][1..] == [];
    } else {
      assert (procs + [p])[1..] == procs[1..] + [p];
      CountRunningSnoc(procs[1..], p, pid);
    }
  }

  lemma OpenMembers(m: Monitor, e: Event, fd: nat)
    requires Observe(m, e).Some?
    ensures var next := Observe(m, e).value;
      multiset(next.open)[fd] + (if e == Close(fd) then 1 else 0)
        == multiset(m.open)[fd] + if (e.OpenRead? || e.OpenWrite?) && e.fd == fd then 1 else 0
  {
    if e.Close? {
      assert m.open == [m.open[0]] + m.open[1..];
    }
  }

  lemma RunningMembers(m: Monitor, e: Event, pid: nat)
    requires Observe(m, e).Some?
    ensures var next := Observe(m, e).value;
      CountRunning(next.running, pid) + (if e == Wait(pid) then 1 else 0)
        == CountRunning(m.running, pid) + if e.Spawn? && e.pid == pid then 1 else 0
  {
    if e.Spawn? {
      CountRunningSnoc(m.running, Proc(e.pid, e.stdout == OutPipe), pid);
    }
  }

  /** The observer's lists account for every event. */
  lemma {:induction false} Accounts(m: Monitor, trace: seq<Event>, n: nat)
    requires ObserveAll(m, trace).Some?
    ensures var end := ObserveAll(m, trace).value;
      && CountRunning(m.running, n) + CountSpawns(trace, n) == CountRunning(end.running, n) + CountWaits(trace, n)
      && multiset(m.open)[n] + CountOpens(trace, n) == multiset(end.open)[n] + CountCloses(trace, n)
      && (CountSpawns(trace, n) <= 1 && (CountSpawns(trace, n) == 1 ==> n >= m.pid))
      && (CountOpens(trace, n) <= 1 && (CountOpens(trace, n) == 1 ==> n >= m.fd))
      && end.pid >= m.pid && end.fd >= m.fd
    decreases |trace|
  {
    if trace != [] {
      var next := Observe(m, trace[0]).value;
      OpenMembers(m, trace[0], n);
      RunningMembers(m, trace[0], n);
      assert next.pid >= m.pid && next.fd >= m.fd;
      assert trace[0].Spawn? ==> trace[0].pid == m.pid < next.pid;
      assert trace[0].OpenRead? || trace[0].OpenWrite? ==> trace[0].fd == m.fd < next.fd;
      hide Observe;
      Accounts(next, trace[1..], n);
    }
  }

  /** In a run of a parsed pipeline nothing is waited for or closed that was not started or
      opened, and nothing twice. Everything is released if and only if the run does not end on
      a bad `cd` inside a pipe. */
  lemma EverythingReleasedOnce(tokens: seq<string>, verbose: bool, exits: nat -> int)
    requires Parse(tokens).Some?
    ensures var nodes := Parse(tokens).value;
      var trace := RunFrom(verbose, exits, Initial(nodes)).trace;
      && (forall n: nat :: CountWaits(trace, n) <= CountSpawns(trace, n) <= 1)
      && (forall n: nat :: CountCloses(trace, n) <= CountOpens(trace, n) <= 1)
      && ((forall n: nat :: CountWaits(trace, n) == CountSpawns(trace, n) && CountCloses(trace, n) == CountOpens(trace, n))
          <==> !Eval(verbose, nodes, 0, false, exits).pending)
  {
    ParseIsWellFormed(tokens);
    var nodes := Parse(tokens).value;
    var st := Initial(nodes);
    hide Parse;
    RunIsAccepted(verbose, exits, st);
    hide ObserveAll;
    hide RunFrom;
    hide Eval;
    var trace := RunFrom(verbose, exits, st).trace;
    var end := ObservedEnd(verbose, exits, st).value;
    forall n: nat
      ensures CountSpawns(trace, n) == CountRunning(end.running, n) + CountWaits(trace, n) <= 1
      ensures CountOpens(trace, n) == multiset(end.open)[n] + CountCloses(trace, n) <= 1
    {
      Accounts(MonitorOf(st), trace, n);
    }
    if EvalOf(verbose, exits, st).pending {
      var n := end.running[0].pid;
      assert CountRunning(end.running, n) > 0;
      assert CountWaits(trace, n) != CountSpawns(trace, n);
    } else {
      assert forall n: nat :: CountRunning(end.running, n) == 0 && multiset(end.open)[n] == 0;
    }
  }

  function PipeThenCd(c: Command): seq<Node> {
    [Cmd(c), Pipe, Chdir(None)]
  }

  lemma PipeThenCdIsWellFormed(c: Command)
    requires CommandOk(c) && c.stdout == OutPipe
    ensures WellFormed(PipeThenCd(c))
  {
    hide CommandOk;
    var nodes := PipeThenCd(c);
    assert nodes[2..] == [Chdir(None)];
    assert WellFormed(nodes[2..]);
  }

  lemma PipeThenCdRuns(verbose: bool, exits: nat -> int, c: Command)
    requires c.stdout == OutPipe
    ensures InJob(Initial(PipeThenCd(c)))
    ensures var st := Initial(PipeThenCd(c));
      RunFrom(verbose, exits, st) == Report(IndexError, Launch(verbose, st, c).1, None)
  {
    var st := Initial(PipeThenCd(c));
    var (s, events) := Launch(verbose, st, c);
    IterateAtPipe(verbose, exits, st);
    LaunchAdvances(verbose, st, c);
    var next := AfterPipe(s);
    assert next.nodes == [Chdir(None)];
    IterateAtChdir(verbose, exits, next);
    hide Launch;
    hide Iterate;
    assert events + [] == events;
    assert RunFrom(verbose, exits, next) == Report(IndexError, [], None);
  }

  /** `a | cd` starts one process and fails without waiting for it, whatever `a` is. */
  lemma LeaksInPipe(verbose: bool, exits: nat -> int, c: Command)
    requires CommandOk(c) && c.stdout == OutPipe
    ensures var nodes := PipeThenCd(c);
      var r := RunFrom(verbose, exits, Initial(nodes));
      && Parse(Unparse(nodes)) == Some(nodes)
      && r.outcome == IndexError
      && CountSpawns(r.trace, 0) == 1 && CountWaits(r.trace, 0) == 0
  {
    var nodes := PipeThenCd(c);
    var st := Initial(nodes);
    PipeThenCdIsWellFormed(c);
    ParseUnparse(nodes);
    PipeThenCdRuns(verbose, exits, c);
    LaunchTracked(verbose, st, c);
    LaunchAdvances(verbose, st, c);
    assert Launch(verbose, st, c).0.procs == [Proc(0, true)];
    hide Launch;
    hide Parse;
    hide Unparse;
    hide WellFormed;
    hide CommandOk;
    hide RunFrom;
    hide ObserveAll;
    Accounts(MonitorOf(st), Launch(verbose, st, c).1, 0);
  }
}
