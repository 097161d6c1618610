/**
 * The executor of waf-tools/shellcmd.py: it pops the nodes of a pipeline, starts processes,
 * connects them, waits for them, closes the files it opened and short-circuits.
 *
 * Processes and files are numbered in the order they are created; the exit code of a process
 * is whatever the function `exits` says.
 */
module ShellRun {
  import opened Common
  import opened ShellParse
  import opened ShellShape

  datatype Stdin = InDefault | InFile(name: string) | InPipe(pid: nat)

  datatype Handle = DevNull | Fd(fd: nat)

  /** A started process; `piped` when its `stdout` attribute is an open pipe. */
  datatype Proc = Proc(pid: nat, piped: bool)

  datatype Event =
    | OpenRead(fd: nat, name: string)
    | OpenWrite(fd: nat, name: string)
    | Spawn(pid: nat, argv: seq<string>, stdin: Stdin, stdout: Stdout, stderr: Stderr,
            env: seq<(string, string)>, cwd: Option<string>)
    | Wait(pid: nat)
    | Close(fd: nat)

  /** How a run ends: a status, falling off the loop, or one of the exceptions. */
  datatype Outcome = Exit(status: int) | NoResult | IndexError | AssertionError | TypeError | UnboundLocalError

  /** The locals of `run`, and the numbers of the next process and file. */
  datatype Exec = Exec(
    nodes: seq<Node>,
    files: seq<Handle>,
    procs: seq<Proc>,
    piping: bool,
    cwd: string,
    pid: nat,
    fd: nat,
    display: seq<string>)

  datatype Report = Report(outcome: Outcome, trace: seq<Event>, printed: Option<seq<string>>)

  function Initial(nodes: seq<Node>): Exec {
    Exec(nodes, [], [], false, ".", 0, 0, [])
  }

  // ----- starting one command -----

  /** `os.path.join` on POSIX. */
  function JoinPath(path: string, dir: string): string {
    if dir != [] && dir[0] == '/' then dir
    else if path == [] || path[|path| - 1] == '/' then path + dir
    else path + "/" + dir
  }

  function ProcessCwd(cwd: string): Option<string> {
    if cwd == "." then None else Some(cwd)
  }

  predicate IsNullDevice(name: string) {
    name == "NUL:" || name == "/dev/null"
  }

  /** `_open_out_file`, and the registration of its result for closing. */
  function OpenOut(st: Exec, name: string): (Exec, seq<Event>) {
    if IsNullDevice(name) then (st.(files := st.files + [DevNull]), [])
    else (st.(files := st.files + [Fd(st.fd)], fd := st.fd + 1), [OpenWrite(st.fd, name)])
  }

  function OpenStdin(st: Exec, c: Command): (Exec, seq<Event>) {
    if !st.piping && c.stdin.Some? then
      (st.(files := st.files + [Fd(st.fd)], fd := st.fd + 1), [OpenRead(st.fd, c.stdin.value)])
    else (st, [])
  }

  function OpenStdout(st: Exec, c: Command): (Exec, seq<Event>) {
    if c.stdout.OutFile? then OpenOut(st, c.stdout.name) else (st, [])
  }

  function OpenStderr(st: Exec, c: Command): (Exec, seq<Event>) {
    if c.stderr.ErrFile? then OpenOut(st, c.stderr.name) else (st, [])
  }

  function StdinOf(st: Exec, c: Command): Stdin
    requires st.piping ==> st.procs != []
  {
    if st.piping then
      var last := st.procs[|st.procs| - 1];
      if last.piped then InPipe(last.pid) else InDefault
    else if c.stdin.Some? then InFile(c.stdin.value)
    else InDefault
  }

  /** The command as it is displayed: a redirect that the pipe overrides is not shown. */
  function ShownCommand(c: Command, piping: bool): Command {
    if piping then c.(stdin := None) else c
  }

  function SpawnOf(st: Exec, c: Command): Event
    requires st.piping ==> st.procs != []
  {
    Spawn(st.pid, c.argv, StdinOf(st, c), c.stdout, c.stderr, c.env, ProcessCwd(st.cwd))
  }

  /** Opens the redirects, starts the process and appends it to the job. */
  function Launch(verbose: bool, st: Exec, c: Command): (r: (Exec, seq<Event>))
    requires st.piping ==> st.procs != []
    ensures r.0.procs != [] && r.0.nodes == st.nodes && r.0.cwd == st.cwd && r.0.piping == st.piping
  {
    var (s1, e1) := OpenStdin(st, c);
    var (s2, e2) := OpenStdout(s1, c);
    var (s3, e3) := OpenStderr(s2, c);
    (s3.(procs := st.procs + [Proc(st.pid, c.stdout == OutPipe)],
         pid := st.pid + 1,
         display := st.display + if verbose then NodeTokens(Cmd(ShownCommand(c, st.piping))) else []),
     e1 + e2 + e3 + [SpawnOf(st, c)])
  }

  // ----- ending one job -----

  function Waits(procs: seq<Proc>): seq<Event> {
    if procs == [] then [] else Waits(procs[..|procs| - 1]) + [Wait(procs[|procs| - 1].pid)]
  }

  function Closes(files: seq<Handle>): seq<Event> {
    if files == [] then []
    else
      var last := files[|files| - 1];
      Closes(files[..|files| - 1]) + if last.Fd? then [Close(last.fd)] else []
  }

  function Settle(st: Exec): seq<Event> {
    Waits(st.procs) + Closes(st.files)
  }

  /** The status of a job is the status of its last command; see `ExecPipedCommands`. */
  function JobStatus(exits: nat -> int, procs: seq<Proc>): int {
    if procs == [] then 0 else exits(procs[|procs| - 1].pid)
  }

  function NextJob(st: Exec): Exec
    requires |st.nodes| >= 2
  {
    st.(nodes := st.nodes[2..], files := [], procs := [], piping := false, display := [])
  }

  /** `||` is short-circuited by success and `&&` by failure. */
  predicate Stops(op: Node, status: int) {
    if op == Or then status == 0 else status != 0
  }

  // ----- the loop -----

  function Prepend(events: seq<Event>, r: Report): Report {
    r.(trace := events + r.trace)
  }

  /** What one iteration does: end the run, or go on from another state. */
  datatype Iteration = Ended(report: Report) | Continued(events: seq<Event>, next: Exec)

  function AfterPipe(s: Exec): Exec
    requires |s.nodes| >= 2
  {
    s.(nodes := s.nodes[2..], piping := true, display := s.display + ["|"])
  }

  function AfterChdir(verbose: bool, st: Exec, dir: string): Exec
    requires |st.nodes| >= 2
  {
    st.(nodes := st.nodes[2..], cwd := JoinPath(st.cwd, dir),
        display := st.display + if verbose then ["cd", dir, "&&"] else [])
  }

  /** The end of an iteration, once its command has been launched. */
  function AfterLaunch(verbose: bool, exits: nat -> int, s: Exec, events: seq<Event>): (r: Iteration)
    requires s.nodes != [] && s.procs != []
    ensures r.Continued? ==> |r.next.nodes| < |s.nodes| && (r.next.piping ==> r.next.procs != [])
  {
    var status := JobStatus(exits, s.procs);
    if |s.nodes| == 1 then
      Ended(Report(Exit(status), events + Settle(s), if verbose then Some(s.display) else None))
    else if s.nodes[1] == Pipe then
      Continued(events, AfterPipe(s))
    else if s.nodes[1] == And || s.nodes[1] == Or then
      if verbose then Ended(Report(UnboundLocalError, events + Settle(s), None))
      else if Stops(s.nodes[1], status) then Ended(Report(Exit(status), events + Settle(s), None))
      else Continued(events + Settle(s), NextJob(s))
    else
      Continued(events, s.(nodes := s.nodes[2..]))
  }

  function Iterate(verbose: bool, exits: nat -> int, st: Exec): (r: Iteration)
    requires st.nodes != [] && (st.piping ==> st.procs != [])
    ensures r.Continued? ==> |r.next.nodes| < |st.nodes| && (r.next.piping ==> r.next.procs != [])
  {
    match st.nodes[0]
    case Chdir(dir) =>
      if |st.nodes| == 1 then Ended(Report(IndexError, [], None))
      else if st.nodes[1] != And then Ended(Report(AssertionError, [], None))
      else if dir.None? then Ended(Report(TypeError, [], None))
      else Continued([], AfterChdir(verbose, st, dir.value))
    case Cmd(c) =>
      var (s, events) := Launch(verbose, st, c);
      AfterLaunch(verbose, exits, s, events)
    case _ => Ended(Report(AssertionError, [], None))
  }

  function RunFrom(verbose: bool, exits: nat -> int, st: Exec): Report
    requires st.piping ==> st.procs != []
    decreases |st.nodes|
  {
    if st.nodes == [] then Report(NoResult, [], None)
    else
      match Iterate(verbose, exits, st)
      case Ended(report) => report
      case Continued(events, next) => Prepend(events, RunFrom(verbose, exits, next))
  }

  /** The two loops of `_exec_piped_commands`. */
  method ExecPipedCommands(exits: nat -> int, procs: seq<Proc>) returns (retval: int, events: seq<Event>)
    ensures retval == JobStatus(exits, procs)
    ensures events == Waits(procs)
  {
    var retvals: seq<int> := [];
    events := [];
    for i := 0 to |procs|
      invariant |retvals| == i && forall k :: 0 <= k < i ==> retvals[k] == exits(procs[k].pid)
      invariant events == Waits(procs[..i])
    {
      assert procs[..i + 1][..i] == procs[..i];
      events := events + [Wait(procs[i].pid)];
      retvals := retvals + [exits(procs[i].pid)];
    }
    assert procs[..|procs|] == procs;
    retval := 0;
    for i := 0 to |retvals|
      invariant retval == 0 && forall k :: 0 <= k < i ==> retvals[k] == 0
    {
      if retvals[i] != 0 {
        retval := retvals[|retvals| - 1];
        break;
      }
    }
  }

  method CloseFiles(files: seq<Handle>) returns (events: seq<Event>)
    ensures events == Closes(files)
  {
    events := [];
    for i := 0 to |files|
      invariant events == Closes(files[..i])
    {
      assert files[..i + 1][..i] == files[..i];
      if files[i] != DevNull {
        events := events + [Close(files[i].fd)];
      }
    }
    assert files[..|files|] == files;
  }

  method OpenOutFile(st: Exec, name: string) returns (s: Exec, events: seq<Event>)
    ensures (s, events) == OpenOut(st, name)
  {
    s, events := st, [];
    if IsNullDevice(name) {
      s := s.(files := s.files + [DevNull]);
    } else {
      events := [OpenWrite(s.fd, name)];
      s := s.(files := s.files + [Fd(s.fd)], fd := s.fd + 1);
    }
  }

  /** The part of the loop body that starts a command. */
  method StartCommand(verbose: bool, st: Exec, c: Command) returns (s: Exec, events: seq<Event>)
    requires st.piping ==> st.procs != []
    ensures (s, events) == Launch(verbose, st, c)
  {
    s := st;
    var shownIn, shownOut, shownErr: seq<string> := [], [], [];
    var openedIn, openedOut, openedErr: seq<Event> := [], [], [];
    var stdin := InDefault;
    if st.piping {
      var last := st.procs[|st.procs| - 1];
      stdin := if last.piped then InPipe(last.pid) else InDefault;
    } else if c.stdin.Some? {
      stdin := InFile(c.stdin.value);
      openedIn := [OpenRead(s.fd, c.stdin.value)];
      s := s.(files := s.files + [Fd(s.fd)], fd := s.fd + 1);
      shownIn := ["<", c.stdin.value];
    }
    if c.stdout.OutFile? {
      s, openedOut := OpenOutFile(s, c.stdout.name);
      shownOut := [">", c.stdout.name];
    }
    if c.stderr.ErrMerged? {
      shownErr := ["2>&1"];
    } else if c.stderr.ErrFile? {
      s, openedErr := OpenOutFile(s, c.stderr.name);
      shownErr := ["2>", c.stderr.name];
    }
    events := openedIn + openedOut + openedErr
      + [Spawn(st.pid, c.argv, stdin, c.stdout, c.stderr, c.env, ProcessCwd(st.cwd))];
    var shown := if verbose then EnvTokens(c.env) + c.argv + (shownIn + shownOut + shownErr) else [];
    s := s.(procs := st.procs + [Proc(st.pid, c.stdout == OutPipe)], pid := st.pid + 1, display := st.display + shown);
  }

  /** The rest of the loop body: waits and closes where a job ends. */
  method FinishIteration(verbose: bool, exits: nat -> int, s: Exec, events: seq<Event>) returns (r: Iteration)
    requires s.nodes != [] && s.procs != []
    ensures r == AfterLaunch(verbose, exits, s, events)
  {
    if |s.nodes| == 1 {
      var retval, waited := ExecPipedCommands(exits, s.procs);
      var closed := CloseFiles(s.files);
      return Ended(Report(Exit(retval), events + (waited + closed), if verbose then Some(s.display) else None));
    }
    var next := s.nodes[1];
    if next == Pipe {
      return Continued(events, s.(nodes := s.nodes[2..], piping := true, display := s.display + ["|"]));
    } else if next == Or || next == And {
      var retval, waited := ExecPipedCommands(exits, s.procs);
      var closed := CloseFiles(s.files);
      var settled := events + (waited + closed);
      if verbose {
        return Ended(Report(UnboundLocalError, settled, None));
      }
      if Stops(next, retval) {
        return Ended(Report(Exit(retval), settled, None));
      }
      return Continued(settled, s.(nodes := s.nodes[2..], files := [], procs := [], piping := false, display := []));
    }
    r := Continued(events, s.(nodes := s.nodes[2..]));
  }

  /** `run`: starts, waits, closes and short-circuits over a copy of the node list. */
  method Run(pipeline: seq<Node>, verbose: bool, exits: nat -> int) returns (report: Report)
    ensures report == RunFrom(verbose, exits, Initial(pipeline))
  {
    hide Launch;
    hide AfterLaunch;
    hide JoinPath;
    var st := Initial(pipeline);
    var trace: seq<Event> := [];
    ghost var goal := RunFrom(verbose, exits, st);
    while st.nodes != []
      invariant st.piping ==> st.procs != []
      invariant goal == Prepend(trace, RunFrom(verbose, exits, st))
      decreases |st.nodes|
    {
      var step: Iteration;
      match st.nodes[0] {
        case Chdir(dir) =>
          if |st.nodes| == 1 {
            step := Ended(Report(IndexError, [], None));
          } else if st.nodes[1] != And {
            step := Ended(Report(AssertionError, [], None));
          } else if dir.None? {
            step := Ended(Report(TypeError, [], None));
          } else {
            step := Continued([], st.(nodes := st.nodes[2..], cwd := JoinPath(st.cwd, dir.value),
                                      display := st.display + if verbose then ["cd", dir.value, "&&"] else []));
          }
        case Cmd(c) =>
          var s, events := StartCommand(verbose, st, c);
          step := FinishIteration(verbose, exits, s, events);
        case _ =>
          step := Ended(Report(AssertionError, [], None));
      }
      assert step == Iterate(verbose, exits, st);
      if step.Ended? {
        return Prepend(trace, step.report);
      }
      PrependTwice(trace, step.events, RunFrom(verbose, exits, step.next));
      trace := trace + step.events;
      st := step.next;
    }
    report := Report(NoResult, trace, None);
  }

  lemma PrependTwice(a: seq<Event>, b: seq<Event>, r: Report)
    ensures Prepend(a, Prepend(b, r)) == Prepend(a + b, r)
  {
    assert a + (b + r.trace) == a + b + r.trace;
  }
}
