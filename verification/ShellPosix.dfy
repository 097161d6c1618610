/**
 * The executor's treatment of `&&` and `||` against the AND-OR lists of section 2.9.3 of the
 * POSIX.1-2017 Shell Command Language, where the two operators have equal precedence and
 * associate to the left, and `cd` is a command like any other.
 */
module ShellPosix {
  import opened Common
  import opened ShellParse
  import opened ShellShape
  import opened ShellRun
  import opened ShellTheorems

  /** The status of the list and the numbers of the commands started, in order. */
  datatype Posix = Posix(status: int, started: seq<nat>)

  /** The status lets the operator start what stands behind it. */
  predicate Proceeds(op: Node, status: int) {
    if op == And then status == 0 else status != 0
  }

  /** POSIX, from left to right: `running` when the current pipeline is executed and not
      skipped. A pipeline has the status of its last command; a skipped one leaves the status
      of the list as it is, and so the next operator looks at that status again. A `cd` is
      taken to succeed. */
  function PosixList(nodes: seq<Node>, pid: nat, running: bool, status: int, exits: nat -> int): Posix {
    if nodes == [] then Posix(status, [])
    else
      var isCommand := nodes[0].Cmd?;
      var now := if !running then status else if isCommand then exits(pid) else 0;
      var started := if running && isCommand then [pid] else [];
      if |nodes| == 1 then Posix(now, started)
      else
        var next := if isCommand then pid + 1 else pid;
        var rest := if nodes[1] == Pipe then PosixList(nodes[2..], next, running, status, exits)
                    else PosixList(nodes[2..], next, Proceeds(nodes[1], now), now, exits);
        rest.(started := started + rest.started)
  }

  /** The numbers of the processes that a run starts. */
  function Pids(spawns: seq<Event>): (r: seq<nat>)
    requires forall i :: 0 <= i < |spawns| ==> spawns[i].Spawn?
    ensures |r| == |spawns| && forall i :: 0 <= i < |spawns| ==> r[i] == spawns[i].pid
  {
    if spawns == [] then [] else [spawns[0].pid] + Pids(spawns[1..])
  }

  lemma {:induction false} SpawnsAreSpawns(trace: seq<Event>)
    ensures forall i :: 0 <= i < |SpawnsOf(trace)| ==> SpawnsOf(trace)[i].Spawn?
  {
    if trace != [] {
      SpawnsAreSpawns(trace[1..]);
    }
  }

  function StartedPids(r: Report): seq<nat> {
    SpawnsAreSpawns(r.trace);
    Pids(SpawnsOf(r.trace))
  }

  /** The run gives the status that POSIX prescribes and starts the same commands. */
  ghost predicate AgreesWithPosix(nodes: seq<Node>, exits: nat -> int) {
    var r, posix := RunFrom(false, exits, Initial(nodes)), PosixList(nodes, 0, true, 0, exits);
    r.outcome == Exit(posix.status) && StartedPids(r) == posix.started
  }

  // ----- when the two agree -----

  predicate NoOr(nodes: seq<Node>) {
    forall i :: 0 <= i < |nodes| ==> nodes[i] != Or
  }

  predicate NoChdir(nodes: seq<Node>) {
    forall i :: 0 <= i < |nodes| ==> !nodes[i].Chdir?
  }

  /** No `&&` stands directly behind a command. */
  predicate NoAndAfterCommand(nodes: seq<Node>) {
    forall i :: 0 < i < |nodes| && nodes[i] == And ==> !nodes[i - 1].Cmd?
  }

  predicate NoChdirBehindOr(nodes: seq<Node>) {
    forall i, j :: 0 <= i < j < |nodes| && nodes[i] == Or ==> !nodes[j].Chdir?
  }

  /** The list never goes back from skipping to running: it has no `||`, or only `||`s behind
      its commands and no `cd` behind the first of them. */
  predicate OneWay(nodes: seq<Node>) {
    NoOr(nodes) || (NoAndAfterCommand(nodes) && NoChdirBehindOr(nodes))
  }

  /** What remains behind a first `||` of a one-way list. */
  predicate OnlyOrs(nodes: seq<Node>) {
    NoAndAfterCommand(nodes) && NoChdir(nodes)
  }

  lemma NoOrTail(nodes: seq<Node>)
    requires |nodes| > 1 && nodes[0] != Or
    ensures NoOr(nodes) <==> nodes[1] != Or && NoOr(nodes[2..])
  {
    assert forall i :: 2 <= i < |nodes| ==> nodes[i] == nodes[2..][i - 2];
    assert forall i :: 0 <= i < |nodes| - 2 ==> nodes[2..][i] == nodes[i + 2];
  }

  lemma NoChdirTail(nodes: seq<Node>)
    requires |nodes| > 1 && !nodes[1].Chdir?
    ensures NoChdir(nodes) <==> !nodes[0].Chdir? && NoChdir(nodes[2..])
  {
    assert forall i :: 2 <= i < |nodes| ==> nodes[i] == nodes[2..][i - 2];
    assert forall i :: 0 <= i < |nodes| - 2 ==> nodes[2..][i] == nodes[i + 2];
  }

  lemma NoAndTail(nodes: seq<Node>)
    requires |nodes| > 1 && nodes[0] != And && !nodes[1].Cmd?
    ensures NoAndAfterCommand(nodes) <==> !(nodes[0].Cmd? && nodes[1] == And) && NoAndAfterCommand(nodes[2..])
  {
    var tail := nodes[2..];
    if NoAndAfterCommand(nodes) {
      forall i | 0 < i < |tail| && tail[i] == And ensures !tail[i - 1].Cmd? {
        assert nodes[i + 2] == tail[i] && nodes[i + 1] == tail[i - 1];
      }
    } else {
      var i :| 0 < i < |nodes| && nodes[i] == And && nodes[i - 1].Cmd?;
      assert i > 2 ==> tail[i - 2] == And && tail[i - 3].Cmd?;
    }
  }

  lemma NoChdirBehindOrTail(nodes: seq<Node>)
    requires |nodes| > 1 && nodes[0] != Or && !nodes[1].Chdir?
    ensures NoChdirBehindOr(nodes) <==> (if nodes[1] == Or then NoChdir(nodes[2..]) else NoChdirBehindOr(nodes[2..]))
  {
    var tail := nodes[2..];
    if NoChdirBehindOr(nodes) {
      forall j | 0 <= j < |tail| && nodes[1] == Or ensures !tail[j].Chdir? {
        assert tail[j] == nodes[j + 2];
      }
      forall i, j | 0 <= i < j < |tail| && tail[i] == Or ensures !tail[j].Chdir? {
        assert nodes[i + 2] == tail[i] && nodes[j + 2] == tail[j];
      }
    } else {
      var i, j :| 0 <= i < j < |nodes| && nodes[i] == Or && nodes[j].Chdir?;
      assert j >= 2 && tail[j - 2].Chdir?;
      assert i > 1 ==> tail[i - 2] == Or;
    }
  }

  // ----- a one-way list never starts again -----

  lemma {:induction false} SkippedAnd(nodes: seq<Node>, pid: nat, status: int, exits: nat -> int)
    requires WellFormed(nodes) && NoOr(nodes) && status != 0
    ensures PosixList(nodes, pid, false, status, exits) == Posix(status, [])
    decreases |nodes|
  {
    WellFormedHead(nodes);
    if |nodes| > 1 {
      NoOrTail(nodes);
      assert WellFormed(nodes[2..]);
      SkippedAnd(nodes[2..], if nodes[0].Cmd? then pid + 1 else pid, status, exits);
    }
  }

  lemma {:induction false} SkippedOr(nodes: seq<Node>, pid: nat, exits: nat -> int)
    requires WellFormed(nodes) && OnlyOrs(nodes)
    ensures PosixList(nodes, pid, false, 0, exits) == Posix(0, [])
    decreases |nodes|
  {
    WellFormedHead(nodes);
    if |nodes| > 1 {
      NoChdirTail(nodes);
      NoAndTail(nodes);
      assert WellFormed(nodes[2..]);
      SkippedOr(nodes[2..], pid + 1, exits);
    }
  }

  /** The numbers `pid`, `pid + 1`, and so on. */
  predicate CountsFrom(started: seq<nat>, pid: nat) {
    forall i :: 0 <= i < |started| ==> started[i] == pid + i
  }

  lemma OneWayTail(nodes: seq<Node>)
    requires WellFormed(nodes) && OneWay(nodes) && |nodes| > 1
    ensures OneWay(nodes[2..])
    ensures nodes[0].Cmd? && nodes[1] == And ==> NoOr(nodes[2..])
    ensures nodes[0].Cmd? && nodes[1] == Or ==> OnlyOrs(nodes[2..])
  {
    WellFormedHead(nodes);
    NoOrTail(nodes);
    NoAndTail(nodes);
    NoChdirBehindOrTail(nodes);
  }

  lemma {:induction false} OneWayAgrees(nodes: seq<Node>, pid: nat, piping: bool, status: int, exits: nat -> int)
    requires WellFormed(nodes) && Runnable(nodes) && OneWay(nodes)
    ensures var v, posix := Eval(false, nodes, pid, piping, exits), PosixList(nodes, pid, true, status, exits);
      v.outcome == Exit(posix.status) && |posix.started| == v.started && CountsFrom(posix.started, pid)
    decreases |nodes|
  {
    WellFormedHead(nodes);
    if |nodes| > 1 {
      RunnableBehindPair(nodes);
      OneWayTail(nodes);
      assert WellFormed(nodes[2..]);
      hide WellFormed;
      hide Runnable;
      hide OneWay;
      hide OnlyOrs;
      hide NoOr;
      if nodes[0].Chdir? {
        OneWayAgrees(nodes[2..], pid, piping, 0, exits);
      } else if nodes[1] == Pipe {
        OneWayAgrees(nodes[2..], pid + 1, true, status, exits);
      } else if Proceeds(nodes[1], exits(pid)) {
        OneWayAgrees(nodes[2..], pid + 1, false, exits(pid), exits);
      } else if nodes[1] == And {
        SkippedAnd(nodes[2..], pid + 1, exits(pid), exits);
      } else {
        SkippedOr(nodes[2..], pid + 1, exits);
      }
    }
  }

  // ----- any other list is told apart by some exit codes -----

  ghost predicate AllFrom(exits: nat -> int, pid: nat, status: int) {
    forall k: nat :: pid <= k ==> exits(k) == status
  }

  lemma {:induction false} ZeroStays(nodes: seq<Node>, pid: nat, running: bool, status: int, exits: nat -> int)
    requires nodes != [] && WellFormed(nodes) && AllFrom(exits, pid, 0) && (running || status == 0)
    ensures PosixList(nodes, pid, running, status, exits).status == 0
    decreases |nodes|
  {
    WellFormedHead(nodes);
    if |nodes| > 1 {
      assert WellFormed(nodes[2..]);
      var next := if nodes[0].Cmd? then pid + 1 else pid;
      if nodes[1] == Pipe {
        ZeroStays(nodes[2..], next, running, status, exits);
      } else {
        ZeroStays(nodes[2..], next, Proceeds(nodes[1], 0), 0, exits);
      }
    }
  }

  /** A skipping list with a later `||` runs again and ends in 0. */
  lemma {:induction false} RestartsAtOr(nodes: seq<Node>, pid: nat, exits: nat -> int)
    requires WellFormed(nodes) && !NoOr(nodes) && AllFrom(exits, pid, 0)
    ensures PosixList(nodes, pid, false, 1, exits).status == 0
    decreases |nodes|
  {
    WellFormedHead(nodes);
    if |nodes| > 1 {
      NoOrTail(nodes);
      assert WellFormed(nodes[2..]);
      var next := if nodes[0].Cmd? then pid + 1 else pid;
      if nodes[1] == Or {
        ZeroStays(nodes[2..], next, true, 1, exits);
      } else {
        RestartsAtOr(nodes[2..], next, exits);
      }
    }
  }

  lemma {:induction false} OneEnds(nodes: seq<Node>, pid: nat, running: bool, status: int, exits: nat -> int)
    requires WellFormed(nodes) && Runnable(nodes) && AllFrom(exits, pid, 1) && (running || status == 1)
    ensures PosixList(nodes, pid, running, status, exits).status == 1
    decreases |nodes|
  {
    WellFormedHead(nodes);
    if |nodes| > 1 {
      RunnableBehindPair(nodes);
      assert WellFormed(nodes[2..]);
      hide Runnable;
      hide WellFormed;
      if nodes[0].Chdir? {
        var now := if running then 0 else status;
        OneEnds(nodes[2..], pid, Proceeds(And, now), now, exits);
      } else if nodes[1] == Pipe {
        OneEnds(nodes[2..], pid + 1, running, status, exits);
      } else {
        OneEnds(nodes[2..], pid + 1, Proceeds(nodes[1], 1), 1, exits);
      }
    }
  }

  /** A skipping list with a later `&&` runs again and ends in 1. */
  lemma {:induction false} RestartsAtAnd(nodes: seq<Node>, pid: nat, exits: nat -> int)
    requires WellFormed(nodes) && Runnable(nodes) && !OnlyOrs(nodes) && AllFrom(exits, pid, 1)
    ensures PosixList(nodes, pid, false, 0, exits).status == 1
    decreases |nodes|
  {
    WellFormedHead(nodes);
    if |nodes| > 1 {
      RunnableBehindPair(nodes);
      NoChdirTail(nodes);
      NoAndTail(nodes);
      assert WellFormed(nodes[2..]);
      hide Runnable;
      hide WellFormed;
      var next := if nodes[0].Cmd? then pid + 1 else pid;
      if nodes[1] == And {
        OneEnds(nodes[2..], next, true, 0, exits);
      } else {
        RestartsAtAnd(nodes[2..], next, exits);
      }
    }
  }

  lemma NotOneWayTail(nodes: seq<Node>)
    requires WellFormed(nodes) && !OneWay(nodes) && |nodes| > 1
    ensures nodes[0].Chdir? || nodes[1] == Pipe ==> !OneWay(nodes[2..])
    ensures nodes[0].Cmd? && nodes[1] == And ==> !NoOr(nodes[2..])
    ensures nodes[0].Cmd? && nodes[1] == Or ==> !OnlyOrs(nodes[2..])
  {
    WellFormedHead(nodes);
    NoOrTail(nodes);
    NoAndTail(nodes);
    NoChdirBehindOrTail(nodes);
  }

  lemma {:induction false} Differs(nodes: seq<Node>, pid: nat, piping: bool, status: int) returns (exits: nat -> int)
    requires WellFormed(nodes) && Runnable(nodes) && !OneWay(nodes)
    ensures Eval(false, nodes, pid, piping, exits).outcome != Exit(PosixList(nodes, pid, true, status, exits).status)
    decreases |nodes|
  {
    WellFormedHead(nodes);
    if |nodes| == 1 {
      assert false;
    } else {
      RunnableBehindPair(nodes);
      NotOneWayTail(nodes);
      assert WellFormed(nodes[2..]);
      hide WellFormed;
      hide Runnable;
      hide OneWay;
      if nodes[0].Chdir? {
        exits := Differs(nodes[2..], pid, piping, 0);
      } else if nodes[1] == Pipe {
        exits := Differs(nodes[2..], pid + 1, true, status);
      } else if nodes[1] == And {
        exits := (k: nat) => if k <= pid then 1 else 0;
        RestartsAtOr(nodes[2..], pid + 1, exits);
      } else {
        exits := (k: nat) => if k <= pid then 0 else 1;
        RestartsAtAnd(nodes[2..], pid + 1, exits);
      }
    }
  }

  // ----- runs -----

  lemma {:induction false} PlanCounts(nodes: seq<Node>, cwd: string, pid: nat, piping: bool, k: nat)
    requires k < |Plan(nodes, cwd, pid, piping)|
    ensures Plan(nodes, cwd, pid, piping)[k].Spawn? && Plan(nodes, cwd, pid, piping)[k].pid == pid + k
    decreases |nodes|
  {
    hide JoinPath;
    if nodes[0].Chdir? {
      PlanCounts(nodes[2..], JoinPath(cwd, nodes[0].dir.value), pid, piping, k);
    } else if k > 0 {
      PlanCounts(nodes[2..], cwd, pid + 1, nodes[1] == Pipe, k - 1);
    }
  }

  lemma OneWayRunAgrees(nodes: seq<Node>, exits: nat -> int)
    requires WellFormed(nodes) && Runnable(nodes) && OneWay(nodes)
    ensures AgreesWithPosix(nodes, exits)
  {
    RunRefinesEval(false, exits, Initial(nodes));
    OneWayAgrees(nodes, 0, false, 0, exits);
    hide RunFrom;
    hide Eval;
    hide PosixList;
    hide OneWay;
    hide WellFormed;
    var spawns, plan := SpawnsOf(RunFrom(false, exits, Initial(nodes)).trace), Plan(nodes, ".", 0, false);
    forall k | 0 <= k < |spawns| ensures spawns[k].Spawn? && spawns[k].pid == k {
      PlanCounts(nodes, ".", 0, false, k);
      assert spawns[k] == plan[k];
    }
  }

  /** Whatever the commands return, the run of a parsed list gives the status that POSIX
      prescribes and starts the same commands: this holds if and only if no `cd` is bare or
      last and the list is one-way. */
  lemma AgreesIffOneWay(tokens: seq<string>)
    requires Parse(tokens).Some?
    ensures var nodes := Parse(tokens).value;
      (forall exits: nat -> int :: AgreesWithPosix(nodes, exits)) <==> Runnable(nodes) && OneWay(nodes)
  {
    ParseIsWellFormed(tokens);
    var nodes := Parse(tokens).value;
    hide Parse;
    hide RunFrom;
    hide PosixList;
    if !Runnable(nodes) {
      AlwaysReturnsIffRunnable(nodes);
      var exits: nat -> int :| !RunFrom(false, exits, Initial(nodes)).outcome.Exit?;
      assert !AgreesWithPosix(nodes, exits);
    } else if OneWay(nodes) {
      hide AgreesWithPosix;
      forall exits: nat -> int ensures AgreesWithPosix(nodes, exits) {
        OneWayRunAgrees(nodes, exits);
      }
    } else {
      var exits := Differs(nodes, 0, false, 0);
      RunRefinesEval(false, exits, Initial(nodes));
      assert !AgreesWithPosix(nodes, exits);
    }
  }

  /** The nodes of `a || cd d && b`. */
  function OrThenChdir(a: Command, d: string, b: Command): seq<Node> {
    [Cmd(a), Or, Chdir(Some(d)), And, Cmd(b)]
  }

  lemma OrThenChdirParses(a: Command, d: string, b: Command)
    requires CommandOk(a) && CommandOk(b) && a.stdout != OutPipe && b.stdout != OutPipe && d != "&&"
    ensures WellFormed(OrThenChdir(a, d, b))
  {
    hide CommandOk;
    var nodes := OrThenChdir(a, d, b);
    assert nodes[2..] == [Chdir(Some(d)), And, Cmd(b)];
    assert nodes[2..][2..] == [Cmd(b)];
    assert WellFormed(nodes[2..][2..]);
    assert WellFormed(nodes[2..]);
  }

  lemma PosixOrThenChdir(a: Command, d: string, b: Command, exits: nat -> int)
    requires exits(0) == 0
    ensures PosixList(OrThenChdir(a, d, b), 0, true, 0, exits) == Posix(exits(1), [0, 1])
  {
    var nodes := OrThenChdir(a, d, b);
    assert nodes[2..] == [Chdir(Some(d)), And, Cmd(b)];
    assert nodes[2..][2..] == [Cmd(b)];
    assert PosixList(nodes[2..][2..], 1, true, 0, exits) == Posix(exits(1), [1]);
    assert PosixList(nodes[2..], 1, false, 0, exits) == Posix(exits(1), [1]);
    assert [0] + [1] == [0, 1];
  }

  /** `a || cd d && b` when `a` succeeds: the run returns 0 and never starts `b`, while POSIX
      reads `(a || cd d) && b` and gives the status of `b`. */
  lemma ChdirBehindOrDiffers(a: Command, d: string, b: Command, exits: nat -> int)
    requires CommandOk(a) && CommandOk(b) && a.stdout != OutPipe && b.stdout != OutPipe && d != "&&"
    requires exits(0) == 0
    ensures var nodes := OrThenChdir(a, d, b);
      && Parse(Unparse(nodes)) == Some(nodes)
      && RunFrom(false, exits, Initial(nodes)).outcome == Exit(0)
      && |StartedPids(RunFrom(false, exits, Initial(nodes)))| == 1
      && PosixList(nodes, 0, true, 0, exits) == Posix(exits(1), [0, 1])
  {
    var nodes := OrThenChdir(a, d, b);
    OrThenChdirParses(a, d, b);
    ParseUnparse(nodes);
    PosixOrThenChdir(a, d, b, exits);
    hide CommandOk;
    hide WellFormed;
    hide PosixList;
    hide Parse;
    hide Unparse;
    RunRefinesEval(false, exits, Initial(nodes));
    hide RunFrom;
    hide Plan;
  }
}
