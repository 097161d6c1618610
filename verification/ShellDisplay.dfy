/**
 * How a verbose run ends, and what it prints.
 */
module ShellDisplay {
  import opened Common
  import opened ShellParse
  import opened ShellShape
  import opened ShellRun
  import opened ShellTheorems

  /** No job ends before the list does. */
  predicate SingleJob(nodes: seq<Node>) {
    |nodes| <= 1 || ((nodes[0].Chdir? || nodes[1] == Pipe) && SingleJob(nodes[2..]))
  }

  /** No `cd` of the first job is bare or last. */
  predicate FirstJobOk(nodes: seq<Node>) {
    if nodes == [] then true
    else if nodes[0].Chdir? then |nodes| > 1 && nodes[0].dir.Some? && FirstJobOk(nodes[2..])
    else |nodes| > 1 && nodes[1] == Pipe ==> FirstJobOk(nodes[2..])
  }

  /** The nodes as displayed: without the input redirects that a pipe overrides. */
  function Shown(nodes: seq<Node>, piping: bool): (r: seq<Node>)
    ensures |r| == |nodes|
  {
    if nodes == [] then []
    else
      var head := if nodes[0].Cmd? then Cmd(ShownCommand(nodes[0].cmd, piping)) else nodes[0];
      if |nodes| == 1 then [head]
      else [head, nodes[1]] + Shown(nodes[2..], if nodes[0].Cmd? then nodes[1] == Pipe else piping)
  }

  lemma {:induction false} ShownIsWellFormed(nodes: seq<Node>, piping: bool)
    requires WellFormed(nodes)
    ensures WellFormed(Shown(nodes, piping))
    decreases |nodes|
  {
    if |nodes| > 1 {
      var inner := if nodes[0].Cmd? then nodes[1] == Pipe else piping;
      ShownIsWellFormed(nodes[2..], inner);
      assert Shown(nodes, piping)[2..] == Shown(nodes[2..], inner);
    }
  }

  /** No command that reads a pipe also has an input redirect. */
  predicate NoOverriddenInput(nodes: seq<Node>, piping: bool) {
    nodes == [] ||
    (&& (nodes[0].Cmd? && piping ==> nodes[0].cmd.stdin.None?)
     && (|nodes| == 1 || NoOverriddenInput(nodes[2..], if nodes[0].Cmd? then nodes[1] == Pipe else piping)))
  }

  lemma {:induction false} ShownIffNoOverride(nodes: seq<Node>, piping: bool)
    ensures Shown(nodes, piping) == nodes <==> NoOverriddenInput(nodes, piping)
    decreases |nodes|
  {
    if nodes != [] {
      var shown := Shown(nodes, piping);
      assert shown[0] == nodes[0] <==> (nodes[0].Cmd? && piping ==> nodes[0].cmd.stdin.None?);
      if |nodes| == 1 {
        assert nodes == [nodes[0]];
      } else {
        var inner := if nodes[0].Cmd? then nodes[1] == Pipe else piping;
        ShownIffNoOverride(nodes[2..], inner);
        assert shown[2..] == Shown(nodes[2..], inner);
        assert nodes == [nodes[0], nodes[1]] + nodes[2..];
        assert shown == [shown[0], nodes[1]] + shown[2..];
      }
    }
  }

  lemma UnparsePair(head: Node, op: Node, rest: seq<Node>)
    ensures Unparse([head, op] + rest) == NodeTokens(head) + NodeTokens(op) + Unparse(rest)
  {
    var nodes := [head, op] + rest;
    assert nodes[1..] == [op] + rest;
    assert nodes[1..][1..] == rest;
  }

  lemma UnparseSingle(head: Node)
    ensures Unparse([head]) == NodeTokens(head)
  {
    assert Unparse([head]) == NodeTokens(head) + Unparse([]);
  }

  /** A bad `cd` in the first job fails the run; a second job fails it on the unassigned
      status; otherwise the displayed nodes are printed. */
  ghost predicate Displays(exits: nat -> int, st: Exec)
    requires InJob(st)
  {
    var r := RunFrom(true, exits, st);
    if !FirstJobOk(st.nodes) then r.outcome == IndexError || r.outcome == TypeError
    else if !SingleJob(st.nodes) then r.outcome == UnboundLocalError
    else r.outcome.Exit? && r.printed == Some(st.display + Unparse(Shown(st.nodes, st.piping)))
  }

  lemma EndDisplays(exits: nat -> int, st: Exec)
    requires InJob(st) && |st.nodes| == 1 && st.nodes[0].Cmd?
    ensures Displays(exits, st)
  {
    IterateAtEnd(true, exits, st);
    LaunchShows(st, st.nodes[0].cmd);
    hide Iterate;
    hide Launch;
    hide Settle;
    hide NodeTokens;
    UnparseSingle(Cmd(ShownCommand(st.nodes[0].cmd, st.piping)));
    hide Unparse;
  }

  lemma LaunchShows(st: Exec, c: Command)
    requires InJob(st)
    ensures Launch(true, st, c).0.display == st.display + NodeTokens(Cmd(ShownCommand(c, st.piping)))
  {
    hide NodeTokens;
  }

  lemma ChdirDisplays(exits: nat -> int, st: Exec)
    requires InJob(st) && |st.nodes| >= 2 && st.nodes[0].Chdir? && st.nodes[0].dir.Some? && st.nodes[1] == And
    requires Displays(exits, AfterChdir(true, st, st.nodes[0].dir.value))
    ensures Displays(exits, st)
  {
    hide Shown;
    hide Unparse;
    hide NodeTokens;
    hide Iterate;
    hide JoinPath;
    var next := AfterChdir(true, st, st.nodes[0].dir.value);
    var rest, tokens := Shown(next.nodes, next.piping), NodeTokens(st.nodes[0]) + NodeTokens(And);
    IterateAtChdir(true, exits, st);
    ShownChdir(st.nodes, st.piping);
    UnparsePair(st.nodes[0], And, rest);
    ChdirTokens(st.nodes[0].dir.value);
    assert st.display + tokens + Unparse(rest) == st.display + (tokens + Unparse(rest));
  }

  lemma BadChdirDisplays(exits: nat -> int, st: Exec)
    requires InJob(st) && st.nodes != [] && st.nodes[0].Chdir? && (|st.nodes| > 1 ==> st.nodes[1] == And)
    requires |st.nodes| == 1 || st.nodes[0].dir.None?
    ensures Displays(exits, st)
  {
    IterateAtChdir(true, exits, st);
    hide Iterate;
  }

  lemma ShownChdir(nodes: seq<Node>, piping: bool)
    requires |nodes| >= 2 && nodes[0].Chdir?
    ensures Shown(nodes, piping) == [nodes[0], nodes[1]] + Shown(nodes[2..], piping)
  {
  }

  lemma ChdirTokens(dir: string)
    ensures NodeTokens(Chdir(Some(dir))) + NodeTokens(And) == ["cd", dir, "&&"]
  {
  }

  lemma PipeDisplays(exits: nat -> int, st: Exec)
    requires InJob(st) && |st.nodes| >= 2 && st.nodes[0].Cmd? && st.nodes[1] == Pipe
    requires var next := AfterPipe(Launch(true, st, st.nodes[0].cmd).0); InJob(next) && Displays(exits, next)
    ensures Displays(exits, st)
  {
    hide Shown;
    hide Unparse;
    hide NodeTokens;
    hide Launch;
    hide Iterate;
    var c := st.nodes[0].cmd;
    var next := AfterPipe(Launch(true, st, c).0);
    var head := Cmd(ShownCommand(c, st.piping));
    var rest := Shown(next.nodes, true);
    IterateAtPipe(true, exits, st);
    LaunchShows(st, c);
    ShownPipe(st.nodes, st.piping);
    UnparsePair(head, Pipe, rest);
    PipeToken();
    assert st.display + NodeTokens(head) + ["|"] + Unparse(rest) == st.display + (NodeTokens(head) + ["|"] + Unparse(rest));
  }

  lemma ShownPipe(nodes: seq<Node>, piping: bool)
    requires |nodes| >= 2 && nodes[0].Cmd? && nodes[1] == Pipe
    ensures Shown(nodes, piping) == [Cmd(ShownCommand(nodes[0].cmd, piping)), Pipe] + Shown(nodes[2..], true)
  {
  }

  lemma PipeToken()
    ensures NodeTokens(Pipe) == ["|"]
  {
  }

  lemma BoundaryDisplays(exits: nat -> int, st: Exec)
    requires InJob(st) && |st.nodes| >= 2 && st.nodes[0].Cmd? && (st.nodes[1] == And || st.nodes[1] == Or)
    ensures Displays(exits, st)
  {
    hide Launch;
    hide Settle;
  }

  /** How every verbose run of a well-formed pipeline ends. */
  lemma {:induction false} VerboseRun(exits: nat -> int, st: Exec)
    requires WellFormed(st.nodes) && InJob(st)
    ensures Displays(exits, st)
    decreases |st.nodes|
  {
    var nodes := st.nodes;
    WellFormedHead(nodes);
    assert |nodes| > 1 ==> WellFormed(nodes[2..]);
    hide WellFormed;
    hide Displays;
    match nodes[0] {
      case Chdir(dir) =>
        hide JoinPath;
        if |nodes| > 1 && dir.Some? {
          VerboseRun(exits, AfterChdir(true, st, dir.value));
          ChdirDisplays(exits, st);
        } else {
          BadChdirDisplays(exits, st);
        }
      case Cmd(c) =>
        LaunchAdvances(true, st, c);
        hide Launch;
        if |nodes| == 1 {
          EndDisplays(exits, st);
        } else if nodes[1] == Pipe {
          VerboseRun(exits, AfterPipe(Launch(true, st, c).0));
          PipeDisplays(exits, st);
        } else {
          BoundaryDisplays(exits, st);
        }
    }
  }

  /** A verbose run returns a status exactly when the list is one job without a bad `cd`. What
      it then prints parses back to the nodes that ran, except for input redirects that a pipe
      overrides. */
  lemma DisplayParsesBack(tokens: seq<string>, exits: nat -> int)
    requires Parse(tokens).Some?
    ensures var nodes := Parse(tokens).value;
      var r := RunFrom(true, exits, Initial(nodes));
      && (r.outcome.Exit? <==> SingleJob(nodes) && FirstJobOk(nodes))
      && (r.outcome == UnboundLocalError <==> !SingleJob(nodes) && FirstJobOk(nodes))
      && (r.outcome == IndexError || r.outcome == TypeError <==> !FirstJobOk(nodes))
      && (r.outcome.Exit? ==>
            && r.printed.Some?
            && Parse(r.printed.value) == Some(Shown(nodes, false))
            && (Parse(r.printed.value) == Some(nodes) <==> NoOverriddenInput(nodes, false)))
  {
    ParseIsWellFormed(tokens);
    var nodes := Parse(tokens).value;
    hide Parse;
    VerboseRun(exits, Initial(nodes));
    ShownIsWellFormed(nodes, false);
    ParseUnparse(Shown(nodes, false));
    ShownIffNoOverride(nodes, false);
    var text := Unparse(Shown(nodes, false));
    assert [] + text == text;
    hide RunFrom;
    hide Unparse;
    hide Shown;
    hide WellFormed;
  }
}
