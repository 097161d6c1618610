/**
 * Which node lists the shell parser produces, and the inverse that writes them back as tokens.
 */
module ShellShape {
  import opened Common
  import opened ShellParse

  // ----- the shape of a parsed pipeline -----

  predicate IsOperatorToken(t: string) {
    t == ">" || t == "2>" || t == "2>&1" || t == "<" || t == "|" || t == "&&" || t == "||"
  }

  predicate EnvOk(env: seq<(string, string)>) {
    && (forall i :: 0 <= i < |env| ==> ValidPair(env[i]))
    && (forall i, j :: 0 <= i < j < |env| ==> env[i].0 != env[j].0)
  }

  predicate CommandOk(c: Command) {
    && c.argv != [] && c.argv[0] != "cd" && EnvMatch(c.argv[0]).None?
    && (forall i :: 1 <= i < |c.argv| ==> !IsOperatorToken(c.argv[i]))
    && c.stderr != ErrPipe
    && EnvOk(c.env)
  }

  predicate NodeOk(n: Node) {
    match n
    case Cmd(c) => CommandOk(c)
    case Chdir(dir) => dir != Some("&&")
    case _ => false
  }

  /** An operator may follow the node: only `&&` after a directory change, and a command's
      output is a pipe exactly when `|` follows. */
  predicate LinkOk(n: Node, op: Node) {
    match n
    case Cmd(c) => (op == Pipe || op == And || op == Or) && (c.stdout == OutPipe <==> op == Pipe)
    case Chdir(_) => op == And
    case _ => false
  }

  predicate EndOk(n: Node) {
    n.Cmd? ==> n.cmd.stdout != OutPipe
  }

  predicate WellFormed(nodes: seq<Node>) {
    && nodes != [] && NodeOk(nodes[0])
    && if |nodes| == 1 then EndOk(nodes[0]) else LinkOk(nodes[0], nodes[1]) && WellFormed(nodes[2..])
  }

  /** A list of committed nodes, each with its operator. */
  predicate Chain(nodes: seq<Node>) {
    nodes == [] || (|nodes| >= 2 && NodeOk(nodes[0]) && LinkOk(nodes[0], nodes[1]) && Chain(nodes[2..]))
  }

  lemma {:induction false} ChainAppend(nodes: seq<Node>, n: Node, op: Node)
    requires Chain(nodes) && NodeOk(n) && LinkOk(n, op)
    ensures Chain(nodes + [n, op])
  {
    if nodes == [] {
      assert [n, op][2..] == [];
    } else {
      ChainAppend(nodes[2..], n, op);
      assert (nodes + [n, op])[2..] == nodes[2..] + [n, op];
    }
  }

  lemma {:induction false} ChainEnd(nodes: seq<Node>, n: Node)
    requires Chain(nodes) && NodeOk(n) && EndOk(n)
    ensures WellFormed(nodes + [n])
  {
    if nodes != [] {
      ChainEnd(nodes[2..], n);
      assert (nodes + [n])[2..] == nodes[2..] + [n];
    }
  }

  // ----- every successful parse has the shape -----

  predicate Sound(p: Parser) {
    && Chain(p.pipeline)
    && EnvOk(p.env)
    && (p.mode == Begin ==> p.current.None?)
    && (p.mode != Begin ==> p.current.Some? && NodeOk(p.current.value) && EndOk(p.current.value))
    && (p.mode == InChdir <==> p.current.Some? && p.current.value.Chdir?)
  }

  lemma {:induction false} AssignNew(env: seq<(string, string)>, key: string, value: string)
    requires forall i :: 0 <= i < |env| ==> env[i].0 != key
    ensures Assign(env, key, value) == env + [(key, value)]
  {
    if env != [] {
      AssignNew(env[1..], key, value);
    }
  }

  lemma {:induction false} AssignAt(env: seq<(string, string)>, key: string, value: string, i: nat)
    requires i < |env| && env[i].0 == key
    requires forall j :: 0 <= j < i ==> env[j].0 != key
    ensures Assign(env, key, value) == env[i := (key, value)]
  {
    if i > 0 {
      AssignAt(env[1..], key, value, i - 1);
    }
  }

  lemma AssignKeepsEnv(env: seq<(string, string)>, key: string, value: string)
    requires EnvOk(env) && ValidPair((key, value))
    ensures EnvOk(Assign(env, key, value))
  {
    hide ValidPair;
    if i :| 0 <= i < |env| && env[i].0 == key {
      AssignAt(env, key, value, i);
    } else {
      AssignNew(env, key, value);
    }
  }

  lemma BeginKeepsSound(p: Parser, token: string)
    requires Sound(p) && p.mode == Begin
    ensures FeedBegin(p, token).failed || Sound(FeedBegin(p, token))
  {
    hide Chain;
    if EnvMatch(token).Some? {
      hide EnvOk;
      AssignKeepsEnv(p.env, EnvMatch(token).value.0, EnvMatch(token).value.1);
    }
  }

  lemma CommitKeepsSound(p: Parser, n: Node, op: Node)
    requires Sound(p) && NodeOk(n) && LinkOk(n, op)
    ensures Sound(Commit(p, n, op))
  {
    hide NodeOk;
    hide EnvOk;
    ChainAppend(p.pipeline, n, op);
  }

  lemma CommandKeepsSound(p: Parser, c: Command, token: string)
    requires Sound(p) && p.mode == InCommand && p.current == Some(Cmd(c))
    ensures FeedCommand(p, c, token).failed || Sound(FeedCommand(p, c, token))
  {
    hide Chain;
    hide EnvOk;
    hide EnvMatch;
    if token == "|" {
      if c.stdout == OutDefault {
        CommitKeepsSound(p, Cmd(c.(stdout := OutPipe)), Pipe);
      }
    } else if token == "&&" {
      CommitKeepsSound(p, Cmd(c), And);
    } else if token == "||" {
      CommitKeepsSound(p, Cmd(c), Or);
    }
  }

  lemma FeedKeepsSound(p: Parser, token: string)
    requires Sound(p)
    ensures Feed(p, token).failed || Sound(Feed(p, token))
  {
    hide Chain;
    hide EnvOk;
    hide EnvMatch;
    if p.mode == Begin {
      hide FeedBegin;
      BeginKeepsSound(p, token);
    } else if p.mode == InChdir {
      if token == "&&" {
        CommitKeepsSound(p, p.current.value, And);
      }
    } else if p.mode == InCommand {
      hide FeedCommand;
      CommandKeepsSound(p, p.current.value.cmd, token);
    }
  }

  lemma {:induction false} FeedAllKeepsSound(p: Parser, tokens: seq<string>)
    requires p.failed || Sound(p)
    ensures FeedAll(p, tokens).failed || Sound(FeedAll(p, tokens))
    decreases |tokens|
  {
    if tokens != [] {
      if p.failed {
        FailedStays(p, tokens);
      } else {
        FeedKeepsSound(p, tokens[0]);
        FeedAllKeepsSound(Feed(p, tokens[0]), tokens[1..]);
      }
    }
  }

  /** Every successful parse has the shape. */
  lemma ParseIsWellFormed(tokens: seq<string>)
    ensures Parse(tokens).Some? ==> WellFormed(Parse(tokens).value)
  {
    FeedAllKeepsSound(START, tokens);
    var p := FeedAll(START, tokens);
    if Parse(tokens).Some? {
      ChainEnd(p.pipeline, p.current.value);
    }
  }

  /** The shape, position by position. */
  lemma {:induction false} ShapeByPosition(nodes: seq<Node>, i: nat)
    requires WellFormed(nodes) && i < |nodes|
    ensures |nodes| % 2 == 1
    ensures i % 2 == 0 ==> nodes[i].Cmd? || nodes[i].Chdir?
    ensures i % 2 == 1 ==> nodes[i].Pipe? || nodes[i].And? || nodes[i].Or?
    ensures nodes[i].Chdir? ==> i + 1 == |nodes| || nodes[i + 1] == And
    ensures nodes[i].Cmd? ==> (nodes[i].cmd.stdout == OutPipe <==> i + 1 < |nodes| && nodes[i + 1] == Pipe)
  {
    if i >= 2 {
      ShapeByPosition(nodes[2..], i - 2);
    } else if |nodes| > 1 {
      ShapeByPosition(nodes[2..], 0);
    }
  }

  // ----- the inverse -----

  function EnvTokens(env: seq<(string, string)>): seq<string> {
    if env == [] then [] else [EnvToken(env[0])] + EnvTokens(env[1..])
  }

  function RedirectTokens(c: Command): seq<string> {
    (if c.stdin.Some? then ["<", c.stdin.value] else [])
    + (if c.stdout.OutFile? then [">", c.stdout.name] else [])
    + (match c.stderr
       case ErrMerged => ["2>&1"]
       case ErrFile(name) => ["2>", name]
       case _ => [])
  }

  function NodeTokens(n: Node): seq<string> {
    match n
    case Cmd(c) => EnvTokens(c.env) + c.argv + RedirectTokens(c)
    case Chdir(dir) => ["cd"] + if dir.Some? then [dir.value] else []
    case Pipe => ["|"]
    case And => ["&&"]
    case Or => ["||"]
  }

  function Unparse(nodes: seq<Node>): seq<string> {
    if nodes == [] then [] else NodeTokens(nodes[0]) + Unparse(nodes[1..])
  }

  lemma {:induction false} FeedConcat(p: Parser, a: seq<string>, b: seq<string>)
    ensures FeedAll(p, a + b) == FeedAll(FeedAll(p, a), b)
    decreases |a|
  {
    if a == [] {
      assert a + b == b;
    } else {
      assert (a + b)[1..] == a[1..] + b;
      FeedConcat(Feed(p, a[0]), a[1..], b);
    }
  }

  lemma {:induction false} FeedEnv(p: Parser, env: seq<(string, string)>)
    requires !p.failed && p.mode == Begin && EnvOk(p.env + env)
    ensures FeedAll(p, EnvTokens(env)) == p.(env := p.env + env)
    decreases |env|
  {
    if env != [] {
      var all := p.env + env;
      assert all[|p.env|] == env[0];
      EnvRoundTrip(env[0]);
      forall i | 0 <= i < |p.env| ensures p.env[i].0 != env[0].0 {
        assert all[i] == p.env[i];
      }
      AssignNew(p.env, env[0].0, env[0].1);
      var q := Feed(p, EnvToken(env[0]));
      assert q.env + env[1..] == all;
      FeedEnv(q, env[1..]);
    } else {
      assert p.env + env == p.env;
    }
  }

  lemma {:induction false} FeedArgs(p: Parser, c: Command, args: seq<string>)
    requires !p.failed && p.mode == InCommand && p.current == Some(Cmd(c))
    requires forall i :: 0 <= i < |args| ==> !IsOperatorToken(args[i])
    ensures FeedAll(p, args) == p.(current := Some(Cmd(c.(argv := c.argv + args))))
    decreases |args|
  {
    if args == [] {
      assert c.argv + args == c.argv;
    } else {
      var d := c.(argv := c.argv + [args[0]]);
      var q := Feed(p, args[0]);
      assert q == p.(current := Some(Cmd(d)));
      FeedArgs(q, d, args[1..]);
      assert d.argv + args[1..] == c.argv + args;
    }
  }

  lemma FeedTwo(p: Parser, a: string, b: string)
    ensures FeedAll(p, [a, b]) == Feed(Feed(p, a), b)
    ensures FeedAll(p, [a]) == Feed(p, a)
    ensures FeedAll(p, []) == p
  {
    assert [a, b][1..] == [b];
    assert FeedAll(Feed(p, a), [b]) == FeedAll(Feed(Feed(p, a), b), []);
  }

  /** The command before the operator that turns its output into a pipe. */
  function Unpiped(c: Command): Command {
    if c.stdout == OutPipe then c.(stdout := OutDefault) else c
  }

  lemma FeedRedirects(p: Parser, c: Command)
    requires !p.failed && p.mode == InCommand && c.stderr != ErrPipe
    requires p.current == Some(Cmd(Command(c.argv, None, OutDefault, ErrDefault, c.env)))
    ensures FeedAll(p, RedirectTokens(c)) == p.(current := Some(Cmd(Unpiped(c))))
  {
    hide FeedAll;
    var a := if c.stdin.Some? then ["<", c.stdin.value] else [];
    var b := if c.stdout.OutFile? then [">", c.stdout.name] else [];
    var d := match c.stderr case ErrMerged => ["2>&1"] case ErrFile(name) => ["2>", name] case _ => [];
    assert RedirectTokens(c) == a + b + d;
    FeedConcat(p, a + b, d);
    FeedConcat(p, a, b);
    var p1 := p.(current := Some(Cmd(Command(c.argv, c.stdin, OutDefault, ErrDefault, c.env))));
    assert FeedAll(p, a) == p1 by {
      if c.stdin.Some? { FeedTwo(p, "<", c.stdin.value); } else { FeedTwo(p, "", ""); }
    }
    var p2 := p.(current := Some(Cmd(Command(c.argv, c.stdin, Unpiped(c).stdout, ErrDefault, c.env))));
    assert FeedAll(p1, b) == p2 by {
      if c.stdout.OutFile? { FeedTwo(p1, ">", c.stdout.name); } else { FeedTwo(p1, "", ""); }
    }
    match c.stderr
    case ErrMerged => FeedTwo(p2, "2>&1", "");
    case ErrFile(name) => FeedTwo(p2, "2>", name);
    case ErrDefault => FeedTwo(p2, "", "");
  }

  lemma FeedCommandTokens(p: Parser, c: Command)
    requires !p.failed && p.mode == Begin && p.current.None? && p.env == [] && CommandOk(c)
    ensures FeedAll(p, NodeTokens(Cmd(c))) == p.(mode := InCommand, current := Some(Cmd(Unpiped(c))))
  {
    hide FeedAll;
    hide RedirectTokens;
    hide EnvTokens;
    var name, args := c.argv[0], c.argv[1..];
    assert EnvTokens(c.env) + c.argv + RedirectTokens(c) == EnvTokens(c.env) + ([name] + (args + RedirectTokens(c)));
    FeedConcat(p, EnvTokens(c.env), [name] + (args + RedirectTokens(c)));
    assert [] + c.env == c.env;
    FeedEnv(p, c.env);
    var p1 := p.(env := c.env);
    FeedConcat(p1, [name], args + RedirectTokens(c));
    FeedTwo(p1, name, "");
    var bare := Command([name], None, OutDefault, ErrDefault, c.env);
    var p2 := p.(mode := InCommand, current := Some(Cmd(bare)));
    assert Feed(p1, name) == p2;
    FeedConcat(p2, args, RedirectTokens(c));
    FeedArgs(p2, bare, args);
    assert [name] + args == c.argv;
    FeedRedirects(FeedAll(p2, args), c);
  }

  /** A node and the operator behind it are committed. */
  lemma FeedLink(p: Parser, n: Node, op: Node)
    requires !p.failed && p.mode == Begin && p.current.None? && p.env == []
    requires NodeOk(n) && LinkOk(n, op)
    ensures FeedAll(p, NodeTokens(n) + NodeTokens(op)) == p.(pipeline := p.pipeline + [n, op])
  {
    hide FeedAll;
    hide CommandOk;
    hide EnvTokens;
    hide RedirectTokens;
    hide EnvMatch;
    FeedConcat(p, NodeTokens(n), NodeTokens(op));
    match n {
      case Cmd(c) =>
        FeedCommandTokens(p, c);
      case Chdir(dir) =>
        FeedChdirTokens(p, dir);
    }
    FeedTwo(FeedAll(p, NodeTokens(n)), NodeTokens(op)[0], "");
  }

  lemma FeedChdirTokens(p: Parser, dir: Option<string>)
    requires !p.failed && p.mode == Begin && p.current.None? && p.env == [] && dir != Some("&&")
    ensures FeedAll(p, NodeTokens(Chdir(dir))) == p.(mode := InChdir, current := Some(Chdir(dir)))
  {
    assert EnvMatch("cd").None?;
    if dir.Some? {
      assert NodeTokens(Chdir(dir)) == ["cd", dir.value];
      FeedTwo(p, "cd", dir.value);
    } else {
      assert NodeTokens(Chdir(dir)) == ["cd"];
      FeedTwo(p, "cd", "");
    }
  }

  lemma FeedEnd(p: Parser, n: Node)
    requires !p.failed && p.mode == Begin && p.current.None? && p.env == []
    requires NodeOk(n) && EndOk(n)
    ensures Finish(FeedAll(p, NodeTokens(n))) == Some(p.pipeline + [n])
  {
    hide FeedAll;
    hide CommandOk;
    match n {
      case Cmd(c) =>
        FeedCommandTokens(p, c);
      case Chdir(dir) =>
        FeedChdirTokens(p, dir);
    }
  }

  lemma {:induction false} FeedNodes(p: Parser, nodes: seq<Node>)
    requires !p.failed && p.mode == Begin && p.current.None? && p.env == []
    requires WellFormed(nodes)
    ensures Finish(FeedAll(p, Unparse(nodes))) == Some(p.pipeline + nodes)
    decreases |nodes|
  {
    hide FeedAll;
    hide NodeTokens;
    hide NodeOk;
    hide LinkOk;
    hide Finish;
    if |nodes| == 1 {
      assert Unparse(nodes) == NodeTokens(nodes[0]) + Unparse([]);
      assert Unparse(nodes) == NodeTokens(nodes[0]);
      FeedEnd(p, nodes[0]);
      assert nodes == [nodes[0]];
    } else {
      var n, op, rest := nodes[0], nodes[1], nodes[2..];
      assert nodes[1..][1..] == rest;
      assert Unparse(nodes) == (NodeTokens(n) + NodeTokens(op)) + Unparse(rest);
      FeedConcat(p, NodeTokens(n) + NodeTokens(op), Unparse(rest));
      FeedLink(p, n, op);
      var q := p.(pipeline := p.pipeline + [n, op]);
      FeedNodes(q, rest);
      assert q.pipeline + rest == p.pipeline + nodes;
    }
  }

  /** Parsing undoes `Unparse` on every list of the shape. */
  lemma ParseUnparse(nodes: seq<Node>)
    requires WellFormed(nodes)
    ensures Parse(Unparse(nodes)) == Some(nodes)
  {
    FeedNodes(START, nodes);
    assert [] + nodes == nodes;
  }

  /** The parser produces exactly the well-formed lists. */
  lemma ParsedIffWellFormed(nodes: seq<Node>)
    ensures WellFormed(nodes) <==> exists tokens :: Parse(tokens) == Some(nodes)
  {
    if WellFormed(nodes) {
      ParseUnparse(nodes);
    }
    forall tokens | Parse(tokens) == Some(nodes) ensures WellFormed(nodes) {
      ParseIsWellFormed(tokens);
    }
  }
}
