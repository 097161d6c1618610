/**
 * The token parser of waf-tools/shellcmd.py: a six-state machine that turns the words of a
 * command line into commands, directory changes and operators.
 */
module ShellParse {
  import opened Common

  datatype Stdout = OutDefault | OutPipe | OutFile(name: string)
  datatype Stderr = ErrDefault | ErrPipe | ErrMerged | ErrFile(name: string)

  /** `env` is the dictionary of the assignments before the command, in insertion order. */
  datatype Command = Command(
    argv: seq<string>,
    stdin: Option<string>,
    stdout: Stdout,
    stderr: Stderr,
    env: seq<(string, string)>)

  datatype Node = Cmd(cmd: Command) | Chdir(dir: Option<string>) | Pipe | And | Or

  datatype Mode = Begin | InCommand | InChdir | WantStderr | WantStdout | WantStdin

  /** The fields and locals of `parse`; `failed` is set by a failed assertion. */
  datatype Parser = Parser(
    mode: Mode,
    current: Option<Node>,
    pipeline: seq<Node>,
    env: seq<(string, string)>,
    failed: bool)

  const START := Parser(Begin, None, [], [], false)

  // ----- environment assignments -----

  predicate IsWord(c: char) {
    'a' <= c <= 'z' || 'A' <= c <= 'Z' || '0' <= c <= '9' || c == '_'
  }

  /** The position of the first `=`, or the length. */
  function FirstEquals(s: string): (i: nat)
    ensures i <= |s|
    ensures i < |s| ==> s[i] == '='
    ensures '=' !in s[..i]
  {
    if s == [] || s[0] == '=' then 0
    else
      var i := 1 + FirstEquals(s[1..]);
      assert s[..i] == [s[0]] + s[1..][..i - 1];
      i
  }

  lemma {:induction false} FirstEqualsIs(s: string, n: nat)
    requires n < |s| && s[n] == '=' && forall i :: 0 <= i < n ==> s[i] != '='
    ensures FirstEquals(s) == n
    decreases n
  {
    if n > 0 {
      FirstEqualsIs(s[1..], n - 1);
    }
  }

  predicate ValidName(s: string) {
    s != [] && forall i :: 0 <= i < |s| ==> IsWord(s[i])
  }

  predicate ValidValue(s: string) {
    s != [] && forall i :: 0 <= i < |s| ==> !IsSpace(s[i])
  }

  function StripNewline(s: string): string {
    if s != [] && s[|s| - 1] == '\n' then s[..|s| - 1] else s
  }

  /** A match of `^([a-zA-Z0-9_]+)=(\S+)$`, where `$` also matches before a final newline. */
  function EnvMatch(token: string): Option<(string, string)> {
    var i := FirstEquals(token);
    if i == |token| then None
    else
      var value := StripNewline(token[i + 1..]);
      if ValidName(token[..i]) && ValidValue(value) then Some((token[..i], value)) else None
  }

  function EnvToken(pair: (string, string)): string {
    pair.0 + "=" + pair.1
  }

  predicate ValidPair(pair: (string, string)) {
    ValidName(pair.0) && ValidValue(pair.1)
  }

  /** Writing an assignment and matching it again gives the same pair. */
  lemma EnvRoundTrip(pair: (string, string))
    requires ValidPair(pair)
    ensures EnvMatch(EnvToken(pair)) == Some(pair)
  {
    var token, n := EnvToken(pair), |pair.0|;
    assert token[..n] == pair.0 && token[n] == '=' && token[n + 1..] == pair.1;
    assert forall i :: 0 <= i < n ==> token[i] == pair.0[i];
    FirstEqualsIs(token, n);
    assert !IsSpace(pair.1[|pair.1| - 1]);
  }

  /** Dictionary assignment: an existing key keeps its place. */
  function Assign(env: seq<(string, string)>, key: string, value: string): seq<(string, string)> {
    if env == [] then [(key, value)]
    else if env[0].0 == key then [(key, value)] + env[1..]
    else [env[0]] + Assign(env[1..], key, value)
  }

  // ----- the machine -----

  function Commit(p: Parser, node: Node, op: Node): Parser {
    p.(mode := Begin, current := None, pipeline := p.pipeline + [node, op])
  }

  function Fail(p: Parser): Parser {
    p.(failed := true)
  }

  function FeedBegin(p: Parser, token: string): Parser {
    match EnvMatch(token)
    case Some((key, value)) => p.(env := Assign(p.env, key, value))
    case None =>
      if p.current.Some? then Fail(p)
      else if token == "cd" then
        var q := p.(current := Some(Chdir(None)));
        if p.env != [] then Fail(q) else q.(mode := InChdir)
      else
        p.(mode := InCommand,
           current := Some(Cmd(Command([token], None, OutDefault, ErrDefault, p.env))),
           env := [])
  }

  function FeedCommand(p: Parser, c: Command, token: string): Parser {
    if token == ">" then p.(mode := WantStdout)
    else if token == "2>" then p.(mode := WantStderr)
    else if token == "2>&1" then
      if c.stderr != ErrDefault then Fail(p) else p.(current := Some(Cmd(c.(stderr := ErrMerged))))
    else if token == "<" then p.(mode := WantStdin)
    else if token == "|" then
      if c.stdout != OutDefault then Fail(p) else Commit(p, Cmd(c.(stdout := OutPipe)), Pipe)
    else if token == "&&" then Commit(p, Cmd(c), And)
    else if token == "||" then Commit(p, Cmd(c), Or)
    else p.(current := Some(Cmd(c.(argv := c.argv + [token]))))
  }

  function FeedChdir(p: Parser, dir: Option<string>, token: string): Parser {
    if token == "&&" then Commit(p, Chdir(dir), And)
    else if dir.Some? then Fail(p)
    else p.(current := Some(Chdir(Some(token))))
  }

  function FeedFile(p: Parser, c: Command, token: string): Parser
    requires p.mode == WantStdout || p.mode == WantStderr || p.mode == WantStdin
  {
    var q := p.(mode := InCommand);
    match p.mode
    case WantStdout =>
      if c.stdout != OutDefault then Fail(p) else q.(current := Some(Cmd(c.(stdout := OutFile(token)))))
    case WantStderr =>
      if c.stderr != ErrDefault then Fail(p) else q.(current := Some(Cmd(c.(stderr := ErrFile(token)))))
    case WantStdin =>
      if c.stdin.Some? then Fail(p) else q.(current := Some(Cmd(c.(stdin := Some(token)))))
  }

  /** One token.  A state whose command is missing or of the wrong kind never arises. */
  function Feed(p: Parser, token: string): Parser {
    if p.failed then p
    else if p.mode == Begin then FeedBegin(p, token)
    else if p.mode == InChdir then
      if p.current.Some? && p.current.value.Chdir? then FeedChdir(p, p.current.value.dir, token) else Fail(p)
    else if p.current.Some? && p.current.value.Cmd? then
      if p.mode == InCommand then FeedCommand(p, p.current.value.cmd, token)
      else FeedFile(p, p.current.value.cmd, token)
    else Fail(p)
  }

  function FeedAll(p: Parser, tokens: seq<string>): Parser
    decreases |tokens|
  {
    if tokens == [] then p else FeedAll(Feed(p, tokens[0]), tokens[1..])
  }

  /** The final commit; it fails when no command is pending. */
  function Finish(p: Parser): Option<seq<Node>> {
    if p.failed || p.current.None? then None else Some(p.pipeline + [p.current.value])
  }

  function Parse(tokens: seq<string>): Option<seq<Node>> {
    Finish(FeedAll(START, tokens))
  }

  class Pipeline {
    var current: Option<Node>
    var pipeline: seq<Node>

    constructor ()
      ensures current.None? && pipeline == []
    {
      current, pipeline := None, [];
    }

    method CommitCommand() returns (ok: bool)
      modifies this
      ensures ok <==> old(current).Some?
      ensures ok ==> current.None? && pipeline == old(pipeline) + [old(current).value]
      ensures !ok ==> current == old(current) && pipeline == old(pipeline)
    {
      if current.None? {
        return false;
      }
      pipeline := pipeline + [current.value];
      current := None;
      ok := true;
    }

    /** `parse`: the result is `None` when an assertion fails. */
    method ParseTokens(tokens: seq<string>) returns (result: Option<seq<Node>>)
      modifies this
      ensures result == Parse(tokens)
      ensures result.Some? ==> pipeline == result.value && current.None?
      ensures result.None? ==> pipeline == FeedAll(START, tokens).pipeline && current == FeedAll(START, tokens).current
    {
      current, pipeline := None, [];
      var mode, env, rest := Begin, [], tokens;
      while rest != []
        invariant FeedAll(START, tokens) == FeedAll(Parser(mode, current, pipeline, env, false), rest)
      {
        var token := rest[0];
        ghost var before := Parser(mode, current, pipeline, env, false);
        ghost var behind := rest[1..];
        var failed := false;
        rest := rest[1..];
        if mode == Begin {
          var m := EnvMatch(token);
          if m.Some? {
            env := Assign(env, m.value.0, m.value.1);
          } else if current.Some? {
            failed := true;
          } else if token == "cd" {
            current := Some(Chdir(None));
            failed := env != [];
            if !failed {
              mode := InChdir;
            }
          } else {
            current := Some(Cmd(Command([token], None, OutDefault, ErrDefault, env)));
            env := [];
            mode := InCommand;
          }
        } else if mode == InChdir {
          if current.None? || !current.value.Chdir? {
            failed := true;
          } else if token == "&&" {
            var _ := CommitCommand();
            pipeline := pipeline + [And];
            mode := Begin;
          } else if current.value.dir.Some? {
            failed := true;
          } else {
            current := Some(Chdir(Some(token)));
          }
        } else if current.None? || !current.value.Cmd? {
          failed := true;
        } else {
          mode, failed := FeedPending(mode, token);
        }
        if failed {
          ghost var after := Parser(mode, current, pipeline, env, true);
          assert after == Feed(before, token);
          FailedStays(after, behind);
          return None;
        }
        assert Parser(mode, current, pipeline, env, false) == Feed(before, token);
      }
      var ok := CommitCommand();
      result := if ok then Some(pipeline) else None;
    }

    /** The states in which a command is pending. */
    method FeedPending(mode: Mode, token: string) returns (next: Mode, failed: bool)
      requires mode != Begin && mode != InChdir
      requires current.Some? && current.value.Cmd?
      modifies this
      ensures forall env ::
        (Parser(next, current, pipeline, env, failed)
         == Feed(Parser(mode, old(current), old(pipeline), env, false), token))
    {
      var c := current.value.cmd;
      next, failed := mode, false;
      if mode == InCommand {
        if token == ">" {
          next := WantStdout;
        } else if token == "2>" {
          next := WantStderr;
        } else if token == "2>&1" {
          failed := c.stderr != ErrDefault;
          if !failed {
            current := Some(Cmd(c.(stderr := ErrMerged)));
          }
        } else if token == "<" {
          next := WantStdin;
        } else if token == "|" {
          failed := c.stdout != OutDefault;
          if !failed {
            current := Some(Cmd(c.(stdout := OutPipe)));
            var _ := CommitCommand();
            pipeline := pipeline + [Pipe];
            next := Begin;
          }
        } else if token == "&&" {
          var _ := CommitCommand();
          pipeline := pipeline + [And];
          next := Begin;
        } else if token == "||" {
          var _ := CommitCommand();
          pipeline := pipeline + [Or];
          next := Begin;
        } else {
          current := Some(Cmd(c.(argv := c.argv + [token])));
        }
      } else if mode == WantStdout {
        failed := c.stdout != OutDefault;
        if !failed {
          current := Some(Cmd(c.(stdout := OutFile(token))));
          next := InCommand;
        }
      } else if mode == WantStderr {
        failed := c.stderr != ErrDefault;
        if !failed {
          current := Some(Cmd(c.(stderr := ErrFile(token))));
          next := InCommand;
        }
      } else {
        failed := c.stdin.Some?;
        if !failed {
          current := Some(Cmd(c.(stdin := Some(token))));
          next := InCommand;
        }
      }
    }
  }

  lemma {:induction false} FailedStays(p: Parser, tokens: seq<string>)
    requires p.failed
    ensures FeedAll(p, tokens) == p
    decreases |tokens|
  {
    if tokens != [] {
      FailedStays(p, tokens[1..]);
    }
  }
}
