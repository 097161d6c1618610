/**
 * What the token parser reads, position by position: every token has a role that depends only
 * on the tokens before it, and the roles say what each node of the result holds and which token
 * lists are rejected.
 */
module ShellReading {
  import opened Common
  import opened ShellParse
  import opened ShellShape

  // ----- the roles of the tokens -----

  datatype Role = Assignment | Name | Word | Redirect | File | Merge | Operator | Cd | Directory

  lemma LowerCase(c: char)
    ensures 'a' <= c <= 'z' <==> c in "abcdefghijklmnopqrstuvwxyz"
  {
    if 'a' <= c <= 'z' {
      assert "abcdefghijklmnopqrstuvwxyz"[(c - 'a') as int] == c;
    }
  }

  lemma UpperCase(c: char)
    ensures 'A' <= c <= 'Z' <==> c in "ABCDEFGHIJKLMNOPQRSTUVWXYZ"
  {
    if 'A' <= c <= 'Z' {
      assert "ABCDEFGHIJKLMNOPQRSTUVWXYZ"[(c - 'A') as int] == c;
    }
  }

  lemma WordCharacters(c: char)
    ensures IsWord(c) <==>
      c in "abcdefghijklmnopqrstuvwxyz" || c in "ABCDEFGHIJKLMNOPQRSTUVWXYZ" || c in "0123456789" || c == '_'
  {
    LowerCase(c);
    UpperCase(c);
    assert '0' <= c <= '9' <==> c in "0123456789";
  }

  lemma SplitAt(token: string, i: nat)
    requires i < |token| && token[i] == '='
    ensures token == token[..i] + "=" + token[i + 1..]
  {
  }

  lemma Stripped(rest: string)
    ensures rest == StripNewline(rest) || rest == StripNewline(rest) + "\n"
  {
  }

  lemma MatchSplits(token: string, key: string, value: string)
    requires EnvMatch(token) == Some((key, value))
    ensures ValidPair((key, value)) && (token == key + "=" + value || token == key + "=" + value + "\n")
  {
    var i := FirstEquals(token);
    var rest := token[i + 1..];
    assert key == token[..i] && value == StripNewline(rest) && ValidPair((key, value));
    SplitAt(token, i);
    Stripped(rest);
    hide EnvMatch;
    hide FirstEquals;
    hide ValidPair;
    hide StripNewline;
    assert key + "=" + (value + "\n") == key + "=" + value + "\n";
  }

  lemma SplitMatches(token: string, key: string, value: string)
    requires ValidPair((key, value)) && token == key + "=" + value + "\n"
    ensures EnvMatch(token) == Some((key, value))
  {
    var n := |key|;
    assert token[..n] == key && token[n] == '=' && token[n + 1..] == value + "\n";
    assert forall i :: 0 <= i < n ==> token[i] == key[i];
    FirstEqualsIs(token, n);
  }

  /** An assignment is a match of `name=value`, with or without a final newline. */
  lemma EnvMatchIs(token: string, key: string, value: string)
    ensures EnvMatch(token) == Some((key, value)) <==>
      ValidPair((key, value)) && (token == key + "=" + value || token == key + "=" + value + "\n")
  {
    hide EnvMatch;
    hide ValidPair;
    if EnvMatch(token) == Some((key, value)) {
      MatchSplits(token, key, value);
    }
    if ValidPair((key, value)) {
      EnvRoundTrip((key, value));
      SplitMatches(key + "=" + value + "\n", key, value);
    }
  }

  predicate IsAssignment(token: string) {
    EnvMatch(token).Some?
  }

  predicate IsRedirect(token: string) {
    token == "<" || token == ">" || token == "2>"
  }

  predicate IsOperator(token: string) {
    token == "|" || token == "&&" || token == "||"
  }

  /** The role of a token behind a token of role `before`. At the start of a segment assignments
      may stand, and then the command or `cd`. Behind a redirect stands its file, whatever it
      looks like. A `cd` is ended by `&&` only. */
  function NextRole(before: Role, t: string): Role {
    match before
    case Operator => FirstRole(t)
    case Assignment => FirstRole(t)
    case Redirect => File
    case Cd => if t == "&&" then Operator else Directory
    case Directory => if t == "&&" then Operator else Directory
    case _ =>
      if IsRedirect(t) then Redirect
      else if t == "2>&1" then Merge
      else if IsOperator(t) then Operator
      else Word
  }

  function FirstRole(t: string): Role {
    if IsAssignment(t) then Assignment else if t == "cd" then Cd else Name
  }

  function RoleAt(tokens: seq<string>, i: nat): Role
    requires i < |tokens|
  {
    if i == 0 then FirstRole(tokens[0]) else NextRole(RoleAt(tokens, i - 1), tokens[i])
  }

  lemma RoleIs(tokens: seq<string>, n: nat)
    requires n < |tokens|
    ensures RoleAt(tokens, n) == if n == 0 then FirstRole(tokens[0]) else NextRole(RoleAt(tokens, n - 1), tokens[n])
  {
    hide NextRole;
    hide FirstRole;
  }

  /** Where the segment that contains, or ends at, position `n` starts. */
  function SegmentStart(tokens: seq<string>, n: nat): (a: nat)
    requires n <= |tokens|
    ensures a <= n && (a > 0 ==> RoleAt(tokens, a - 1) == Operator)
    ensures forall j :: a <= j < n ==> RoleAt(tokens, j) != Operator
  {
    if n == 0 || RoleAt(tokens, n - 1) == Operator then n else SegmentStart(tokens, n - 1)
  }

  function OperatorsBefore(tokens: seq<string>, n: nat): nat
    requires n <= |tokens|
  {
    if n == 0 then 0 else OperatorsBefore(tokens, n - 1) + if RoleAt(tokens, n - 1) == Operator then 1 else 0
  }

  // ----- what a segment says -----

  /** The words from `a` to before `b` that are the command or its arguments, in order. */
  function WordsIn(tokens: seq<string>, a: nat, b: nat): seq<string>
    requires a <= b <= |tokens|
  {
    if a == b then []
    else
      WordsIn(tokens, a, b - 1)
        + if RoleAt(tokens, b - 1) == Name || RoleAt(tokens, b - 1) == Word then [tokens[b - 1]] else []
  }

  /** The token is the file of that redirect. */
  predicate FileOf(tokens: seq<string>, j: nat, redirect: string)
    requires j < |tokens|
  {
    0 < j && RoleAt(tokens, j) == File && tokens[j - 1] == redirect
  }

  predicate StdinRead(tokens: seq<string>, a: nat, b: nat, stdin: Option<string>)
    requires a <= b <= |tokens|
  {
    && (forall j :: a <= j < b && FileOf(tokens, j, "<") ==> stdin == Some(tokens[j]))
    && (stdin.Some? ==> exists j :: a <= j < b && FileOf(tokens, j, "<"))
  }

  predicate StdoutRead(tokens: seq<string>, a: nat, b: nat, piped: bool, stdout: Stdout)
    requires a <= b <= |tokens|
  {
    && (forall j :: a <= j < b && FileOf(tokens, j, ">") ==> stdout == OutFile(tokens[j]))
    && (stdout.OutFile? ==> exists j :: a <= j < b && FileOf(tokens, j, ">"))
    && (stdout == OutPipe <==> piped)
  }

  predicate StderrRead(tokens: seq<string>, a: nat, b: nat, stderr: Stderr)
    requires a <= b <= |tokens|
  {
    && (forall j :: a <= j < b && FileOf(tokens, j, "2>") ==> stderr == ErrFile(tokens[j]))
    && (forall j :: a <= j < b && RoleAt(tokens, j) == Merge ==> stderr == ErrMerged)
    && (stderr.ErrFile? ==> exists j :: a <= j < b && FileOf(tokens, j, "2>"))
    && (stderr == ErrMerged ==> exists j :: a <= j < b && RoleAt(tokens, j) == Merge)
    && stderr != ErrPipe
  }

  /** The token at `j` assigns to `key`. */
  predicate Assigns(tokens: seq<string>, j: nat, key: string)
    requires j < |tokens|
  {
    RoleAt(tokens, j) == Assignment && IsAssignment(tokens[j]) && EnvMatch(tokens[j]).value.0 == key
  }

  /** The last assignment to the name of `pair`, and it gives that value. */
  predicate LastAssigns(tokens: seq<string>, b: nat, j: nat, pair: (string, string))
    requires j < b <= |tokens|
  {
    && Assigns(tokens, j, pair.0) && EnvMatch(tokens[j]) == Some(pair)
    && forall k :: j < k < b ==> !Assigns(tokens, k, pair.0)
  }

  predicate HasLast(tokens: seq<string>, a: nat, b: nat, pair: (string, string))
    requires a <= b <= |tokens|
  {
    exists j :: a <= j < b && LastAssigns(tokens, b, j, pair)
  }

  predicate Mentions(tokens: seq<string>, a: nat, b: nat, key: string)
    requires a <= b <= |tokens|
  {
    exists j :: a <= j < b && Assigns(tokens, j, key)
  }

  predicate Keyed(env: seq<(string, string)>, key: string) {
    exists i :: 0 <= i < |env| && env[i].0 == key
  }

  predicate KeysDiffer(env: seq<(string, string)>) {
    forall i, j :: 0 <= i < j < |env| ==> env[i].0 != env[j].0
  }

  predicate AllKeyed(tokens: seq<string>, a: nat, b: nat, env: seq<(string, string)>)
    requires a <= b <= |tokens|
  {
    forall j :: a <= j < b && RoleAt(tokens, j) == Assignment && IsAssignment(tokens[j]) ==>
      Keyed(env, EnvMatch(tokens[j]).value.0)
  }

  predicate AllLast(tokens: seq<string>, a: nat, b: nat, env: seq<(string, string)>)
    requires a <= b <= |tokens|
  {
    forall i :: 0 <= i < |env| ==> HasLast(tokens, a, b, env[i])
  }

  predicate InFirstOrder(tokens: seq<string>, a: nat, b: nat, env: seq<(string, string)>)
    requires a <= b <= |tokens|
  {
    forall h, i, j :: 0 <= h < i < |env| && a <= j < b && Assigns(tokens, j, env[i].0) ==>
      Mentions(tokens, a, j, env[h].0)
  }

  /** Every name assigned to occurs once, with its last value, in the order in which the names
      first occur. */
  predicate EnvRead(tokens: seq<string>, a: nat, b: nat, env: seq<(string, string)>)
    requires a <= b <= |tokens|
  {
    KeysDiffer(env) && AllKeyed(tokens, a, b, env) && AllLast(tokens, a, b, env) && InFirstOrder(tokens, a, b, env)
  }

  predicate CommandRead(tokens: seq<string>, a: nat, b: nat, piped: bool, c: Command)
    requires a <= b <= |tokens|
  {
    && c.argv == WordsIn(tokens, a, b) && EnvRead(tokens, a, b, c.env)
    && StdinRead(tokens, a, b, c.stdin) && StdoutRead(tokens, a, b, piped, c.stdout) && StderrRead(tokens, a, b, c.stderr)
  }

  predicate ChdirRead(tokens: seq<string>, a: nat, b: nat, dir: Option<string>)
    requires a <= b <= |tokens|
  {
    && a < b && RoleAt(tokens, a) == Cd
    && (forall j :: a <= j < b && RoleAt(tokens, j) == Directory ==> dir == Some(tokens[j]))
    && (dir.Some? ==> exists j :: a <= j < b && RoleAt(tokens, j) == Directory)
  }

  predicate HasName(tokens: seq<string>, a: nat, b: nat)
    requires a <= b <= |tokens|
  {
    exists j :: a <= j < b && RoleAt(tokens, j) == Name
  }

  /** The node of the segment that ends at `b`, before an operator or with the list. */
  predicate NodeRead(tokens: seq<string>, b: nat, node: Node)
    requires b <= |tokens|
  {
    var a := SegmentStart(tokens, b);
    match node
    case Cmd(c) => HasName(tokens, a, b) && CommandRead(tokens, a, b, b < |tokens| && tokens[b] == "|", c)
    case Chdir(dir) => ChdirRead(tokens, a, b, dir)
    case _ => false
  }

  predicate OperatorRead(token: string, node: Node) {
    match node
    case Pipe => token == "|"
    case And => token == "&&"
    case Or => token == "||"
    case _ => false
  }

  // ----- which lists are rejected -----

  datatype Channel = In | Out | Err | Dir | NoChannel

  /** What the token at `i` sets. */
  function ChannelAt(tokens: seq<string>, i: nat): Channel
    requires i < |tokens|
  {
    if FileOf(tokens, i, "<") then In
    else if FileOf(tokens, i, ">") || (RoleAt(tokens, i) == Operator && tokens[i] == "|") then Out
    else if FileOf(tokens, i, "2>") || RoleAt(tokens, i) == Merge then Err
    else if RoleAt(tokens, i) == Directory then Dir
    else NoChannel
  }

  /** Two tokens of one segment set the same thing. */
  predicate Clash(tokens: seq<string>, i: nat, j: nat)
    requires i < j < |tokens|
  {
    && ChannelAt(tokens, i) == ChannelAt(tokens, j) != NoChannel
    && forall k :: i <= k < j ==> RoleAt(tokens, k) != Operator
  }

  predicate CdBehindAssignment(tokens: seq<string>, i: nat)
    requires i < |tokens|
  {
    0 < i && RoleAt(tokens, i) == Cd && RoleAt(tokens, i - 1) == Assignment
  }

  predicate BadAt(tokens: seq<string>, n: nat)
    requires n < |tokens|
  {
    CdBehindAssignment(tokens, n) || exists i :: 0 <= i < n && Clash(tokens, i, n)
  }

  predicate Bad(tokens: seq<string>, n: nat)
    requires n <= |tokens|
  {
    exists j :: 0 <= j < n && BadAt(tokens, j)
  }

  /** No command or `cd` stands in the last segment. */
  predicate Unfinished(tokens: seq<string>) {
    tokens == [] || RoleAt(tokens, |tokens| - 1) == Operator || RoleAt(tokens, |tokens| - 1) == Assignment
  }

  // ----- the machine reads the roles -----

  predicate PendingRead(tokens: seq<string>, n: nat, p: Parser)
    requires n <= |tokens|
  {
    var a := SegmentStart(tokens, n);
    match p.mode
    case Begin =>
      p.current.None? && (a < n ==> RoleAt(tokens, n - 1) == Assignment) && EnvRead(tokens, a, n, p.env)
    case InChdir =>
      && p.env == [] && a < n && (RoleAt(tokens, n - 1) == Cd || RoleAt(tokens, n - 1) == Directory)
      && p.current.Some? && p.current.value.Chdir? && ChdirRead(tokens, a, n, p.current.value.dir)
    case _ =>
      && p.env == [] && a < n && ModeRead(p.mode, tokens[n - 1], RoleAt(tokens, n - 1))
      && HasName(tokens, a, n)
      && p.current.Some? && p.current.value.Cmd? && CommandRead(tokens, a, n, false, p.current.value.cmd)
  }

  predicate ModeRead(mode: Mode, token: string, role: Role) {
    match mode
    case InCommand => role == Name || role == Word || role == File || role == Merge
    case WantStdin => role == Redirect && token == "<"
    case WantStdout => role == Redirect && token == ">"
    case WantStderr => role == Redirect && token == "2>"
    case _ => false
  }

  /** The nodes of the segments that have ended, each with its operator. */
  predicate PipelineRead(tokens: seq<string>, n: nat, nodes: seq<Node>)
    requires n <= |tokens|
  {
    && |nodes| == 2 * OperatorsBefore(tokens, n)
    && forall i :: 0 <= i < n && RoleAt(tokens, i) == Operator ==>
         var k := 2 * OperatorsBefore(tokens, i);
         k + 1 < |nodes| && NodeRead(tokens, i, nodes[k]) && OperatorRead(tokens[i], nodes[k + 1])
  }

  predicate StateRead(tokens: seq<string>, n: nat, p: Parser)
    requires n <= |tokens|
  {
    !p.failed && PendingRead(tokens, n, p) && PipelineRead(tokens, n, p.pipeline)
  }

  // ----- one more token -----

  lemma SegmentNext(tokens: seq<string>, n: nat)
    requires n < |tokens|
    ensures SegmentStart(tokens, n + 1) == if RoleAt(tokens, n) == Operator then n + 1 else SegmentStart(tokens, n)
  {
    hide RoleAt;
  }

  /** A redirect stays when the token does not set it. */
  lemma StdinStays(tokens: seq<string>, a: nat, n: nat, stdin: Option<string>)
    requires a <= n < |tokens| && StdinRead(tokens, a, n, stdin) && !FileOf(tokens, n, "<")
    ensures StdinRead(tokens, a, n + 1, stdin)
  {
    hide FileOf;
  }

  lemma StdoutStays(tokens: seq<string>, a: nat, n: nat, stdout: Stdout)
    requires a <= n < |tokens| && StdoutRead(tokens, a, n, false, stdout) && !FileOf(tokens, n, ">")
    ensures StdoutRead(tokens, a, n + 1, false, stdout)
  {
    hide FileOf;
  }

  lemma StderrStays(tokens: seq<string>, a: nat, n: nat, stderr: Stderr)
    requires a <= n < |tokens| && StderrRead(tokens, a, n, stderr)
    requires !FileOf(tokens, n, "2>") && RoleAt(tokens, n) != Merge
    ensures StderrRead(tokens, a, n + 1, stderr)
  {
    hide FileOf;
    hide RoleAt;
  }

  lemma LastStays(tokens: seq<string>, a: nat, n: nat, pair: (string, string))
    requires a <= n < |tokens| && HasLast(tokens, a, n, pair) && !Assigns(tokens, n, pair.0)
    ensures HasLast(tokens, a, n + 1, pair)
  {
    hide Assigns;
    var j :| a <= j < n && LastAssigns(tokens, n, j, pair);
    assert LastAssigns(tokens, n + 1, j, pair);
  }

  lemma KeyedStays(tokens: seq<string>, a: nat, n: nat, env: seq<(string, string)>)
    requires a <= n < |tokens| && AllKeyed(tokens, a, n, env) && RoleAt(tokens, n) != Assignment
    ensures AllKeyed(tokens, a, n + 1, env)
  {
    hide RoleAt;
    hide EnvMatch;
    hide Keyed;
  }

  lemma OrderStays(tokens: seq<string>, a: nat, n: nat, env: seq<(string, string)>)
    requires a <= n < |tokens| && InFirstOrder(tokens, a, n, env) && forall key :: !Assigns(tokens, n, key)
    ensures InFirstOrder(tokens, a, n + 1, env)
  {
    hide Assigns;
    hide Mentions;
  }

  lemma EnvStays(tokens: seq<string>, a: nat, n: nat, env: seq<(string, string)>)
    requires a <= n < |tokens| && EnvRead(tokens, a, n, env) && RoleAt(tokens, n) != Assignment
    ensures EnvRead(tokens, a, n + 1, env)
  {
    assert forall key :: !Assigns(tokens, n, key);
    hide RoleAt;
    hide HasLast;
    hide Assigns;
    hide KeysDiffer;
    hide AllKeyed;
    hide InFirstOrder;
    KeyedStays(tokens, a, n, env);
    OrderStays(tokens, a, n, env);
    forall i | 0 <= i < |env| ensures HasLast(tokens, a, n + 1, env[i]) {
      LastStays(tokens, a, n, env[i]);
    }
  }

  lemma KeyPlace(env: seq<(string, string)>, key: string) returns (i: nat)
    requires Keyed(env, key)
    ensures i < |env| && env[i].0 == key && forall j :: 0 <= j < i ==> env[j].0 != key
  {
    i := 0;
    while env[i].0 != key
      invariant i < |env| && forall j :: 0 <= j < i ==> env[j].0 != key
      invariant exists j :: i <= j < |env| && env[j].0 == key
      decreases |env| - i
    {
      i := i + 1;
    }
  }

  /** After an assignment the name is there once, at its old place or at the end. */
  lemma AssignIs(env: seq<(string, string)>, key: string, value: string) returns (at: nat)
    requires KeysDiffer(env)
    ensures var r := Assign(env, key, value);
      && at < |r| && r[at] == (key, value) && |env| <= |r| && KeysDiffer(r)
      && (forall i :: 0 <= i < |r| && i != at ==> i < |env| && r[i] == env[i])
      && (at < |env| ==> env[at].0 == key && |r| == |env|)
      && (at >= |env| ==> at == |env| && |r| == |env| + 1 && !Keyed(env, key))
  {
    if Keyed(env, key) {
      at := KeyPlace(env, key);
      AssignAt(env, key, value, at);
    } else {
      AssignNew(env, key, value);
      at := |env|;
    }
    hide Assign;
  }

  lemma AssignKeyed(env: seq<(string, string)>, key: string, value: string, other: string)
    requires KeysDiffer(env)
    ensures Keyed(Assign(env, key, value), other) <==> other == key || Keyed(env, other)
  {
    var at := AssignIs(env, key, value);
    hide Assign;
    hide KeysDiffer;
    var r := Assign(env, key, value);
    if i :| 0 <= i < |env| && env[i].0 == other {
      assert i != at ==> r[i] == env[i];
      assert r[i].0 == other;
    }
  }

  lemma LastIsMentioned(tokens: seq<string>, a: nat, b: nat, pair: (string, string))
    requires a <= b <= |tokens| && HasLast(tokens, a, b, pair)
    ensures Mentions(tokens, a, b, pair.0)
  {
    hide Assigns;
  }

  lemma MentionedIsKeyed(tokens: seq<string>, a: nat, b: nat, env: seq<(string, string)>, key: string)
    requires a <= b <= |tokens| && AllKeyed(tokens, a, b, env) && Mentions(tokens, a, b, key)
    ensures Keyed(env, key)
  {
    hide RoleAt;
    hide EnvMatch;
    hide Keyed;
  }

  lemma EnvAssignedLast(tokens: seq<string>, a: nat, n: nat, env: seq<(string, string)>, key: string, value: string)
    requires a <= n < |tokens| && RoleAt(tokens, n) == Assignment && EnvMatch(tokens[n]) == Some((key, value))
    requires KeysDiffer(env) && AllLast(tokens, a, n, env)
    ensures AllLast(tokens, a, n + 1, Assign(env, key, value))
  {
    var at := AssignIs(env, key, value);
    hide Assign;
    hide RoleAt;
    hide EnvMatch;
    var r := Assign(env, key, value);
    forall i | 0 <= i < |r| ensures HasLast(tokens, a, n + 1, r[i]) {
      if i == at {
        assert LastAssigns(tokens, n + 1, n, r[i]);
      } else {
        assert r[i].0 != r[at].0;
        LastStays(tokens, a, n, r[i]);
      }
    }
  }

  lemma EnvAssignedOrder(tokens: seq<string>, a: nat, n: nat, env: seq<(string, string)>, key: string, value: string)
    requires a <= n < |tokens| && RoleAt(tokens, n) == Assignment && EnvMatch(tokens[n]) == Some((key, value))
    requires EnvRead(tokens, a, n, env)
    ensures InFirstOrder(tokens, a, n + 1, Assign(env, key, value))
  {
    var at := AssignIs(env, key, value);
    hide Assign;
    hide RoleAt;
    hide EnvMatch;
    hide KeysDiffer;
    hide Keyed;
    hide AllKeyed;
    var r := Assign(env, key, value);
    if Mentions(tokens, a, n, key) {
      MentionedIsKeyed(tokens, a, n, env, key);
    }
    forall h, i, j | 0 <= h < i < |r| && a <= j < n + 1 && Assigns(tokens, j, r[i].0)
      ensures Mentions(tokens, a, j, r[h].0)
    {
      hide Assigns;
      assert h < |env| && r[h].0 == env[h].0;
      if j == n {
        assert HasLast(tokens, a, n, env[h]);
        hide HasLast;
        LastIsMentioned(tokens, a, n, env[h]);
      } else if i < |env| {
        assert r[i].0 == env[i].0;
      }
    }
  }

  /** One more assignment. */
  lemma EnvAssigned(tokens: seq<string>, a: nat, n: nat, env: seq<(string, string)>, key: string, value: string)
    requires a <= n < |tokens| && RoleAt(tokens, n) == Assignment && EnvMatch(tokens[n]) == Some((key, value))
    requires EnvRead(tokens, a, n, env)
    ensures EnvRead(tokens, a, n + 1, Assign(env, key, value))
  {
    hide Assign;
    hide RoleAt;
    hide EnvMatch;
    var r := Assign(env, key, value);
    var at := AssignIs(env, key, value);
    EnvAssignedLast(tokens, a, n, env, key, value);
    EnvAssignedOrder(tokens, a, n, env, key, value);
    hide AllLast;
    hide InFirstOrder;
    hide KeysDiffer;
    hide Keyed;
    forall j | a <= j < n + 1 && RoleAt(tokens, j) == Assignment && IsAssignment(tokens[j])
      ensures Keyed(r, EnvMatch(tokens[j]).value.0)
    {
      AssignKeyed(env, key, value, EnvMatch(tokens[j]).value.0);
    }
  }

  /** A token that sets nothing. */
  lemma NothingSet(tokens: seq<string>, a: nat, n: nat, c: Command)
    requires a <= n < |tokens| && CommandRead(tokens, a, n, false, c) && RoleAt(tokens, n) == Redirect
    ensures CommandRead(tokens, a, n + 1, false, c)
  {
    assert forall r :: !FileOf(tokens, n, r);
    assert WordsIn(tokens, a, n + 1) == WordsIn(tokens, a, n);
    hide RoleAt;
    hide FileOf;
    hide WordsIn;
    hide EnvRead;
    hide StdinRead;
    hide StdoutRead;
    hide StderrRead;
    StdinStays(tokens, a, n, c.stdin);
    StdoutStays(tokens, a, n, c.stdout);
    StderrStays(tokens, a, n, c.stderr);
    EnvStays(tokens, a, n, c.env);
  }

  lemma WordAdded(tokens: seq<string>, a: nat, n: nat, c: Command)
    requires a <= n < |tokens| && CommandRead(tokens, a, n, false, c) && RoleAt(tokens, n) == Word
    ensures CommandRead(tokens, a, n + 1, false, c.(argv := c.argv + [tokens[n]]))
  {
    assert forall r :: !FileOf(tokens, n, r);
    assert WordsIn(tokens, a, n + 1) == WordsIn(tokens, a, n) + [tokens[n]];
    hide RoleAt;
    hide FileOf;
    hide WordsIn;
    hide EnvRead;
    hide StdinRead;
    hide StdoutRead;
    hide StderrRead;
    StdinStays(tokens, a, n, c.stdin);
    StdoutStays(tokens, a, n, c.stdout);
    StderrStays(tokens, a, n, c.stderr);
    EnvStays(tokens, a, n, c.env);
  }

  lemma StdinSet(tokens: seq<string>, a: nat, n: nat)
    requires a <= n < |tokens| && StdinRead(tokens, a, n, None) && FileOf(tokens, n, "<")
    ensures StdinRead(tokens, a, n + 1, Some(tokens[n]))
  {
    hide FileOf;
  }

  lemma StdoutSet(tokens: seq<string>, a: nat, n: nat)
    requires a <= n < |tokens| && StdoutRead(tokens, a, n, false, OutDefault) && FileOf(tokens, n, ">")
    ensures StdoutRead(tokens, a, n + 1, false, OutFile(tokens[n]))
  {
    hide FileOf;
  }

  lemma StderrSet(tokens: seq<string>, a: nat, n: nat)
    requires a <= n < |tokens| && StderrRead(tokens, a, n, ErrDefault)
    ensures FileOf(tokens, n, "2>") ==> StderrRead(tokens, a, n + 1, ErrFile(tokens[n]))
    ensures RoleAt(tokens, n) == Merge ==> StderrRead(tokens, a, n + 1, ErrMerged)
  {
    assert FileOf(tokens, n, "2>") ==> RoleAt(tokens, n) == File;
    hide FileOf;
    hide RoleAt;
  }

  /** The file of a redirect, when that is not set yet. */
  lemma FileSet(tokens: seq<string>, a: nat, n: nat, c: Command)
    requires a < n < |tokens| && CommandRead(tokens, a, n, false, c) && RoleAt(tokens, n) == File
    ensures tokens[n - 1] == "<" && c.stdin.None? ==>
      CommandRead(tokens, a, n + 1, false, c.(stdin := Some(tokens[n])))
    ensures tokens[n - 1] == ">" && c.stdout == OutDefault ==>
      CommandRead(tokens, a, n + 1, false, c.(stdout := OutFile(tokens[n])))
    ensures tokens[n - 1] == "2>" && c.stderr == ErrDefault ==>
      CommandRead(tokens, a, n + 1, false, c.(stderr := ErrFile(tokens[n])))
  {
    assert forall r :: FileOf(tokens, n, r) <==> tokens[n - 1] == r;
    assert WordsIn(tokens, a, n + 1) == WordsIn(tokens, a, n);
    hide RoleAt;
    hide FileOf;
    hide WordsIn;
    hide EnvRead;
    hide StdinRead;
    hide StdoutRead;
    hide StderrRead;
    EnvStays(tokens, a, n, c.env);
    if tokens[n - 1] == "<" {
      StdoutStays(tokens, a, n, c.stdout);
      StderrStays(tokens, a, n, c.stderr);
      if c.stdin.None? { StdinSet(tokens, a, n); }
    } else if tokens[n - 1] == ">" {
      StdinStays(tokens, a, n, c.stdin);
      StderrStays(tokens, a, n, c.stderr);
      if c.stdout == OutDefault { StdoutSet(tokens, a, n); }
    } else if tokens[n - 1] == "2>" {
      StdinStays(tokens, a, n, c.stdin);
      StdoutStays(tokens, a, n, c.stdout);
      if c.stderr == ErrDefault { StderrSet(tokens, a, n); }
    }
  }

  lemma MergeSet(tokens: seq<string>, a: nat, n: nat, c: Command)
    requires a <= n < |tokens| && CommandRead(tokens, a, n, false, c) && RoleAt(tokens, n) == Merge && c.stderr == ErrDefault
    ensures CommandRead(tokens, a, n + 1, false, c.(stderr := ErrMerged))
  {
    assert forall r :: !FileOf(tokens, n, r);
    assert WordsIn(tokens, a, n + 1) == WordsIn(tokens, a, n);
    hide RoleAt;
    hide FileOf;
    hide WordsIn;
    hide EnvRead;
    hide StdinRead;
    hide StdoutRead;
    hide StderrRead;
    StdinStays(tokens, a, n, c.stdin);
    StdoutStays(tokens, a, n, c.stdout);
    EnvStays(tokens, a, n, c.env);
    StderrSet(tokens, a, n);
  }

  // ----- clashes -----

  predicate SetBefore(tokens: seq<string>, a: nat, n: nat, channel: Channel)
    requires a <= n <= |tokens|
  {
    exists i :: a <= i < n && ChannelAt(tokens, i) == channel
  }

  lemma ClashIff(tokens: seq<string>, n: nat)
    requires n < |tokens|
    ensures (exists i :: 0 <= i < n && Clash(tokens, i, n)) <==>
      ChannelAt(tokens, n) != NoChannel && SetBefore(tokens, SegmentStart(tokens, n), n, ChannelAt(tokens, n))
  {
    var a := SegmentStart(tokens, n);
    hide RoleAt;
    hide ChannelAt;
    hide SegmentStart;
    if i :| 0 <= i < n && Clash(tokens, i, n) {
      assert i >= a;
    }
    if ChannelAt(tokens, n) != NoChannel && SetBefore(tokens, a, n, ChannelAt(tokens, n)) {
      var i :| a <= i < n && ChannelAt(tokens, i) == ChannelAt(tokens, n);
      assert Clash(tokens, i, n);
    }
  }

  lemma ChannelIs(tokens: seq<string>, i: nat)
    requires i < |tokens|
    ensures ChannelAt(tokens, i) == In <==> FileOf(tokens, i, "<")
    ensures RoleAt(tokens, i) != Operator ==> (ChannelAt(tokens, i) == Out <==> FileOf(tokens, i, ">"))
    ensures ChannelAt(tokens, i) == Err <==> FileOf(tokens, i, "2>") || RoleAt(tokens, i) == Merge
    ensures ChannelAt(tokens, i) == Dir <==> RoleAt(tokens, i) == Directory
    ensures RoleAt(tokens, i) == Operator ==> ChannelAt(tokens, i) == if tokens[i] == "|" then Out else NoChannel
  {
    hide RoleAt;
  }

  /** A redirect is set exactly when a token of the segment sets it. */
  lemma SetIff(tokens: seq<string>, a: nat, n: nat, c: Command)
    requires a <= n <= |tokens| && CommandRead(tokens, a, n, false, c)
    requires forall j :: a <= j < n ==> RoleAt(tokens, j) != Operator
    ensures SetBefore(tokens, a, n, In) <==> c.stdin.Some?
    ensures SetBefore(tokens, a, n, Out) <==> c.stdout != OutDefault
    ensures SetBefore(tokens, a, n, Err) <==> c.stderr != ErrDefault
  {
    forall j | a <= j < n
      ensures ChannelAt(tokens, j) == In <==> FileOf(tokens, j, "<")
      ensures ChannelAt(tokens, j) == Out <==> FileOf(tokens, j, ">")
      ensures ChannelAt(tokens, j) == Err <==> FileOf(tokens, j, "2>") || RoleAt(tokens, j) == Merge
    {
      ChannelIs(tokens, j);
    }
    hide RoleAt;
    hide FileOf;
    hide ChannelAt;
    hide EnvRead;
    hide WordsIn;
  }

  lemma DirSetIff(tokens: seq<string>, a: nat, n: nat, dir: Option<string>)
    requires a <= n <= |tokens| && ChdirRead(tokens, a, n, dir)
    ensures SetBefore(tokens, a, n, Dir) <==> dir.Some?
  {
    forall j | a <= j < n ensures ChannelAt(tokens, j) == Dir <==> RoleAt(tokens, j) == Directory {
      ChannelIs(tokens, j);
    }
    hide RoleAt;
    hide ChannelAt;
  }

  // ----- committed nodes -----

  lemma {:induction false} OperatorsGrow(tokens: seq<string>, m: nat, n: nat)
    requires m < n <= |tokens| && RoleAt(tokens, m) == Operator
    ensures OperatorsBefore(tokens, m) < OperatorsBefore(tokens, n)
    decreases n
  {
    hide RoleAt;
    if m + 1 < n {
      OperatorsGrow(tokens, m, n - 1);
    }
  }

  lemma PipelineStays(tokens: seq<string>, n: nat, nodes: seq<Node>)
    requires n < |tokens| && PipelineRead(tokens, n, nodes) && RoleAt(tokens, n) != Operator
    ensures PipelineRead(tokens, n + 1, nodes)
  {
    hide RoleAt;
    hide NodeRead;
    hide OperatorRead;
  }

  lemma PipelineGrows(tokens: seq<string>, n: nat, nodes: seq<Node>, node: Node, op: Node)
    requires n < |tokens| && PipelineRead(tokens, n, nodes) && RoleAt(tokens, n) == Operator
    requires NodeRead(tokens, n, node) && OperatorRead(tokens[n], op)
    ensures PipelineRead(tokens, n + 1, nodes + [node, op])
  {
    hide RoleAt;
    hide NodeRead;
    hide OperatorRead;
    var all := nodes + [node, op];
    assert OperatorsBefore(tokens, n + 1) == OperatorsBefore(tokens, n) + 1;
    hide OperatorsBefore;
    forall i | 0 <= i < n + 1 && RoleAt(tokens, i) == Operator
      ensures var k := 2 * OperatorsBefore(tokens, i);
        k + 1 < |all| && NodeRead(tokens, i, all[k]) && OperatorRead(tokens[i], all[k + 1])
    {
      if i < n {
        OperatorsGrow(tokens, i, n);
      }
    }
  }

  // ----- one step of the machine -----

  lemma AssignmentBehind(tokens: seq<string>, n: nat)
    requires 0 < n < |tokens| && RoleAt(tokens, n) == Assignment
    ensures RoleAt(tokens, n - 1) == Assignment || RoleAt(tokens, n - 1) == Operator
  {
    RoleIs(tokens, n);
    hide RoleAt;
  }

  /** Nothing but assignments has been seen in the segment. */
  predicate AtBegin(tokens: seq<string>, n: nat)
    requires n <= |tokens|
  {
    SegmentStart(tokens, n) < n ==> RoleAt(tokens, n - 1) == Assignment
  }

  lemma {:induction false} OnlyAssignments(tokens: seq<string>, n: nat)
    requires n <= |tokens| && AtBegin(tokens, n)
    ensures forall j :: SegmentStart(tokens, n) <= j < n ==> RoleAt(tokens, j) == Assignment
    ensures WordsIn(tokens, SegmentStart(tokens, n), n) == []
    decreases n
  {
    hide RoleAt;
    var a := SegmentStart(tokens, n);
    if a < n {
      SegmentNext(tokens, n - 1);
      hide SegmentStart;
      if a < n - 1 {
        AssignmentBehind(tokens, n - 1);
      }
      OnlyAssignments(tokens, n - 1);
    }
  }

  lemma EnvEmptyIff(tokens: seq<string>, n: nat, env: seq<(string, string)>)
    requires n <= |tokens| && AtBegin(tokens, n) && EnvRead(tokens, SegmentStart(tokens, n), n, env)
    ensures env == [] <==> SegmentStart(tokens, n) == n
  {
    hide RoleAt;
    hide EnvMatch;
    var a := SegmentStart(tokens, n);
    hide SegmentStart;
    if a < n {
      AssignmentMatches(tokens, n - 1);
      assert Keyed(env, EnvMatch(tokens[n - 1]).value.0);
    } else {
      assert env != [] ==> HasLast(tokens, a, n, env[0]);
    }
  }

  lemma AssignmentMatches(tokens: seq<string>, n: nat)
    requires n < |tokens| && RoleAt(tokens, n) == Assignment
    ensures IsAssignment(tokens[n])
  {
    RoleIs(tokens, n);
    hide RoleAt;
    hide IsAssignment;
  }

  lemma FirstRoleAt(tokens: seq<string>, n: nat)
    requires n < |tokens| && AtBegin(tokens, n)
    ensures RoleAt(tokens, n) == FirstRole(tokens[n])
  {
    RoleIs(tokens, n);
    hide RoleAt;
    hide FirstRole;
    hide SegmentStart;
    hide IsRedirect;
    hide IsOperator;
  }

  lemma BeginSetsNothing(tokens: seq<string>, n: nat)
    requires n < |tokens|
    requires RoleAt(tokens, n) == Assignment || RoleAt(tokens, n) == Cd || RoleAt(tokens, n) == Name
    ensures ChannelAt(tokens, n) == NoChannel
  {
    hide RoleAt;
  }

  lemma SegmentEdge(tokens: seq<string>, n: nat)
    requires 0 < n <= |tokens| && AtBegin(tokens, n)
    ensures if SegmentStart(tokens, n) < n then RoleAt(tokens, n - 1) == Assignment else RoleAt(tokens, n - 1) == Operator
  {
    hide RoleAt;
  }

  lemma RoleAtBegin(tokens: seq<string>, n: nat)
    requires n < |tokens| && AtBegin(tokens, n)
    ensures RoleAt(tokens, n) == FirstRole(tokens[n])
    ensures ChannelAt(tokens, n) == NoChannel
    ensures CdBehindAssignment(tokens, n) <==> RoleAt(tokens, n) == Cd && SegmentStart(tokens, n) < n
  {
    hide RoleAt;
    hide SegmentStart;
    hide IsAssignment;
    FirstRoleAt(tokens, n);
    BeginSetsNothing(tokens, n);
    if n > 0 {
      SegmentEdge(tokens, n);
    }
    hide AtBegin;
    hide ChannelAt;
    hide FirstRole;
  }

  /** The rejection at a position, from its own channel and those set before in the segment. */
  lemma BadIff(tokens: seq<string>, n: nat)
    requires n < |tokens|
    ensures BadAt(tokens, n) <==>
      (|| CdBehindAssignment(tokens, n)
       || (ChannelAt(tokens, n) != NoChannel && SetBefore(tokens, SegmentStart(tokens, n), n, ChannelAt(tokens, n))))
  {
    ClashIff(tokens, n);
    hide Clash;
    hide RoleAt;
    hide ChannelAt;
    hide SetBefore;
  }

  lemma NoFiles(tokens: seq<string>, a: nat, n: nat)
    requires a <= n <= |tokens| && forall j :: a <= j < n ==> RoleAt(tokens, j) == Assignment || RoleAt(tokens, j) == Name
    ensures StdinRead(tokens, a, n, None) && StdoutRead(tokens, a, n, false, OutDefault) && StderrRead(tokens, a, n, ErrDefault)
  {
    hide RoleAt;
  }

  lemma FreshCommand(tokens: seq<string>, n: nat, env: seq<(string, string)>)
    requires n < |tokens| && RoleAt(tokens, n) == Name && AtBegin(tokens, n)
    requires EnvRead(tokens, SegmentStart(tokens, n), n, env)
    ensures CommandRead(tokens, SegmentStart(tokens, n), n + 1, false, Command([tokens[n]], None, OutDefault, ErrDefault, env))
  {
    hide RoleAt;
    var a := SegmentStart(tokens, n);
    OnlyAssignments(tokens, n);
    hide SegmentStart;
    EnvStays(tokens, a, n, env);
    hide EnvRead;
    NoFiles(tokens, a, n + 1);
    hide StdinRead;
    hide StdoutRead;
    hide StderrRead;
    assert WordsIn(tokens, a, n + 1) == WordsIn(tokens, a, n) + [tokens[n]];
  }

  lemma BeginAssignment(tokens: seq<string>, n: nat, p: Parser)
    requires n < |tokens| && StateRead(tokens, n, p) && p.mode == Begin && RoleAt(tokens, n) == Assignment
    ensures IsAssignment(tokens[n])
    ensures PendingRead(tokens, n + 1, p.(env := Assign(p.env, EnvMatch(tokens[n]).value.0, EnvMatch(tokens[n]).value.1)))
  {
    hide RoleAt;
    hide PipelineRead;
    AssignmentMatches(tokens, n);
    SegmentNext(tokens, n);
    var a := SegmentStart(tokens, n);
    hide SegmentStart;
    hide EnvMatch;
    var pair := EnvMatch(tokens[n]).value;
    EnvAssigned(tokens, a, n, p.env, pair.0, pair.1);
    hide EnvRead;
    hide Assign;
  }

  lemma CdAlone(tokens: seq<string>, n: nat)
    requires n < |tokens| && RoleAt(tokens, n) == Cd
    ensures ChdirRead(tokens, n, n + 1, None)
  {
    hide RoleAt;
  }

  lemma BeginCd(tokens: seq<string>, n: nat, p: Parser)
    requires n < |tokens| && StateRead(tokens, n, p) && p.mode == Begin && RoleAt(tokens, n) == Cd && p.env == []
    requires SegmentStart(tokens, n) == n
    ensures PendingRead(tokens, n + 1, p.(mode := InChdir, current := Some(Chdir(None))))
  {
    hide RoleAt;
    hide PipelineRead;
    hide EnvRead;
    hide ChdirRead;
    SegmentNext(tokens, n);
    hide SegmentStart;
    CdAlone(tokens, n);
  }

  lemma BeginName(tokens: seq<string>, n: nat, p: Parser)
    requires n < |tokens| && StateRead(tokens, n, p) && p.mode == Begin && RoleAt(tokens, n) == Name
    ensures PendingRead(tokens, n + 1,
      p.(mode := InCommand, current := Some(Cmd(Command([tokens[n]], None, OutDefault, ErrDefault, p.env))), env := []))
  {
    hide RoleAt;
    hide PipelineRead;
    hide EnvRead;
    hide CommandRead;
    SegmentNext(tokens, n);
    FreshCommand(tokens, n, p.env);
    hide SegmentStart;
    assert HasName(tokens, SegmentStart(tokens, n), n + 1);
  }

  lemma BeginStep(tokens: seq<string>, n: nat, p: Parser)
    requires n < |tokens| && StateRead(tokens, n, p) && p.mode == Begin
    ensures var q := FeedBegin(p, tokens[n]);
      && (q.failed <==> BadAt(tokens, n))
      && (!q.failed ==> StateRead(tokens, n + 1, q))
  {
    hide RoleAt;
    hide SegmentStart;
    hide EnvMatch;
    hide EnvRead;
    BadIff(tokens, n);
    RoleAtBegin(tokens, n);
    EnvEmptyIff(tokens, n, p.env);
    PipelineStays(tokens, n, p.pipeline);
    hide PipelineRead;
    hide BadAt;
    hide ChannelAt;
    hide CdBehindAssignment;
    if IsAssignment(tokens[n]) {
      BeginAssignment(tokens, n, p);
    } else if tokens[n] == "cd" {
      if p.env == [] {
        BeginCd(tokens, n, p);
      }
    } else {
      BeginName(tokens, n, p);
    }
    assert p.current.None?;
    hide PendingRead;
    hide Assign;
  }

  lemma NothingAssigned(tokens: seq<string>, n: nat)
    requires n <= |tokens|
    ensures EnvRead(tokens, n, n, [])
  {
  }

  /** A segment ends: its node and operator are appended, and nothing is pending. */
  lemma Committed(tokens: seq<string>, n: nat, p: Parser, node: Node, op: Node)
    requires n < |tokens| && !p.failed && p.env == [] && PipelineRead(tokens, n, p.pipeline)
    requires RoleAt(tokens, n) == Operator && NodeRead(tokens, n, node) && OperatorRead(tokens[n], op)
    ensures StateRead(tokens, n + 1, Commit(p, node, op))
  {
    hide RoleAt;
    hide NodeRead;
    hide OperatorRead;
    hide EnvRead;
    PipelineGrows(tokens, n, p.pipeline, node, op);
    hide PipelineRead;
    SegmentNext(tokens, n);
    hide SegmentStart;
    NothingAssigned(tokens, n + 1);
  }

  lemma ChdirRole(tokens: seq<string>, n: nat, dir: Option<string>)
    requires 0 < n < |tokens| && (RoleAt(tokens, n - 1) == Cd || RoleAt(tokens, n - 1) == Directory)
    requires ChdirRead(tokens, SegmentStart(tokens, n), n, dir)
    ensures RoleAt(tokens, n) == if tokens[n] == "&&" then Operator else Directory
    ensures BadAt(tokens, n) <==> tokens[n] != "&&" && dir.Some?
  {
    hide SegmentStart;
    BadIff(tokens, n);
    DirSetIff(tokens, SegmentStart(tokens, n), n, dir);
    RoleIs(tokens, n);
    ChannelIs(tokens, n);
    hide RoleAt;
    hide BadAt;
    hide ChannelAt;
    hide SetBefore;
    hide ChdirRead;
    hide FirstRole;
  }

  lemma DirectorySet(tokens: seq<string>, a: nat, n: nat)
    requires a <= n < |tokens| && ChdirRead(tokens, a, n, None) && RoleAt(tokens, n) == Directory
    ensures ChdirRead(tokens, a, n + 1, Some(tokens[n]))
  {
    hide RoleAt;
  }

  lemma DirRead(tokens: seq<string>, n: nat, p: Parser)
    requires n < |tokens| && StateRead(tokens, n, p) && p.mode == InChdir && p.current.value.dir.None?
    requires RoleAt(tokens, n) == Directory
    ensures StateRead(tokens, n + 1, p.(current := Some(Chdir(Some(tokens[n])))))
  {
    hide RoleAt;
    PipelineStays(tokens, n, p.pipeline);
    hide PipelineRead;
    SegmentNext(tokens, n);
    hide SegmentStart;
    hide ChdirRead;
    DirectorySet(tokens, SegmentStart(tokens, n), n);
  }

  lemma ChdirPending(tokens: seq<string>, n: nat, p: Parser)
    requires n <= |tokens| && StateRead(tokens, n, p) && p.mode == InChdir
    ensures 0 < n && (RoleAt(tokens, n - 1) == Cd || RoleAt(tokens, n - 1) == Directory)
    ensures !p.failed && p.env == [] && PipelineRead(tokens, n, p.pipeline)
    ensures p.current.Some? && p.current.value.Chdir? && ChdirRead(tokens, SegmentStart(tokens, n), n, p.current.value.dir)
  {
    hide RoleAt;
    hide SegmentStart;
    hide ChdirRead;
    hide PipelineRead;
  }

  lemma ChdirStep(tokens: seq<string>, n: nat, p: Parser)
    requires n < |tokens| && StateRead(tokens, n, p) && p.mode == InChdir
    ensures p.current.Some? && p.current.value.Chdir?
    ensures var q := FeedChdir(p, p.current.value.dir, tokens[n]);
      && (q.failed <==> BadAt(tokens, n))
      && (!q.failed ==> StateRead(tokens, n + 1, q))
  {
    ChdirPending(tokens, n, p);
    hide StateRead;
    hide RoleAt;
    hide SegmentStart;
    hide BadAt;
    hide ChdirRead;
    hide PipelineRead;
    var dir := p.current.value.dir;
    ChdirRole(tokens, n, dir);
    if tokens[n] == "&&" {
      Committed(tokens, n, p, Chdir(dir), And);
    } else if dir.None? {
      DirRead(tokens, n, p);
    }
  }

  // ----- a pending command -----

  lemma CommandPending(tokens: seq<string>, n: nat, p: Parser)
    requires n <= |tokens| && StateRead(tokens, n, p) && p.mode != Begin && p.mode != InChdir
    ensures !p.failed && p.env == [] && PipelineRead(tokens, n, p.pipeline)
    ensures SegmentStart(tokens, n) < n && ModeRead(p.mode, tokens[n - 1], RoleAt(tokens, n - 1))
    ensures HasName(tokens, SegmentStart(tokens, n), n)
    ensures p.current.Some? && p.current.value.Cmd?
    ensures CommandRead(tokens, SegmentStart(tokens, n), n, false, p.current.value.cmd)
  {
    hide RoleAt;
    hide SegmentStart;
    hide CommandRead;
    hide HasName;
    hide PipelineRead;
    hide ModeRead;
  }

  /** The state after a token that goes on with the command. */
  lemma StillPending(tokens: seq<string>, n: nat, p: Parser, mode: Mode, c: Command)
    requires n < |tokens| && !p.failed && p.env == [] && PipelineRead(tokens, n, p.pipeline)
    requires RoleAt(tokens, n) != Operator && mode != Begin && mode != InChdir
    requires ModeRead(mode, tokens[n], RoleAt(tokens, n)) && HasName(tokens, SegmentStart(tokens, n), n)
    requires CommandRead(tokens, SegmentStart(tokens, n), n + 1, false, c)
    ensures StateRead(tokens, n + 1, p.(mode := mode, current := Some(Cmd(c))))
  {
    hide RoleAt;
    PipelineStays(tokens, n, p.pipeline);
    hide PipelineRead;
    SegmentNext(tokens, n);
    hide SegmentStart;
    hide CommandRead;
    hide ModeRead;
  }

  /** The state after the operator that ends the command. */
  lemma CommandEnds(tokens: seq<string>, n: nat, p: Parser, c: Command)
    requires n < |tokens| && !p.failed && p.env == [] && PipelineRead(tokens, n, p.pipeline)
    requires RoleAt(tokens, n) == Operator && HasName(tokens, SegmentStart(tokens, n), n)
    requires CommandRead(tokens, SegmentStart(tokens, n), n, false, c)
    ensures tokens[n] == "&&" ==> StateRead(tokens, n + 1, Commit(p, Cmd(c), And))
    ensures tokens[n] == "||" ==> StateRead(tokens, n + 1, Commit(p, Cmd(c), Or))
    ensures tokens[n] == "|" && c.stdout == OutDefault ==>
      StateRead(tokens, n + 1, Commit(p, Cmd(c.(stdout := OutPipe)), Pipe))
  {
    hide RoleAt;
    hide SegmentStart;
    hide PipelineRead;
    hide StateRead;
    hide HasName;
    if tokens[n] == "|" {
      if c.stdout == OutDefault {
        PipedOutput(tokens, SegmentStart(tokens, n), n);
        hide WordsIn;
        hide EnvRead;
        hide StdinRead;
        hide StdoutRead;
        hide StderrRead;
        Committed(tokens, n, p, Cmd(c.(stdout := OutPipe)), Pipe);
      }
    } else if tokens[n] == "&&" {
      hide CommandRead;
      Committed(tokens, n, p, Cmd(c), And);
    } else if tokens[n] == "||" {
      hide CommandRead;
      Committed(tokens, n, p, Cmd(c), Or);
    }
  }

  lemma PipedOutput(tokens: seq<string>, a: nat, n: nat)
    requires a <= n <= |tokens| && StdoutRead(tokens, a, n, false, OutDefault)
    ensures StdoutRead(tokens, a, n, true, OutPipe)
  {
    hide FileOf;
  }

  lemma CommandRole(tokens: seq<string>, n: nat, c: Command)
    requires 0 < n < |tokens| && ModeRead(InCommand, tokens[n - 1], RoleAt(tokens, n - 1))
    requires CommandRead(tokens, SegmentStart(tokens, n), n, false, c)
    ensures RoleAt(tokens, n) == if IsRedirect(tokens[n]) then Redirect else if tokens[n] == "2>&1" then Merge
      else if IsOperator(tokens[n]) then Operator else Word
    ensures BadAt(tokens, n) <==>
      (tokens[n] == "2>&1" && c.stderr != ErrDefault) || (tokens[n] == "|" && c.stdout != OutDefault)
  {
    hide SegmentStart;
    BadIff(tokens, n);
    SetIff(tokens, SegmentStart(tokens, n), n, c);
    RoleIs(tokens, n);
    hide RoleAt;
    hide CommandRead;
    hide SetBefore;
    hide BadAt;
    hide FirstRole;
  }

  lemma CommandStep(tokens: seq<string>, n: nat, p: Parser)
    requires n < |tokens| && StateRead(tokens, n, p) && p.mode == InCommand
    ensures p.current.Some? && p.current.value.Cmd?
    ensures var q := FeedCommand(p, p.current.value.cmd, tokens[n]);
      && (q.failed <==> BadAt(tokens, n))
      && (!q.failed ==> StateRead(tokens, n + 1, q))
  {
    CommandPending(tokens, n, p);
    hide StateRead;
    hide RoleAt;
    hide SegmentStart;
    hide BadAt;
    hide PipelineRead;
    hide CommandRead;
    hide HasName;
    var a, c, t := SegmentStart(tokens, n), p.current.value.cmd, tokens[n];
    CommandRole(tokens, n, c);
    if IsRedirect(t) {
      NothingSet(tokens, a, n, c);
      StillPending(tokens, n, p, if t == ">" then WantStdout else if t == "2>" then WantStderr else WantStdin, c);
    } else if t == "2>&1" {
      if c.stderr == ErrDefault {
        MergeSet(tokens, a, n, c);
        StillPending(tokens, n, p, InCommand, c.(stderr := ErrMerged));
      }
    } else if IsOperator(t) {
      CommandEnds(tokens, n, p, c);
    } else {
      WordAdded(tokens, a, n, c);
      StillPending(tokens, n, p, InCommand, c.(argv := c.argv + [t]));
    }
  }

  lemma FileRole(tokens: seq<string>, n: nat, c: Command)
    requires 0 < n < |tokens| && RoleAt(tokens, n - 1) == Redirect
    requires CommandRead(tokens, SegmentStart(tokens, n), n, false, c)
    ensures RoleAt(tokens, n) == File
    ensures tokens[n - 1] == "<" ==> (BadAt(tokens, n) <==> c.stdin.Some?)
    ensures tokens[n - 1] == ">" ==> (BadAt(tokens, n) <==> c.stdout != OutDefault)
    ensures tokens[n - 1] == "2>" ==> (BadAt(tokens, n) <==> c.stderr != ErrDefault)
  {
    hide SegmentStart;
    BadIff(tokens, n);
    SetIff(tokens, SegmentStart(tokens, n), n, c);
    RoleIs(tokens, n);
    hide RoleAt;
    hide CommandRead;
    hide SetBefore;
    hide BadAt;
    hide FirstRole;
  }

  lemma FileStep(tokens: seq<string>, n: nat, p: Parser)
    requires n < |tokens| && StateRead(tokens, n, p)
    requires p.mode == WantStdin || p.mode == WantStdout || p.mode == WantStderr
    ensures p.current.Some? && p.current.value.Cmd?
    ensures var q := FeedFile(p, p.current.value.cmd, tokens[n]);
      && (q.failed <==> BadAt(tokens, n))
      && (!q.failed ==> StateRead(tokens, n + 1, q))
  {
    CommandPending(tokens, n, p);
    hide StateRead;
    hide RoleAt;
    hide SegmentStart;
    hide BadAt;
    hide PipelineRead;
    hide CommandRead;
    hide HasName;
    var a, c, t := SegmentStart(tokens, n), p.current.value.cmd, tokens[n];
    FileRole(tokens, n, c);
    FileSet(tokens, a, n, c);
    if p.mode == WantStdin && c.stdin.None? {
      StillPending(tokens, n, p, InCommand, c.(stdin := Some(t)));
    } else if p.mode == WantStdout && c.stdout == OutDefault {
      StillPending(tokens, n, p, InCommand, c.(stdout := OutFile(t)));
    } else if p.mode == WantStderr && c.stderr == ErrDefault {
      StillPending(tokens, n, p, InCommand, c.(stderr := ErrFile(t)));
    }
  }

  // ----- the whole list -----

  lemma FeedStep(tokens: seq<string>, n: nat, p: Parser)
    requires n < |tokens| && StateRead(tokens, n, p)
    ensures var q := Feed(p, tokens[n]);
      && (q.failed <==> BadAt(tokens, n))
      && (!q.failed ==> StateRead(tokens, n + 1, q))
  {
    assert !p.failed;
    if p.mode == Begin {
      BeginStep(tokens, n, p);
    } else if p.mode == InChdir {
      ChdirStep(tokens, n, p);
    } else if p.mode == InCommand {
      CommandStep(tokens, n, p);
    } else {
      FileStep(tokens, n, p);
    }
    hide StateRead;
    hide BadAt;
    hide FeedBegin;
    hide FeedChdir;
    hide FeedCommand;
    hide FeedFile;
  }

  lemma FeedSnoc(tokens: seq<string>, n: nat)
    requires n < |tokens|
    ensures FeedAll(START, tokens[..n + 1]) == Feed(FeedAll(START, tokens[..n]), tokens[n])
  {
    hide Feed;
    assert tokens[..n + 1] == tokens[..n] + [tokens[n]];
    FeedConcat(START, tokens[..n], [tokens[n]]);
    FeedTwo(FeedAll(START, tokens[..n]), tokens[n], "");
  }

  lemma BadNext(tokens: seq<string>, n: nat)
    requires n < |tokens|
    ensures Bad(tokens, n + 1) <==> Bad(tokens, n) || BadAt(tokens, n)
    ensures !Bad(tokens, 0)
  {
    hide BadAt;
  }

  /** After any number of tokens the machine has failed exactly when a token so far is bad, and
      otherwise holds what the roles say. */
  lemma {:induction false} ReadsUpTo(tokens: seq<string>, n: nat)
    requires n <= |tokens|
    ensures var p := FeedAll(START, tokens[..n]);
      && (p.failed <==> Bad(tokens, n))
      && (!p.failed ==> StateRead(tokens, n, p))
    decreases n
  {
    hide StateRead;
    hide BadAt;
    if n == 0 {
      assert FeedAll(START, tokens[..0]) == START;
      StartReads(tokens);
    } else {
      hide Bad;
      hide Feed;
      hide FeedAll;
      ReadsUpTo(tokens, n - 1);
      BadNext(tokens, n - 1);
      FeedSnoc(tokens, n - 1);
      var p := FeedAll(START, tokens[..n - 1]);
      if p.failed {
        FailedFeed(p, tokens[n - 1]);
      } else {
        FeedStep(tokens, n - 1, p);
      }
    }
  }

  lemma FailedFeed(p: Parser, token: string)
    requires p.failed
    ensures Feed(p, token) == p
  {
  }

  lemma StartReads(tokens: seq<string>)
    ensures StateRead(tokens, 0, START)
  {
    NothingAssigned(tokens, 0);
    hide EnvRead;
  }

  lemma PendingIff(tokens: seq<string>, p: Parser)
    requires StateRead(tokens, |tokens|, p)
    ensures p.current.None? <==> Unfinished(tokens)
    ensures p.current.Some? ==> NodeRead(tokens, |tokens|, p.current.value)
  {
    hide RoleAt;
    hide CommandRead;
    hide ChdirRead;
    hide EnvRead;
    hide PipelineRead;
    hide HasName;
    hide SegmentStart;
  }

  /** A token list is rejected if and only if its last segment has no command, a `cd` follows an
      assignment, or two tokens of one segment set the same redirect or directory. */
  lemma RejectedIff(tokens: seq<string>)
    ensures Parse(tokens).None? <==> Unfinished(tokens) || Bad(tokens, |tokens|)
  {
    ReadsUpTo(tokens, |tokens|);
    assert tokens[..|tokens|] == tokens;
    hide FeedAll;
    hide Bad;
    var p := FeedAll(START, tokens);
    if !p.failed {
      PendingIff(tokens, p);
    }
    hide StateRead;
    hide Unfinished;
  }

  lemma PipelineAt(tokens: seq<string>, n: nat, nodes: seq<Node>, i: nat)
    requires i < n <= |tokens| && PipelineRead(tokens, n, nodes) && RoleAt(tokens, i) == Operator
    ensures var k := 2 * OperatorsBefore(tokens, i);
      k + 1 < |nodes| && NodeRead(tokens, i, nodes[k]) && OperatorRead(tokens[i], nodes[k + 1])
  {
    hide RoleAt;
    hide NodeRead;
    hide OperatorRead;
    hide OperatorsBefore;
  }

  lemma PipelineLength(tokens: seq<string>, n: nat, nodes: seq<Node>)
    requires n <= |tokens| && PipelineRead(tokens, n, nodes)
    ensures |nodes| == 2 * OperatorsBefore(tokens, n)
  {
    hide RoleAt;
    hide NodeRead;
    hide OperatorRead;
    hide OperatorsBefore;
  }

  /** Every segment of an accepted token list, from its first token to the operator behind it or
      to the end, gives the node that its tokens say, and every operator its own node. */
  lemma SegmentsRead(tokens: seq<string>, b: nat)
    requires Parse(tokens).Some? && b <= |tokens| && (b < |tokens| ==> RoleAt(tokens, b) == Operator)
    ensures var nodes, k := Parse(tokens).value, 2 * OperatorsBefore(tokens, b);
      && |nodes| == 2 * OperatorsBefore(tokens, |tokens|) + 1
      && k < |nodes| && NodeRead(tokens, b, nodes[k])
      && (b < |tokens| ==> k + 1 < |nodes| && OperatorRead(tokens[b], nodes[k + 1]))
  {
    hide FeedAll;
    hide Bad;
    hide RoleAt;
    hide NodeRead;
    hide OperatorRead;
    hide OperatorsBefore;
    hide PendingRead;
    hide PipelineRead;
    hide Unfinished;
    ReadsUpTo(tokens, |tokens|);
    assert tokens[..|tokens|] == tokens;
    var p := FeedAll(START, tokens);
    PendingIff(tokens, p);
    PipelineLength(tokens, |tokens|, p.pipeline);
    var nodes := p.pipeline + [p.current.value];
    if b < |tokens| {
      PipelineAt(tokens, |tokens|, p.pipeline, b);
    }
    assert forall i :: 0 <= i < |p.pipeline| ==> nodes[i] == p.pipeline[i];
  }
}
