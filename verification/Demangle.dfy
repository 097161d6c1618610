/**
 * The two bracket scanners that PyBindGen's CastXML parser runs over demangled names.
 */
module Demangle {
  import opened Common

  // ----- splitting and joining -----

  /** `s.split(c)`. */
  function Split(s: string, c: char): (r: seq<string>)
    ensures r != []
  {
    if s == [] then [[]]
    else if s[0] == c then [[]] + Split(s[1..], c)
    else
      var rest := Split(s[1..], c);
      [[s[0]] + rest[0]] + rest[1..]
  }

  /** `c.join(parts)`. */
  function Join(parts: seq<string>, c: char): string {
    if parts == [] then []
    else if |parts| == 1 then parts[0]
    else parts[0] + [c] + Join(parts[1..], c)
  }

  lemma {:induction false} JoinSplit(s: string, c: char)
    ensures Join(Split(s, c), c) == s
  {
    if s != [] {
      JoinSplit(s[1..], c);
      var rest := Split(s[1..], c);
      if s[0] == c {
        assert ([[]] + rest)[1..] == rest;
        var none: string := [];
        assert Join([none] + rest, c) == none + [c] + Join(rest, c);
      } else {
        var r := [[s[0]] + rest[0]] + rest[1..];
        assert r[1..] == rest[1..];
        if |rest| == 1 {
          assert Join(r, c) == [s[0]] + rest[0];
        } else {
          assert Join(r, c) == [s[0]] + (rest[0] + [c] + Join(rest[1..], c));
        }
      }
    }
  }

  /** No piece holds the separator. */
  lemma {:induction false} SplitPieces(s: string, c: char, i: nat)
    requires i < |Split(s, c)|
    ensures c !in Split(s, c)[i]
  {
    if s != [] {
      var rest := Split(s[1..], c);
      if s[0] == c {
        if i > 0 {
          SplitPieces(s[1..], c, i - 1);
        }
      } else {
        SplitPieces(s[1..], c, i);
      }
    }
  }

  // ----- template arguments -----

  predicate OccursAt(s: string, sub: string, i: int) {
    0 <= i && i + |sub| <= |s| && s[i..i + |sub|] == sub
  }

  /** `s.find(sub)` from position `i` on: the first occurrence, or -1. */
  function FindFrom(s: string, sub: string, i: nat): (r: int)
    ensures r == -1 || (i <= r && OccursAt(s, sub, r))
    ensures forall j :: i <= j && (r == -1 || j < r) ==> !OccursAt(s, sub, j)
    decreases |s| + 1 - i
  {
    if i + |sub| > |s| then -1
    else if OccursAt(s, sub, i) then i
    else FindFrom(s, sub, i + 1)
  }

  /** Where both scanners start: behind the first occurrence of the function name.  When the
      name does not occur the `-1` of `find` enters the sum. */
  function StartIndex(demangled: string, name: string): (r: nat)
    ensures FindFrom(demangled, name, 0) >= 0 ==> r <= |demangled|
    ensures if r + 1 == |name| then forall j :: !OccursAt(demangled, name, j)
      else OccursAt(demangled, name, r - |name|) && forall j :: j < r - |name| ==> !OccursAt(demangled, name, j)
  {
    assert name == [] ==> OccursAt(demangled, name, 0);
    FindFrom(demangled, name, 0) + |name|
  }

  method CheckTemplate(demangled: string, name: string) returns (r: Option<bool>)
    ensures r == Some(true) <==> exists o :: OpensAt(demangled, StartIndex(demangled, name), o)
    ensures r.None? <==>
      forall i :: StartIndex(demangled, name) <= i < |demangled| ==> demangled[i] == ' '
  {
    var start := StartIndex(demangled, name);
    var i := start;
    while i < |demangled|
      invariant start <= i
      invariant forall j :: start <= j < i && j < |demangled| ==> demangled[j] == ' '
    {
      if demangled[i] == ' ' {
        i := i + 1;
      } else if demangled[i] == '<' {
        assert OpensAt(demangled, start, i);
        return Some(true);
      } else {
        return Some(false);
      }
    }
    r := None;
  }

  /** The first character from `start` on that is not a blank is the `<` at `o`. */
  predicate OpensAt(s: string, start: nat, o: nat) {
    start <= o < |s| && s[o] == '<' && forall j :: start <= j < o ==> s[j] == ' '
  }

  /** The loop of `get_template_arg`. */
  function ScanArg(s: string, i: nat, started: bool, depth: int, arg: string): Option<seq<string>>
    decreases |s| - i
  {
    if i >= |s| then None
    else if s[i] == ' ' && !started then ScanArg(s, i + 1, started, depth, arg)
    else if s[i] == '<' && depth == 0 then ScanArg(s, i + 1, true, 1, arg)
    else if s[i] == '<' then ScanArg(s, i + 1, started, depth + 1, arg + [s[i]])
    else if s[i] == '>' && depth != 1 then ScanArg(s, i + 1, started, depth - 1, arg + [s[i]])
    else if s[i] == '>' then Some(Split(arg, ','))
    else ScanArg(s, i + 1, started, depth, arg + [s[i]])
  }

  method GetTemplateArg(demangled: string, name: string) returns (r: Option<seq<string>>)
    ensures r == ScanArg(demangled, StartIndex(demangled, name), false, 0, "")
  {
    var i := StartIndex(demangled, name);
    var arg, started, depth := "", false, 0;
    while i < |demangled|
      invariant ScanArg(demangled, StartIndex(demangled, name), false, 0, "")
        == ScanArg(demangled, i, started, depth, arg)
    {
      if demangled[i] == ' ' && !started {
        i := i + 1;
        continue;
      } else if demangled[i] == '<' && depth == 0 {
        depth := depth + 1;
        started := true;
        i := i + 1;
        continue;
      } else if demangled[i] == '<' && !(depth == 0) {
        depth := depth + 1;
      } else if demangled[i] == '>' && !(depth == 1) {
        depth := depth - 1;
      } else if demangled[i] == '>' && depth == 1 {
        return Some(Split(arg, ','));
      }
      arg := arg + [demangled[i]];
      i := i + 1;
    }
    r := None;
  }

  /** Opening minus closing angle brackets. */
  function Balance(s: string): int {
    if s == [] then 0
    else
      var c := s[|s| - 1];
      Balance(s[..|s| - 1]) + (if c == '<' then 1 else if c == '>' then -1 else 0)
  }

  /** The bracket depth at `o` is closed at `c`, and not before. */
  predicate Closes(s: string, o: nat, c: nat) {
    && o < c < |s|
    && Balance(s[o..c + 1]) == 0
    && forall j :: o < j <= c ==> Balance(s[o..j]) > 0
  }

  lemma BalanceSnoc(s: string, o: nat, i: nat)
    requires o <= i < |s|
    ensures Balance(s[o..i + 1]) == Balance(s[o..i]) + (if s[i] == '<' then 1 else if s[i] == '>' then -1 else 0)
  {
    assert s[o..i + 1][..i - o] == s[o..i];
  }

  /** Inside the brackets the scan collects the text up to the closing bracket. */
  lemma {:induction false} ScanInside(s: string, o: nat, i: nat)
    requires o < i <= |s| && s[o] == '<'
    requires forall j :: o < j <= i ==> Balance(s[o..j]) > 0
    ensures var r := ScanArg(s, i, true, Balance(s[o..i]), s[o + 1..i]);
      && (r.None? <==> forall c: nat :: !Closes(s, o, c))
      && (r.Some? ==> exists c: nat :: Closes(s, o, c) && r.value == Split(s[o + 1..c], ','))
    decreases |s| - i
  {
    if i == |s| {
      forall c: nat ensures !Closes(s, o, c) {
        if o < c < |s| {
          assert Balance(s[o..c + 1]) > 0;
        }
      }
    } else {
      BalanceSnoc(s, o, i);
      assert s[o + 1..i + 1] == s[o + 1..i] + [s[i]];
      if s[i] == '>' && Balance(s[o..i]) == 1 {
        assert Closes(s, o, i);
      } else {
        ScanInside(s, o, i + 1);
      }
    }
  }

  lemma {:induction false} ScanBlanks(s: string, start: nat, o: nat)
    requires OpensAt(s, start, o)
    ensures ScanArg(s, start, false, 0, "") == ScanArg(s, o + 1, true, 1, "")
    decreases o - start
  {
    if start < o {
      ScanBlanks(s, start + 1, o);
    }
  }

  /** When a template bracket opens behind the name, the result is `None` exactly when it is
      never closed, and otherwise the pieces joined by commas are the text inside it. */
  lemma TemplateArgIsInside(s: string, start: nat, o: nat)
    requires OpensAt(s, start, o)
    ensures var r := ScanArg(s, start, false, 0, "");
      && (r.None? <==> forall c: nat :: !Closes(s, o, c))
      && (r.Some? ==> exists c: nat :: Closes(s, o, c) && Join(r.value, ',') == s[o + 1..c])
  {
    ScanBlanks(s, start, o);
    assert s[o..o + 1] == ['<'] && s[o..o + 1][..0] == [];
    assert Balance(['<']) == 1;
    assert s[o + 1..o + 1] == "";
    ScanInside(s, o, o + 1);
    var r := ScanArg(s, start, false, 0, "");
    if r.Some? {
      var c: nat :| Closes(s, o, c) && r.value == Split(s[o + 1..c], ',');
      JoinSplit(s[o + 1..c], ',');
    }
  }

  // ----- template arguments of any text -----

  /** A bracket opens where none is open. */
  predicate OpensFirst(s: string, start: nat, j: nat)
    requires start <= j < |s|
  {
    s[j] == '<' && Balance(s[start..j]) == 0
  }

  predicate Started(s: string, start: nat, i: nat)
    requires start <= i <= |s|
  {
    exists j :: start <= j < i && OpensFirst(s, start, j)
  }

  /** The characters that do not belong to the result: outermost opening brackets, and the
      blanks before the first of them. */
  predicate Skipped(s: string, start: nat, j: nat)
    requires start <= j < |s|
  {
    OpensFirst(s, start, j) || (s[j] == ' ' && !Started(s, start, j))
  }

  function Kept(s: string, start: nat, i: nat): string
    requires start <= i <= |s|
  {
    if i == start then []
    else Kept(s, start, i - 1) + if Skipped(s, start, i - 1) then [] else [s[i - 1]]
  }

  /** The bracket that ends the scan: it closes the only open one. */
  predicate EndsAt(s: string, start: nat, c: nat)
    requires start <= c < |s|
  {
    s[c] == '>' && Balance(s[start..c]) == 1
  }

  predicate FirstEnd(s: string, start: nat, c: nat)
    requires start <= c < |s|
  {
    EndsAt(s, start, c) && forall j :: start <= j < c ==> !EndsAt(s, start, j)
  }

  lemma ScanStep(s: string, start: nat, i: nat)
    requires start <= i < |s| && !EndsAt(s, start, i)
    ensures ScanArg(s, i, Started(s, start, i), Balance(s[start..i]), Kept(s, start, i))
      == ScanArg(s, i + 1, Started(s, start, i + 1), Balance(s[start..i + 1]), Kept(s, start, i + 1))
  {
    BalanceSnoc(s, start, i);
    hide Balance;
    assert Started(s, start, i + 1) <==> Started(s, start, i) || OpensFirst(s, start, i);
    assert Kept(s, start, i) + [] == Kept(s, start, i);
    hide Started;
    hide Kept;
    assert Kept(s, start, i + 1) == Kept(s, start, i) + if Skipped(s, start, i) then [] else [s[i]] by {
      KeptSnoc(s, start, i);
    }
  }

  lemma KeptSnoc(s: string, start: nat, i: nat)
    requires start <= i < |s|
    ensures Kept(s, start, i + 1) == Kept(s, start, i) + if Skipped(s, start, i) then [] else [s[i]]
  {
    hide Skipped;
  }

  /** The result of the scan: none without an ending bracket, and otherwise the pieces of what
      is kept before the first one. */
  predicate ArgIs(s: string, start: nat, r: Option<seq<string>>)
    requires start <= |s|
  {
    match r
    case None => forall c :: start <= c < |s| ==> !EndsAt(s, start, c)
    case Some(pieces) => exists c :: start <= c < |s| && FirstEnd(s, start, c) && pieces == Split(Kept(s, start, c), ',')
  }

  lemma ScanEnds(s: string, start: nat, i: nat)
    requires start <= i <= |s| && forall j :: start <= j < i ==> !EndsAt(s, start, j)
    requires i < |s| ==> EndsAt(s, start, i)
    ensures ArgIs(s, start, ScanArg(s, i, Started(s, start, i), Balance(s[start..i]), Kept(s, start, i)))
  {
    if i < |s| {
      assert FirstEnd(s, start, i);
    }
    hide Kept;
    hide Started;
  }

  lemma {:induction false} ScanFrom(s: string, start: nat, i: nat)
    requires start <= i <= |s| && forall j :: start <= j < i ==> !EndsAt(s, start, j)
    ensures ArgIs(s, start, ScanArg(s, i, Started(s, start, i), Balance(s[start..i]), Kept(s, start, i)))
    decreases |s| - i
  {
    hide ArgIs;
    hide Kept;
    hide Started;
    hide Balance;
    hide ScanArg;
    if i == |s| || EndsAt(s, start, i) {
      ScanEnds(s, start, i);
    } else {
      ScanStep(s, start, i);
      hide EndsAt;
      ScanFrom(s, start, i + 1);
    }
  }

  /** On any text the scan ends at the first bracket that closes the only open one, and fails
      when there is none; the pieces hold no comma, and joined by commas they are the characters
      before that bracket without the outermost opening brackets and the leading blanks. */
  lemma TemplateArgByPosition(s: string, start: nat)
    requires start <= |s|
    ensures var r := ScanArg(s, start, false, 0, "");
      && (r.None? <==> forall c :: start <= c < |s| ==> !EndsAt(s, start, c))
      && (r.Some? ==>
            && (exists c :: start <= c < |s| && FirstEnd(s, start, c) && Join(r.value, ',') == Kept(s, start, c))
            && forall i :: 0 <= i < |r.value| ==> ',' !in r.value[i])
  {
    assert s[start..start] == [] && Balance([]) == 0;
    assert !Started(s, start, start) && Kept(s, start, start) == "";
    ScanFrom(s, start, start);
    hide ScanArg;
    hide Balance;
    hide Kept;
    hide EndsAt;
    var r := ScanArg(s, start, false, 0, "");
    if r.Some? {
      var c :| start <= c < |s| && FirstEnd(s, start, c) && r.value == Split(Kept(s, start, c), ',');
      JoinSplit(Kept(s, start, c), ',');
      forall i | 0 <= i < |r.value| ensures ',' !in r.value[i] {
        SplitPieces(Kept(s, start, c), ',', i);
      }
    }
  }

  // ----- argument lists -----

  function StripLeft(s: string): string {
    if s != [] && IsSpace(s[0]) then StripLeft(s[1..]) else s
  }

  function StripRight(s: string): string {
    if s != [] && IsSpace(s[|s| - 1]) then StripRight(s[..|s| - 1]) else s
  }

  function Strip(s: string): string {
    StripRight(StripLeft(s))
  }

  lemma SpaceCharacters(c: char)
    ensures IsSpace(c) <==> c in [' ', '\t', '\n', '\U{b}', '\U{c}', '\r', '\U{1c}', '\U{1d}', '\U{1e}', '\U{1f}']
  {
  }

  predicate AllSpace(s: string) {
    forall i :: 0 <= i < |s| ==> IsSpace(s[i])
  }

  lemma {:induction false} StripLeftIs(s: string) returns (i: nat)
    ensures i <= |s| && StripLeft(s) == s[i..] && AllSpace(s[..i]) && (i < |s| ==> !IsSpace(s[i]))
  {
    hide IsSpace;
    if s != [] && IsSpace(s[0]) {
      var k := StripLeftIs(s[1..]);
      i := k + 1;
      assert s[1..][k..] == s[i..];
      assert s[..i] == [s[0]] + s[1..][..k];
    } else {
      i := 0;
    }
  }

  lemma {:induction false} StripRightIs(s: string) returns (j: nat)
    ensures j <= |s| && StripRight(s) == s[..j] && AllSpace(s[j..]) && (j > 0 ==> !IsSpace(s[j - 1]))
  {
    hide IsSpace;
    if s != [] && IsSpace(s[|s| - 1]) {
      var front := s[..|s| - 1];
      j := StripRightIs(front);
      assert front[..j] == s[..j];
      assert s[j..] == front[j..] + [s[|s| - 1]];
    } else {
      j := |s|;
      assert s[..j] == s && s[j..] == [];
    }
  }

  /** Trimming takes white space from both ends and nothing else, and leaves none there. */
  lemma StripIs(s: string) returns (i: nat, j: nat)
    ensures i <= j <= |s| && Strip(s) == s[i..j] && AllSpace(s[..i]) && AllSpace(s[j..])
    ensures i < j ==> !IsSpace(s[i]) && !IsSpace(s[j - 1])
  {
    hide IsSpace;
    i := StripLeftIs(s);
    var k := StripRightIs(s[i..]);
    j := i + k;
    assert s[i..][..k] == s[i..j] && s[i..][k..] == s[j..];
    assert k > 0 ==> s[i..][k - 1] == s[j - 1];
  }

  predicate IsOpening(c: char) {
    c == '<' || c == '(' || c == '[' || c == '{'
  }

  predicate IsClosing(c: char) {
    c == '>' || c == ')' || c == ']' || c == '}'
  }

  function Weight(c: char): (w: int)
    ensures w == 1 <==> c == '>' || c == ')' || c == ']' || c == '}'
    ensures w == -1 <==> c == '<' || c == '(' || c == '[' || c == '{'
    ensures -1 <= w <= 1
  {
    if IsClosing(c) then 1 else if IsOpening(c) then -1 else 0
  }

  /** `s.rfind(')')`. */
  function LastParen(s: string): (r: int)
    ensures -1 <= r < |s|
    ensures r >= 0 ==> s[r] == ')'
    ensures forall i :: r < i < |s| ==> s[i] != ')'
  {
    if s == [] then -1
    else if s[|s| - 1] == ')' then |s| - 1
    else LastParen(s[..|s| - 1])
  }

  /** The backward loop.  Negative indices count from the end, as in Python; `None` stands for
      the IndexError below `-|s|`. */
  function ScanBack(s: string, index: int, level: int, arg: string, list: seq<string>): Option<seq<string>>
    requires index < |s|
    decreases index + |s| + 1
  {
    if index < -|s| then None
    else
      var c := if index >= 0 then s[index] else s[index + |s|];
      if level == 0 && c == '(' then Some([Strip(arg)] + list)
      else if level == 0 && c == ',' then ScanBack(s, index - 1, level, "", [Strip(arg)] + list)
      else ScanBack(s, index - 1, level + Weight(c), [c] + arg, list)
  }

  method GetDemangledArgType(s: string) returns (r: Option<seq<string>>)
    ensures r == ScanBack(s, LastParen(s) - 1, 0, "", [])
  {
    var list: seq<string> := [];
    var arg, index, level := "", LastParen(s) - 1, 0;
    while index >= -|s|
      invariant index < |s|
      invariant ScanBack(s, LastParen(s) - 1, 0, "", []) == ScanBack(s, index, level, arg, list)
      decreases index + |s| + 1
    {
      var c := if index >= 0 then s[index] else s[index + |s|];
      if level == 0 && c == '(' {
        list := [Strip(arg)] + list;
        return Some(list);
      } else if level == 0 && c == ',' {
        list := [Strip(arg)] + list;
        arg := "";
        index := index - 1;
        continue;
      }
      if IsClosing(c) {
        level := level + 1;
      }
      if IsOpening(c) {
        level := level - 1;
      }
      arg := [c] + arg;
      index := index - 1;
    }
    r := None;
  }

  /** Closing minus opening brackets. */
  function Level(t: string): int {
    if t == [] then 0 else Weight(t[0]) + Level(t[1..])
  }

  /** Read from the right, the argument never has more opening than closing brackets, ends
      balanced, and has its commas inside brackets. */
  predicate IsArgument(t: string) {
    && (forall k :: 0 <= k <= |t| ==> Level(t[k..]) >= 0)
    && Level(t) == 0
    && (forall k :: 0 <= k < |t| && t[k] == ',' ==> Level(t[k + 1..]) > 0)
  }

  predicate HoldsAt(s: string, p: nat, t: string) {
    p + |t| <= |s| && s[p..p + |t|] == t
  }

  /** What the scan does with a character of an argument. */
  lemma ScanOne(s: string, index: nat, level: int, arg: string, list: seq<string>)
    requires index < |s| && !(level == 0 && (s[index] == '(' || s[index] == ','))
    ensures ScanBack(s, index, level, arg, list)
      == ScanBack(s, index - 1, level + Weight(s[index]), [s[index]] + arg, list)
  {
    hide Strip;
    hide Weight;
  }

  lemma ScanSeparator(s: string, index: nat, arg: string, list: seq<string>)
    requires index < |s|
    ensures s[index] == '(' ==> ScanBack(s, index, 0, arg, list) == Some([Strip(arg)] + list)
    ensures s[index] == ',' ==> ScanBack(s, index, 0, arg, list) == ScanBack(s, index - 1, 0, "", [Strip(arg)] + list)
  {
    hide Strip;
  }

  lemma ArgumentChar(t: string, k: nat)
    requires 0 < k <= |t| && IsArgument(t)
    ensures t[k - 1..] == [t[k - 1]] + t[k..]
    ensures Level(t[k - 1..]) == Weight(t[k - 1]) + Level(t[k..])
    ensures Level(t[k..]) == 0 ==> t[k - 1] != '(' && t[k - 1] != ','
  {
    var tail := t[k - 1..];
    assert tail[1..] == t[k..];
    assert Level(tail) >= 0;
  }

  /** One argument is collected as a whole. */
  lemma {:induction false} ScanArgument(s: string, b: nat, t: string, k: nat, list: seq<string>)
    requires k <= |t| && 0 < b && HoldsAt(s, b, t) && b + |t| < |s| && IsArgument(t)
    ensures ScanBack(s, b + k - 1, Level(t[k..]), t[k..], list) == ScanBack(s, b - 1, 0, t, list)
    decreases k
  {
    hide ScanBack;
    hide IsArgument;
    hide Weight;
    if k > 0 {
      assert t[k - 1] == s[b..b + |t|][k - 1] == s[b + k - 1];
      ArgumentChar(t, k);
      hide Level;
      ScanOne(s, b + k - 1, Level(t[k..]), t[k..], list);
      ScanArgument(s, b, t, k - 1, list);
    } else {
      assert t[0..] == t;
      ArgumentLevel(t);
    }
  }

  lemma ArgumentLevel(t: string)
    requires IsArgument(t)
    ensures Level(t) == 0
  {
  }

  function Stripped(args: seq<string>): seq<string> {
    if args == [] then [] else Stripped(args[..|args| - 1]) + [Strip(args[|args| - 1])]
  }

  /** The arguments separated by commas. */
  function Listed(args: seq<string>): string
    requires args != []
  {
    if |args| == 1 then args[0] else Listed(args[..|args| - 1]) + [','] + args[|args| - 1]
  }

  lemma Parts(s: string, p: nat, front: string, t: string)
    requires HoldsAt(s, p, front + [','] + t)
    ensures HoldsAt(s, p, front) && s[p + |front|] == ',' && HoldsAt(s, p + |front| + 1, t)
  {
    var all := front + [','] + t;
    assert s[p..p + |all|][|front|] == ',';
    assert s[p..p + |front|] == all[..|front|];
    assert s[p + |front| + 1..p + |all|] == all[|front| + 1..];
  }

  lemma {:induction false} StrippedSnoc(args: seq<string>, list: seq<string>)
    requires args != []
    ensures var n := |args| - 1; Stripped(args[..n]) + ([Strip(args[n])] + list) == Stripped(args) + list
  {
    hide Strip;
    var front, last := Stripped(args[..|args| - 1]), Strip(args[|args| - 1]);
    assert Stripped(args) == front + [last];
    hide Stripped;
    assert front + [last] + list == front + ([last] + list);
  }

  /** The last argument, back to the separator before it. */
  lemma ScanLast(s: string, b: nat, t: string, list: seq<string>)
    requires 0 < b && HoldsAt(s, b, t) && b + |t| < |s| && IsArgument(t)
    ensures ScanBack(s, b + |t| - 1, 0, "", list) == ScanBack(s, b - 1, 0, t, list)
  {
    assert t[|t|..] == [] && Level([]) == 0;
    hide ScanBack;
    hide IsArgument;
    hide HoldsAt;
    hide Level;
    ScanArgument(s, b, t, |t|, list);
  }

  /** The list behind the parenthesis at `p` is scanned back argument by argument. */
  lemma {:induction false} ScanArguments(s: string, p: nat, args: seq<string>, list: seq<string>)
    requires args != [] && forall i :: 0 <= i < |args| ==> IsArgument(args[i])
    requires p < |s| && s[p] == '(' && HoldsAt(s, p + 1, Listed(args)) && p + 1 + |Listed(args)| < |s|
    ensures ScanBack(s, p + |Listed(args)|, 0, "", list) == Some(Stripped(args) + list)
    decreases |args|
  {
    hide IsArgument;
    hide ScanBack;
    hide Strip;
    var n := |args| - 1;
    var t, front := args[n], args[..n];
    StrippedSnoc(args, list);
    if n == 0 {
      assert Stripped(front) + ([Strip(t)] + list) == [Strip(t)] + list;
      ScanLast(s, p + 1, t, list);
      ScanSeparator(s, p, t, list);
    } else {
      var f := Listed(front);
      assert Listed(args) == f + [','] + t;
      Parts(s, p + 1, f, t);
      hide HoldsAt;
      ScanLast(s, p + 2 + |f|, t, list);
      ScanSeparator(s, p + 1 + |f|, t, list);
      ScanArguments(s, p, front, [Strip(t)] + list);
    }
  }

  lemma LastParenIs(s: string, p: nat)
    requires p < |s| && s[p] == ')' && forall i :: p < i < |s| ==> s[i] != ')'
    ensures LastParen(s) == p
  {
  }

  lemma ArgumentPlace(s: string, prefix: string, text: string, suffix: string)
    requires s == prefix + ['('] + text + [')'] + suffix && ')' !in suffix
    ensures var p, q := |prefix|, |prefix| + 1 + |text|;
      && p < q < |s| && s[p] == '(' && s[q] == ')' && s[p + 1..q] == text
      && forall i :: q < i < |s| ==> s[i] != ')'
  {
    var q := |prefix| + 1 + |text|;
    forall i | q < i < |s| ensures s[i] != ')' {
      assert s[i] == suffix[i - q - 1];
    }
  }

  lemma RecoversBetween(s: string, p: nat, args: seq<string>)
    requires args != [] && forall i :: 0 <= i < |args| ==> IsArgument(args[i])
    requires var q := p + 1 + |Listed(args)|;
      && p < q < |s| && s[p] == '(' && s[q] == ')' && s[p + 1..q] == Listed(args)
      && forall i :: q < i < |s| ==> s[i] != ')'
    ensures ScanBack(s, LastParen(s) - 1, 0, "", []) == Some(Stripped(args))
  {
    hide IsArgument;
    hide ScanBack;
    hide LastParen;
    hide Listed;
    hide Stripped;
    LastParenIs(s, p + 1 + |Listed(args)|);
    ScanArguments(s, p, args, []);
    assert Stripped(args) + [] == Stripped(args);
  }

  /** From `prefix(a, b, ...)suffix`, where the suffix has no closing parenthesis, the argument
      list is recovered, each argument trimmed. */
  lemma RecoversArguments(s: string, prefix: string, args: seq<string>, suffix: string)
    requires args != [] && forall i :: 0 <= i < |args| ==> IsArgument(args[i])
    requires s == prefix + ['('] + Listed(args) + [')'] + suffix && ')' !in suffix
    ensures ScanBack(s, LastParen(s) - 1, 0, "", []) == Some(Stripped(args))
  {
    hide IsArgument;
    hide ScanBack;
    hide LastParen;
    hide Listed;
    hide Stripped;
    ArgumentPlace(s, prefix, Listed(args), suffix);
    RecoversBetween(s, |prefix|, args);
  }

  // ----- argument lists of any text -----

  /** The backward loop over a text, from position `n` down. */
  function ScanText(t: string, n: nat, level: int, arg: string, list: seq<string>): Option<seq<string>>
    requires n <= |t|
  {
    if n == 0 then None
    else
      var c := t[n - 1];
      if level == 0 && c == '(' then Some([Strip(arg)] + list)
      else if level == 0 && c == ',' then ScanText(t, n - 1, level, "", [Strip(arg)] + list)
      else ScanText(t, n - 1, level + Weight(c), [c] + arg, list)
  }

  /** Negative indices read the text once more: the loop reads the text written twice. */
  lemma {:induction false} ScanBackIsText(s: string, index: int, level: int, arg: string, list: seq<string>)
    requires -|s| - 1 <= index < |s|
    ensures ScanBack(s, index, level, arg, list) == ScanText(s + s, index + |s| + 1, level, arg, list)
    decreases index + |s| + 1
  {
    hide Strip;
    hide Weight;
    if index >= -|s| {
      var t, c := s + s, if index >= 0 then s[index] else s[index + |s|];
      assert t[index + |s|] == c;
      if level == 0 && c == ',' {
        ScanBackIsText(s, index - 1, level, "", [Strip(arg)] + list);
      } else {
        ScanBackIsText(s, index - 1, level + Weight(c), [c] + arg, list);
      }
    }
  }

  /** Between position `p` and the end `e` as many brackets open as close. */
  predicate TopLevel(t: string, e: nat, p: nat)
    requires p < e <= |t|
  {
    Level(t[p + 1..e]) == 0
  }

  /** The parenthesis where the list starts. */
  predicate StopsAt(t: string, e: nat, p: nat)
    requires p < e <= |t|
  {
    t[p] == '(' && TopLevel(t, e, p)
  }

  predicate CutsAt(t: string, e: nat, p: nat)
    requires p < e <= |t|
  {
    t[p] == ',' && TopLevel(t, e, p)
  }

  /** The text from `n` to the end, split at the top-level commas. */
  function TopPieces(t: string, e: nat, n: nat): (r: seq<string>)
    requires n <= e <= |t|
    ensures r != []
    decreases e - n
  {
    if n == e then [[]]
    else
      var rest := TopPieces(t, e, n + 1);
      if CutsAt(t, e, n) then [[]] + rest else [[t[n]] + rest[0]] + rest[1..]
  }

  lemma JoinCons(c: char, parts: seq<string>, separator: char)
    requires parts != []
    ensures Join([[c] + parts[0]] + parts[1..], separator) == [c] + Join(parts, separator)
  {
    var r := [[c] + parts[0]] + parts[1..];
    assert r[1..] == parts[1..];
    if |parts| > 1 {
      assert Join(r, separator) == [c] + (parts[0] + [separator] + Join(parts[1..], separator));
    }
  }

  /** Joined by commas the pieces are the text again. */
  lemma {:induction false} JoinTopPieces(t: string, e: nat, n: nat)
    requires n <= e <= |t|
    ensures Join(TopPieces(t, e, n), ',') == t[n..e]
    decreases e - n
  {
    if n < e {
      var rest := TopPieces(t, e, n + 1);
      JoinTopPieces(t, e, n + 1);
      assert t[n..e] == [t[n]] + t[n + 1..e];
      if CutsAt(t, e, n) {
        var none: string := [];
        assert ([none] + rest)[1..] == rest;
        assert Join([none] + rest, ',') == none + [','] + Join(rest, ',');
      } else {
        JoinCons(t[n], rest, ',');
      }
    }
  }

  function Trimmed(parts: seq<string>): (r: seq<string>)
    ensures |r| == |parts| && forall i :: 0 <= i < |parts| ==> r[i] == Strip(parts[i])
  {
    if parts == [] then [] else [Strip(parts[0])] + Trimmed(parts[1..])
  }

  lemma LevelCons(t: string, e: nat, n: nat)
    requires 0 < n <= e <= |t|
    ensures Level(t[n - 1..e]) == Weight(t[n - 1]) + Level(t[n..e])
  {
    hide Weight;
    assert t[n - 1..e][1..] == t[n..e];
  }

  /** The result of the backward scan. */
  ghost predicate ListIs(t: string, e: nat, r: Option<seq<string>>)
    requires e <= |t|
  {
    match r
    case None => forall q :: 0 <= q < e ==> !StopsAt(t, e, q)
    case Some(list) =>
      exists p :: 0 <= p < e && StopsAt(t, e, p) && (forall q :: p < q < e ==> !StopsAt(t, e, q))
        && list == Trimmed(TopPieces(t, e, p + 1))
  }

  /** What the scan has collected when it stands at `n`. */
  function ScanAt(t: string, e: nat, n: nat): Option<seq<string>>
    requires n <= e <= |t|
  {
    var pieces := TopPieces(t, e, n);
    ScanText(t, n, Level(t[n..e]), pieces[0], Trimmed(pieces[1..]))
  }

  lemma ScanStops(t: string, e: nat, n: nat)
    requires 0 < n <= e <= |t| && StopsAt(t, e, n - 1) && NoStops(t, e, n)
    ensures ListIs(t, e, ScanAt(t, e, n))
  {
    hide Strip;
    hide TopPieces;
    var pieces := TopPieces(t, e, n);
    assert Level(t[n..e]) == 0 && t[n - 1] == '(';
    assert ScanAt(t, e, n) == Some([Strip(pieces[0])] + Trimmed(pieces[1..]));
    assert Trimmed(pieces) == [Strip(pieces[0])] + Trimmed(pieces[1..]);
    hide StopsAt;
    hide ScanAt;
  }

  lemma ScanCuts(t: string, e: nat, n: nat)
    requires 0 < n <= e <= |t| && CutsAt(t, e, n - 1)
    ensures ScanAt(t, e, n) == ScanAt(t, e, n - 1)
  {
    LevelCons(t, e, n);
    var pieces, more := TopPieces(t, e, n), TopPieces(t, e, n - 1);
    assert more[0] == "" && more[1..] == pieces;
    assert Trimmed(pieces) == [Strip(pieces[0])] + Trimmed(pieces[1..]);
    assert Level(t[n..e]) == 0 && Level(t[n - 1..e]) == 0;
    hide Strip;
    hide Level;
    hide TopPieces;
    hide Trimmed;
  }

  lemma ScanPasses(t: string, e: nat, n: nat)
    requires 0 < n <= e <= |t| && !CutsAt(t, e, n - 1) && !StopsAt(t, e, n - 1)
    ensures ScanAt(t, e, n) == ScanAt(t, e, n - 1)
  {
    LevelCons(t, e, n);
    var pieces, more := TopPieces(t, e, n), TopPieces(t, e, n - 1);
    assert more[0] == [t[n - 1]] + pieces[0] && more[1..] == pieces[1..];
    hide Strip;
    hide Level;
    hide Weight;
    hide TopPieces;
    hide Trimmed;
  }

  predicate NoStops(t: string, e: nat, n: nat)
    requires n <= e <= |t|
  {
    forall q :: n <= q < e ==> !StopsAt(t, e, q)
  }

  lemma NoStopsBefore(t: string, e: nat, n: nat)
    requires 0 < n <= e <= |t| && NoStops(t, e, n) && !StopsAt(t, e, n - 1)
    ensures NoStops(t, e, n - 1)
  {
    hide StopsAt;
  }

  lemma ScanFails(t: string, e: nat)
    requires e <= |t| && NoStops(t, e, 0)
    ensures ListIs(t, e, ScanAt(t, e, 0))
  {
    hide StopsAt;
    hide Level;
    hide TopPieces;
    hide Trimmed;
    assert ScanAt(t, e, 0) == None;
  }

  lemma {:induction false} ScanTextFrom(t: string, e: nat, n: nat)
    requires n <= e <= |t| && NoStops(t, e, n)
    ensures ListIs(t, e, ScanAt(t, e, n))
    decreases n
  {
    hide StopsAt;
    hide CutsAt;
    hide NoStops;
    hide ListIs;
    hide ScanAt;
    if n == 0 {
      ScanFails(t, e);
    } else if StopsAt(t, e, n - 1) {
      ScanStops(t, e, n);
    } else {
      if CutsAt(t, e, n - 1) {
        ScanCuts(t, e, n);
      } else {
        ScanPasses(t, e, n);
      }
      NoStopsBefore(t, e, n);
      ScanTextFrom(t, e, n - 1);
    }
  }

  /** On any text: read backwards from the last `)`, and once more from the end when the start is
      reached, the scan stops at the first `(` behind which all brackets are balanced, and fails
      when there is none; the result is what stands between the top-level commas, trimmed. */
  lemma DemangledByPosition(s: string)
    requires s != []
    ensures ListIs(s + s, LastParen(s) + |s|, ScanBack(s, LastParen(s) - 1, 0, "", []))
  {
    hide LastParen;
    hide ScanBack;
    hide ScanText;
    hide ListIs;
    hide ScanAt;
    var t, e := s + s, LastParen(s) + |s|;
    ScanBackIsText(s, LastParen(s) - 1, 0, "", []);
    ScanAtEnd(t, e);
    ScanTextFrom(t, e, e);
  }

  lemma ScanAtEnd(t: string, e: nat)
    requires e <= |t|
    ensures ScanAt(t, e, e) == ScanText(t, e, 0, "", [])
  {
    assert t[e..e] == [] && Level([]) == 0;
    hide ScanText;
  }
}
