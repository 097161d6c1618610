/**
 * The template substitution of waf-tools/misc.py: per cent signs are doubled, `@name@` becomes
 * `%(name)s`, and the `%` operator fills in the values.
 *
 * `word` tells the characters of `\w`; all that is needed of it is that the characters with a
 * meaning in templates and formats are not among them.
 */
module Template {
  import opened Common

  datatype Error = KeyError(name: string) | BadFormat

  datatype Result = Success(text: string) | Failure(error: Error)

  predicate WordsArePlain(word: char -> bool) {
    !word('@') && !word('%') && !word('(') && !word(')')
  }

  function Prepend(head: string, r: Result): Result {
    if r.Success? then Success(head + r.text) else r
  }

  // ----- names in a text -----

  function WordRun(word: char -> bool, s: string): (k: nat)
    ensures k <= |s|
    ensures forall i :: 0 <= i < k ==> word(s[i])
    ensures k < |s| ==> !word(s[k])
  {
    if s == [] || !word(s[0]) then 0 else 1 + WordRun(word, s[1..])
  }

  /** The length of the name when `s` starts with a match of `@(\w+)@`. */
  function NameAt(word: char -> bool, s: string): (k: nat)
    ensures k > 0 ==> k + 2 <= |s| && s[0] == '@' && s[k + 1] == '@'
    ensures k > 0 ==> forall i :: 1 <= i < k + 1 ==> word(s[i])
  {
    if s == [] || s[0] != '@' then 0
    else
      var k := WordRun(word, s[1..]);
      if k + 1 < |s| && s[k + 1] == '@' then
        assert forall i :: 1 <= i < k + 1 ==> s[i] == s[1..][i - 1];
        k
      else 0
  }

  /** `k` is the length of a name between two `@`s at the start of `s`. */
  lemma NameAtIff(word: char -> bool, s: string, k: nat)
    requires !word('@') && k > 0
    ensures NameAt(word, s) == k <==>
      k + 2 <= |s| && s[0] == '@' && s[k + 1] == '@' && forall i :: 1 <= i <= k ==> word(s[i])
  {
    if k + 2 <= |s| && s[0] == '@' && s[k + 1] == '@' && forall i :: 1 <= i <= k ==> word(s[i]) {
      assert forall i :: 0 <= i < k ==> s[1..][i] == s[i + 1];
      assert s[1..][k] == '@';
      WordRunIs(word, s[1..], k);
    }
  }

  function Escape(s: string): string {
    if s == [] then [] else (if s[0] == '%' then "%%" else [s[0]]) + Escape(s[1..])
  }

  /** `m4_re.sub(r'%(\1)s', s)`: leftmost, non-overlapping. */
  function Rewrite(word: char -> bool, s: string): string
    decreases |s|
  {
    if s == [] then []
    else
      var k := NameAt(word, s);
      if k > 0 then "%(" + s[1..k + 1] + ")s" + Rewrite(word, s[k + 2..])
      else [s[0]] + Rewrite(word, s[1..])
  }

  /** `m4_re.findall(s)`. */
  function Names(word: char -> bool, s: string): seq<string>
    decreases |s|
  {
    if s == [] then []
    else
      var k := NameAt(word, s);
      if k > 0 then [s[1..k + 1]] + Names(word, s[k + 2..]) else Names(word, s[1..])
  }

  // ----- the format operator -----

  /** The length of a parenthesised key: up to the matching parenthesis. */
  function KeyLength(s: string, depth: nat): Option<nat>
    requires depth > 0
    decreases |s|
  {
    if s == [] then None
    else if s[0] == ')' && depth == 1 then Some(0)
    else
      var k :- KeyLength(s[1..], if s[0] == ')' then depth - 1 else if s[0] == '(' then depth + 1 else depth);
      Some(k + 1)
  }

  lemma {:induction false} KeyLengthInside(s: string, depth: nat)
    requires depth > 0 && KeyLength(s, depth).Some?
    ensures KeyLength(s, depth).value < |s|
    decreases |s|
  {
    if !(s[0] == ')' && depth == 1) {
      KeyLengthInside(s[1..], if s[0] == ')' then depth - 1 else if s[0] == '(' then depth + 1 else depth);
    }
  }

  /** `fmt % di`, for the conversions `%%` and `%(key)s`; any other is reported as bad. */
  function Format(fmt: string, di: map<string, string>): Result
    decreases |fmt|
  {
    if fmt == [] then Success([])
    else if fmt[0] != '%' then Prepend([fmt[0]], Format(fmt[1..], di))
    else if |fmt| == 1 then Failure(BadFormat)
    else if fmt[1] == '%' then Prepend("%", Format(fmt[2..], di))
    else if fmt[1] != '(' then Failure(BadFormat)
    else match KeyLength(fmt[2..], 1)
    case None => Failure(BadFormat)
    case Some(k) =>
      KeyLengthInside(fmt[2..], 1);
      var key, rest := fmt[2..][..k], fmt[2..][k + 1..];
      if key !in di then Failure(KeyError(key))
      else if rest == [] || rest[0] != 's' then Failure(BadFormat)
      else Prepend(di[key], Format(rest[1..], di))
  }

  // ----- the reference: direct replacement -----

  /** Each leftmost, non-overlapping `@name@` replaced by its value; the first name without a
      value is an error. */
  function Direct(word: char -> bool, s: string, di: map<string, string>): Result
    decreases |s|
  {
    if s == [] then Success([])
    else
      var k := NameAt(word, s);
      if k == 0 then Prepend([s[0]], Direct(word, s[1..], di))
      else if s[1..k + 1] !in di then Failure(KeyError(s[1..k + 1]))
      else Prepend(di[s[1..k + 1]], Direct(word, s[k + 2..], di))
  }

  // ----- escaping does not disturb the names -----

  lemma EscapeCons(s: string)
    requires s != []
    ensures Escape(s) == (if s[0] == '%' then "%%" else [s[0]]) + Escape(s[1..])
    ensures Escape(s)[0] == s[0]
  {
  }

  /** A run of ordinary characters is copied. */
  lemma {:induction false} EscapeRun(s: string, k: nat)
    requires k <= |s| && '%' !in s[..k]
    ensures Escape(s) == s[..k] + Escape(s[k..])
    decreases k
  {
    if k > 0 {
      assert s[0] == s[..k][0];
      assert s[1..][..k - 1] == s[..k][1..];
      EscapeRun(s[1..], k - 1);
      assert s[1..][k - 1..] == s[k..];
      assert s[..k] == [s[0]] + s[1..][..k - 1];
    } else {
      assert s[k..] == s;
    }
  }

  lemma {:induction false} WordRunIs(word: char -> bool, s: string, k: nat)
    requires k <= |s| && (forall i :: 0 <= i < k ==> word(s[i])) && (k < |s| ==> !word(s[k]))
    ensures WordRun(word, s) == k
    decreases k
  {
    if k > 0 {
      WordRunIs(word, s[1..], k - 1);
    }
  }

  lemma EscapeKeepsRun(word: char -> bool, s: string)
    requires WordsArePlain(word)
    ensures WordRun(word, Escape(s)) == WordRun(word, s)
    ensures var k := WordRun(word, s); Escape(s) == s[..k] + Escape(s[k..])
  {
    var k := WordRun(word, s);
    EscapeRun(s, k);
    var e := Escape(s);
    if k < |s| {
      EscapeCons(s[k..]);
      assert e[k] == s[k];
    }
    forall i | 0 <= i < k ensures word(e[i]) {
      assert e[i] == s[i];
    }
    WordRunIs(word, e, k);
  }

  /** What follows a run of word characters survives the escaping. */
  lemma EscapeBehindRun(word: char -> bool, s: string)
    requires WordsArePlain(word)
    ensures var k, e := WordRun(word, s), Escape(s);
      && k <= |e|
      && (k < |s| <==> k < |e|)
      && (k < |s| ==> e[k] == s[k])
      && (k < |s| && s[k] == '@' ==> e[..k] == s[..k] && e[k + 1..] == Escape(s[k + 1..]))
  {
    EscapeKeepsRun(word, s);
    hide WordRun;
    var k, e := WordRun(word, s), Escape(s);
    if k < |s| {
      EscapeCons(s[k..]);
      assert s[k..][1..] == s[k + 1..];
      hide Escape;
    }
  }

  /** A name starts in the escaped text exactly where it starts in the text. */
  lemma EscapeKeepsName(word: char -> bool, s: string)
    requires WordsArePlain(word) && s != [] && s[0] != '%'
    ensures NameAt(word, Escape(s)) == NameAt(word, s)
    ensures var k := NameAt(word, s);
      k > 0 ==> Escape(s)[1..k + 1] == s[1..k + 1] && Escape(s)[k + 2..] == Escape(s[k + 2..])
  {
    EscapeCons(s);
    hide Escape;
    hide WordRun;
    hide NameAt;
    NameAtIs(word, s);
    NameAtIs(word, Escape(s));
    if s[0] == '@' {
      var e, rest := Escape(s), s[1..];
      assert e[1..] == Escape(rest);
      EscapeKeepsRun(word, rest);
      EscapeBehindRun(word, rest);
    }
  }

  lemma NameAtIs(word: char -> bool, s: string)
    requires s != []
    ensures s[0] != '@' ==> NameAt(word, s) == 0
    ensures s[0] == '@' ==>
      var k, rest := WordRun(word, s[1..]), s[1..];
      && (NameAt(word, s) == if k < |rest| && rest[k] == '@' then k else 0)
      && (k < |rest| ==> s[1..k + 1] == rest[..k] && s[k + 2..] == rest[k + 1..])
  {
  }

  lemma PercentSkipped(word: char -> bool, s: string)
    requires WordsArePlain(word) && s != [] && s[0] == '%'
    ensures Names(word, s) == Names(word, s[1..])
  {
    NoNameAtPercent(word, s);
    hide NameAt;
  }

  /** The names found in the escaped text are those of the text. */
  lemma {:induction false} EscapeKeepsNames(word: char -> bool, s: string)
    requires WordsArePlain(word)
    ensures Names(word, Escape(s)) == Names(word, s)
    decreases |s|
  {
    if s != [] {
      EscapeCons(s);
      hide Escape;
      hide NameAt;
      if s[0] == '%' {
        var rest := Escape(s[1..]);
        assert Escape(s)[1..] == ['%'] + rest && (['%'] + rest)[1..] == rest;
        hide Names;
        EscapeKeepsNames(word, s[1..]);
        PercentSkipped(word, s);
        PercentSkipped(word, Escape(s));
        PercentSkipped(word, ['%'] + rest);
      } else {
        EscapeKeepsName(word, s);
        var k := NameAt(word, s);
        if k > 0 {
          EscapeKeepsNames(word, s[k + 2..]);
        } else {
          EscapeKeepsNames(word, s[1..]);
          assert Escape(s)[1..] == Escape(s[1..]);
        }
      }
    }
  }

  // ----- the main theorem -----

  lemma {:induction false} KeyLengthOfName(name: string, rest: string)
    requires '(' !in name && ')' !in name
    ensures KeyLength(name + ")" + rest, 1) == Some(|name|)
    decreases |name|
  {
    var s := name + ")" + rest;
    if name == [] {
      assert s[0] == ')';
    } else {
      assert s[0] == name[0] && s[1..] == name[1..] + ")" + rest;
      KeyLengthOfName(name[1..], rest);
    }
  }

  lemma FormatName(name: string, rest: string, di: map<string, string>)
    requires '(' !in name && ')' !in name
    ensures Format("%(" + name + ")s" + rest, di) ==
      if name in di then Prepend(di[name], Format(rest, di)) else Failure(KeyError(name))
  {
    var fmt := "%(" + name + ")s" + rest;
    KeyLengthOfName(name, "s" + rest);
    assert fmt[2..] == name + ")" + ("s" + rest);
    assert fmt[2..][..|name|] == name;
    assert fmt[2..][|name| + 1..] == "s" + rest;
    assert ("s" + rest)[1..] == rest;
    hide KeyLength;
  }

  lemma FormatPercent(rest: string, di: map<string, string>)
    ensures Format(['%', '%'] + rest, di) == Prepend("%", Format(rest, di))
  {
    assert (['%', '%'] + rest)[2..] == rest;
    hide KeyLength;
  }

  lemma FormatPlain(c: char, rest: string, di: map<string, string>)
    requires c != '%'
    ensures Format([c] + rest, di) == Prepend([c], Format(rest, di))
  {
    assert ([c] + rest)[1..] == rest;
    hide KeyLength;
  }

  /** Escaping, rewriting and formatting is direct replacement, for every text and dictionary,
      missing names included. */
  lemma {:induction false} SubstitutionIsDirect(word: char -> bool, s: string, di: map<string, string>)
    requires WordsArePlain(word)
    ensures Format(Rewrite(word, Escape(s)), di) == Direct(word, s, di)
    decreases |s|
  {
    hide Format;
    hide NameAt;
    if s == [] {
      EmptyFormat(di);
    } else {
      EscapeCons(s);
      var e := Escape(s);
      if s[0] == '%' {
        var rest := Escape(s[1..]);
        NoNameAtPercent(word, s);
        assert e == ['%', '%'] + rest;
        RewritePercents(word, rest);
        FormatPercent(Rewrite(word, rest), di);
        SubstitutionIsDirect(word, s[1..], di);
      } else {
        EscapeKeepsName(word, s);
        var k := NameAt(word, s);
        if k > 0 {
          NameHasNoParens(word, s);
          FormatName(s[1..k + 1], Rewrite(word, Escape(s[k + 2..])), di);
          SubstitutionIsDirect(word, s[k + 2..], di);
        } else {
          assert e[1..] == Escape(s[1..]);
          FormatPlain(s[0], Rewrite(word, Escape(s[1..])), di);
          SubstitutionIsDirect(word, s[1..], di);
        }
      }
    }
  }

  lemma RewritePercents(word: char -> bool, rest: string)
    ensures Rewrite(word, ['%', '%'] + rest) == ['%', '%'] + Rewrite(word, rest)
  {
    var one, two := ['%'] + rest, ['%', '%'] + rest;
    assert one[1..] == rest && two[1..] == one;
    NoNameAtPercent(word, one);
    NoNameAtPercent(word, two);
    hide NameAt;
    assert Rewrite(word, one) == ['%'] + Rewrite(word, rest);
    assert Rewrite(word, two) == ['%'] + Rewrite(word, one);
  }

  lemma EmptyFormat(di: map<string, string>)
    ensures Format([], di) == Success([])
  {
  }

  lemma NoNameAtPercent(word: char -> bool, s: string)
    requires s != [] && s[0] == '%'
    ensures NameAt(word, s) == 0
  {
  }

  lemma NameHasNoParens(word: char -> bool, s: string)
    requires WordsArePlain(word) && NameAt(word, s) > 0
    ensures '(' !in s[1..NameAt(word, s) + 1] && ')' !in s[1..NameAt(word, s) + 1]
  {
    var name := s[1..NameAt(word, s) + 1];
    forall i | 0 <= i < |name| ensures name[i] != '(' && name[i] != ')' {
      assert name[i] == s[i + 1];
    }
  }

  // ----- the dictionary -----

  /** `env.get_flat(i) or env.get_flat(i.upper())`. */
  function Lookup(flat: string -> string, upper: string -> string, name: string): string {
    if flat(name) != "" then flat(name) else flat(upper(name))
  }

  method FillDictionary(names: seq<string>, flat: string -> string, upper: string -> string) returns (di: map<string, string>)
    ensures di.Keys == set n | n in names
    ensures forall n :: n in di ==> di[n] == Lookup(flat, upper, n)
    ensures forall n :: n in di && flat(n) != "" ==> di[n] == flat(n)
    ensures forall n :: n in di && flat(n) == "" ==> di[n] == flat(upper(n))
  {
    di := map[];
    for i := 0 to |names|
      invariant di.Keys == set n | n in names[..i]
      invariant forall n :: n in di ==> di[n] == Lookup(flat, upper, n)
    {
      assert names[..i + 1] == names[..i] + [names[i]];
      di := di[names[i] := Lookup(flat, upper, names[i])];
    }
    assert names[..|names|] == names;
  }

  /** The replacement when every name has a value. */
  function Replaced(word: char -> bool, s: string, value: string -> string): string
    decreases |s|
  {
    if s == [] then []
    else
      var k := NameAt(word, s);
      if k == 0 then [s[0]] + Replaced(word, s[1..], value)
      else value(s[1..k + 1]) + Replaced(word, s[k + 2..], value)
  }

  lemma {:induction false} DirectIsReplaced(word: char -> bool, s: string, di: map<string, string>, value: string -> string)
    requires forall n :: n in Names(word, s) ==> n in di && di[n] == value(n)
    ensures Direct(word, s, di) == Success(Replaced(word, s, value))
    decreases |s|
  {
    if s != [] {
      var k := NameAt(word, s);
      hide NameAt;
      if k > 0 {
        assert Names(word, s)[0] == s[1..k + 1];
        forall n | n in Names(word, s[k + 2..]) ensures n in Names(word, s) {
        }
        DirectIsReplaced(word, s[k + 2..], di, value);
      } else {
        DirectIsReplaced(word, s[1..], di, value);
      }
    }
  }

  /** `subst_func`: a given dictionary is used as it is, and the first name it lacks is an
      error; without one every name is looked up, and nothing can fail. */
  method SubstFunc(word: char -> bool, code: string, given: map<string, string>,
                   flat: string -> string, upper: string -> string)
      returns (output: Result)
    requires WordsArePlain(word)
    ensures given != map[] ==> output == Direct(word, code, given)
    ensures given == map[] ==> output == Success(Replaced(word, code, n => Lookup(flat, upper, n)))
  {
    var escaped := Escape(code);
    var s := Rewrite(word, escaped);
    var di := given;
    if di == map[] {
      var names := Names(word, escaped);
      di := FillDictionary(names, flat, upper);
      EscapeKeepsNames(word, code);
      DirectIsReplaced(word, code, di, n => Lookup(flat, upper, n));
    }
    SubstitutionIsDirect(word, code, di);
    output := Format(s, di);
  }

  /** A text without names comes out unchanged, whatever per cent signs it contains. */
  lemma {:induction false} NoNamesUnchanged(word: char -> bool, s: string, value: string -> string)
    requires Names(word, s) == []
    ensures Replaced(word, s, value) == s
    decreases |s|
  {
    if s != [] {
      NoNamesUnchanged(word, s[1..], value);
    }
  }
}
