/**
 * What every run of the class-registration worklist keeps, which classes it registers, when
 * it cannot raise and when it must.
 */
module ClassScanTheorems {
  import opened Common
  import opened ClassScan

  // ----- every class leaves by exactly one exit -----

  /** How often `c` occurs in the whole state: queued, registered, dropped or raised. */
  function Occurrences(s: State, c: ClassId): nat {
    multiset(s.queue)[c] + multiset(s.registered)[c] + multiset(s.dropped)[c]
      + (if s.raised == Some(c) then 1 else 0)
  }

  lemma PopOccurrences(queue: seq<ClassId>, c: ClassId)
    requires queue != []
    ensures multiset(queue)[c] == multiset(queue[1..])[c] + (if c == queue[0] then 1 else 0)
  {
    assert queue == [queue[0]] + queue[1..];
  }

  lemma AppendOccurrences(list: seq<ClassId>, d: ClassId, c: ClassId)
    ensures multiset(list + [d])[c] == multiset(list)[c] + (if c == d then 1 else 0)
  {
  }

  /** The state after an iteration, by where the class at the front goes. */
  lemma StepByExit(env: Env, s: State)
    requires !Halted(s)
    ensures var t, d, rest := Step(env, s), s.queue[0], s.queue[1..];
      || t.(known := s.known) == s.(queue := rest, registered := s.registered + [d])
      || t == s.(queue := rest, dropped := s.dropped + [d])
      || t.(postponed := s.postponed) == s.(queue := rest + [d])
      || t.(postponed := s.postponed) == s.(queue := rest, raised := Some(d))
  {
    hide Judge;
  }

  lemma StepConserves(env: Env, s: State, c: ClassId)
    ensures Occurrences(Step(env, s), c) == Occurrences(s, c)
  {
    if !Halted(s) {
      StepByExit(env, s);
      hide Step;
      var d, rest := s.queue[0], s.queue[1..];
      PopOccurrences(s.queue, c);
      AppendOccurrences(rest, d, c);
      AppendOccurrences(s.registered, d, c);
      AppendOccurrences(s.dropped, d, c);
    }
  }

  /** In every state of a run each queued class is exactly once queued, registered, dropped,
      or the one whose postponement raised. */
  lemma {:induction false} Conservation(env: Env, queue: seq<ClassId>, n: nat, c: ClassId)
    ensures Occurrences(Iterate(env, Start(env, queue), n), c) == multiset(queue)[c]
  {
    if n > 0 {
      Conservation(env, queue, n - 1, c);
      StepConserves(env, Iterate(env, Start(env, queue), n - 1), c);
    }
  }

  lemma OneExit(env: Env, queue: seq<ClassId>, n: nat, c: ClassId)
    ensures var s := Iterate(env, Start(env, queue), n);
      c in queue <==> c in s.queue || c in s.registered || c in s.dropped || s.raised == Some(c)
  {
    Conservation(env, queue, n, c);
    var s := Iterate(env, Start(env, queue), n);
    assert c in queue <==> multiset(queue)[c] > 0;
    assert c in s.queue <==> multiset(s.queue)[c] > 0;
    assert c in s.registered <==> multiset(s.registered)[c] > 0;
    assert c in s.dropped <==> multiset(s.dropped)[c] > 0;
  }

  // ----- registration order -----

  predicate BasesFirst(env: Env, registered: seq<ClassId>) {
    forall i, b :: 0 <= i < |registered| && b in env.decl(registered[i]).bases ==>
      IsRegistered(env, registered[..i], b)
  }

  /** In every state of every run, each registered class comes after all of its bases. */
  lemma {:induction false} BasesRegisteredFirst(env: Env, queue: seq<ClassId>, n: nat)
    ensures BasesFirst(env, Iterate(env, Start(env, queue), n).registered)
  {
    if n > 0 {
      BasesRegisteredFirst(env, queue, n - 1);
      var s := Iterate(env, Start(env, queue), n - 1);
      var t := Step(env, s);
      if t.registered != s.registered {
        forall i, b | 0 <= i < |t.registered| && b in env.decl(t.registered[i]).bases
          ensures IsRegistered(env, t.registered[..i], b)
        {
          assert t.registered[..|s.registered|] == s.registered;
          if i < |s.registered| {
            assert t.registered[..i] == s.registered[..i];
          }
        }
      }
    }
  }

  // ----- which classes are registered -----

  /** `c` can be registered using a chain of at most `depth` queued bases. */
  predicate Eligible(env: Env, pool: set<ClassId>, c: ClassId, depth: nat)
    decreases depth
  {
    && depth > 0
    && c in pool
    && env.decl(c).named && !env.decl(c).ignored && !env.decl(c).privateArgument
    && forall b :: b in env.decl(c).bases ==> b in env.prior || Eligible(env, pool, b, depth - 1)
  }

  lemma {:induction false} EligibleMonotone(env: Env, pool: set<ClassId>, c: ClassId, m: nat, n: nat)
    requires m <= n && Eligible(env, pool, c, m)
    ensures Eligible(env, pool, c, n)
    decreases n
  {
    forall b | b in env.decl(c).bases
      ensures b in env.prior || Eligible(env, pool, b, n - 1)
    {
      if b !in env.prior {
        EligibleMonotone(env, pool, b, m - 1, n - 1);
      }
    }
  }

  /** A class cannot be its own base. */
  lemma {:induction false} NeverOwnBase(env: Env, pool: set<ClassId>, c: ClassId, n: nat)
    requires c in env.decl(c).bases && c !in env.prior
    ensures !Eligible(env, pool, c, n)
  {
    if n > 0 {
      NeverOwnBase(env, pool, c, n - 1);
    }
  }

  function Elements(s: seq<ClassId>): (r: set<ClassId>)
    ensures forall c :: c in r <==> c in s
  {
    set c | c in s
  }

  /** A registered class is eligible, with a chain no longer than its position. */
  lemma {:induction false} RegisteredAreEligible(env: Env, queue: seq<ClassId>, n: nat, i: nat)
    requires i < |Iterate(env, Start(env, queue), n).registered|
    ensures Eligible(env, Elements(queue), Iterate(env, Start(env, queue), n).registered[i], i + 1)
    decreases i
  {
    var s := Iterate(env, Start(env, queue), n);
    var c := s.registered[i];
    BasesRegisteredFirst(env, queue, n);
    RegisteredPassed(env, queue, n, i);
    OneExit(env, queue, n, c);
    forall b | b in env.decl(c).bases
      ensures b in env.prior || Eligible(env, Elements(queue), b, i)
    {
      if b !in env.prior {
        assert IsRegistered(env, s.registered[..i], b);
        var j :| 0 <= j < i && s.registered[j] == b;
        RegisteredAreEligible(env, queue, n, j);
        EligibleMonotone(env, Elements(queue), b, j + 1, i);
      }
    }
  }

  lemma {:induction false} RegisteredPassed(env: Env, queue: seq<ClassId>, n: nat, i: nat)
    requires i < |Iterate(env, Start(env, queue), n).registered|
    ensures var d := env.decl(Iterate(env, Start(env, queue), n).registered[i]);
      d.named && !d.ignored && !d.privateArgument
  {
    if n > 0 && i < |Iterate(env, Start(env, queue), n - 1).registered| {
      RegisteredPassed(env, queue, n - 1, i);
    }
  }

  ghost predicate NoneEligible(env: Env, pool: set<ClassId>, dropped: seq<ClassId>) {
    forall c, m: nat :: c in dropped ==> !Eligible(env, pool, c, m)
  }

  /** Only ineligible classes are ever dropped. */
  lemma {:induction false} DroppedAreIneligible(env: Env, queue: seq<ClassId>, n: nat)
    ensures NoneEligible(env, Elements(queue), Iterate(env, Start(env, queue), n).dropped)
  {
    if n > 0 {
      DroppedAreIneligible(env, queue, n - 1);
      var s := Iterate(env, Start(env, queue), n - 1);
      if !Halted(s) && Judge(env, s, s.queue[1..], s.queue[0]) == Drop {
        forall m: nat ensures !Eligible(env, Elements(queue), s.queue[0], m) {
          DropIsJustified(env, queue, n - 1, m);
        }
      }
    }
  }

  lemma DropIsJustified(env: Env, queue: seq<ClassId>, n: nat, m: nat)
    requires var s := Iterate(env, Start(env, queue), n);
      && !Halted(s)
      && Judge(env, s, s.queue[1..], s.queue[0]) == Drop
      && NoneEligible(env, Elements(queue), s.dropped)
    ensures !Eligible(env, Elements(queue), Iterate(env, Start(env, queue), n).queue[0], m)
  {
    var s := Iterate(env, Start(env, queue), n);
    var c, rest := s.queue[0], s.queue[1..];
    var d := env.decl(c);
    if !d.ignored && d.named && !d.privateArgument && m > 0 {
      var i :| 0 <= i < |d.bases| && !IsRegistered(env, s.registered, d.bases[i]) && d.bases[i] !in rest;
      var b := d.bases[i];
      OneExit(env, queue, n, b);
      if b == c {
        NeverOwnBase(env, Elements(queue), c, m);
      } else {
        assert !Eligible(env, Elements(queue), b, m - 1);
      }
    }
  }

  ghost predicate EligibleAtAll(env: Env, pool: set<ClassId>, c: ClassId) {
    exists m: nat :: Eligible(env, pool, c, m)
  }

  /** A scan that ends without the AssertionError registers exactly the eligible classes and
      drops exactly the others. */
  lemma RegistersExactlyTheEligible(env: Env, queue: seq<ClassId>, c: ClassId)
    requires Final(env, queue).raised.None?
    ensures c in Final(env, queue).registered <==> EligibleAtAll(env, Elements(queue), c)
    ensures c in Final(env, queue).dropped <==> c in queue && !EligibleAtAll(env, Elements(queue), c)
  {
    var n := 10 * |queue|;
    var s := Final(env, queue);
    HaltsInTime(env, queue, n);
    OneExit(env, queue, n, c);
    DroppedAreIneligible(env, queue, n);
    if c in s.registered {
      var i :| 0 <= i < |s.registered| && s.registered[i] == c;
      RegisteredAreEligible(env, queue, n, i);
    }
  }

  /** Confluence: the registered set does not depend on the order of the initial queue. */
  lemma Confluence(env: Env, queue: seq<ClassId>, other: seq<ClassId>)
    requires multiset(queue) == multiset(other)
    requires Final(env, queue).raised.None? && Final(env, other).raised.None?
    ensures Elements(Final(env, queue).registered) == Elements(Final(env, other).registered)
    ensures Elements(Final(env, queue).dropped) == Elements(Final(env, other).dropped)
  {
    SameElements(queue, other);
    forall c
      ensures c in Final(env, queue).registered <==> c in Final(env, other).registered
      ensures c in Final(env, queue).dropped <==> c in Final(env, other).dropped
    {
      RegistersExactlyTheEligible(env, queue, c);
      RegistersExactlyTheEligible(env, other, c);
    }
  }

  // ----- conversion targets -----

  /** `i` is the first conversion to a class the root module does not know, or the length of
      the list when there is none. */
  predicate FirstUnknown(known: set<Name>, conversions: seq<Option<Name>>, i: nat) {
    && i <= |conversions|
    && (i < |conversions| ==> conversions[i].Some? && conversions[i].value !in known)
    && forall j :: 0 <= j < i ==> conversions[j].Some? ==> conversions[j].value in known
  }

  /** The conversions hold a class back exactly when the first unknown target is queued; the
      targets behind it are not looked at. */
  lemma {:induction false} FirstUnknownDecides(env: Env, known: set<Name>, queue: seq<ClassId>,
                                               conversions: seq<Option<Name>>, i: nat)
    requires FirstUnknown(known, conversions, i)
    ensures ConversionsSettled(env, known, queue, conversions) <==>
      i == |conversions| || !Spelled(env, queue, conversions[i].value)
  {
    if i > 0 {
      forall j | 0 <= j < i - 1
        ensures conversions[1..][j].Some? ==> conversions[1..][j].value in known
      {
        assert conversions[1..][j] == conversions[j + 1];
      }
      FirstUnknownDecides(env, known, queue, conversions[1..], i - 1);
    }
  }

  lemma {:induction false} FindFirstUnknown(known: set<Name>, conversions: seq<Option<Name>>) returns (i: nat)
    ensures FirstUnknown(known, conversions, i)
  {
    i := 0;
    while i < |conversions| && (conversions[i].None? || conversions[i].value in known)
      invariant i <= |conversions|
      invariant forall j :: 0 <= j < i ==> conversions[j].Some? ==> conversions[j].value in known
    {
      i := i + 1;
    }
  }

  /** The first conversion to a class that the root module does not know names a queued class. */
  predicate HeldByConversion(env: Env, known: set<Name>, queue: seq<ClassId>, conversions: seq<Option<Name>>) {
    exists i :: 0 <= i < |conversions| && FirstUnknown(known, conversions, i) && Spelled(env, queue, conversions[i].value)
  }

  /** The first unregistered base is still queued. */
  predicate HeldByBase(env: Env, registered: seq<ClassId>, queue: seq<ClassId>, bases: seq<ClassId>) {
    exists i :: 0 <= i < |bases| && !IsRegistered(env, registered, bases[i]) && bases[i] in queue
      && forall j :: 0 <= j < i ==> IsRegistered(env, registered, bases[j])
  }

  predicate BasesDone(env: Env, registered: seq<ClassId>, bases: seq<ClassId>) {
    forall b :: b in bases ==> IsRegistered(env, registered, b)
  }

  lemma HeldIff(env: Env, known: set<Name>, queue: seq<ClassId>, conversions: seq<Option<Name>>)
    ensures HeldByConversion(env, known, queue, conversions) <==> !ConversionsSettled(env, known, queue, conversions)
  {
    var i := FindFirstUnknown(known, conversions);
    FirstUnknownDecides(env, known, queue, conversions, i);
    hide ConversionsSettled;
    hide Spelled;
    forall j | 0 <= j < |conversions| && FirstUnknown(known, conversions, j) ensures i == j {
    }
  }

  lemma BasesIff(env: Env, registered: seq<ClassId>, queue: seq<ClassId>, bases: seq<ClassId>)
    ensures var v := JudgeBases(env, registered, queue, bases);
      && (v == Postpone <==> HeldByBase(env, registered, queue, bases))
      && (v == Register <==> BasesDone(env, registered, bases))
  {
    hide JudgeBases;
    hide IsRegistered;
    var v := JudgeBases(env, registered, queue, bases);
    if v != Register {
      var i :| 0 <= i < |bases|
        && !IsRegistered(env, registered, bases[i])
        && (forall j :: 0 <= j < i ==> IsRegistered(env, registered, bases[j]))
        && (v == Postpone <==> bases[i] in queue);
    }
  }

  /** The verdict on a class, test by test: a class waits for its first unregistered base or,
      when all are registered, for its first unknown conversion target, as long as that is
      queued; it is registered when nothing holds it back and no test excludes it. */
  lemma VerdictIs(env: Env, s: State, queue: seq<ClassId>, c: ClassId)
    ensures var d, v := env.decl(c), Judge(env, s, queue, c);
      var done, held := BasesDone(env, s.registered, d.bases), HeldByConversion(env, s.known, queue, d.conversions);
      && (v == Postpone <==>
            !d.ignored && d.named && (HeldByBase(env, s.registered, queue, d.bases) || (done && held)))
      && (v == Register <==> !d.ignored && d.named && !d.privateArgument && done && !held)
  {
    BasesIff(env, s.registered, queue, env.decl(c).bases);
    HeldIff(env, s.known, queue, env.decl(c).conversions);
    hide JudgeBases;
    hide ConversionsSettled;
    hide HeldByBase;
    hide HeldByConversion;
    hide BasesDone;
  }

  /** `t` is the only class to which `c` converts. */
  predicate SoleTarget(env: Env, c: ClassId, t: Name) {
    && Some(t) in env.decl(c).conversions
    && forall v :: v in env.decl(c).conversions && v.Some? ==> v.value == t
  }

  lemma SoleTargetDecides(env: Env, known: set<Name>, queue: seq<ClassId>, c: ClassId, t: Name)
    requires SoleTarget(env, c, t)
    ensures ConversionsSettled(env, known, queue, env.decl(c).conversions) <==> t in known || !Spelled(env, queue, t)
  {
    var conversions := env.decl(c).conversions;
    var i := FindFirstUnknown(known, conversions);
    FirstUnknownDecides(env, known, queue, conversions, i);
    if i < |conversions| {
      assert conversions[i] in conversions;
    } else {
      var k :| 0 <= k < |conversions| && conversions[k] == Some(t);
      assert conversions[k].value in known;
    }
  }

  /** The name `t` is new, and only a class spelled `t` makes it known. */
  predicate NameIsPlain(env: Env, queue: seq<ClassId>, t: Name) {
    && t !in env.priorNames
    && (forall e :: e in queue && t in env.decl(e).exports ==> env.decl(e).spelling == t)
    && forall e, f :: e in queue && f in queue && env.decl(e).spelling == env.decl(f).spelling == t ==> e == f
  }

  lemma {:induction false} KnownComesFromRegistered(env: Env, queue: seq<ClassId>, n: nat, t: Name)
    requires t in Iterate(env, Start(env, queue), n).known && t !in env.priorNames
    ensures exists e :: e in Iterate(env, Start(env, queue), n).registered && t in env.decl(e).exports
  {
    if n > 0 {
      var s := Iterate(env, Start(env, queue), n - 1);
      if t in s.known {
        KnownComesFromRegistered(env, queue, n - 1, t);
      } else {
        assert s.queue[0] in Step(env, s).registered;
      }
    }
  }

  lemma RegisteredAfterTarget(env: Env, queue: seq<ClassId>, n: nat, target: ClassId)
    requires var s := Iterate(env, Start(env, queue), n);
      && !Halted(s) && Judge(env, s, s.queue[1..], s.queue[0]) == Register
      && target != s.queue[0] && SoleTarget(env, s.queue[0], env.decl(target).spelling)
    requires target in queue && NameIsPlain(env, queue, env.decl(target).spelling)
    ensures var s := Iterate(env, Start(env, queue), n); target in s.registered || target in s.dropped
  {
    var s := Iterate(env, Start(env, queue), n);
    var name := env.decl(target).spelling;
    SoleTargetDecides(env, s.known, s.queue[1..], s.queue[0], name);
    OneExit(env, queue, n, target);
    if name in s.known {
      KnownComesFromRegistered(env, queue, n, name);
      var e :| e in s.registered && name in env.decl(e).exports;
      OneExit(env, queue, n, e);
    }
  }

  /** A class with a single conversion target is never registered while that target is still
      queued: the target was registered earlier, or it was dropped. */
  lemma {:induction false} SoleTargetFirst(env: Env, queue: seq<ClassId>, n: nat, i: nat, target: ClassId)
    requires i < |Iterate(env, Start(env, queue), n).registered|
    requires target in queue && target != Iterate(env, Start(env, queue), n).registered[i]
    requires SoleTarget(env, Iterate(env, Start(env, queue), n).registered[i], env.decl(target).spelling)
    requires NameIsPlain(env, queue, env.decl(target).spelling)
    ensures var s := Iterate(env, Start(env, queue), n);
      target in s.registered[..i] || target in s.dropped
  {
    hide NameIsPlain;
    hide SoleTarget;
    hide Judge;
    if n > 0 {
      var s := Iterate(env, Start(env, queue), n - 1);
      var t := Step(env, s);
      if i < |s.registered| {
        SoleTargetFirst(env, queue, n - 1, i, target);
        assert t.registered[..i] == s.registered[..i];
      } else {
        RegisteredAfterTarget(env, queue, n - 1, target);
        assert t.registered[..i] == s.registered;
      }
    }
  }

  lemma {:induction false} ExportsAreKnown(env: Env, queue: seq<ClassId>, n: nat, e: ClassId)
    requires e in Iterate(env, Start(env, queue), n).registered
    ensures env.decl(e).exports <= Iterate(env, Start(env, queue), n).known
  {
    if n > 0 && e in Iterate(env, Start(env, queue), n - 1).registered {
      ExportsAreKnown(env, queue, n - 1, e);
    }
  }

  /** `t` is known beforehand, or the plain name of another queued class that can be registered. */
  ghost predicate ReadyTarget(env: Env, queue: seq<ClassId>, c: ClassId, t: Name) {
    t in env.priorNames ||
    (&& NameIsPlain(env, queue, t)
     && exists d :: d in queue && d != c && env.decl(d).spelling == t && t in env.decl(d).exports
         && EligibleAtAll(env, Elements(queue), d))
  }

  ghost predicate AllTargetsReady(env: Env, queue: seq<ClassId>, c: ClassId) {
    forall v :: v in env.decl(c).conversions && v.Some? ==> ReadyTarget(env, queue, c, v.value)
  }

  /** A ready target that is no longer queued is known. */
  lemma ReadyIsKnown(env: Env, queue: seq<ClassId>, n: nat, t: Name)
    requires var s := Iterate(env, Start(env, queue), n);
      !Halted(s) && ReadyTarget(env, queue, s.queue[0], t) && !Spelled(env, s.queue[1..], t)
    ensures t in Iterate(env, Start(env, queue), n).known
  {
    var s := Iterate(env, Start(env, queue), n);
    PriorNamesStayKnown(env, queue, n);
    if t !in env.priorNames {
      var d :| d in queue && d != s.queue[0] && env.decl(d).spelling == t && t in env.decl(d).exports
        && EligibleAtAll(env, Elements(queue), d);
      hide Iterate;
      assert s.queue == [s.queue[0]] + s.queue[1..];
      EligibleIsQueued(env, queue, n, d);
      ExportsAreKnown(env, queue, n, d);
    }
  }

  lemma RegisteredAfterAll(env: Env, queue: seq<ClassId>, n: nat, t: Name)
    requires var s := Iterate(env, Start(env, queue), n);
      && !Halted(s) && Judge(env, s, s.queue[1..], s.queue[0]) == Register
      && AllTargetsReady(env, queue, s.queue[0]) && Some(t) in env.decl(s.queue[0]).conversions
    requires t !in env.priorNames
    ensures exists d :: d in Iterate(env, Start(env, queue), n).registered && env.decl(d).spelling == t
  {
    hide Iterate;
    hide NameIsPlain;
    hide EligibleAtAll;
    var s := Iterate(env, Start(env, queue), n);
    var conversions := env.decl(s.queue[0]).conversions;
    var i := FindFirstUnknown(s.known, conversions);
    FirstUnknownDecides(env, s.known, s.queue[1..], conversions, i);
    if i < |conversions| {
      assert conversions[i] in conversions;
      ReadyIsKnown(env, queue, n, conversions[i].value);
    }
    var k :| 0 <= k < |conversions| && conversions[k] == Some(t);
    KnownComesFromRegistered(env, queue, n, t);
    var e :| e in s.registered && t in env.decl(e).exports;
    OneExit(env, queue, n, e);
    assert NameIsPlain(env, queue, t);
    SpellsPlain(env, queue, t, e);
  }

  lemma SpellsPlain(env: Env, queue: seq<ClassId>, t: Name, e: ClassId)
    requires NameIsPlain(env, queue, t) && e in queue && t in env.decl(e).exports
    ensures env.decl(e).spelling == t
  {
  }

  /** A class all of whose conversion targets are known beforehand or can be registered comes
      after every one of them. */
  lemma {:induction false} AllTargetsFirst(env: Env, queue: seq<ClassId>, n: nat, i: nat, t: Name)
    requires i < |Iterate(env, Start(env, queue), n).registered|
    requires var c := Iterate(env, Start(env, queue), n).registered[i];
      AllTargetsReady(env, queue, c) && Some(t) in env.decl(c).conversions
    requires t !in env.priorNames
    ensures exists d :: d in Iterate(env, Start(env, queue), n).registered[..i] && env.decl(d).spelling == t
  {
    hide AllTargetsReady;
    hide Judge;
    if n > 0 {
      var s := Iterate(env, Start(env, queue), n - 1);
      var next := Step(env, s);
      if i < |s.registered| {
        AllTargetsFirst(env, queue, n - 1, i, t);
        assert next.registered[..i] == s.registered[..i];
      } else {
        RegisteredAfterAll(env, queue, n - 1, t);
        assert next.registered[..i] == s.registered;
      }
    }
  }

  function TwoTargetsDecl(c: ClassId): ClassDecl {
    if c == 0 then ClassDecl(false, true, [], [Some("elsewhere"), Some("b")], false, "a", {"a"})
    else ClassDecl(false, true, [], [], false, "b", {"b"})
  }

  function TwoTargets(): Env {
    Env(TwoTargetsDecl, {}, {})
  }

  /** The first class is registered, because its first target is neither known nor queued. */
  lemma TwoTargetsStep(s: State)
    requires s.queue == [0, 1] && s.known == {} && s.raised.None?
    ensures Step(TwoTargets(), s) == s.(queue := [1], registered := s.registered + [0], known := {"a"})
  {
    assert s.queue[1..] == [1];
    assert TwoTargets().decl(0).conversions[0] == Some("elsewhere");
    assert !Spelled(TwoTargets(), [1], "elsewhere");
  }

  lemma TwoTargetsEnd(s: State)
    requires s.queue == [1] && s.raised.None?
    ensures Step(TwoTargets(), s) == s.(queue := [], registered := s.registered + [1], known := s.known + {"b"})
  {
    assert s.queue[1..] == [];
  }

  /** With two targets the guarantee fails: an unknown target that is not queued hides a
      queued one behind it. */
  lemma SecondTargetIsOverlooked()
    ensures exists env: Env, queue: seq<ClassId> ::
      && |queue| == 2
      && env.decl(queue[0]).conversions == [Some("elsewhere"), Some(env.decl(queue[1]).spelling)]
      && NameIsPlain(env, queue, env.decl(queue[1]).spelling)
      && Final(env, queue).registered == queue
  {
    hide Step;
    var env, queue: seq<ClassId> := TwoTargets(), [0, 1];
    var s := Start(env, queue);
    TwoTargetsStep(s);
    TwoTargetsEnd(Step(env, s));
    assert Iterate(env, s, 0) == s;
    assert Iterate(env, s, 1) == Step(env, s);
    assert Iterate(env, s, 2) == Step(env, Step(env, s));
    HaltsInTime(env, queue, 2);
    assert Final(env, queue).registered == queue;
    hide Final;
    assert NameIsPlain(env, queue, "b");
  }

  // ----- when the scan cannot raise -----

  /** `c` may have to wait for `d`: as a base not registered before, or as a conversion target
      whose name was not known before. */
  predicate DependsOn(env: Env, c: ClassId, d: ClassId) {
    || (d in env.decl(c).bases && d !in env.prior)
    || (Some(env.decl(d).spelling) in env.decl(c).conversions && env.decl(d).spelling !in env.priorNames)
  }

  lemma {:induction false} PriorNamesStayKnown(env: Env, queue: seq<ClassId>, n: nat)
    ensures env.priorNames <= Iterate(env, Start(env, queue), n).known
  {
    if n > 0 {
      PriorNamesStayKnown(env, queue, n - 1);
    }
  }

  /** `rank` grows along the dependencies inside the queue: a witness that they are acyclic,
      with the height of the graph as its least value. */
  ghost predicate Ranked(env: Env, queue: seq<ClassId>, rank: ClassId -> nat) {
    forall c, d :: c in queue && d in queue && c != d && DependsOn(env, c, d) ==> rank(d) < rank(c)
  }

  /** Rotation keeps the queue sorted by postponements, the last at most one ahead. */
  predicate Rotating(queue: seq<ClassId>, postponed: map<ClassId, nat>) {
    && Distinct(queue)
    && (forall i, j :: 0 <= i < j < |queue| ==> Count(postponed, queue[i]) <= Count(postponed, queue[j]))
    && (forall i :: 0 <= i < |queue| ==> Count(postponed, queue[i]) <= Count(postponed, queue[0]) + 1)
  }

  lemma PopKeepsRotating(queue: seq<ClassId>, postponed: map<ClassId, nat>)
    requires queue != [] && Rotating(queue, postponed)
    ensures Rotating(queue[1..], postponed)
    ensures Rotating(queue[1..], postponed[queue[0] := Count(postponed, queue[0]) + 1])
  {
    if |queue| > 1 {
      assert Count(postponed, queue[0]) <= Count(postponed, queue[1]);
    }
  }

  lemma RotateKeepsRotating(queue: seq<ClassId>, postponed: map<ClassId, nat>)
    requires queue != [] && Rotating(queue, postponed)
    ensures Rotating(queue[1..] + [queue[0]], postponed[queue[0] := Count(postponed, queue[0]) + 1])
  {
    if |queue| > 1 {
      assert Count(postponed, queue[0]) <= Count(postponed, queue[1]);
    }
  }

  lemma StepKeepsRotating(env: Env, s: State)
    requires Rotating(s.queue, s.postponed)
    ensures Rotating(Step(env, s).queue, Step(env, s).postponed)
  {
    if !Halted(s) {
      hide Judge;
      hide Rotating;
      PopKeepsRotating(s.queue, s.postponed);
      RotateKeepsRotating(s.queue, s.postponed);
    }
  }

  lemma {:induction false} AlwaysRotating(env: Env, queue: seq<ClassId>, n: nat)
    requires Distinct(queue)
    ensures Rotating(Iterate(env, Start(env, queue), n).queue, Iterate(env, Start(env, queue), n).postponed)
  {
    if n > 0 {
      AlwaysRotating(env, queue, n - 1);
      StepKeepsRotating(env, Iterate(env, Start(env, queue), n - 1));
    }
  }

  /** A postponed class waits for another class that is still in the queue. */
  lemma WaitsForQueued(env: Env, s: State) returns (d: ClassId)
    requires !Halted(s) && Judge(env, s, s.queue[1..], s.queue[0]) == Postpone && env.priorNames <= s.known
    ensures d in s.queue[1..] && DependsOn(env, s.queue[0], d)
  {
    var c, rest := s.queue[0], s.queue[1..];
    var conversions := env.decl(c).conversions;
    if JudgeBases(env, s.registered, rest, env.decl(c).bases) == Postpone {
      var i :| 0 <= i < |env.decl(c).bases| && env.decl(c).bases[i] in rest
        && !IsRegistered(env, s.registered, env.decl(c).bases[i]);
      d := env.decl(c).bases[i];
    } else {
      var i := FindFirstUnknown(s.known, conversions);
      FirstUnknownDecides(env, s.known, rest, conversions, i);
      d :| d in rest && env.decl(d).spelling == conversions[i].value;
      assert conversions[i] in conversions;
    }
  }

  lemma StepWithinRank(env: Env, queue: seq<ClassId>, rank: ClassId -> nat, s: State, c: ClassId)
    requires Rotating(s.queue, s.postponed) && Ranked(env, queue, rank) && env.priorNames <= s.known
    requires forall d :: d in s.queue ==> d in queue
    requires forall d :: Count(s.postponed, d) <= rank(d)
    ensures Count(Step(env, s).postponed, c) <= rank(c)
  {
    if !Halted(s) && c == s.queue[0] && Judge(env, s, s.queue[1..], c) == Postpone {
      var d := WaitsForQueued(env, s);
      hide Judge;
      hide DependsOn;
      var j :| 1 <= j < |s.queue| && s.queue[j] == d;
      assert Count(s.postponed, s.queue[0]) <= Count(s.postponed, s.queue[j]);
    } else {
      hide Ranked;
      hide Rotating;
    }
  }

  lemma QueuedWasQueued(env: Env, queue: seq<ClassId>, n: nat)
    ensures forall c :: c in Iterate(env, Start(env, queue), n).queue ==> c in queue
  {
    hide Iterate;
    forall c | c in Iterate(env, Start(env, queue), n).queue ensures c in queue {
      OneExit(env, queue, n, c);
    }
  }

  /** No class is postponed more often than its height in the dependency graph. */
  lemma {:induction false} PostponedAtMostRank(env: Env, queue: seq<ClassId>, rank: ClassId -> nat, n: nat, c: ClassId)
    requires Distinct(queue) && Ranked(env, queue, rank)
    ensures Count(Iterate(env, Start(env, queue), n).postponed, c) <= rank(c)
    decreases n
  {
    hide Step;
    hide Ranked;
    hide Rotating;
    hide Distinct;
    if n > 0 {
      var s := Iterate(env, Start(env, queue), n - 1);
      AlwaysRotating(env, queue, n - 1);
      forall d ensures Count(s.postponed, d) <= rank(d) {
        PostponedAtMostRank(env, queue, rank, n - 1, d);
      }
      QueuedWasQueued(env, queue, n - 1);
      PriorNamesStayKnown(env, queue, n - 1);
      StepWithinRank(env, queue, rank, s, c);
    }
  }

  /** In every state of every run the class that raised has been postponed ten times, and every
      other class at most nine times. */
  lemma {:induction false} RaisesTheTenthTime(env: Env, queue: seq<ClassId>, n: nat, c: ClassId)
    ensures var s := Iterate(env, Start(env, queue), n);
      if s.raised == Some(c) then Count(s.postponed, c) == 10 else Count(s.postponed, c) <= 9
  {
    if n > 0 {
      RaisesTheTenthTime(env, queue, n - 1, c);
      var s := Iterate(env, Start(env, queue), n - 1);
      if !Halted(s) {
        hide Judge;
        RaisesTheTenthTime(env, queue, n - 1, s.queue[0]);
      }
    }
  }

  /** An acyclic dependency graph of height at most nine never hits the limit. */
  lemma ShallowGraphsNeverRaise(env: Env, queue: seq<ClassId>, rank: ClassId -> nat)
    requires Distinct(queue) && Ranked(env, queue, rank)
    requires forall c :: c in queue ==> rank(c) <= 9
    ensures Final(env, queue).raised.None?
  {
    var n := 10 * |queue|;
    if Final(env, queue).raised.Some? {
      var c := Final(env, queue).raised.value;
      RaisesTheTenthTime(env, queue, n, c);
      PostponedAtMostRank(env, queue, rank, n, c);
      OneExit(env, queue, n, c);
      assert false;
    }
  }

  // ----- the bound is exact -----

  /** No conversion holds `c` back: its class-typed targets are known beforehand or not queued. */
  predicate NoOpenConversion(env: Env, queue: seq<ClassId>, c: ClassId) {
    forall v :: v in env.decl(c).conversions && v.Some? ==> v.value in env.priorNames || !Spelled(env, queue, v.value)
  }

  /** `c` stands above its bases, and directly above one of them unless it is on the ground. */
  ghost predicate Stands(env: Env, queue: seq<ClassId>, h: ClassId -> nat, c: ClassId) {
    && env.decl(c).named && !env.decl(c).ignored && !env.decl(c).privateArgument
    && NoOpenConversion(env, queue, c)
    && (forall b :: b in env.decl(c).bases ==> b in env.prior || (b in queue && h(b) < h(c)))
    && (h(c) > 0 ==> exists b :: b in env.decl(c).bases && b !in env.prior && h(b) == h(c) - 1)
  }

  /** `h` is the height of every queued class in the graph of the bases. */
  ghost predicate Heights(env: Env, queue: seq<ClassId>, h: ClassId -> nat) {
    forall c :: c in queue ==> Stands(env, queue, h, c)
  }

  predicate Falling(queue: seq<ClassId>, h: ClassId -> nat) {
    forall i, j :: 0 <= i < j < |queue| ==> h(queue[i]) >= h(queue[j])
  }

  /** Every class is queued or registered, and nothing is dropped. */
  ghost predicate Complete(env: Env, queue: seq<ClassId>, s: State) {
    && (forall c :: c in queue <==> c in s.queue || c in s.registered)
    && env.priorNames <= s.known
    && (forall c :: Count(s.postponed, c) < 10)
  }

  /** Among equally often postponed classes the height falls, and it rises with the count. */
  predicate SortedByHeight(queue: seq<ClassId>, postponed: map<ClassId, nat>, h: ClassId -> nat) {
    forall i, j :: 0 <= i < j < |queue| ==>
      var m, n := Count(postponed, queue[i]), Count(postponed, queue[j]);
      (m == n ==> h(queue[i]) >= h(queue[j])) && (m < n ==> h(queue[j]) >= h(queue[i]))
  }

  /** Nobody has been postponed more often than its height; a registered class exactly that
      often, and whoever stands above it has been postponed since. */
  ghost predicate Layered(h: ClassId -> nat, s: State) {
    && (forall c :: c in s.queue ==> Count(s.postponed, c) <= h(c))
    && (forall b :: b in s.registered ==> Count(s.postponed, b) == h(b))
    && (forall b, c :: b in s.registered && c in s.queue && h(c) > h(b) ==> Count(s.postponed, c) > h(b))
  }

  ghost predicate InOrder(env: Env, queue: seq<ClassId>, h: ClassId -> nat, s: State) {
    && Complete(env, queue, s) && Layered(h, s)
    && Rotating(s.queue, s.postponed) && SortedByHeight(s.queue, s.postponed, h)
  }

  lemma ConversionsNeverOpen(env: Env, queue: seq<ClassId>, s: State, c: ClassId)
    requires NoOpenConversion(env, queue, c) && env.priorNames <= s.known
    requires s.queue != [] && forall d :: d in s.queue ==> d in queue
    ensures ConversionsSettled(env, s.known, s.queue[1..], env.decl(c).conversions)
  {
    var conversions := env.decl(c).conversions;
    var i := FindFirstUnknown(s.known, conversions);
    FirstUnknownDecides(env, s.known, s.queue[1..], conversions, i);
    if i < |conversions| {
      assert conversions[i] in conversions;
    }
  }

  /** A base directly below a class that has not been postponed as often as its height is
      still queued. */
  lemma LowerBaseWaits(env: Env, queue: seq<ClassId>, h: ClassId -> nat, s: State)
    requires s.queue != [] && Stands(env, queue, h, s.queue[0]) && Complete(env, queue, s) && Layered(h, s)
    requires Count(s.postponed, s.queue[0]) < h(s.queue[0])
    ensures JudgeBases(env, s.registered, s.queue[1..], env.decl(s.queue[0]).bases) == Postpone
  {
    hide NoOpenConversion;
    var c, rest := s.queue[0], s.queue[1..];
    SameMembers(s.queue);
    assert exists b :: b in env.decl(c).bases && !IsRegistered(env, s.registered, b) by {
      var b :| b in env.decl(c).bases && b !in env.prior && h(b) == h(c) - 1;
      assert c in s.queue;
      assert b !in s.registered;
    }
    forall b | b in env.decl(c).bases && !IsRegistered(env, s.registered, b) ensures b in rest {
      assert b in queue && h(b) < h(c);
    }
    hide Layered;
    hide Complete;
    hide Stands;
  }

  lemma FrontIsLeast(s: State, c: ClassId)
    requires Rotating(s.queue, s.postponed) && c in s.queue
    ensures Count(s.postponed, s.queue[0]) <= Count(s.postponed, c)
  {
    var j :| 0 <= j < |s.queue| && s.queue[j] == c;
  }

  lemma NoLowerBaseWaits(env: Env, queue: seq<ClassId>, h: ClassId -> nat, s: State)
    requires s.queue != [] && Stands(env, queue, h, s.queue[0]) && Complete(env, queue, s) && Layered(h, s)
    requires Rotating(s.queue, s.postponed) && Count(s.postponed, s.queue[0]) == h(s.queue[0])
    ensures JudgeBases(env, s.registered, s.queue[1..], env.decl(s.queue[0]).bases) == Register
  {
    forall b | b in env.decl(s.queue[0]).bases ensures IsRegistered(env, s.registered, b) {
      if b in s.queue {
        FrontIsLeast(s, b);
      }
    }
  }

  /** The class at the front is postponed until it has been as often as its height. */
  lemma JudgedByHeight(env: Env, queue: seq<ClassId>, h: ClassId -> nat, s: State)
    requires Heights(env, queue, h) && InOrder(env, queue, h, s) && !Halted(s)
    ensures var c := s.queue[0];
      Judge(env, s, s.queue[1..], c) == if Count(s.postponed, c) < h(c) then Postpone else Register
  {
    var c := s.queue[0];
    assert c in s.queue && c in queue && Stands(env, queue, h, c);
    hide SortedByHeight;
    hide Heights;
    if Count(s.postponed, c) < h(c) {
      LowerBaseWaits(env, queue, h, s);
    } else {
      NoLowerBaseWaits(env, queue, h, s);
      ConversionsNeverOpen(env, queue, s, c);
    }
  }

  lemma RotateKeepsSorted(queue: seq<ClassId>, postponed: map<ClassId, nat>, h: ClassId -> nat)
    requires queue != [] && Rotating(queue, postponed) && SortedByHeight(queue, postponed, h)
    ensures SortedByHeight(queue[1..], postponed, h)
    ensures SortedByHeight(queue[1..] + [queue[0]], postponed[queue[0] := Count(postponed, queue[0]) + 1], h)
  {
    var c, n := queue[0], Count(postponed, queue[0]) + 1;
    var after, bumped := queue[1..] + [c], postponed[c := n];
    forall i | 1 <= i < |queue|
      ensures Count(bumped, queue[i]) == Count(postponed, queue[i]) <= n
      ensures Count(postponed, queue[i]) < n ==> h(c) >= h(queue[i])
      ensures Count(postponed, queue[i]) == n ==> h(queue[i]) >= h(c)
    {
      assert queue[0] != queue[i] && Count(postponed, queue[0]) <= Count(postponed, queue[i]);
    }
  }

  /** The queue after its front has moved to the end holds the same classes. */
  lemma SameMembers(queue: seq<ClassId>)
    requires queue != []
    ensures forall d :: d in queue[1..] + [queue[0]] <==> d in queue
    ensures forall d :: d in queue <==> d == queue[0] || d in queue[1..]
  {
    assert queue == [queue[0]] + queue[1..];
  }

  lemma PostponeKeepsLayers(env: Env, queue: seq<ClassId>, h: ClassId -> nat, s: State, t: State)
    requires Complete(env, queue, s) && Layered(h, s) && s.queue != []
    requires t.registered == s.registered && t.known == s.known && forall d :: d in t.queue <==> d in s.queue
    requires var n := Count(s.postponed, s.queue[0]) + 1;
      n <= h(s.queue[0]) && n < 10 && t.postponed == s.postponed[s.queue[0] := n]
    ensures Complete(env, queue, t) && Layered(h, t)
  {
    var c := s.queue[0];
    assert c in s.queue && c !in s.registered;
    assert forall d :: Count(t.postponed, d) == if d == c then Count(s.postponed, c) + 1 else Count(s.postponed, d);
  }

  lemma PostponeKeepsOrder(env: Env, queue: seq<ClassId>, h: ClassId -> nat, s: State)
    requires InOrder(env, queue, h, s) && !Halted(s) && Count(s.postponed, s.queue[0]) < h(s.queue[0])
    ensures var t := Postponed(s, s.queue[1..], s.queue[0]);
      if Count(s.postponed, s.queue[0]) + 1 >= 10 then t.raised.Some? else InOrder(env, queue, h, t)
  {
    RotateKeepsRotating(s.queue, s.postponed);
    RotateKeepsSorted(s.queue, s.postponed, h);
    SameMembers(s.queue);
    hide Rotating;
    hide SortedByHeight;
    hide Complete;
    hide Layered;
    if Count(s.postponed, s.queue[0]) + 1 < 10 {
      PostponeKeepsLayers(env, queue, h, s, Postponed(s, s.queue[1..], s.queue[0]));
    }
  }

  /** Whoever stands above the front, which has reached its height, has been postponed since. */
  lemma AboveFrontIsAhead(h: ClassId -> nat, s: State, d: ClassId)
    requires s.queue != [] && Rotating(s.queue, s.postponed) && SortedByHeight(s.queue, s.postponed, h)
    requires d in s.queue[1..] && h(d) > h(s.queue[0])
    ensures Count(s.postponed, d) > Count(s.postponed, s.queue[0])
  {
    var j :| 0 <= j < |s.queue[1..]| && s.queue[1..][j] == d;
    assert s.queue[j + 1] == d;
    assert Count(s.postponed, s.queue[0]) <= Count(s.postponed, s.queue[j + 1]);
  }

  lemma RegisterKeepsLayers(env: Env, queue: seq<ClassId>, h: ClassId -> nat, s: State, t: State)
    requires Complete(env, queue, s) && Layered(h, s)
    requires s.queue != [] && Count(s.postponed, s.queue[0]) == h(s.queue[0])
    requires forall d :: d in s.queue[1..] && h(d) > h(s.queue[0]) ==> Count(s.postponed, d) > h(s.queue[0])
    requires t.queue == s.queue[1..] && t.registered == s.registered + [s.queue[0]]
    requires s.known <= t.known && t.postponed == s.postponed
    ensures Complete(env, queue, t) && Layered(h, t)
  {
    SameMembers(s.queue);
    assert forall b :: b in t.registered <==> b == s.queue[0] || b in s.registered;
  }

  lemma RegisterKeepsOrder(env: Env, queue: seq<ClassId>, h: ClassId -> nat, s: State, names: set<Name>)
    requires InOrder(env, queue, h, s) && !Halted(s) && Count(s.postponed, s.queue[0]) == h(s.queue[0])
    requires s.known <= names
    ensures InOrder(env, queue, h, s.(queue := s.queue[1..], registered := s.registered + [s.queue[0]], known := names))
  {
    hide Rotating;
    hide SortedByHeight;
    hide Complete;
    hide Layered;
    forall d | d in s.queue[1..] && h(d) > h(s.queue[0]) ensures Count(s.postponed, d) > h(s.queue[0]) {
      AboveFrontIsAhead(h, s, d);
    }
    PopKeepsRotating(s.queue, s.postponed);
    RotateKeepsSorted(s.queue, s.postponed, h);
    RegisterKeepsLayers(env, queue, h, s,
      s.(queue := s.queue[1..], registered := s.registered + [s.queue[0]], known := names));
  }

  lemma StepKeepsOrder(env: Env, queue: seq<ClassId>, h: ClassId -> nat, s: State)
    requires Heights(env, queue, h) && InOrder(env, queue, h, s)
    ensures var t := Step(env, s); t.raised.Some? || InOrder(env, queue, h, t)
    ensures Step(env, s).raised.Some? && s.raised.None? ==> exists c :: c in queue && h(c) >= 10
  {
    if !Halted(s) {
      var c := s.queue[0];
      JudgedByHeight(env, queue, h, s);
      assert c in s.queue && c in queue && Count(s.postponed, c) <= h(c) && Count(s.postponed, c) < 10;
      if Count(s.postponed, c) < h(c) {
        PostponeKeepsOrder(env, queue, h, s);
      } else {
        RegisterKeepsOrder(env, queue, h, s, s.known + env.decl(c).exports);
      }
      hide Judge;
      hide InOrder;
      hide Heights;
    }
  }

  lemma StartsInOrder(env: Env, queue: seq<ClassId>, h: ClassId -> nat)
    requires Distinct(queue) && Falling(queue, h)
    ensures InOrder(env, queue, h, Start(env, queue))
  {
  }

  /** The run from `queue` has raised because of some height, or it is in order. */
  ghost predicate InOrderAt(env: Env, queue: seq<ClassId>, h: ClassId -> nat, s: State) {
    if s.raised.Some? then exists c :: c in queue && h(c) >= 10 else InOrder(env, queue, h, s)
  }

  lemma {:induction false} AlwaysInOrder(env: Env, queue: seq<ClassId>, h: ClassId -> nat, n: nat)
    requires Distinct(queue) && Heights(env, queue, h) && Falling(queue, h)
    ensures InOrderAt(env, queue, h, Iterate(env, Start(env, queue), n))
  {
    hide InOrder;
    hide Step;
    hide Heights;
    if n == 0 {
      StartsInOrder(env, queue, h);
    } else {
      AlwaysInOrder(env, queue, h, n - 1);
      var s := Iterate(env, Start(env, queue), n - 1);
      if s.raised.None? {
        StepKeepsOrder(env, queue, h, s);
      } else {
        HaltedStep(env, s);
      }
    }
  }

  lemma HaltedStep(env: Env, s: State)
    requires Halted(s)
    ensures Step(env, s) == s
  {
  }

  /** Queued with the height falling, every class is postponed exactly as often as its height,
      and the scan raises exactly when some height reaches the limit. */
  lemma FallingOrderIsExact(env: Env, queue: seq<ClassId>, h: ClassId -> nat)
    requires Distinct(queue) && Heights(env, queue, h) && Falling(queue, h)
    ensures Final(env, queue).raised.Some? <==> exists c :: c in queue && h(c) >= 10
    ensures Final(env, queue).raised.None? ==>
      forall c :: c in queue ==> c in Final(env, queue).registered && Count(Final(env, queue).postponed, c) == h(c)
  {
    hide Iterate;
    hide Heights;
    hide Falling;
    hide InOrder;
    AlwaysInOrder(env, queue, h, 10 * |queue|);
    HaltsInTime(env, queue, 0);
    if Final(env, queue).raised.None? {
      NothingLeft(env, queue, h, Final(env, queue));
    }
  }

  lemma NothingLeft(env: Env, queue: seq<ClassId>, h: ClassId -> nat, s: State)
    requires InOrder(env, queue, h, s) && s.queue == []
    ensures forall c :: c in queue ==> c in s.registered && Count(s.postponed, c) == h(c) < 10
  {
    hide Rotating;
    hide SortedByHeight;
  }

  // ----- which classes are safe in every order -----

  /** The shortest chain with which `c` is eligible. */
  ghost function LeastDepth(env: Env, pool: set<ClassId>, c: ClassId, m: nat): (k: nat)
    requires Eligible(env, pool, c, m)
    ensures 0 < k && Eligible(env, pool, c, k) && !Eligible(env, pool, c, k - 1)
  {
    if Eligible(env, pool, c, m - 1) then LeastDepth(env, pool, c, m - 1) else m
  }

  ghost function HeightOf(env: Env, pool: set<ClassId>, c: ClassId): nat {
    if EligibleAtAll(env, pool, c) then
      var m: nat :| Eligible(env, pool, c, m);
      LeastDepth(env, pool, c, m) - 1
    else 0
  }

  lemma HeightIsLeast(env: Env, pool: set<ClassId>, c: ClassId, k: nat)
    requires EligibleAtAll(env, pool, c)
    ensures Eligible(env, pool, c, k) <==> k > HeightOf(env, pool, c)
  {
    var height := HeightOf(env, pool, c);
    assert Eligible(env, pool, c, height + 1) && !Eligible(env, pool, c, height);
    if k > height {
      EligibleMonotone(env, pool, c, height + 1, k);
    } else if Eligible(env, pool, c, k) {
      EligibleMonotone(env, pool, c, k, height);
    }
  }

  lemma HeightOfBase(env: Env, pool: set<ClassId>, c: ClassId, b: ClassId)
    requires EligibleAtAll(env, pool, c) && b in env.decl(c).bases && b !in env.prior
    ensures b in pool && EligibleAtAll(env, pool, b) && HeightOf(env, pool, b) < HeightOf(env, pool, c)
  {
    var height := HeightOf(env, pool, c);
    HeightIsLeast(env, pool, c, height + 1);
    assert Eligible(env, pool, b, height);
    HeightIsLeast(env, pool, b, height);
  }

  lemma HighestBase(env: Env, pool: set<ClassId>, c: ClassId) returns (b: ClassId)
    requires EligibleAtAll(env, pool, c) && HeightOf(env, pool, c) > 0
    ensures b in env.decl(c).bases && b !in env.prior && HeightOf(env, pool, b) == HeightOf(env, pool, c) - 1
  {
    var height := HeightOf(env, pool, c);
    HeightIsLeast(env, pool, c, height);
    HeightIsLeast(env, pool, c, height + 1);
    b :| b in env.decl(c).bases && b !in env.prior && !Eligible(env, pool, b, height - 1);
    HeightOfBase(env, pool, c, b);
    HeightIsLeast(env, pool, b, height - 1);
  }

  /** Only bases hold the queued classes back, and every one of them can be registered. */
  ghost predicate OnlyBasesWait(env: Env, queue: seq<ClassId>) {
    forall c :: c in queue ==> EligibleAtAll(env, Elements(queue), c) && NoOpenConversion(env, queue, c)
  }

  lemma HeightsExist(env: Env, queue: seq<ClassId>, h: ClassId -> nat)
    requires OnlyBasesWait(env, queue) && forall c :: h(c) == HeightOf(env, Elements(queue), c)
    ensures Heights(env, queue, h)
  {
    hide HeightOf;
    hide NoOpenConversion;
    hide Eligible;
    var pool := Elements(queue);
    forall c | c in queue ensures Stands(env, queue, h, c) {
      HeightIsLeast(env, pool, c, h(c) + 1);
      EligiblePasses(env, pool, c, h(c) + 1);
      forall b | b in env.decl(c).bases && b !in env.prior ensures b in queue && h(b) < h(c) {
        HeightOfBase(env, pool, c, b);
      }
      if h(c) > 0 {
        var b := HighestBase(env, pool, c);
      }
    }
  }

  lemma EligiblePasses(env: Env, pool: set<ClassId>, c: ClassId, m: nat)
    requires Eligible(env, pool, c, m)
    ensures env.decl(c).named && !env.decl(c).ignored && !env.decl(c).privateArgument
  {
  }

  lemma InsertMembers(queue: seq<ClassId>, i: nat, c: ClassId)
    requires i <= |queue|
    ensures multiset(queue[..i] + [c] + queue[i..]) == multiset(queue) + multiset{c}
  {
    assert queue == queue[..i] + queue[i..];
  }

  lemma InsertFalling(queue: seq<ClassId>, c: ClassId, h: ClassId -> nat) returns (r: seq<ClassId>)
    requires Falling(queue, h)
    ensures Falling(r, h) && multiset(r) == multiset(queue) + multiset{c}
  {
    var i := 0;
    while i < |queue| && h(queue[i]) >= h(c)
      invariant i <= |queue|
      invariant forall j :: 0 <= j < i ==> h(queue[j]) >= h(c)
    {
      i := i + 1;
    }
    r := queue[..i] + [c] + queue[i..];
    InsertMembers(queue, i, c);
    assert i < |queue| ==> forall j :: i <= j < |queue| ==> h(queue[j]) <= h(queue[i]);
    assert forall k :: 0 <= k < |r| ==> r[k] == if k < i then queue[k] else if k == i then c else queue[k - 1];
  }

  lemma {:induction false} SortFalling(queue: seq<ClassId>, h: ClassId -> nat) returns (r: seq<ClassId>)
    ensures Falling(r, h) && multiset(r) == multiset(queue)
  {
    if queue == [] {
      r := [];
    } else {
      var front, last := queue[..|queue| - 1], queue[|queue| - 1];
      r := SortFalling(front, h);
      r := InsertFalling(r, last, h);
      assert queue == front + [last];
      hide Falling;
    }
  }

  lemma SameElements(queue: seq<ClassId>, other: seq<ClassId>)
    requires multiset(queue) == multiset(other)
    ensures forall c :: c in queue <==> c in other
    ensures Elements(queue) == Elements(other)
  {
    forall c ensures c in queue <==> c in other {
      assert c in queue <==> c in multiset(queue);
      assert c in other <==> c in multiset(other);
    }
  }

  lemma {:induction false} DistinctOnce(queue: seq<ClassId>)
    ensures Distinct(queue) <==> forall c :: multiset(queue)[c] <= 1
  {
    if queue != [] {
      var c, rest := queue[0], queue[1..];
      assert queue == [c] + rest;
      DistinctOnce(rest);
      assert multiset(queue)[c] == 1 + multiset(rest)[c];
      assert c in rest <==> multiset(rest)[c] > 0;
      assert forall d :: multiset(rest)[d] <= multiset(queue)[d];
      assert Distinct(queue) <==> c !in rest && Distinct(rest) by { DistinctCons(c, rest); }
    }
  }

  lemma DistinctCons(c: ClassId, rest: seq<ClassId>)
    ensures Distinct([c] + rest) <==> c !in rest && Distinct(rest)
  {
    var all := [c] + rest;
    assert forall i :: 0 <= i < |rest| ==> all[i + 1] == rest[i];
    if c in rest {
      var i :| 0 <= i < |rest| && rest[i] == c;
      assert all[0] == all[i + 1];
    }
    if !Distinct(rest) {
      var i, j :| 0 <= i < j < |rest| && rest[i] == rest[j];
      assert all[i + 1] == all[j + 1];
    }
  }

  lemma StandsInAnyOrder(env: Env, queue: seq<ClassId>, other: seq<ClassId>, h: ClassId -> nat, c: ClassId)
    requires Stands(env, queue, h, c) && forall d :: d in queue <==> d in other
    ensures Stands(env, other, h, c)
  {
    assert forall t :: Spelled(env, other, t) ==> Spelled(env, queue, t);
  }

  lemma StandsAbove(env: Env, queue: seq<ClassId>, h: ClassId -> nat, c: ClassId, d: ClassId)
    requires Stands(env, queue, h, c) && d in queue && DependsOn(env, c, d)
    ensures h(d) < h(c)
  {
    if Some(env.decl(d).spelling) in env.decl(c).conversions && env.decl(d).spelling !in env.priorNames {
      assert Spelled(env, queue, env.decl(d).spelling);
    }
  }

  lemma HeightsInAnyOrder(env: Env, queue: seq<ClassId>, other: seq<ClassId>, h: ClassId -> nat)
    requires Heights(env, queue, h) && forall d :: d in queue <==> d in other
    ensures Heights(env, other, h) && Ranked(env, other, h)
  {
    hide Stands;
    hide DependsOn;
    forall c | c in other ensures Stands(env, other, h, c) {
      StandsInAnyOrder(env, queue, other, h, c);
    }
    forall c, d | c in other && d in other && c != d && DependsOn(env, c, d) ensures h(d) < h(c) {
      StandsAbove(env, other, h, c, d);
    }
  }

  lemma ShallowIsSafe(env: Env, queue: seq<ClassId>, h: ClassId -> nat, other: seq<ClassId>)
    requires Distinct(queue) && Heights(env, queue, h) && multiset(other) == multiset(queue)
    requires forall c :: c in queue ==> h(c) < 10
    ensures Final(env, other).raised.None?
  {
    hide Final;
    hide Heights;
    hide Ranked;
    SameElements(queue, other);
    DistinctOnce(queue);
    DistinctOnce(other);
    hide Distinct;
    HeightsInAnyOrder(env, queue, other, h);
    ShallowGraphsNeverRaise(env, other, h);
  }

  lemma DeepIsUnsafe(env: Env, queue: seq<ClassId>, h: ClassId -> nat) returns (other: seq<ClassId>)
    requires Distinct(queue) && Heights(env, queue, h)
    requires exists c :: c in queue && h(c) >= 10
    ensures multiset(other) == multiset(queue) && Final(env, other).raised.Some?
  {
    hide Final;
    hide Heights;
    hide Ranked;
    hide Falling;
    other := SortFalling(queue, h);
    SameElements(queue, other);
    DistinctOnce(queue);
    DistinctOnce(other);
    hide Distinct;
    HeightsInAnyOrder(env, queue, other, h);
    FallingOrderIsExact(env, other, h);
  }

  /** Classes that only bases hold back are registered whatever the order of the queue if and
      only if none of them needs a chain of more than ten queued classes. */
  lemma EveryOrderSafeIff(env: Env, queue: seq<ClassId>)
    requires Distinct(queue) && OnlyBasesWait(env, queue)
    ensures (forall other: seq<ClassId> :: multiset(other) == multiset(queue) ==> Final(env, other).raised.None?)
      <==> forall c :: c in queue ==> Eligible(env, Elements(queue), c, 10)
  {
    hide Final;
    hide Eligible;
    var pool := Elements(queue);
    var h := (c: ClassId) => HeightOf(env, pool, c);
    HeightsExist(env, queue, h);
    forall c | c in queue ensures Eligible(env, pool, c, 10) <==> h(c) < 10 {
      HeightIsLeast(env, pool, c, 10);
    }
    hide OnlyBasesWait;
    hide Heights;
    hide Distinct;
    if forall c :: c in queue ==> h(c) < 10 {
      forall other: seq<ClassId> | multiset(other) == multiset(queue) ensures Final(env, other).raised.None? {
        ShallowIsSafe(env, queue, h, other);
      }
    } else {
      var other := DeepIsUnsafe(env, queue, h);
    }
  }

  /** Class `c` derives from class `c - 1`. */
  function ChainDecl(c: ClassId): ClassDecl {
    ClassDecl(false, true, if c == 0 then [] else [c - 1], [], false, "", {})
  }

  function Chain(): Env {
    Env(ChainDecl, {}, {})
  }

  /** The classes `hi`, `hi - 1`, ..., `0`: every class ahead of its base. */
  function Down(hi: nat): (r: seq<ClassId>)
    ensures |r| == hi + 1
    ensures forall i :: 0 <= i < |r| ==> r[i] == hi - i
  {
    if hi == 0 then [0] else [hi] + Down(hi - 1)
  }

  lemma ChainHeights(top: nat, h: ClassId -> nat)
    requires forall c :: h(c) == c
    ensures Heights(Chain(), Down(top), h)
  {
    forall c | c in Down(top) ensures Stands(Chain(), Down(top), h, c) {
      if c > 0 {
        assert Down(top)[top - (c - 1)] == c - 1;
        assert Chain().decl(c).bases[0] == c - 1;
        assert c - 1 in Chain().decl(c).bases && h(c - 1) == h(c) - 1;
      }
    }
  }

  /** A derivation chain queued derived-first raises exactly when it is longer than ten
      classes. */
  lemma ChainRaisesIffTooDeep(top: nat)
    ensures Final(Chain(), Down(top)).raised.Some? <==> top >= 10
  {
    hide Final;
    hide Heights;
    hide Chain;
    var h := (c: ClassId) => c;
    ChainHeights(top, h);
    FallingOrderIsExact(Chain(), Down(top), h);
    assert Down(top)[0] == top && h(top) == top;
  }

  // ----- when the scan must raise -----

  /** `c` waits for `d`: as a base not registered before, or as the only conversion target. */
  predicate WaitsFor(env: Env, c: ClassId, d: ClassId) {
    && d != c
    && ((d in env.decl(c).bases && d !in env.prior) || SoleTarget(env, c, env.decl(d).spelling))
  }

  /** Queued classes each of which waits for another of them, and whose remaining bases can
      all be registered.  No other class makes one of their names known. */
  ghost predicate Knotted(env: Env, queue: seq<ClassId>, knot: set<ClassId>, next: ClassId -> ClassId) {
    && knot != {}
    && (forall c :: c in knot ==>
          c in queue && env.decl(c).named && !env.decl(c).ignored && next(c) in knot && WaitsFor(env, c, next(c)))
    && (forall c, b :: c in knot && b in env.decl(c).bases ==>
          b in env.prior || (b in knot && b != c) || EligibleAtAll(env, Elements(queue), b))
    && (forall d :: d in knot ==> env.decl(d).spelling !in env.priorNames)
    && (forall d, e :: d in knot && e in queue && e !in knot ==> env.decl(d).spelling !in env.decl(e).exports)
  }

  ghost predicate StillKnotted(env: Env, knot: set<ClassId>, s: State) {
    forall d :: d in knot ==> d in s.queue && d !in s.registered && env.decl(d).spelling !in s.known
  }

  /** An eligible class that is not yet registered is still in the queue. */
  lemma EligibleIsQueued(env: Env, queue: seq<ClassId>, n: nat, b: ClassId)
    requires EligibleAtAll(env, Elements(queue), b)
    requires Iterate(env, Start(env, queue), n).raised.None?
    ensures var s := Iterate(env, Start(env, queue), n); b in s.queue || b in s.registered
  {
    var m: nat :| Eligible(env, Elements(queue), b, m);
    OneExit(env, queue, n, b);
    DroppedAreIneligible(env, queue, n);
  }

  lemma NotOwnBase(env: Env, pool: set<ClassId>, c: ClassId)
    requires c in env.decl(c).bases && c !in env.prior
    ensures !EligibleAtAll(env, pool, c)
  {
    forall m: nat ensures !Eligible(env, pool, c, m) {
      NeverOwnBase(env, pool, c, m);
    }
  }

  lemma KnotBase(env: Env, queue: seq<ClassId>, knot: set<ClassId>, next: ClassId -> ClassId, c: ClassId, b: ClassId)
    requires Knotted(env, queue, knot, next) && c in knot && b in env.decl(c).bases
    ensures b in env.prior || (b in knot && b != c) || EligibleAtAll(env, Elements(queue), b)
  {
  }

  lemma KnotMember(env: Env, queue: seq<ClassId>, knot: set<ClassId>, next: ClassId -> ClassId, c: ClassId)
    requires Knotted(env, queue, knot, next) && c in knot
    ensures env.decl(c).named && !env.decl(c).ignored && next(c) in knot && WaitsFor(env, c, next(c))
  {
  }

  lemma BasesDoNotDrop(env: Env, queue: seq<ClassId>, knot: set<ClassId>, next: ClassId -> ClassId, n: nat)
    requires Knotted(env, queue, knot, next)
    requires var s := Iterate(env, Start(env, queue), n);
      !Halted(s) && StillKnotted(env, knot, s) && s.queue[0] in knot
    ensures var s := Iterate(env, Start(env, queue), n);
      JudgeBases(env, s.registered, s.queue[1..], env.decl(s.queue[0]).bases) != Drop
  {
    hide EligibleAtAll;
    hide Iterate;
    hide Knotted;
    hide JudgeBases;
    var s := Iterate(env, Start(env, queue), n);
    var c, rest := s.queue[0], s.queue[1..];
    forall b | b in env.decl(c).bases && !IsRegistered(env, s.registered, b)
      ensures b in rest
    {
      assert s.queue == [c] + rest;
      KnotBase(env, queue, knot, next, c, b);
      if b !in knot || b == c {
        EligibleIsQueued(env, queue, n, b);
        if b == c {
          NotOwnBase(env, Elements(queue), c);
        }
      }
    }
  }

  lemma KnotIsPostponed(env: Env, queue: seq<ClassId>, knot: set<ClassId>, next: ClassId -> ClassId, n: nat)
    requires Knotted(env, queue, knot, next)
    requires var s := Iterate(env, Start(env, queue), n);
      !Halted(s) && StillKnotted(env, knot, s) && s.queue[0] in knot
    ensures var s := Iterate(env, Start(env, queue), n);
      Judge(env, s, s.queue[1..], s.queue[0]) == Postpone
  {
    hide Iterate;
    hide Knotted;
    hide SoleTarget;
    var s := Iterate(env, Start(env, queue), n);
    var c, rest := s.queue[0], s.queue[1..];
    BasesDoNotDrop(env, queue, knot, next, n);
    KnotMember(env, queue, knot, next, c);
    if JudgeBases(env, s.registered, rest, env.decl(c).bases) == Register {
      var d := next(c);
      SoleTargetDecides(env, s.known, rest, c, env.decl(d).spelling);
      assert s.queue == [c] + rest;
      assert d in rest;
    }
  }

  lemma StepKeepsKnot(env: Env, knot: set<ClassId>, s: State)
    requires !Halted(s) && StillKnotted(env, knot, s)
    requires s.queue[0] in knot ==> Judge(env, s, s.queue[1..], s.queue[0]) == Postpone
    requires forall d :: d in knot && s.queue[0] !in knot ==> env.decl(d).spelling !in env.decl(s.queue[0]).exports
    ensures Step(env, s).raised.None? ==> StillKnotted(env, knot, Step(env, s))
  {
    assert s.queue == [s.queue[0]] + s.queue[1..];
  }

  lemma KnotSurvives(env: Env, queue: seq<ClassId>, knot: set<ClassId>, next: ClassId -> ClassId, n: nat)
    requires Knotted(env, queue, knot, next)
    requires StillKnotted(env, knot, Iterate(env, Start(env, queue), n))
    ensures var t := Step(env, Iterate(env, Start(env, queue), n)); t.raised.None? ==> StillKnotted(env, knot, t)
  {
    hide Iterate;
    var s := Iterate(env, Start(env, queue), n);
    if !Halted(s) {
      hide Step;
      hide Judge;
      hide StillKnotted;
      if s.queue[0] in knot {
        KnotIsPostponed(env, queue, knot, next, n);
      } else {
        OneExit(env, queue, n, s.queue[0]);
      }
      StepKeepsKnot(env, knot, s);
    }
  }

  lemma KnottedAtStart(env: Env, queue: seq<ClassId>, knot: set<ClassId>, next: ClassId -> ClassId)
    requires Knotted(env, queue, knot, next)
    ensures StillKnotted(env, knot, Start(env, queue))
  {
    hide WaitsFor;
    hide EligibleAtAll;
  }

  lemma RaisedStays(env: Env, s: State)
    requires Step(env, s).raised.None?
    ensures s.raised.None?
  {
  }

  lemma {:induction false} KnotStays(env: Env, queue: seq<ClassId>, knot: set<ClassId>, next: ClassId -> ClassId, n: nat)
    requires Knotted(env, queue, knot, next)
    ensures Iterate(env, Start(env, queue), n).raised.None? ==> StillKnotted(env, knot, Iterate(env, Start(env, queue), n))
  {
    hide Knotted;
    hide StillKnotted;
    hide Step;
    if n == 0 {
      KnottedAtStart(env, queue, knot, next);
    } else if Iterate(env, Start(env, queue), n).raised.None? {
      RaisedStays(env, Iterate(env, Start(env, queue), n - 1));
      KnotStays(env, queue, knot, next, n - 1);
      KnotSurvives(env, queue, knot, next, n - 1);
    }
  }

  /** A knot of classes, such as a cycle of conversions, always ends in the AssertionError. */
  lemma KnotRaises(env: Env, queue: seq<ClassId>, knot: set<ClassId>, next: ClassId -> ClassId)
    requires Knotted(env, queue, knot, next)
    ensures Final(env, queue).raised.Some?
  {
    var n := 10 * |queue|;
    KnotStays(env, queue, knot, next, n);
    HaltsInTime(env, queue, n);
    var c :| c in knot;
    assert Final(env, queue).raised.None? ==> c in Final(env, queue).queue;
  }

  lemma EligibleBases(env: Env, pool: set<ClassId>, c: ClassId)
    requires EligibleAtAll(env, pool, c)
    ensures env.decl(c).named && !env.decl(c).ignored
    ensures forall b :: b in env.decl(c).bases ==> b in env.prior || EligibleAtAll(env, pool, b)
  {
    var m: nat :| Eligible(env, pool, c, m);
    forall b | b in env.decl(c).bases && b !in env.prior ensures EligibleAtAll(env, pool, b) {
      assert Eligible(env, pool, b, m - 1);
    }
  }

  /** Two eligible classes that convert to each other cannot be registered together. */
  lemma MutualConversionRaises(env: Env, queue: seq<ClassId>, a: ClassId, b: ClassId)
    requires a in queue && b in queue && a != b
    requires SoleTarget(env, a, env.decl(b).spelling) && SoleTarget(env, b, env.decl(a).spelling)
    requires EligibleAtAll(env, Elements(queue), a) && EligibleAtAll(env, Elements(queue), b)
    requires NameIsPlain(env, queue, env.decl(a).spelling) && NameIsPlain(env, queue, env.decl(b).spelling)
    ensures Final(env, queue).raised.Some?
  {
    hide EligibleAtAll;
    hide SoleTarget;
    hide Final;
    EligibleBases(env, Elements(queue), a);
    EligibleBases(env, Elements(queue), b);
    var knot, next := {a, b}, (c: ClassId) => if c == a then b else a;
    assert Knotted(env, queue, knot, next) by {
      assert WaitsFor(env, a, next(a)) && WaitsFor(env, b, next(b));
      hide WaitsFor;
      assert forall c :: c in knot ==> c == a || c == b;
    }
    KnotRaises(env, queue, knot, next);
  }
}
