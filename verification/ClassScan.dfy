/**
 * The class-registration worklist of PyBindGen's CastXML parser.
 *
 * Classes wait in a FIFO queue.  The class at the front is registered, dropped, or put
 * back at the end because a base class or the target of a conversion operator is still
 * queued.  The tenth postponement of one class raises an AssertionError.
 */
module ClassScan {
  import opened Common

  type ClassId = nat
  type Name = string

  /** What the scan reads about one class.  A conversion is `Some(n)` when the operator
      returns the class named `n`, and `None` when its return type is not a class.
      `spelling` is the normalised declaration string by which a conversion finds the class in
      the queue; `exports` are the names the root module answers to once it is registered. */
  datatype ClassDecl = ClassDecl(
    ignored: bool,
    named: bool,
    bases: seq<ClassId>,
    conversions: seq<Option<Name>>,
    privateArgument: bool,
    spelling: Name,
    exports: set<Name>)

  /** The declarations, and what was registered before this scan. */
  datatype Env = Env(decl: ClassId -> ClassDecl, prior: set<ClassId>, priorNames: set<Name>)

  /** `registered` and `dropped` are in the order of the events. */
  datatype State = State(
    queue: seq<ClassId>,
    registered: seq<ClassId>,
    dropped: seq<ClassId>,
    known: set<Name>,
    postponed: map<ClassId, nat>,
    raised: Option<ClassId>)

  datatype Verdict = Register | Drop | Postpone

  const POSTPONE_LIMIT: nat := 10

  function Start(env: Env, queue: seq<ClassId>): State {
    State(queue, [], [], env.priorNames, map[], None)
  }

  predicate Halted(s: State) {
    s.queue == [] || s.raised.Some?
  }

  function Count(postponed: map<ClassId, nat>, c: ClassId): nat {
    if c in postponed then postponed[c] else 0
  }

  predicate IsRegistered(env: Env, registered: seq<ClassId>, c: ClassId) {
    c in env.prior || c in registered
  }

  predicate Spelled(env: Env, queue: seq<ClassId>, n: Name) {
    exists d :: d in queue && env.decl(d).spelling == n
  }

  // ----- one step -----

  /** The verdict of the loop over the base classes: the first unregistered base decides. */
  function JudgeBases(env: Env, registered: seq<ClassId>, queue: seq<ClassId>, bases: seq<ClassId>): (v: Verdict)
    ensures v == Register <==> forall b :: b in bases ==> IsRegistered(env, registered, b)
    ensures v != Register ==>
      exists i :: 0 <= i < |bases|
        && !IsRegistered(env, registered, bases[i])
        && (forall j :: 0 <= j < i ==> IsRegistered(env, registered, bases[j]))
        && (v == Postpone <==> bases[i] in queue)
  {
    if bases == [] then Register
    else if !IsRegistered(env, registered, bases[0]) then
      (if bases[0] in queue then Postpone else Drop)
    else
      JudgeBases(env, registered, queue, bases[1..])
  }

  /** The loop over the conversion operators: it stops at the first class-typed target that
      the root module does not know, and that target alone decides. */
  predicate ConversionsSettled(env: Env, known: set<Name>, queue: seq<ClassId>, conversions: seq<Option<Name>>) {
    if conversions == [] then true
    else if conversions[0].Some? && conversions[0].value !in known then
      !Spelled(env, queue, conversions[0].value)
    else
      ConversionsSettled(env, known, queue, conversions[1..])
  }

  /** What happens to class `c`, just popped, when `queue` holds the remaining classes. */
  function Judge(env: Env, s: State, queue: seq<ClassId>, c: ClassId): Verdict {
    var d := env.decl(c);
    if d.ignored || !d.named then Drop
    else
      var v := JudgeBases(env, s.registered, queue, d.bases);
      if v != Register then v
      else if !ConversionsSettled(env, s.known, queue, d.conversions) then Postpone
      else if d.privateArgument then Drop
      else Register
  }

  function Postponed(s: State, queue: seq<ClassId>, c: ClassId): State {
    var n := Count(s.postponed, c) + 1;
    if n >= POSTPONE_LIMIT then
      s.(queue := queue, postponed := s.postponed[c := n], raised := Some(c))
    else
      s.(queue := queue + [c], postponed := s.postponed[c := n])
  }

  /** One iteration of the worklist loop; a halted scan stays as it is. */
  function Step(env: Env, s: State): State {
    if Halted(s) then s
    else
      var c, rest := s.queue[0], s.queue[1..];
      match Judge(env, s, rest, c)
      case Drop => s.(queue := rest, dropped := s.dropped + [c])
      case Postpone => Postponed(s, rest, c)
      case Register =>
        s.(queue := rest, registered := s.registered + [c], known := s.known + env.decl(c).exports)
  }

  /** The state after `n` iterations. */
  function Iterate(env: Env, s: State, n: nat): State {
    if n == 0 then s else Step(env, Iterate(env, s, n - 1))
  }

  /** The state in which the scan of `queue` ends; see `HaltsInTime`. */
  function Final(env: Env, queue: seq<ClassId>): State {
    Iterate(env, Start(env, queue), 10 * |queue|)
  }

  // ----- halting -----

  function Budget(postponed: map<ClassId, nat>, c: ClassId): (b: nat)
    ensures b >= 1
  {
    if Count(postponed, c) <= 9 then 10 - Count(postponed, c) else 1
  }

  function Fuel(queue: seq<ClassId>, postponed: map<ClassId, nat>): nat {
    if queue == [] then 0 else Budget(postponed, queue[0]) + Fuel(queue[1..], postponed)
  }

  lemma {:induction false} FuelAppend(queue: seq<ClassId>, c: ClassId, postponed: map<ClassId, nat>)
    ensures Fuel(queue + [c], postponed) == Fuel(queue, postponed) + Budget(postponed, c)
  {
    if queue == [] {
      assert Fuel([c], postponed) == Budget(postponed, c) + Fuel([], postponed);
    } else {
      assert (queue + [c])[1..] == queue[1..] + [c];
      FuelAppend(queue[1..], c, postponed);
    }
  }

  lemma {:induction false} FuelAfterBump(queue: seq<ClassId>, c: ClassId, postponed: map<ClassId, nat>)
    ensures Fuel(queue, postponed[c := Count(postponed, c) + 1]) <= Fuel(queue, postponed)
  {
    if queue != [] {
      FuelAfterBump(queue[1..], c, postponed);
    }
  }

  /** Every iteration strictly lowers the sum of the remaining postponements. */
  lemma StepBurnsFuel(env: Env, s: State)
    requires !Halted(s)
    ensures Step(env, s).raised.None? ==>
      Fuel(Step(env, s).queue, Step(env, s).postponed) < Fuel(s.queue, s.postponed)
  {
    var c, rest := s.queue[0], s.queue[1..];
    if Judge(env, s, rest, c) == Postpone {
      var n := Count(s.postponed, c) + 1;
      FuelAfterBump(rest, c, s.postponed);
      FuelAppend(rest, c, s.postponed[c := n]);
    }
  }

  lemma {:induction false} HaltsWithFuel(env: Env, s: State, n: nat)
    ensures Halted(Iterate(env, s, n))
      || n + Fuel(Iterate(env, s, n).queue, Iterate(env, s, n).postponed) <= Fuel(s.queue, s.postponed)
  {
    if n > 0 {
      HaltsWithFuel(env, s, n - 1);
      if !Halted(Iterate(env, s, n - 1)) {
        StepBurnsFuel(env, Iterate(env, s, n - 1));
      }
    }
  }

  lemma {:induction false} FreshFuel(queue: seq<ClassId>)
    ensures Fuel(queue, map[]) == 10 * |queue|
  {
    if queue != [] {
      FreshFuel(queue[1..]);
    }
  }

  lemma {:induction false} HaltedStays(env: Env, s: State, m: nat, n: nat)
    requires m <= n && Halted(Iterate(env, s, m))
    ensures Iterate(env, s, n) == Iterate(env, s, m)
    decreases n
  {
    if m < n {
      HaltedStays(env, s, m, n - 1);
    }
  }

  /** The worklist halts after at most ten iterations per class, whatever the declarations. */
  lemma HaltsInTime(env: Env, queue: seq<ClassId>, n: nat)
    ensures Halted(Final(env, queue))
    ensures n >= 10 * |queue| ==> Halted(Iterate(env, Start(env, queue), n))
    ensures Halted(Iterate(env, Start(env, queue), n)) ==> Iterate(env, Start(env, queue), n) == Final(env, queue)
  {
    var s := Start(env, queue);
    var limit := 10 * |queue|;
    FreshFuel(queue);
    HaltsWithFuel(env, s, limit);
    if n >= limit { HaltedStays(env, s, limit, n); }
    if Halted(Iterate(env, s, n)) {
      if n <= limit { HaltedStays(env, s, n, limit); } else { HaltedStays(env, s, limit, n); }
    }
  }

  // ----- the loop itself -----

  /** The parser object's fields and local lists that the loop updates. */
  class Scanner {
    const env: Env
    var queue: seq<ClassId>
    var registered: seq<ClassId>
    var dropped: seq<ClassId>
    var known: set<Name>
    var postponed: map<ClassId, nat>
    var raised: Option<ClassId>

    ghost function View(): State
      reads this
    {
      State(queue, registered, dropped, known, postponed, raised)
    }

    constructor (env: Env, classes: seq<ClassId>)
      ensures this.env == env && View() == Start(env, classes)
    {
      this.env := env;
      queue, registered, dropped := classes, [], [];
      known, postponed, raised := env.priorNames, map[], None;
    }

    method CheckBases(c: ClassId) returns (v: Verdict)
      ensures v == JudgeBases(env, registered, queue, env.decl(c).bases)
    {
      var bases := env.decl(c).bases;
      var i := 0;
      while i < |bases|
        invariant 0 <= i <= |bases|
        invariant JudgeBases(env, registered, queue, bases) == JudgeBases(env, registered, queue, bases[i..])
      {
        if !IsRegistered(env, registered, bases[i]) {
          return if bases[i] in queue then Postpone else Drop;
        }
        assert bases[i..][1..] == bases[i + 1..];
        i := i + 1;
      }
      v := Register;
    }

    method CheckConversions(c: ClassId) returns (ok: bool)
      ensures ok == ConversionsSettled(env, known, queue, env.decl(c).conversions)
    {
      var conversions := env.decl(c).conversions;
      var i := 0;
      while i < |conversions|
        invariant 0 <= i <= |conversions|
        invariant ConversionsSettled(env, known, queue, conversions)
          == ConversionsSettled(env, known, queue, conversions[i..])
      {
        if conversions[i].Some? && conversions[i].value !in known {
          return !Spelled(env, queue, conversions[i].value);
        }
        assert conversions[i..][1..] == conversions[i + 1..];
        i := i + 1;
      }
      ok := true;
    }

    method PostponeClass(c: ClassId)
      modifies this
      ensures View() == Postponed(old(View()), old(queue), c)
      ensures Count(postponed, c) == old(Count(postponed, c)) + 1
      ensures if Count(postponed, c) >= 10 then raised == Some(c) && queue == old(queue) else queue == old(queue) + [c]
    {
      var n := Count(postponed, c) + 1;
      postponed := postponed[c := n];
      if n >= POSTPONE_LIMIT {
        raised := Some(c);
      } else {
        queue := queue + [c];
      }
    }

    /** One iteration: the class at the front is popped and judged. */
    method ScanOne()
      requires !Halted(View())
      modifies this
      ensures View() == Step(env, old(View()))
    {
      hide JudgeBases;
      hide ConversionsSettled;
      var c := queue[0];
      queue := queue[1..];
      var d := env.decl(c);
      if d.ignored || !d.named {
        dropped := dropped + [c];
        return;
      }
      var v := CheckBases(c);
      if v == Postpone {
        PostponeClass(c);
        return;
      }
      if v == Drop {
        dropped := dropped + [c];
        return;
      }
      var ok := CheckConversions(c);
      if !ok {
        PostponeClass(c);
        return;
      }
      if d.privateArgument {
        dropped := dropped + [c];
        return;
      }
      registered := registered + [c];
      known := known + d.exports;
    }

    /** The whole scan; it raises when `raised` is set, and otherwise empties the queue. */
    method Scan()
      requires View() == Start(env, queue)
      modifies this
      ensures View() == Final(env, old(queue))
      ensures raised.None? ==> queue == []
    {
      ghost var n := 0;
      ghost var start := View();
      while queue != [] && raised.None?
        invariant View() == Iterate(env, start, n)
        decreases raised.None?, Fuel(queue, postponed)
      {
        StepBurnsFuel(env, View());
        ScanOne();
        n := n + 1;
      }
      HaltsInTime(env, start.queue, n);
    }
  }
}
