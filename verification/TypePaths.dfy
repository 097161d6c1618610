/**
 * The configuration-path collector of print-introspected-doxygen: a recursive walk over the
 * cyclic graph of types, in which the types on the current path form a stack.
 */
module TypePaths {

  type TypeId = nat

  /** The two checkers that lead to another type, and any other attribute. */
  datatype Attribute =
    | Pointer(name: string, pointee: TypeId)
    | Container(name: string, item: TypeId)
    | Plain(name: string)

  datatype Edge = Edge(segment: string, target: TypeId)

  /** The type system as the walk queries it; `aggregates` are the recorded pairs. */
  datatype Graph = Graph(
    attributes: TypeId -> seq<Attribute>,
    registered: seq<TypeId>,
    isChildOf: (TypeId, TypeId) -> bool,
    name: TypeId -> string,
    objectType: TypeId,
    aggregates: seq<(TypeId, TypeId)>)

  // ----- edges, in the order of the three loops -----

  function AttributeEdge(g: Graph, a: Attribute): seq<Edge> {
    match a
    case Pointer(name, pointee) => if pointee == g.objectType then [] else [Edge(name, pointee)]
    case Container(name, item) => [Edge(name + "/[i]", item)]
    case Plain(_) => []
  }

  function ChildEdge(g: Graph, tid: TypeId, child: TypeId): seq<Edge> {
    if g.isChildOf(child, tid) then [Edge("$" + g.name(child), child)] else []
  }

  /** Both tests of the source run, so a pair of `tid` with itself leads back to `tid`. */
  function AggregateEdge(g: Graph, tid: TypeId, pair: (TypeId, TypeId)): seq<Edge> {
    if pair.1 == tid then [Edge("$" + g.name(pair.0), pair.0)]
    else if pair.0 == tid then [Edge("$" + g.name(pair.1), pair.1)]
    else []
  }

  /** The edges of a list of items, in order. */
  function EdgesOf<T>(rule: T -> seq<Edge>, items: seq<T>): seq<Edge> {
    if items == [] then [] else EdgesOf(rule, items[..|items| - 1]) + rule(items[|items| - 1])
  }

  function AttributeRule(g: Graph): Attribute -> seq<Edge> {
    (a: Attribute) => AttributeEdge(g, a)
  }

  function ChildRule(g: Graph, tid: TypeId): TypeId -> seq<Edge> {
    (child: TypeId) => ChildEdge(g, tid, child)
  }

  function AggregateRule(g: Graph, tid: TypeId): ((TypeId, TypeId)) -> seq<Edge> {
    (pair: (TypeId, TypeId)) => AggregateEdge(g, tid, pair)
  }

  function AttributeEdges(g: Graph, attributes: seq<Attribute>): seq<Edge> {
    EdgesOf(AttributeRule(g), attributes)
  }

  function ChildEdges(g: Graph, tid: TypeId, types: seq<TypeId>): seq<Edge> {
    EdgesOf(ChildRule(g, tid), types)
  }

  function AggregateEdges(g: Graph, tid: TypeId, pairs: seq<(TypeId, TypeId)>): seq<Edge> {
    EdgesOf(AggregateRule(g, tid), pairs)
  }

  function Edges(g: Graph, tid: TypeId): seq<Edge> {
    AttributeEdges(g, g.attributes(tid)) + ChildEdges(g, tid, g.registered) + AggregateEdges(g, tid, g.aggregates)
  }

  // ----- the edges, from the recorded data -----

  /** What an edge of a type stems from: an attribute, a registered type, or a recorded pair. */
  datatype Origin = AttributeAt(i: nat) | ChildAt(i: nat) | PairAt(i: nat)

  function Group(o: Origin): nat {
    match o
    case AttributeAt(_) => 0
    case ChildAt(_) => 1
    case PairAt(_) => 2
  }

  /** Attributes before child types before pairs, each in the order of recording. */
  predicate Earlier(a: Origin, b: Origin) {
    Group(a) < Group(b) || (Group(a) == Group(b) && a.i < b.i)
  }

  /** A pointer leads to its pointee under its name unless that is the Object type, a container
      to its items, a type to each registered child, and a pair from either side to the other. */
  predicate Gives(g: Graph, tid: TypeId, o: Origin, e: Edge) {
    match o
    case AttributeAt(i) =>
      && i < |g.attributes(tid)|
      && match g.attributes(tid)[i] {
         case Pointer(name, pointee) => pointee != g.objectType && e == Edge(name, pointee)
         case Container(name, item) => e == Edge(name + "/[i]", item)
         case Plain(_) => false
         }
    case ChildAt(i) =>
      i < |g.registered| && g.registered[i] == e.target && g.isChildOf(e.target, tid) && e.segment == "$" + g.name(e.target)
    case PairAt(i) =>
      && i < |g.aggregates|
      && (g.aggregates[i] == (tid, e.target) || g.aggregates[i] == (e.target, tid))
      && e.segment == "$" + g.name(e.target)
  }

  /** `at` tells which item each edge comes from: the items are increasing, and every item with
      an edge is among them. */
  ghost predicate Sources<T(!new)>(rule: T -> seq<Edge>, items: seq<T>, edges: seq<Edge>, at: seq<nat>) {
    && |at| == |edges|
    && (forall k :: 0 <= k < |at| ==> at[k] < |items| && rule(items[at[k]]) == [edges[k]])
    && (forall j, k :: 0 <= j < k < |at| ==> at[j] < at[k])
    && (forall i :: 0 <= i < |items| && rule(items[i]) != [] ==> i in at)
  }

  lemma SourcesSnoc<T(!new)>(rule: T -> seq<Edge>, items: seq<T>, edges: seq<Edge>, at: seq<nat>)
    requires items != [] && Sources(rule, items[..|items| - 1], edges, at)
    ensures var n := |items| - 1;
      && (rule(items[n]) == [] ==> Sources(rule, items, edges, at))
      && (|rule(items[n])| == 1 ==> Sources(rule, items, edges + rule(items[n]), at + [n]))
  {
    var n := |items| - 1;
    var front := items[..n];
    assert forall i :: 0 <= i < n ==> front[i] == items[i];
  }

  lemma {:induction false} EdgeSources<T(!new)>(rule: T -> seq<Edge>, items: seq<T>) returns (at: seq<nat>)
    requires forall i :: 0 <= i < |items| ==> |rule(items[i])| <= 1
    ensures Sources(rule, items, EdgesOf(rule, items), at)
  {
    if items == [] {
      at := [];
    } else {
      var n := |items| - 1;
      at := EdgeSources(rule, items[..n]);
      assert EdgesOf(rule, items) == EdgesOf(rule, items[..n]) + rule(items[n]);
      assert EdgesOf(rule, items[..n]) + [] == EdgesOf(rule, items[..n]);
      hide EdgesOf;
      SourcesSnoc(rule, items, EdgesOf(rule, items[..n]), at);
      hide Sources;
      if rule(items[n]) != [] {
        at := at + [n];
      }
    }
  }

  ghost predicate EachGives(g: Graph, tid: TypeId, edges: seq<Edge>, origins: seq<Origin>) {
    |origins| == |edges| && forall k :: 0 <= k < |edges| ==> Gives(g, tid, origins[k], edges[k])
  }

  predicate Increasing(origins: seq<Origin>) {
    forall j, k :: 0 <= j < k < |origins| ==> Earlier(origins[j], origins[k])
  }

  /** Exactly the origins of the groups from `lo` to before `hi` that give an edge. */
  ghost predicate AllOf(g: Graph, tid: TypeId, lo: nat, hi: nat, origins: seq<Origin>) {
    && (forall k :: 0 <= k < |origins| ==> lo <= Group(origins[k]) < hi)
    && (forall o, e :: lo <= Group(o) < hi && Gives(g, tid, o, e) ==> o in origins)
  }

  /** The edges of some groups of origins: one edge per origin, in order, and no origin missing. */
  ghost predicate Originate(g: Graph, tid: TypeId, lo: nat, hi: nat, edges: seq<Edge>, origins: seq<Origin>) {
    EachGives(g, tid, edges, origins) && Increasing(origins) && AllOf(g, tid, lo, hi, origins)
  }

  lemma EachGivesConcat(g: Graph, tid: TypeId, a: seq<Edge>, oa: seq<Origin>, b: seq<Edge>, ob: seq<Origin>)
    requires EachGives(g, tid, a, oa) && EachGives(g, tid, b, ob)
    ensures EachGives(g, tid, a + b, oa + ob)
  {
    hide Gives;
  }

  lemma IncreasingConcat(a: seq<Origin>, b: seq<Origin>, mid: nat)
    requires Increasing(a) && Increasing(b)
    requires forall k :: 0 <= k < |a| ==> Group(a[k]) < mid
    requires forall k :: 0 <= k < |b| ==> Group(b[k]) >= mid
    ensures Increasing(a + b)
  {
    var all := a + b;
    forall j, k | 0 <= j < k < |all| ensures Earlier(all[j], all[k]) {
      if k < |a| {
        assert Earlier(a[j], a[k]);
      } else if j >= |a| {
        assert Earlier(b[j - |a|], b[k - |a|]);
      }
    }
  }

  lemma AllOfConcat(g: Graph, tid: TypeId, lo: nat, mid: nat, hi: nat, a: seq<Origin>, b: seq<Origin>)
    requires lo <= mid <= hi && AllOf(g, tid, lo, mid, a) && AllOf(g, tid, mid, hi, b)
    ensures AllOf(g, tid, lo, hi, a + b)
  {
    hide Gives;
    hide Group;
    var all := a + b;
    assert forall k :: 0 <= k < |b| ==> all[|a| + k] == b[k];
    forall o, e | lo <= Group(o) < hi && Gives(g, tid, o, e) ensures o in all {
      assert o in a || o in b;
    }
  }

  lemma OriginateConcat(g: Graph, tid: TypeId, mid: nat, hi: nat,
                        a: seq<Edge>, oa: seq<Origin>, b: seq<Edge>, ob: seq<Origin>)
    requires mid <= hi && Originate(g, tid, 0, mid, a, oa) && Originate(g, tid, mid, hi, b, ob)
    ensures Originate(g, tid, 0, hi, a + b, oa + ob)
  {
    EachGivesConcat(g, tid, a, oa, b, ob);
    AllOfConcat(g, tid, 0, mid, hi, oa, ob);
    hide EachGives;
    hide Gives;
    hide Group;
    IncreasingConcat(oa, ob, mid);
  }

  function OriginAt(group: nat, i: nat): (o: Origin)
    requires group < 3
    ensures Group(o) == group && o.i == i
  {
    if group == 0 then AttributeAt(i) else if group == 1 then ChildAt(i) else PairAt(i)
  }

  function OriginsAt(group: nat, at: seq<nat>): (r: seq<Origin>)
    requires group < 3
    ensures |r| == |at| && forall k :: 0 <= k < |at| ==> r[k] == OriginAt(group, at[k])
  {
    seq(|at|, k requires 0 <= k < |at| => OriginAt(group, at[k]))
  }

  /** The rule of a loop gives what the data give. */
  ghost predicate RuleGives<T(!new)>(g: Graph, tid: TypeId, group: nat, rule: T -> seq<Edge>, items: seq<T>)
    requires group < 3
  {
    forall i: nat, e {:trigger Gives(g, tid, OriginAt(group, i), e)} :: Gives(g, tid, OriginAt(group, i), e) <==> i < |items| && rule(items[i]) == [e]
  }

  lemma RulesGive(g: Graph, tid: TypeId)
    ensures RuleGives(g, tid, 0, AttributeRule(g), g.attributes(tid))
    ensures RuleGives(g, tid, 1, ChildRule(g, tid), g.registered)
    ensures RuleGives(g, tid, 2, AggregateRule(g, tid), g.aggregates)
  {
  }

  lemma OriginIs(o: Origin)
    ensures Group(o) < 3 && o == OriginAt(Group(o), o.i)
  {
  }

  lemma SourcesGive<T(!new)>(g: Graph, tid: TypeId, group: nat, rule: T -> seq<Edge>, items: seq<T>, edges: seq<Edge>, at: seq<nat>)
    requires group < 3 && RuleGives(g, tid, group, rule, items) && Sources(rule, items, edges, at)
    ensures EachGives(g, tid, edges, OriginsAt(group, at))
  {
    hide Gives;
    hide OriginAt;
    var origins := OriginsAt(group, at);
    hide OriginsAt;
    forall k | 0 <= k < |edges| ensures Gives(g, tid, origins[k], edges[k]) {
      assert Gives(g, tid, OriginAt(group, at[k]), edges[k]);
    }
  }

  lemma SourcesAreAll<T(!new)>(g: Graph, tid: TypeId, group: nat, rule: T -> seq<Edge>, items: seq<T>, edges: seq<Edge>, at: seq<nat>)
    requires group < 3 && RuleGives(g, tid, group, rule, items) && Sources(rule, items, edges, at)
    ensures AllOf(g, tid, group, group + 1, OriginsAt(group, at))
  {
    hide Gives;
    hide Group;
    hide OriginAt;
    var origins := OriginsAt(group, at);
    hide OriginsAt;
    forall o, e | group <= Group(o) < group + 1 && Gives(g, tid, o, e) ensures o in origins {
      OriginIs(o);
      assert Gives(g, tid, OriginAt(group, o.i), e);
      assert rule(items[o.i]) == [e];
      var k :| 0 <= k < |at| && at[k] == o.i;
      assert origins[k] == o;
    }
  }

  lemma OriginsOf<T(!new)>(g: Graph, tid: TypeId, group: nat, rule: T -> seq<Edge>, items: seq<T>) returns (origins: seq<Origin>)
    requires group < 3 && RuleGives(g, tid, group, rule, items)
    requires forall i :: 0 <= i < |items| ==> |rule(items[i])| <= 1
    ensures Originate(g, tid, group, group + 1, EdgesOf(rule, items), origins)
  {
    var at := EdgeSources(rule, items);
    SourcesGive(g, tid, group, rule, items, EdgesOf(rule, items), at);
    SourcesAreAll(g, tid, group, rule, items, EdgesOf(rule, items), at);
    origins := OriginsAt(group, at);
    hide EachGives;
    hide AllOf;
    hide RuleGives;
    hide OriginAt;
    hide OriginsAt;
  }

  /** `Edges` lists, in order and once each, exactly the edges that the data give: attributes
      before child types before pairs. */
  lemma EdgesByOrigin(g: Graph, tid: TypeId) returns (origins: seq<Origin>)
    ensures Originate(g, tid, 0, 3, Edges(g, tid), origins)
  {
    RulesGive(g, tid);
    hide RuleGives;
    var a := OriginsOf(g, tid, 0, AttributeRule(g), g.attributes(tid));
    var c := OriginsOf(g, tid, 1, ChildRule(g, tid), g.registered);
    var p := OriginsOf(g, tid, 2, AggregateRule(g, tid), g.aggregates);
    hide AttributeEdges;
    hide ChildEdges;
    hide AggregateEdges;
    hide Originate;
    var ae, ce, pe := AttributeEdges(g, g.attributes(tid)), ChildEdges(g, tid, g.registered), AggregateEdges(g, tid, g.aggregates);
    OriginateConcat(g, tid, 1, 2, ae, a, ce, c);
    OriginateConcat(g, tid, 2, 3, ae + ce, a + c, pe, p);
    origins := a + c + p;
  }

  /** Some recorded datum gives the edge. */
  ghost predicate Leaves(g: Graph, tid: TypeId, e: Edge) {
    exists o :: Gives(g, tid, o, e)
  }

  /** An edge leaves a type if and only if some recorded datum gives it. */
  lemma EdgeIffGiven(g: Graph, tid: TypeId, e: Edge)
    ensures e in Edges(g, tid) <==> Leaves(g, tid, e)
  {
    var origins := EdgesByOrigin(g, tid);
    if o :| Gives(g, tid, o, e) {
      var k :| 0 <= k < |origins| && origins[k] == o;
      GivesOne(g, tid, o, e, Edges(g, tid)[k]);
    }
    hide Edges;
  }

  lemma GivesOne(g: Graph, tid: TypeId, o: Origin, d: Edge, e: Edge)
    requires Gives(g, tid, o, d) && Gives(g, tid, o, e)
    ensures d == e
  {
  }

  // ----- simple paths: the reference -----

  /** A walk names the edges taken by their indices. */
  type Walk = seq<nat>

  predicate IsWalk(g: Graph, tid: TypeId, w: Walk)
    decreases |w|
  {
    w == [] || (w[0] < |Edges(g, tid)| && IsWalk(g, Edges(g, tid)[w[0]].target, w[1..]))
  }

  /** The types a walk visits, its start included. */
  function Visited(g: Graph, tid: TypeId, w: Walk): (r: seq<TypeId>)
    requires IsWalk(g, tid, w)
    ensures |r| == |w| + 1 && r[0] == tid
    decreases |w|
  {
    if w == [] then [tid] else [tid] + Visited(g, Edges(g, tid)[w[0]].target, w[1..])
  }

  function Labels(g: Graph, tid: TypeId, w: Walk): (r: seq<string>)
    requires IsWalk(g, tid, w)
    ensures |r| == |w|
    decreases |w|
  {
    if w == [] then []
    else [Edges(g, tid)[w[0]].segment] + Labels(g, Edges(g, tid)[w[0]].target, w[1..])
  }

  function Last(g: Graph, tid: TypeId, w: Walk): TypeId
    requires IsWalk(g, tid, w)
  {
    Visited(g, tid, w)[|w|]
  }

  /** A walk that repeats no type and avoids the types in `stack`. */
  predicate IsSimple(g: Graph, stack: seq<TypeId>, tid: TypeId, w: Walk) {
    && IsWalk(g, tid, w)
    && (forall i, j :: 0 <= i < j <= |w| ==> Visited(g, tid, w)[i] != Visited(g, tid, w)[j])
    && (forall i :: 0 <= i <= |w| ==> Visited(g, tid, w)[i] !in stack)
  }

  /** Depth-first preorder: lexicographic, a prefix before its extensions. */
  predicate Before(v: Walk, w: Walk) {
    w != [] && (v == [] || v[0] < w[0] || (v[0] == w[0] && Before(v[1..], w[1..])))
  }

  // ----- what the walk lists -----

  /** The set of types is finite and closed under the edges. */
  predicate Closed(g: Graph, types: set<TypeId>) {
    forall t, i :: t in types && 0 <= i < |Edges(g, t)| ==> Edges(g, t)[i].target in types
  }

  ghost function Room(types: set<TypeId>, stack: seq<TypeId>): nat {
    |types - set t | t in stack|
  }

  lemma PushShrinks(types: set<TypeId>, stack: seq<TypeId>, tid: TypeId)
    requires tid in types && tid !in stack
    ensures Room(types, stack + [tid]) < Room(types, stack)
  {
    var before := types - set t | t in stack;
    var after := types - set t | t in stack + [tid];
    assert after == before - {tid};
  }

  function Prefixed(i: nat, walks: seq<Walk>): (r: seq<Walk>)
    ensures |r| == |walks|
    ensures forall k :: 0 <= k < |walks| ==> r[k] == [i] + walks[k]
  {
    seq(|walks|, k requires 0 <= k < |walks| => [i] + walks[k])
  }

  /** The walks recorded for `tid` when `stack` holds the types on the current path. */
  ghost function Walks(g: Graph, types: set<TypeId>, stack: seq<TypeId>, tid: TypeId): seq<Walk>
    requires Closed(g, types) && tid in types
    decreases Room(types, stack), |Edges(g, tid)| + 1
  {
    if tid in stack then [] else [[]] + WalksThrough(g, types, stack, tid, |Edges(g, tid)|)
  }

  /** Those that leave `tid` by one of its first `k` edges. */
  ghost function WalksThrough(g: Graph, types: set<TypeId>, stack: seq<TypeId>, tid: TypeId, k: nat): seq<Walk>
    requires Closed(g, types) && tid in types && tid !in stack
    requires k <= |Edges(g, tid)|
    decreases Room(types, stack), k
  {
    if k == 0 then []
    else
      PushShrinks(types, stack, tid);
      WalksThrough(g, types, stack, tid, k - 1)
        + Prefixed(k - 1, Walks(g, types, stack + [tid], Edges(g, tid)[k - 1].target))
  }

  function Slashed(path: seq<string>): string {
    if path == [] then "" else Slashed(path[..|path| - 1]) + "/" + path[|path| - 1]
  }

  /** The record of one walk: its last type, and its labels behind those already on the path. */
  function Record(g: Graph, path: seq<string>, tid: TypeId, w: Walk): (TypeId, string)
    requires IsWalk(g, tid, w)
  {
    (Last(g, tid, w), Slashed(path + Labels(g, tid, w)))
  }

  // ----- the listed walks are the simple paths, in preorder -----

  lemma {:induction false} SimpleStep(g: Graph, stack: seq<TypeId>, tid: TypeId, w: Walk)
    requires w != []
    ensures IsSimple(g, stack, tid, w) <==>
      && tid !in stack && w[0] < |Edges(g, tid)|
      && IsSimple(g, stack + [tid], Edges(g, tid)[w[0]].target, w[1..])
  {
    hide Edges;
    if w[0] < |Edges(g, tid)| && IsWalk(g, Edges(g, tid)[w[0]].target, w[1..]) {
      var rest := Visited(g, Edges(g, tid)[w[0]].target, w[1..]);
      var all := Visited(g, tid, w);
      assert all == [tid] + rest;
      if IsSimple(g, stack, tid, w) {
        forall i | 0 <= i <= |w[1..]| ensures rest[i] !in stack + [tid] {
          assert rest[i] == all[i + 1] && all[0] != all[i + 1];
        }
        forall i, j | 0 <= i < j <= |w[1..]| ensures rest[i] != rest[j] {
          assert rest[i] == all[i + 1] && rest[j] == all[j + 1];
        }
      }
      if tid !in stack && IsSimple(g, stack + [tid], Edges(g, tid)[w[0]].target, w[1..]) {
        forall i | 0 <= i <= |w| ensures all[i] !in stack {
          if i > 0 {
            assert all[i] == rest[i - 1];
          }
        }
        forall i, j | 0 <= i < j <= |w| ensures all[i] != all[j] {
          assert all[j] == rest[j - 1];
          if i > 0 {
            assert all[i] == rest[i - 1];
          } else {
            assert rest[j - 1] !in stack + [tid];
          }
        }
      }
    }
  }

  /** Exactly the simple paths are listed. */
  lemma {:induction false} ListsSimplePaths(g: Graph, types: set<TypeId>, stack: seq<TypeId>, tid: TypeId, w: Walk)
    requires Closed(g, types) && tid in types
    ensures w in Walks(g, types, stack, tid) <==> IsSimple(g, stack, tid, w)
    decreases |w|, |Edges(g, tid)| + 1
  {
    if w == [] {
      assert IsSimple(g, stack, tid, w) <==> tid !in stack by {
        assert Visited(g, tid, w) == [tid];
        assert Visited(g, tid, w)[0] == tid;
      }
      if tid !in stack {
        assert Walks(g, types, stack, tid)[0] == [];
      }
    } else {
      SimpleStep(g, stack, tid, w);
      if tid !in stack {
        ThroughListsSimplePaths(g, types, stack, tid, |Edges(g, tid)|, w);
        var through := WalksThrough(g, types, stack, tid, |Edges(g, tid)|);
        assert w in [[]] + through <==> w in through by {
          assert w !in [[]];
        }
      }
    }
  }

  lemma {:induction false} ThroughListsSimplePaths(g: Graph, types: set<TypeId>, stack: seq<TypeId>, tid: TypeId, k: nat, w: Walk)
    requires Closed(g, types) && tid in types && tid !in stack
    requires k <= |Edges(g, tid)| && w != []
    ensures w in WalksThrough(g, types, stack, tid, k) <==>
      w[0] < k && IsSimple(g, stack + [tid], Edges(g, tid)[w[0]].target, w[1..])
    decreases |w|, k
  {
    if k > 0 {
      var next := Edges(g, tid)[k - 1].target;
      var inner := Walks(g, types, stack + [tid], next);
      ThroughListsSimplePaths(g, types, stack, tid, k - 1, w);
      ListsSimplePaths(g, types, stack + [tid], next, w[1..]);
      PrefixedMember(k - 1, inner, w);
    }
  }

  lemma PrefixedMember(i: nat, walks: seq<Walk>, w: Walk)
    requires w != []
    ensures w in Prefixed(i, walks) <==> w[0] == i && w[1..] in walks
  {
    if w[0] == i && w[1..] in walks {
      var k :| 0 <= k < |walks| && walks[k] == w[1..];
      assert Prefixed(i, walks)[k] == w;
    }
    if w in Prefixed(i, walks) {
      var k :| 0 <= k < |walks| && Prefixed(i, walks)[k] == w;
      assert walks[k] == w[1..];
    }
  }

  ghost predicate InPreorder(walks: seq<Walk>) {
    forall i, j :: 0 <= i < j < |walks| ==> Before(walks[i], walks[j])
  }

  /** The walks come in depth-first preorder; in particular none is listed twice. */
  lemma {:induction false} ListedInPreorder(g: Graph, types: set<TypeId>, stack: seq<TypeId>, tid: TypeId)
    requires Closed(g, types) && tid in types
    ensures InPreorder(Walks(g, types, stack, tid))
    decreases Room(types, stack), |Edges(g, tid)| + 1
  {
    if tid !in stack {
      ThroughInPreorder(g, types, stack, tid, |Edges(g, tid)|);
    }
  }

  lemma {:induction false} ThroughInPreorder(g: Graph, types: set<TypeId>, stack: seq<TypeId>, tid: TypeId, k: nat)
    requires Closed(g, types) && tid in types && tid !in stack
    requires k <= |Edges(g, tid)|
    ensures InPreorder(WalksThrough(g, types, stack, tid, k))
    ensures forall i :: 0 <= i < |WalksThrough(g, types, stack, tid, k)| ==>
      var w := WalksThrough(g, types, stack, tid, k)[i]; w != [] && w[0] < k
    decreases Room(types, stack), k
  {
    if k > 0 {
      PushShrinks(types, stack, tid);
      var inner := Walks(g, types, stack + [tid], Edges(g, tid)[k - 1].target);
      ThroughInPreorder(g, types, stack, tid, k - 1);
      ListedInPreorder(g, types, stack + [tid], Edges(g, tid)[k - 1].target);
      PrefixedInPreorder(k - 1, inner);
    }
  }

  lemma PrefixedInPreorder(i: nat, walks: seq<Walk>)
    requires InPreorder(walks)
    ensures InPreorder(Prefixed(i, walks))
  {
    var r := Prefixed(i, walks);
    forall a, b | 0 <= a < b < |r| ensures Before(r[a], r[b]) {
      assert r[a][1..] == walks[a] && r[b][1..] == walks[b];
    }
  }

  lemma {:induction false} BeforeIsIrreflexive(w: Walk)
    ensures !Before(w, w)
  {
    if w != [] {
      BeforeIsIrreflexive(w[1..]);
    }
  }

  /** One record per simple path. */
  lemma ListedOnce(g: Graph, types: set<TypeId>, stack: seq<TypeId>, tid: TypeId, i: nat, j: nat)
    requires Closed(g, types) && tid in types
    requires i < j < |Walks(g, types, stack, tid)|
    ensures Walks(g, types, stack, tid)[i] != Walks(g, types, stack, tid)[j]
  {
    ListedInPreorder(g, types, stack, tid);
    BeforeIsIrreflexive(Walks(g, types, stack, tid)[i]);
  }

  // ----- from walks to records -----

  predicate AreWalks(g: Graph, tid: TypeId, walks: seq<Walk>) {
    forall i :: 0 <= i < |walks| ==> IsWalk(g, tid, walks[i])
  }

  function Records(g: Graph, path: seq<string>, tid: TypeId, walks: seq<Walk>): (r: seq<(TypeId, string)>)
    requires AreWalks(g, tid, walks)
    ensures |r| == |walks|
    ensures forall i :: 0 <= i < |walks| ==> r[i] == Record(g, path, tid, walks[i])
  {
    seq(|walks|, i requires 0 <= i < |walks| => Record(g, path, tid, walks[i]))
  }

  lemma ListedAreWalks(g: Graph, types: set<TypeId>, stack: seq<TypeId>, tid: TypeId)
    requires Closed(g, types) && tid in types
    ensures AreWalks(g, tid, Walks(g, types, stack, tid))
    ensures tid !in stack ==>
      forall k :: 0 <= k <= |Edges(g, tid)| ==> AreWalks(g, tid, WalksThrough(g, types, stack, tid, k))
  {
    var walks := Walks(g, types, stack, tid);
    forall i | 0 <= i < |walks| ensures IsWalk(g, tid, walks[i]) {
      ListsSimplePaths(g, types, stack, tid, walks[i]);
    }
    if tid !in stack {
      forall k | 0 <= k <= |Edges(g, tid)| ensures AreWalks(g, tid, WalksThrough(g, types, stack, tid, k)) {
        var through := WalksThrough(g, types, stack, tid, k);
        ThroughInPreorder(g, types, stack, tid, k);
        forall i | 0 <= i < |through| ensures IsWalk(g, tid, through[i]) {
          ThroughListsSimplePaths(g, types, stack, tid, k, through[i]);
        }
      }
    }
  }

  /** Taking the `k`-th edge first turns the records of its target into records of `tid`. */
  lemma RecordsThroughEdge(g: Graph, path: seq<string>, tid: TypeId, k: nat, walks: seq<Walk>)
    requires k < |Edges(g, tid)| && AreWalks(g, Edges(g, tid)[k].target, walks)
    ensures AreWalks(g, tid, Prefixed(k, walks))
    ensures Records(g, path, tid, Prefixed(k, walks))
      == Records(g, path + [Edges(g, tid)[k].segment], Edges(g, tid)[k].target, walks)
  {
    hide Edges;
    hide Slashed;
    var e := Edges(g, tid)[k];
    forall i | 0 <= i < |walks|
      ensures IsWalk(g, tid, Prefixed(k, walks)[i])
      ensures Record(g, path, tid, Prefixed(k, walks)[i]) == Record(g, path + [e.segment], e.target, walks[i])
    {
      var w := Prefixed(k, walks)[i];
      assert w[1..] == walks[i];
      assert path + ([e.segment] + Labels(g, e.target, walks[i])) == path + [e.segment] + Labels(g, e.target, walks[i]);
    }
  }

  lemma RecordsConcat(g: Graph, path: seq<string>, tid: TypeId, v: seq<Walk>, w: seq<Walk>)
    requires AreWalks(g, tid, v) && AreWalks(g, tid, w)
    ensures AreWalks(g, tid, v + w)
    ensures Records(g, path, tid, v + w) == Records(g, path, tid, v) + Records(g, path, tid, w)
  {
  }

  /** The records appended by the visit of `tid`. */
  ghost function Gathered(g: Graph, types: set<TypeId>, stack: seq<TypeId>, path: seq<string>, tid: TypeId): seq<(TypeId, string)>
    requires Closed(g, types) && tid in types
  {
    ListedAreWalks(g, types, stack, tid);
    Records(g, path, tid, Walks(g, types, stack, tid))
  }

  /** The records appended once the first `k` edges of `tid` have been followed. */
  ghost function GatheredThrough(g: Graph, types: set<TypeId>, stack: seq<TypeId>, path: seq<string>, tid: TypeId, k: nat): seq<(TypeId, string)>
    requires Closed(g, types) && tid in types && tid !in stack && k <= |Edges(g, tid)|
  {
    ListedAreWalks(g, types, stack, tid);
    [(tid, Slashed(path))] + Records(g, path, tid, WalksThrough(g, types, stack, tid, k))
  }

  lemma GatheredNext(g: Graph, types: set<TypeId>, stack: seq<TypeId>, path: seq<string>, tid: TypeId, k: nat)
    requires Closed(g, types) && tid in types && tid !in stack && k < |Edges(g, tid)|
    ensures var e := Edges(g, tid)[k];
      GatheredThrough(g, types, stack, path, tid, k + 1)
        == GatheredThrough(g, types, stack, path, tid, k)
           + Gathered(g, types, stack + [tid], path + [e.segment], e.target)
  {
    var e := Edges(g, tid)[k];
    var inner := Walks(g, types, stack + [tid], e.target);
    ListedAreWalks(g, types, stack, tid);
    ListedAreWalks(g, types, stack + [tid], e.target);
    RecordsThroughEdge(g, path, tid, k, inner);
    RecordsConcat(g, path, tid, WalksThrough(g, types, stack, tid, k), Prefixed(k, inner));
  }

  lemma GatheredNothing(g: Graph, types: set<TypeId>, stack: seq<TypeId>, path: seq<string>, tid: TypeId)
    requires Closed(g, types) && tid in types && tid in stack
    ensures Gathered(g, types, stack, path, tid) == []
  {
  }

  lemma GatheredNone(g: Graph, types: set<TypeId>, stack: seq<TypeId>, path: seq<string>, tid: TypeId)
    requires Closed(g, types) && tid in types && tid !in stack
    ensures GatheredThrough(g, types, stack, path, tid, 0) == [(tid, Slashed(path))]
    ensures |AttributeEdges(g, g.attributes(tid))| + |ChildEdges(g, tid, g.registered)| <= |Edges(g, tid)|
  {
  }

  lemma GatheredAll(g: Graph, types: set<TypeId>, stack: seq<TypeId>, path: seq<string>, tid: TypeId)
    requires Closed(g, types) && tid in types && tid !in stack
    ensures Gathered(g, types, stack, path, tid)
      == GatheredThrough(g, types, stack, path, tid, |Edges(g, tid)|)
  {
    ListedAreWalks(g, types, stack, tid);
    var through := WalksThrough(g, types, stack, tid, |Edges(g, tid)|);
    var start: seq<Walk> := [[]];
    RecordsConcat(g, path, tid, start, through);
    assert path + Labels(g, tid, []) == path;
    assert Records(g, path, tid, start) == [(tid, Slashed(path))];
  }

  // ----- edge positions inside a loop -----

  lemma {:induction false} EdgePosition<T>(rule: T -> seq<Edge>, items: seq<T>, i: nat)
    requires i < |items|
    ensures items[..i + 1][..i] == items[..i]
    ensures EdgesOf(rule, items[..i + 1]) == EdgesOf(rule, items[..i]) + rule(items[i])
    ensures EdgesOf(rule, items[..i + 1]) <= EdgesOf(rule, items)
    decreases |items| - i
  {
    assert items[..i + 1][..i] == items[..i];
    if i + 1 < |items| {
      EdgePosition(rule, items, i + 1);
    } else {
      assert items[..i + 1] == items;
    }
  }

  // ----- the collector -----

  class StaticInformation {
    const graph: Graph
    ghost const types: set<TypeId>
    var output: seq<(TypeId, string)>
    var currentPath: seq<string>
    var alreadyProcessed: seq<TypeId>

    constructor (graph: Graph, ghost types: set<TypeId>)
      ensures this.graph == graph && this.types == types
      ensures output == [] && currentPath == [] && alreadyProcessed == []
    {
      this.graph := graph;
      this.types := types;
      output, currentPath, alreadyProcessed := [], [], [];
    }

    method HasAlreadyBeenProcessed(tid: TypeId) returns (found: bool)
      ensures found <==> tid in alreadyProcessed
    {
      for i := 0 to |alreadyProcessed|
        invariant tid !in alreadyProcessed[..i]
      {
        if alreadyProcessed[i] == tid {
          return true;
        }
      }
      found := false;
    }

    method GetCurrentPath() returns (path: string)
      ensures path == Slashed(currentPath)
    {
      path := "";
      for i := 0 to |currentPath|
        invariant path == Slashed(currentPath[..i])
      {
        assert currentPath[..i + 1][..i] == currentPath[..i];
        path := path + "/" + currentPath[i];
      }
      assert currentPath[..|currentPath|] == currentPath;
    }

    method RecordOutput(tid: TypeId)
      modifies this`output
      ensures output == old(output) + [(tid, Slashed(currentPath))]
    {
      var path := GetCurrentPath();
      output := output + [(tid, path)];
    }

    /** What has been appended to `out` once the first `k` edges of `tid` were followed. */
    ghost predicate Progress(out: seq<(TypeId, string)>, stack: seq<TypeId>, path: seq<string>, tid: TypeId, k: nat)
      reads this
    {
      && Closed(graph, types) && tid in types && tid !in stack && k <= |Edges(graph, tid)|
      && currentPath == path && alreadyProcessed == stack
      && output == out + GatheredThrough(graph, types, stack, path, tid, k)
    }

    /** Follows the `k`-th edge of `tid` with its type and segment pushed, and pops both again. */
    method Follow(tid: TypeId, segment: string, target: TypeId, ghost k: nat, ghost out: seq<(TypeId, string)>)
      requires Progress(out, alreadyProcessed, currentPath, tid, k)
      requires k < |Edges(graph, tid)| && Edges(graph, tid)[k] == Edge(segment, target)
      modifies this
      ensures Progress(out, old(alreadyProcessed), old(currentPath), tid, k + 1)
      decreases Room(types, alreadyProcessed), 0
    {
      hide Edges;
      hide Gathered;
      hide GatheredThrough;
      hide Room;
      ghost var done := GatheredThrough(graph, types, alreadyProcessed, currentPath, tid, k);
      PushShrinks(types, alreadyProcessed, tid);
      GatheredNext(graph, types, alreadyProcessed, currentPath, tid, k);
      currentPath := currentPath + [segment];
      alreadyProcessed := alreadyProcessed + [tid];
      ghost var more := Gathered(graph, types, alreadyProcessed, currentPath, target);
      DoGather(target);
      assert (out + done) + more == out + (done + more);
      alreadyProcessed := alreadyProcessed[..|alreadyProcessed| - 1];
      currentPath := currentPath[..|currentPath| - 1];
    }

    method FollowAttributes(tid: TypeId, ghost out: seq<(TypeId, string)>)
      requires Progress(out, alreadyProcessed, currentPath, tid, 0)
      modifies this
      ensures Progress(out, old(alreadyProcessed), old(currentPath), tid,
                       |AttributeEdges(graph, graph.attributes(tid))|)
      decreases Room(types, alreadyProcessed), 1
    {
      hide Progress;
      hide Closed;
      hide Room;
      ghost var stack, path, k := alreadyProcessed, currentPath, 0;
      var attributes := graph.attributes(tid);
      for i := 0 to |attributes|
        invariant alreadyProcessed == stack && currentPath == path
        invariant k == |AttributeEdges(graph, attributes[..i])|
        invariant Progress(out, stack, path, tid, k)
      {
        EdgePosition(AttributeRule(graph), attributes, i);
        assert AttributeEdges(graph, attributes[..i + 1]) <= Edges(graph, tid);
        match attributes[i] {
          case Pointer(name, pointee) =>
            if pointee != graph.objectType {
              Follow(tid, name, pointee, k, out);
              k := k + 1;
            }
          case Container(name, item) =>
            Follow(tid, name + "/[i]", item, k, out);
            k := k + 1;
          case Plain(_) =>
        }
        Settle(out, stack, path, tid, k);
      }
      assert attributes[..|attributes|] == attributes;
    }

    method FollowChildren(tid: TypeId, ghost before: nat, ghost out: seq<(TypeId, string)>)
      requires before == |AttributeEdges(graph, graph.attributes(tid))|
      requires Progress(out, alreadyProcessed, currentPath, tid, before)
      modifies this
      ensures Progress(out, old(alreadyProcessed), old(currentPath), tid,
                       before + |ChildEdges(graph, tid, graph.registered)|)
      decreases Room(types, alreadyProcessed), 1
    {
      hide Progress;
      hide Closed;
      hide Room;
      ghost var stack, path, k := alreadyProcessed, currentPath, before;
      for j := 0 to |graph.registered|
        invariant alreadyProcessed == stack && currentPath == path
        invariant k == before + |ChildEdges(graph, tid, graph.registered[..j])|
        invariant Progress(out, stack, path, tid, k)
      {
        EdgePosition(ChildRule(graph, tid), graph.registered, j);
        assert AttributeEdges(graph, graph.attributes(tid)) + ChildEdges(graph, tid, graph.registered[..j + 1]) <= Edges(graph, tid);
        var child := graph.registered[j];
        if graph.isChildOf(child, tid) {
          Follow(tid, "$" + graph.name(child), child, k, out);
          k := k + 1;
        }
        Settle(out, stack, path, tid, k);
      }
      assert graph.registered[..|graph.registered|] == graph.registered;
    }

    method FollowAggregates(tid: TypeId, ghost before: nat, ghost out: seq<(TypeId, string)>)
      requires before == |AttributeEdges(graph, graph.attributes(tid))| + |ChildEdges(graph, tid, graph.registered)|
      requires Progress(out, alreadyProcessed, currentPath, tid, before)
      modifies this
      ensures Progress(out, old(alreadyProcessed), old(currentPath), tid, |Edges(graph, tid)|)
      decreases Room(types, alreadyProcessed), 1
    {
      hide Progress;
      hide Closed;
      hide Room;
      ghost var stack, path, k := alreadyProcessed, currentPath, before;
      ghost var earlier := AttributeEdges(graph, graph.attributes(tid)) + ChildEdges(graph, tid, graph.registered);
      for j := 0 to |graph.aggregates|
        invariant alreadyProcessed == stack && currentPath == path
        invariant k == before + |AggregateEdges(graph, tid, graph.aggregates[..j])|
        invariant Progress(out, stack, path, tid, k)
      {
        EdgePosition(AggregateRule(graph, tid), graph.aggregates, j);
        assert earlier + AggregateEdges(graph, tid, graph.aggregates[..j + 1]) <= Edges(graph, tid);
        var item := graph.aggregates[j];
        if item.0 == tid || item.1 == tid {
          var other := tid;
          if item.0 == tid {
            other := item.1;
          }
          if item.1 == tid {
            other := item.0;
          }
          Follow(tid, "$" + graph.name(other), other, k, out);
          k := k + 1;
        }
        Settle(out, stack, path, tid, k);
      }
      assert graph.aggregates[..|graph.aggregates|] == graph.aggregates;
    }

    lemma Settle(out: seq<(TypeId, string)>, stack: seq<TypeId>, path: seq<string>, tid: TypeId, k: nat)
      requires Progress(out, stack, path, tid, k)
      ensures alreadyProcessed == stack && currentPath == path
    {
    }

    /** Appends one record per simple path that avoids the stack, and restores the stack. */
    method DoGather(tid: TypeId)
      requires Closed(graph, types) && tid in types
      modifies this
      ensures currentPath == old(currentPath) && alreadyProcessed == old(alreadyProcessed)
      ensures output == old(output) + Gathered(graph, types, old(alreadyProcessed), old(currentPath), tid)
      decreases Room(types, alreadyProcessed), 2
    {
      hide Edges;
      hide Gathered;
      hide GatheredThrough;
      hide Slashed;
      hide Closed;
      hide Room;
      var seen := HasAlreadyBeenProcessed(tid);
      if seen {
        GatheredNothing(graph, types, alreadyProcessed, currentPath, tid);
        return;
      }
      ghost var out, stack, path := output, alreadyProcessed, currentPath;
      GatheredNone(graph, types, stack, path, tid);
      RecordOutput(tid);
      FollowAttributes(tid, out);
      FollowChildren(tid, |AttributeEdges(graph, graph.attributes(tid))|, out);
      FollowAggregates(tid, |AttributeEdges(graph, graph.attributes(tid))| + |ChildEdges(graph, tid, graph.registered)|, out);
      GatheredAll(graph, types, stack, path, tid);
    }

    /** The paths recorded for `tid`, in the order they were recorded. */
    method Get(tid: TypeId) returns (paths: seq<string>)
      ensures paths == PathsOf(output, tid)
    {
      paths := [];
      for i := 0 to |output|
        invariant paths == PathsOf(output[..i], tid)
      {
        assert output[..i + 1][..i] == output[..i];
        if output[i].0 == tid {
          paths := paths + [output[i].1];
        }
      }
      assert output[..|output|] == output;
    }
  }

  function PathsOf(output: seq<(TypeId, string)>, tid: TypeId): seq<string> {
    if output == [] then []
    else
      var last := output[|output| - 1];
      PathsOf(output[..|output| - 1], tid) + if last.0 == tid then [last.1] else []
  }

  lemma {:induction false} PathsOfMember(output: seq<(TypeId, string)>, tid: TypeId, path: string)
    ensures path in PathsOf(output, tid) <==> (tid, path) in output
  {
    if output != [] {
      var front, last := output[..|output| - 1], output[|output| - 1];
      assert output == front + [last];
      PathsOfMember(front, tid, path);
    }
  }

  /** The records of a type, each once and in the order of recording. */
  predicate PathsAt(output: seq<(TypeId, string)>, tid: TypeId, paths: seq<string>, at: seq<nat>) {
    && |at| == |paths|
    && (forall k :: 0 <= k < |at| ==> at[k] < |output| && output[at[k]] == (tid, paths[k]))
    && (forall j, k :: 0 <= j < k < |at| ==> at[j] < at[k])
    && (forall i :: 0 <= i < |output| && output[i].0 == tid ==> i in at)
  }

  lemma PathsAtSnoc(output: seq<(TypeId, string)>, tid: TypeId, paths: seq<string>, at: seq<nat>)
    requires output != [] && PathsAt(output[..|output| - 1], tid, paths, at)
    ensures var n := |output| - 1;
      if output[n].0 == tid then PathsAt(output, tid, paths + [output[n].1], at + [n]) else PathsAt(output, tid, paths, at)
  {
    var n := |output| - 1;
    var front := output[..n];
    assert forall i :: 0 <= i < n ==> front[i] == output[i];
  }

  lemma {:induction false} PathsInOrder(output: seq<(TypeId, string)>, tid: TypeId) returns (at: seq<nat>)
    ensures PathsAt(output, tid, PathsOf(output, tid), at)
  {
    if output == [] {
      at := [];
    } else {
      var n := |output| - 1;
      at := PathsInOrder(output[..n], tid);
      PathsAtSnoc(output, tid, PathsOf(output[..n], tid), at);
      assert PathsOf(output[..n], tid) + [] == PathsOf(output[..n], tid);
      hide PathsAt;
      if output[n].0 == tid {
        at := at + [n];
      }
    }
  }

  // ----- routes over the recorded data -----

  /** The type reached after the first `i` edges of a route. */
  function StopAt(root: TypeId, route: seq<Edge>, i: nat): TypeId
    requires i <= |route|
  {
    if i == 0 then root else route[i - 1].target
  }

  /** Every edge is given by the data of the type it leaves, and no type comes twice. */
  ghost predicate IsSimpleRoute(g: Graph, root: TypeId, route: seq<Edge>) {
    && (forall i :: 0 <= i < |route| ==> Leaves(g, StopAt(root, route, i), route[i]))
    && (forall i, j :: 0 <= i < j <= |route| ==> StopAt(root, route, i) != StopAt(root, route, j))
  }

  /** The segments of a route, each behind a slash. */
  function Spelling(route: seq<Edge>): string {
    if route == [] then [] else ['/'] + route[0].segment + Spelling(route[1..])
  }

  function Segments(route: seq<Edge>): (r: seq<string>)
    ensures |r| == |route| && forall i :: 0 <= i < |route| ==> r[i] == route[i].segment
  {
    if route == [] then [] else [route[0].segment] + Segments(route[1..])
  }

  lemma {:induction false} SlashedCons(segment: string, path: seq<string>)
    ensures Slashed([segment] + path) == ['/'] + segment + Slashed(path)
    decreases |path|
  {
    var all := [segment] + path;
    if path == [] {
      assert all[..0] == [];
      assert Slashed(all) == Slashed([]) + "/" + segment;
    } else {
      var front := path[..|path| - 1];
      assert all[..|all| - 1] == [segment] + front;
      SlashedCons(segment, front);
    }
  }

  lemma {:induction false} SlashedIsSpelling(route: seq<Edge>)
    ensures Slashed(Segments(route)) == Spelling(route)
  {
    if route != [] {
      SlashedIsSpelling(route[1..]);
      SlashedCons(route[0].segment, Segments(route[1..]));
    }
  }

  /** In a path every segment stands behind its own slash, one after the other. */
  lemma {:induction false} SlashedByPosition(path: seq<string>, k: nat)
    requires k < |path|
    ensures var p, q := |Slashed(path[..k])|, |Slashed(path[..k + 1])|;
      p < q <= |Slashed(path)| && Slashed(path)[p] == '/' && Slashed(path)[p + 1..q] == path[k]
    ensures Slashed(path[..0]) == [] && path[..|path|] == path
    decreases |path|
  {
    var n := |path| - 1;
    if k < n {
      SlashedByPosition(path[..n], k);
      assert path[..n][..k] == path[..k] && path[..n][..k + 1] == path[..k + 1];
      assert Slashed(path[..n]) <= Slashed(path);
    } else {
      assert path[..k + 1] == path;
    }
  }

  /** The edges that a walk takes. */
  function Taken(g: Graph, tid: TypeId, w: Walk): (r: seq<Edge>)
    requires IsWalk(g, tid, w)
    ensures |r| == |w|
    decreases |w|
  {
    if w == [] then [] else [Edges(g, tid)[w[0]]] + Taken(g, Edges(g, tid)[w[0]].target, w[1..])
  }

  lemma {:induction false} TakenByPosition(g: Graph, tid: TypeId, w: Walk, i: nat)
    requires IsWalk(g, tid, w) && i <= |w|
    ensures StopAt(tid, Taken(g, tid, w), i) == Visited(g, tid, w)[i]
    ensures i < |w| ==> Taken(g, tid, w)[i] in Edges(g, Visited(g, tid, w)[i])
    ensures Segments(Taken(g, tid, w)) == Labels(g, tid, w)
    decreases |w|
  {
    hide Edges;
    if w != [] {
      TakenByPosition(g, Edges(g, tid)[w[0]].target, w[1..], if i == 0 then 0 else i - 1);
      assert Taken(g, tid, w)[1..] == Taken(g, Edges(g, tid)[w[0]].target, w[1..]);
    }
  }

  /** A simple walk takes a simple route. */
  lemma TakenIsSimple(g: Graph, root: TypeId, w: Walk)
    requires IsSimple(g, [], root, w)
    ensures IsSimpleRoute(g, root, Taken(g, root, w))
  {
    hide Edges;
    hide Leaves;
    var route := Taken(g, root, w);
    forall i | 0 <= i <= |route|
      ensures StopAt(root, route, i) == Visited(g, root, w)[i]
      ensures i < |route| ==> Leaves(g, StopAt(root, route, i), route[i])
    {
      TakenByPosition(g, root, w, i);
      if i < |route| {
        EdgeIffGiven(g, StopAt(root, route, i), route[i]);
      }
    }
  }

  ghost predicate IsRoute(g: Graph, root: TypeId, route: seq<Edge>) {
    forall i :: 0 <= i < |route| ==> Leaves(g, StopAt(root, route, i), route[i])
  }

  /** Every route is taken by a walk. */
  lemma {:induction false} WalkOfRoute(g: Graph, root: TypeId, route: seq<Edge>) returns (w: Walk)
    requires IsRoute(g, root, route)
    ensures IsWalk(g, root, w) && Taken(g, root, w) == route
    decreases |route|
  {
    hide Leaves;
    if route == [] {
      w := [];
    } else {
      var e, rest := route[0], route[1..];
      assert StopAt(root, route, 0) == root;
      EdgeIffGiven(g, root, e);
      hide Edges;
      var k :| 0 <= k < |Edges(g, root)| && Edges(g, root)[k] == e;
      forall i | 0 <= i < |rest| ensures Leaves(g, StopAt(e.target, rest, i), rest[i]) {
        assert StopAt(e.target, rest, i) == StopAt(root, route, i + 1) && rest[i] == route[i + 1];
      }
      var v := WalkOfRoute(g, e.target, rest);
      w := [k] + v;
      assert w[1..] == v;
    }
  }

  lemma RouteIsWalked(g: Graph, root: TypeId, route: seq<Edge>) returns (w: Walk)
    requires IsSimpleRoute(g, root, route)
    ensures IsSimple(g, [], root, w) && Taken(g, root, w) == route
  {
    assert IsRoute(g, root, route);
    w := WalkOfRoute(g, root, route);
    hide Edges;
    hide Leaves;
    hide Taken;
    forall i | 0 <= i <= |w| ensures Visited(g, root, w)[i] == StopAt(root, route, i) {
      TakenByPosition(g, root, w, i);
    }
  }

  lemma RouteOfWalk(g: Graph, root: TypeId, w: Walk)
    requires IsWalk(g, root, w)
    ensures Last(g, root, w) == StopAt(root, Taken(g, root, w), |w|)
    ensures Slashed(Labels(g, root, w)) == Spelling(Taken(g, root, w))
  {
    TakenByPosition(g, root, w, |w|);
    SlashedIsSpelling(Taken(g, root, w));
  }

  /** After a gathering from `root`, a type's paths are exactly the spellings of the routes from
      `root` to it that the recorded data give and that repeat no type. */
  lemma PathsAreSimplePaths(g: Graph, types: set<TypeId>, root: TypeId, tid: TypeId, path: string)
    requires Closed(g, types) && root in types
    ensures path in PathsOf(Gathered(g, types, [], [], root), tid) <==>
      exists route :: IsSimpleRoute(g, root, route) && StopAt(root, route, |route|) == tid && Spelling(route) == path
  {
    hide Edges;
    hide Slashed;
    hide Gathered;
    hide PathsOf;
    hide IsSimple;
    hide IsSimpleRoute;
    hide Spelling;
    hide Last;
    PathsAreSimpleWalks(g, types, root, tid, path);
    if w :| IsWalk(g, root, w) && IsSimple(g, [], root, w) && Last(g, root, w) == tid && Slashed(Labels(g, root, w)) == path {
      TakenIsSimple(g, root, w);
      RouteOfWalk(g, root, w);
      assert IsSimpleRoute(g, root, Taken(g, root, w));
    }
    forall route | IsSimpleRoute(g, root, route) && StopAt(root, route, |route|) == tid && Spelling(route) == path
      ensures exists w :: IsWalk(g, root, w) && IsSimple(g, [], root, w) && Last(g, root, w) == tid && Slashed(Labels(g, root, w)) == path
    {
      var w := RouteIsWalked(g, root, route);
      SimpleIsWalk(g, root, w);
      RouteOfWalk(g, root, w);
    }
  }

  lemma SimpleIsWalk(g: Graph, root: TypeId, w: Walk)
    requires IsSimple(g, [], root, w)
    ensures IsWalk(g, root, w)
  {
  }

  /** The same over walks. */
  lemma PathsAreSimpleWalks(g: Graph, types: set<TypeId>, root: TypeId, tid: TypeId, path: string)
    requires Closed(g, types) && root in types
    ensures path in PathsOf(Gathered(g, types, [], [], root), tid) <==>
      exists w :: IsWalk(g, root, w) && IsSimple(g, [], root, w) && Last(g, root, w) == tid && Slashed(Labels(g, root, w)) == path
  {
    hide Edges;
    hide Slashed;
    hide Walks;
    hide Last;
    var walks := Walks(g, types, [], root);
    var records := Gathered(g, types, [], [], root);
    ListedAreWalks(g, types, [], root);
    PathsOfMember(records, tid, path);
    forall i | 0 <= i < |walks| ensures records[i] == (Last(g, root, walks[i]), Slashed(Labels(g, root, walks[i]))) {
      assert [] + Labels(g, root, walks[i]) == Labels(g, root, walks[i]);
    }
    if (tid, path) in records {
      var i :| 0 <= i < |records| && records[i] == (tid, path);
      ListsSimplePaths(g, types, [], root, walks[i]);
    }
    forall w | IsSimple(g, [], root, w) && Last(g, root, w) == tid && Slashed(Labels(g, root, w)) == path
      ensures (tid, path) in records
    {
      ListsSimplePaths(g, types, [], root, w);
      var i :| 0 <= i < |walks| && walks[i] == w;
      assert records[i] == (tid, path);
    }
  }
}
