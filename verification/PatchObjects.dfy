/**
 * The line objects of utils/check-style.py.  The reader creates one object per body line; the
 * filter edits the objects in place, and a context line is the same object in the source view
 * and in the destination view.
 */
module PatchObjects {
  import opened Common
  import opened Patches
  import opened PatchFilter

  class PatchChunkLine {
    var kind: Kind
    var text: string

    constructor (kind: Kind, text: string)
      ensures View() == Line(kind, text)
    {
      this.kind := kind;
      this.text := text;
    }

    ghost function View(): Line
      reads this
    {
      Line(kind, text)
    }

    method AppendToLine(s: string)
      modifies this
      ensures kind == old(kind) && text == old(text) + s
    {
      text := text + s;
    }
  }

  // ----- the values that the objects stand for -----

  ghost function LineViews(lines: seq<PatchChunkLine>): (r: seq<Line>)
    reads lines
    ensures |r| == |lines| && forall i :: 0 <= i < |lines| ==> r[i] == lines[i].View()
  {
    if lines == [] then [] else LineViews(lines[..|lines| - 1]) + [lines[|lines| - 1].View()]
  }

  function ChunkLines(chunks: seq<Chunk<PatchChunkLine>>): seq<PatchChunkLine> {
    if chunks == [] then [] else ChunkLines(chunks[..|chunks| - 1]) + chunks[|chunks| - 1].lines
  }

  /** All line objects of a patchset, in order. */
  function AllLines(patchset: seq<Patch<PatchChunkLine>>): seq<PatchChunkLine> {
    if patchset == [] then []
    else AllLines(patchset[..|patchset| - 1]) + ChunkLines(patchset[|patchset| - 1].chunks)
  }

  ghost function ChunkView(c: Chunk<PatchChunkLine>): Chunk<Line>
    reads c.lines
  {
    Chunk(c.srcPos, c.dstPos, LineViews(c.lines))
  }

  ghost function ChunkViews(chunks: seq<Chunk<PatchChunkLine>>): (r: seq<Chunk<Line>>)
    reads ChunkLines(chunks)
    ensures |r| == |chunks|
  {
    if chunks == [] then []
    else
      var front, last := chunks[..|chunks| - 1], chunks[|chunks| - 1];
      assert forall i :: 0 <= i < |ChunkLines(front)| ==> ChunkLines(front)[i] == ChunkLines(chunks)[i];
      assert forall i :: 0 <= i < |last.lines| ==> last.lines[i] == ChunkLines(chunks)[|ChunkLines(front)| + i];
      ChunkViews(front) + [ChunkView(last)]
  }

  ghost function PatchView(p: Patch<PatchChunkLine>): Patch<Line>
    reads ChunkLines(p.chunks)
  {
    Patch(p.src, p.dst, ChunkViews(p.chunks))
  }

  lemma {:induction false} AllLinesCover(patchset: seq<Patch<PatchChunkLine>>)
    requires patchset != []
    ensures var front, last := AllLines(patchset[..|patchset| - 1]), ChunkLines(patchset[|patchset| - 1].chunks);
      && |AllLines(patchset)| == |front| + |last|
      && (forall i :: 0 <= i < |front| ==> front[i] == AllLines(patchset)[i])
      && (forall i :: 0 <= i < |last| ==> last[i] == AllLines(patchset)[|front| + i])
  {
    hide ChunkLines;
    var front, last := AllLines(patchset[..|patchset| - 1]), ChunkLines(patchset[|patchset| - 1].chunks);
    assert AllLines(patchset) == front + last;
    hide AllLines;
  }

  ghost function PatchViews(patchset: seq<Patch<PatchChunkLine>>): (r: seq<Patch<Line>>)
    reads AllLines(patchset)
    ensures |r| == |patchset|
  {
    if patchset == [] then []
    else
      var front, last := patchset[..|patchset| - 1], patchset[|patchset| - 1];
      AllLinesCover(patchset);
      PatchViews(front) + [PatchView(last)]
  }

  // ----- reading -----

  lemma LineViewsSnoc(lines: seq<PatchChunkLine>, l: PatchChunkLine)
    ensures LineViews(lines + [l]) == LineViews(lines) + [l.View()]
  {
  }

  lemma ChunkSnoc(chunks: seq<Chunk<PatchChunkLine>>, c: Chunk<PatchChunkLine>)
    ensures ChunkLines(chunks + [c]) == ChunkLines(chunks) + c.lines
    ensures ChunkViews(chunks + [c]) == ChunkViews(chunks) + [ChunkView(c)]
  {
    assert (chunks + [c])[..|chunks|] == chunks;
  }

  lemma PatchSnoc(patchset: seq<Patch<PatchChunkLine>>, p: Patch<PatchChunkLine>)
    ensures AllLines(patchset + [p]) == AllLines(patchset) + ChunkLines(p.chunks)
    ensures PatchViews(patchset + [p]) == PatchViews(patchset) + [PatchView(p)]
  {
    assert (patchset + [p])[..|patchset|] == patchset;
  }

  /** Appending to the last chunk of a patch. */
  lemma LongerPatch(p: Patch<PatchChunkLine>, l: PatchChunkLine)
    requires p.chunks != []
    ensures var n := |p.chunks| - 1;
      var q := p.(chunks := p.chunks[n := p.chunks[n].(lines := p.chunks[n].lines + [l])]);
      var v := PatchView(p);
      && ChunkLines(q.chunks) == ChunkLines(p.chunks) + [l]
      && PatchView(q) == v.(chunks := v.chunks[n := v.chunks[n].(lines := v.chunks[n].lines + [l.View()])])
  {
    hide ChunkLines;
    hide ChunkViews;
    hide LineViews;
    var n := |p.chunks| - 1;
    var front, c := p.chunks[..n], p.chunks[n];
    var longer := c.(lines := c.lines + [l]);
    assert p.chunks == front + [c] && p.chunks[n := longer] == front + [longer];
    ChunkSnoc(front, c);
    ChunkSnoc(front, longer);
    LineViewsSnoc(c.lines, l);
    ReplaceLast(ChunkViews(front), ChunkView(c), ChunkView(longer));
    assert ChunkLines(front) + (c.lines + [l]) == ChunkLines(front) + c.lines + [l];
  }

  lemma ReplaceLast<T>(front: seq<T>, last: T, other: T)
    ensures (front + [last])[|front|] == last
    ensures (front + [last])[|front| := other] == front + [other]
  {
  }

  lemma LastPatch(patchset: seq<Patch<PatchChunkLine>>)
    requires patchset != []
    ensures var n := |patchset| - 1;
      && PatchViews(patchset)[..n] == PatchViews(patchset[..n])
      && PatchViews(patchset)[n] == PatchView(patchset[n])
      && AllLines(patchset) == AllLines(patchset[..n]) + ChunkLines(patchset[n].chunks)
  {
    hide PatchView;
    hide ChunkLines;
  }

  /** Replacing the last patch of the list replaces its value. */
  lemma ReplacePatch(patchset: seq<Patch<PatchChunkLine>>, p: Patch<PatchChunkLine>)
    requires patchset != []
    ensures var n := |patchset| - 1;
      && PatchViews(patchset[n := p]) == PatchViews(patchset)[n := PatchView(p)]
      && PatchViews(patchset)[n] == PatchView(patchset[n])
      && AllLines(patchset[n := p]) == AllLines(patchset[..n]) + ChunkLines(p.chunks)
      && AllLines(patchset) == AllLines(patchset[..n]) + ChunkLines(patchset[n].chunks)
  {
    hide PatchViews;
    hide PatchView;
    hide AllLines;
    hide ChunkLines;
    var n := |patchset| - 1;
    var front := patchset[..n];
    assert patchset == front + [patchset[n]] && patchset[n := p] == front + [p];
    PatchSnoc(front, patchset[n]);
    PatchSnoc(front, p);
    ReplaceLast(PatchViews(front), PatchView(patchset[n]), PatchView(p));
  }

  lemma AddLineAtEnd(patchset: seq<Patch<PatchChunkLine>>, l: PatchChunkLine)
    requires patchset != [] && patchset[|patchset| - 1].chunks != []
    ensures Some(PatchViews(AddLine(patchset, l).value)) == AddLine(PatchViews(patchset), l.View())
    ensures AllLines(AddLine(patchset, l).value) == AllLines(patchset) + [l]
  {
    var n := |patchset| - 1;
    var front, last := patchset[..n], patchset[n];
    var k := |last.chunks| - 1;
    var longer := last.(chunks := last.chunks[k := last.chunks[k].(lines := last.chunks[k].lines + [l])]);
    assert AddLine(patchset, l).value == front + [longer] == patchset[n := longer];
    LongerPatch(last, l);
    ReplacePatch(patchset, longer);
    hide PatchViews;
    hide ChunkLines;
    hide AllLines;
    var views := PatchViews(patchset);
    assert views[n := PatchView(longer)] == views[..n] + [PatchView(longer)];
    assert AllLines(front) + (ChunkLines(last.chunks) + [l]) == AllLines(front) + ChunkLines(last.chunks) + [l];
  }

  /** The reader's step on objects is its step on the values, and the new object comes last. */
  lemma {:induction false} AddLineViews(patchset: seq<Patch<PatchChunkLine>>, l: PatchChunkLine)
    ensures AddLine(patchset, l).Some? <==> AddLine(PatchViews(patchset), l.View()).Some?
    ensures AddLine(patchset, l).Some? ==>
      && PatchViews(AddLine(patchset, l).value) == AddLine(PatchViews(patchset), l.View()).value
      && AllLines(AddLine(patchset, l).value) == AllLines(patchset) + [l]
    decreases |patchset|
  {
    if patchset != [] {
      var front, last := patchset[..|patchset| - 1], patchset[|patchset| - 1];
      if last.chunks == [] {
        LastPatch(patchset);
        AddLineViews(front, l);
        assert ChunkLines(last.chunks) == [];
        assert PatchView(last).chunks == [];
        hide PatchViews;
        hide AllLines;
        hide ChunkLines;
        hide PatchView;
        if AddLine(front, l).Some? {
          PatchSnoc(AddLine(front, l).value, last);
        }
      } else {
        hide PatchViews;
        hide AllLines;
        AddLineAtEnd(patchset, l);
        hide AddLine;
      }
    }
  }

  lemma AddChunkViews(patchset: seq<Patch<PatchChunkLine>>, srcPos: nat, dstPos: nat)
    requires patchset != []
    ensures PatchViews(AddChunk(patchset, srcPos, dstPos).value) == AddChunk(PatchViews(patchset), srcPos, dstPos).value
    ensures AllLines(AddChunk(patchset, srcPos, dstPos).value) == AllLines(patchset)
  {
    hide PatchViews;
    hide AllLines;
    hide ChunkLines;
    hide ChunkViews;
    var last := patchset[|patchset| - 1];
    var empty: Chunk<PatchChunkLine> := Chunk(srcPos, dstPos, []);
    var longer := last.(chunks := last.chunks + [empty]);
    ReplacePatch(patchset, longer);
    ChunkSnoc(last.chunks, empty);
    assert ChunkLines(last.chunks) + [] == ChunkLines(last.chunks);
  }

  lemma SetDstViews(patchset: seq<Patch<PatchChunkLine>>, name: string)
    requires patchset != []
    ensures PatchViews(SetDst(patchset, name).value) == SetDst(PatchViews(patchset), name).value
    ensures AllLines(SetDst(patchset, name).value) == AllLines(patchset)
  {
    hide PatchViews;
    hide AllLines;
    hide ChunkLines;
    hide ChunkViews;
    ReplacePatch(patchset, patchset[|patchset| - 1].(dst := name));
  }

  /** One line of the reader's loop.  The ghost `all` names the objects made so far. */
  method FeedObjects(patchset: seq<Patch<PatchChunkLine>>, line: string, ghost all: seq<PatchChunkLine>)
      returns (result: Option<seq<Patch<PatchChunkLine>>>, ghost more: seq<PatchChunkLine>)
    requires all == AllLines(patchset)
    ensures result.Some? <==> Feed(old(PatchViews(patchset)), line).Some?
    ensures result.Some? ==>
      && Some(PatchViews(result.value)) == Feed(old(PatchViews(patchset)), line)
      && AllLines(result.value) == all + more
      && fresh(more) && |more| <= 1
  {
    hide PatchViews;
    hide AllLines;
    hide Classify;
    more := [];
    assert all + [] == all;
    match Classify(line) {
      case SrcFile(name) =>
        var p: Patch<PatchChunkLine> := Patch(name, "", []);
        PatchSnoc(patchset, p);
        result := Some(patchset + [p]);
      case DstFile(name) =>
        if patchset == [] {
          return None, [];
        }
        SetDstViews(patchset, name);
        result := SetDst(patchset, name);
      case Start(srcPos, dstPos) =>
        if patchset == [] {
          return None, [];
        }
        AddChunkViews(patchset, srcPos, dstPos);
        result := AddChunk(patchset, srcPos, dstPos);
      case Body(l) =>
        var entry := new PatchChunkLine(l.kind, l.text);
        AddLineViews(patchset, entry);
        hide AddLine;
        result, more := AddLine(patchset, entry), [entry];
      case Junk =>
        result := None;
    }
  }

  lemma FeedRest(patchset: seq<Patch<Line>>, line: string, rest: seq<string>)
    ensures FeedAll(patchset, [line] + rest) ==
      match Feed(patchset, line) case Some(next) => FeedAll(next, rest) case None => None
  {
    hide Feed;
    assert ([line] + rest)[1..] == rest;
  }

  lemma DistinctWith(all: seq<PatchChunkLine>, more: seq<PatchChunkLine>)
    requires Distinct(all) && |more| <= 1 && forall i :: 0 <= i < |more| ==> more[i] !in all
    ensures Distinct(all + more)
  {
  }

  /** `parse_patchset`: one new object per body line, none shared between lines. */
  method ParsePatchset(generator: seq<string>) returns (result: Option<seq<Patch<PatchChunkLine>>>)
    ensures result.Some? <==> Parse(generator).Some?
    ensures result.Some? ==>
      && PatchViews(result.value) == Parse(generator).value
      && Distinct(AllLines(result.value))
      && fresh(AllLines(result.value))
  {
    hide Feed;
    hide Classify;
    var patchset: seq<Patch<PatchChunkLine>> := [];
    ghost var all: seq<PatchChunkLine> := [];
    for i := 0 to |generator|
      invariant Parse(generator) == FeedAll(PatchViews(patchset), generator[i..])
      invariant all == AllLines(patchset) && Distinct(all) && fresh(all)
    {
      hide PatchViews;
      hide AllLines;
      assert generator[i..] == [generator[i]] + generator[i + 1..];
      FeedRest(PatchViews(patchset), generator[i], generator[i + 1..]);
      hide FeedAll;
      hide Distinct;
      var next, more := FeedObjects(patchset, generator[i], all);
      if next.None? {
        return None;
      }
      DistinctWith(all, more);
      patchset, all := next.value, all + more;
    }
    result := Some(patchset);
  }

  // ----- filtering in place -----

  method Select(lines: seq<PatchChunkLine>, src: bool) returns (view: seq<PatchChunkLine>)
    ensures |view| == |Positions(LineViews(lines), src)|
    ensures forall k :: 0 <= k < |view| ==> view[k] == lines[Positions(LineViews(lines), src)[k]]
  {
    view := [];
    for i := 0 to |lines|
      invariant |view| == |Positions(LineViews(lines)[..i], src)|
      invariant forall k :: 0 <= k < |view| ==> view[k] == lines[Positions(LineViews(lines)[..i], src)[k]]
    {
      assert LineViews(lines)[..i + 1][..i] == LineViews(lines)[..i];
      if Selected(lines[i].kind, src) {
        view := view + [lines[i]];
      }
    }
    assert LineViews(lines)[..|lines|] == LineViews(lines);
  }

  lemma FixedViews(was: seq<Line>, now: seq<Line>, s: nat, d: nat)
    requires |now| == |was| && s < |was| && d < |was|
    requires forall j :: 0 <= j < |was| && j != d ==> now[j] == was[j]
    requires now[d].kind == was[d].kind
    requires now[d].text == if OneBlankMore(was[s].text, was[d].text)
      then was[d].text + [was[s].text[|was[s].text| - 1]] else was[d].text
    ensures now == Fix(was, s, d)
  {
    hide OneBlankMore;
    assert now[d] == Fix(was, s, d)[d];
  }

  /** One step of the loop over the two views. */
  method FixLine(lines: seq<PatchChunkLine>, s: PatchChunkLine, d: PatchChunkLine, ghost i: nat, ghost j: nat)
    requires Distinct(lines) && i < |lines| && j < |lines| && lines[i] == s && lines[j] == d
    modifies d
    ensures LineViews(lines) == Fix(old(LineViews(lines)), i, j)
  {
    hide LineViews;
    ghost var was := LineViews(lines);
    var text := s.text;
    if text != [] && (text[|text| - 1] == ' ' || text[|text| - 1] == '\t') && text[..|text| - 1] == d.text {
      d.AppendToLine([text[|text| - 1]]);
    }
    FixedViews(was, LineViews(lines), i, j);
  }

  /** The two views are walked in step; running off the destination view stops the filter. */
  method FilterObjects(lines: seq<PatchChunkLine>) returns (stopped: bool)
    requires Distinct(lines)
    modifies lines
    ensures LineViews(lines) == FilterLines(old(LineViews(lines)))
    ensures stopped <==> |Positions(old(LineViews(lines)), true)| > |Positions(old(LineViews(lines)), false)|
  {
    hide Positions;
    hide Fix;
    hide LineViews;
    hide Selected;
    hide Distinct;
    var src := Select(lines, true);
    var dst := Select(lines, false);
    ghost var was := LineViews(lines);
    for i := 0 to |src|
      invariant i <= |dst|
      invariant LineViews(lines) == FilterUpTo(was, i)
    {
      if i == |dst| {
        return true;
      }
      FixLine(lines, src[i], dst[i], SrcAt(was, i), DstAt(was, i));
    }
    stopped := false;
  }

  // ----- whole patchsets -----

  lemma {:induction false} ChunkAt(chunks: seq<Chunk<PatchChunkLine>>, i: nat)
    requires i < |chunks|
    ensures ChunkViews(chunks)[i] == ChunkView(chunks[i])
    ensures forall k :: 0 <= k < |chunks[i].lines| ==> chunks[i].lines[k] in ChunkLines(chunks)
  {
    if i < |chunks| - 1 {
      ChunkAt(chunks[..|chunks| - 1], i);
    }
  }

  predicate Disjoint(a: seq<PatchChunkLine>, b: seq<PatchChunkLine>) {
    forall i, j :: 0 <= i < |a| && 0 <= j < |b| ==> a[i] != b[j]
  }

  lemma DistinctParts(a: seq<PatchChunkLine>, b: seq<PatchChunkLine>)
    requires Distinct(a + b)
    ensures Distinct(a) && Distinct(b) && Disjoint(a, b) && Disjoint(b, a)
  {
    assert forall i :: 0 <= i < |a| ==> a[i] == (a + b)[i];
    assert forall i :: 0 <= i < |b| ==> b[i] == (a + b)[|a| + i];
  }

  /** Objects that occur once in a patch occur once in a chunk, and in no other chunk. */
  lemma {:induction false} ChunksAreSeparate(chunks: seq<Chunk<PatchChunkLine>>, i: nat)
    requires i < |chunks| && Distinct(ChunkLines(chunks))
    ensures Distinct(chunks[i].lines)
    ensures forall j :: 0 <= j < |chunks| && j != i ==> Disjoint(chunks[j].lines, chunks[i].lines)
  {
    var n := |chunks| - 1;
    var front, last := chunks[..n], chunks[n];
    assert ChunkLines(chunks) == ChunkLines(front) + last.lines;
    DistinctParts(ChunkLines(front), last.lines);
    hide ChunkLines;
    forall j | 0 <= j < n ensures Disjoint(chunks[j].lines, last.lines) && Disjoint(last.lines, chunks[j].lines) {
      ChunkAt(front, j);
      assert front[j] == chunks[j];
    }
    if i < n {
      hide Disjoint;
      ChunksAreSeparate(front, i);
      assert forall j :: 0 <= j < n ==> front[j] == chunks[j];
    }
  }

  /** The first `k` chunks filtered, of which only the last may be short. */
  predicate ChunksDone(was: seq<Chunk<Line>>, now: seq<Chunk<Line>>, k: nat) {
    && |now| == |was| && k <= |was|
    && (forall j :: 0 <= j < k ==> now[j] == FilterChunk(was[j]))
    && (forall j :: k <= j < |was| ==> now[j] == was[j])
    && (forall j :: 0 <= j < k - 1 ==> !IsShort(was[j]))
  }

  lemma ChunksFinished(was: seq<Chunk<Line>>, now: seq<Chunk<Line>>, k: nat)
    requires ChunksDone(was, now, k)
    requires (k > 0 && IsShort(was[k - 1])) || k == |was|
    ensures now == FilterChunks(was)
    ensures HasShort(was) <==> k > 0 && IsShort(was[k - 1])
  {
    hide IsShort;
    hide FilterChunk;
    forall j | 0 <= j < |was| ensures now[j] == FilterChunks(was)[j] {
      ChunksUpToFirstShort(was, j);
      if j >= k {
        assert was[..j][k - 1] == was[k - 1];
      }
    }
  }

  lemma ChunkViewsAt(chunks: seq<Chunk<PatchChunkLine>>)
    ensures forall j :: 0 <= j < |chunks| ==> ChunkViews(chunks)[j] == ChunkView(chunks[j])
  {
    hide ChunkViews;
    forall j | 0 <= j < |chunks| ensures ChunkViews(chunks)[j] == ChunkView(chunks[j]) {
      ChunkAt(chunks, j);
    }
  }

  /** The body of the loop over the chunks of one patch. */
  method FilterChunkObject(chunks: seq<Chunk<PatchChunkLine>>, i: nat, ghost was: seq<Chunk<Line>>) returns (stopped: bool)
    requires i < |chunks| && Distinct(ChunkLines(chunks))
    requires ChunksDone(was, ChunkViews(chunks), i) && (i > 0 ==> !IsShort(was[i - 1]))
    modifies ChunkLines(chunks)
    ensures ChunksDone(was, ChunkViews(chunks), i + 1)
    ensures stopped <==> IsShort(was[i])
  {
    hide ChunkLines;
    hide ChunkViews;
    hide LineViews;
    hide FilterLines;
    hide Positions;
    ghost var before := ChunkViews(chunks);
    ChunkViewsAt(chunks);
    ChunkAt(chunks, i);
    ChunksAreSeparate(chunks, i);
    stopped := FilterObjects(chunks[i].lines);
    ChunkViewsAt(chunks);
    assert forall j :: 0 <= j < |chunks| && j != i ==> ChunkView(chunks[j]) == before[j];
    assert ChunkView(chunks[i]) == FilterChunk(was[i]);
  }

  method FilterChunkObjects(chunks: seq<Chunk<PatchChunkLine>>) returns (stopped: bool)
    requires Distinct(ChunkLines(chunks))
    modifies ChunkLines(chunks)
    ensures ChunkViews(chunks) == FilterChunks(old(ChunkViews(chunks)))
    ensures stopped <==> HasShort(old(ChunkViews(chunks)))
  {
    hide ChunkLines;
    hide ChunkViews;
    hide HasShort;
    hide FilterChunks;
    hide Distinct;
    hide IsShort;
    ghost var was := ChunkViews(chunks);
    for i := 0 to |chunks|
      invariant ChunksDone(was, ChunkViews(chunks), i)
      invariant i > 0 ==> !IsShort(was[i - 1])
    {
      stopped := FilterChunkObject(chunks, i, was);
      if stopped {
        ChunksFinished(was, ChunkViews(chunks), i + 1);
        return;
      }
    }
    ChunksFinished(was, ChunkViews(chunks), |chunks|);
    stopped := false;
  }

  // ----- the loop over the patches -----

  lemma {:induction false} PatchAt(patchset: seq<Patch<PatchChunkLine>>, i: nat)
    requires i < |patchset|
    ensures PatchViews(patchset)[i] == PatchView(patchset[i])
    ensures var lines := ChunkLines(patchset[i].chunks);
      forall k :: 0 <= k < |lines| ==> lines[k] in AllLines(patchset)
  {
    hide PatchView;
    hide ChunkLines;
    if i < |patchset| - 1 {
      PatchAt(patchset[..|patchset| - 1], i);
    }
  }

  lemma PatchViewsAt(patchset: seq<Patch<PatchChunkLine>>)
    ensures forall i :: 0 <= i < |patchset| ==> PatchViews(patchset)[i] == PatchView(patchset[i])
  {
    hide PatchViews;
    hide PatchView;
    forall i | 0 <= i < |patchset| ensures PatchViews(patchset)[i] == PatchView(patchset[i]) {
      PatchAt(patchset, i);
    }
  }

  lemma {:induction false} PatchesAreSeparate(patchset: seq<Patch<PatchChunkLine>>, i: nat)
    requires i < |patchset| && Distinct(AllLines(patchset))
    ensures Distinct(ChunkLines(patchset[i].chunks))
    ensures forall j :: 0 <= j < |patchset| && j != i ==>
      Disjoint(ChunkLines(patchset[j].chunks), ChunkLines(patchset[i].chunks))
  {
    hide ChunkLines;
    var n := |patchset| - 1;
    var front, last := patchset[..n], patchset[n];
    assert AllLines(patchset) == AllLines(front) + ChunkLines(last.chunks);
    DistinctParts(AllLines(front), ChunkLines(last.chunks));
    hide AllLines;
    forall j | 0 <= j < n
      ensures Disjoint(ChunkLines(patchset[j].chunks), ChunkLines(last.chunks))
      ensures Disjoint(ChunkLines(last.chunks), ChunkLines(patchset[j].chunks))
    {
      PatchAt(front, j);
      assert front[j] == patchset[j];
    }
    if i < n {
      hide Disjoint;
      PatchesAreSeparate(front, i);
      assert forall j :: 0 <= j < n ==> front[j] == patchset[j];
    }
  }

  /** The first `k` patches filtered, of which only the last may hold a short chunk. */
  predicate PatchesDone(was: seq<Patch<Line>>, now: seq<Patch<Line>>, k: nat) {
    && |now| == |was| && k <= |was|
    && (forall j :: 0 <= j < k ==> now[j] == FilterPatch(was[j]))
    && (forall j :: k <= j < |was| ==> now[j] == was[j])
    && (forall j :: 0 <= j < k - 1 ==> !HasShort(was[j].chunks))
  }

  lemma PatchesFinished(was: seq<Patch<Line>>, now: seq<Patch<Line>>, k: nat)
    requires PatchesDone(was, now, k)
    requires (k > 0 && HasShort(was[k - 1].chunks)) || k == |was|
    ensures now == FilterPatches(was)
  {
    hide HasShort;
    hide FilterPatch;
    hide FilterPatches;
    forall j | 0 <= j < |was| ensures now[j] == FilterPatches(was)[j] {
      PatchesUpToFirstShort(was, j);
    }
  }

  /** The body of the loop over the patches; the ghost `all` names their line objects. */
  method FilterPatchObject(patchset: seq<Patch<PatchChunkLine>>, i: nat, ghost was: seq<Patch<Line>>,
                           ghost all: seq<PatchChunkLine>)
      returns (stopped: bool)
    requires i < |patchset| && all == AllLines(patchset) && Distinct(all)
    requires PatchesDone(was, PatchViews(patchset), i) && (i > 0 ==> !HasShort(was[i - 1].chunks))
    modifies all
    ensures PatchesDone(was, PatchViews(patchset), i + 1)
    ensures stopped <==> HasShort(was[i].chunks)
  {
    hide AllLines;
    hide PatchViews;
    hide ChunkViews;
    hide HasShort;
    hide FilterChunks;
    hide Distinct;
    ghost var before := PatchViews(patchset);
    PatchViewsAt(patchset);
    PatchAt(patchset, i);
    PatchesAreSeparate(patchset, i);
    stopped := FilterChunkObjects(patchset[i].chunks);
    PatchViewsAt(patchset);
    forall j | 0 <= j < |patchset| && j != i ensures PatchView(patchset[j]) == before[j] {
      PatchAt(patchset, j);
      assert forall k :: 0 <= k < |ChunkLines(patchset[j].chunks)| ==> ChunkLines(patchset[j].chunks)[k] in all;
    }
    assert PatchView(patchset[i]) == FilterPatch(was[i]);
  }

  /** `remove_trailing_whitespace_changes`: reads the patchset and filters it in place. */
  method RemoveTrailingWhitespaceChanges(generator: seq<string>) returns (result: Option<seq<Patch<PatchChunkLine>>>)
    ensures result.Some? <==> Parse(generator).Some?
    ensures result.Some? ==> PatchViews(result.value) == FilterPatches(Parse(generator).value)
  {
    hide AllLines;
    hide PatchViews;
    hide HasShort;
    hide FilterPatches;
    hide FilterPatch;
    hide Distinct;
    hide Parse;
    result := ParsePatchset(generator);
    if result.Some? {
      var patchset := result.value;
      ghost var was, all := PatchViews(patchset), AllLines(patchset);
      for i := 0 to |patchset|
        invariant |was| == |patchset| && PatchesDone(was, PatchViews(patchset), i)
        invariant i > 0 ==> !HasShort(was[i - 1].chunks)
      {
        var stopped := FilterPatchObject(patchset, i, was, all);
        if stopped {
          PatchesFinished(was, PatchViews(patchset), i + 1);
          return;
        }
      }
      PatchesFinished(was, PatchViews(patchset), |patchset|);
    }
  }

  // ----- writing -----

  lemma {:induction false} WriteLinesSnoc(lines: seq<Line>, l: Line)
    ensures WriteLines(lines + [l]) == WriteLines(lines) + [WriteLine(l)]
  {
    hide WriteLine;
    if lines == [] {
      assert [l][1..] == [];
    } else {
      assert (lines + [l])[1..] == lines[1..] + [l];
      WriteLinesSnoc(lines[1..], l);
    }
  }

  lemma {:induction false} WriteChunksSnoc(chunks: seq<Chunk<Line>>, c: Chunk<Line>)
    ensures WriteChunks(chunks + [c]) == WriteChunks(chunks) + WriteChunk(c)
  {
    hide WriteChunk;
    if chunks == [] {
      assert [c][1..] == [];
      assert chunks + [c] == [c];
    } else {
      assert (chunks + [c])[1..] == chunks[1..] + [c];
      WriteChunksSnoc(chunks[1..], c);
    }
  }

  /** The header counts the lines of the two views. */
  method WriteChunkObject(c: Chunk<PatchChunkLine>) returns (out: seq<string>)
    ensures out == WriteChunk(ChunkView(c))
    ensures IsWrittenChunk(ChunkView(c), out)
  {
    hide IsWrittenChunk;
    hide LineViews;
    hide ChunkStart;
    hide WriteLines;
    hide Positions;
    ghost var views := LineViews(c.lines);
    var src := Select(c.lines, true);
    var dst := Select(c.lines, false);
    CountsArePositions(views);
    var header := ChunkStart(c.srcPos, |src|, c.dstPos, |dst|);
    var body: seq<string> := [];
    WriteNothing();
    for i := 0 to |c.lines|
      invariant body == WriteLines(views[..i])
    {
      assert views[..i + 1] == views[..i] + [views[i]];
      WriteLinesSnoc(views[..i], views[i]);
      var l := c.lines[i];
      body := body + [Mark(l.kind) + l.text];
    }
    assert views[..|c.lines|] == views;
    out := [header] + body;
    ChunkIsWritten(ChunkView(c));
  }

  lemma WriteNothing()
    ensures WriteLines([]) == [] && WriteChunks([]) == []
  {
  }

  /** `Patch.write`, which is what the style checker hands to the `patch` program. */
  method WritePatchObject(p: Patch<PatchChunkLine>, ghost all: seq<PatchChunkLine>) returns (out: seq<string>)
    requires all == ChunkLines(p.chunks)
    ensures out == WritePatch(PatchView(p))
    ensures IsWrittenPatch(PatchView(p), out)
  {
    hide IsWrittenPatch;
    hide ChunkViews;
    hide WriteChunk;
    ghost var views := ChunkViews(p.chunks);
    ChunkViewsAt(p.chunks);
    var body: seq<string> := [];
    WriteNothing();
    for i := 0 to |p.chunks|
      invariant body == WriteChunks(views[..i])
    {
      assert views[..i + 1] == views[..i] + [views[i]];
      WriteChunksSnoc(views[..i], views[i]);
      var written := WriteChunkObject(p.chunks[i]);
      body := body + written;
    }
    assert views[..|p.chunks|] == views;
    out := ["--- " + p.src, "+++ " + p.dst] + body;
    PatchIsWritten(PatchView(p));
  }
}
