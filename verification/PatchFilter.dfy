/**
 * The trailing-whitespace filter of utils/check-style.py.  It walks the source view and the
 * destination view of a chunk in step; a context line is one object in both views.
 */
module PatchFilter {
  import opened Common
  import opened Patches

  predicate Selected(k: Kind, src: bool) {
    if src then IsSrc(k) else IsDst(k)
  }

  /** The positions of the source (or destination) lines, in order. */
  function Positions(lines: seq<Line>, src: bool): (r: seq<nat>)
    ensures forall i :: 0 <= i < |r| ==> r[i] < |lines| && Selected(lines[r[i]].kind, src)
    ensures forall i, j :: 0 <= i < j < |r| ==> r[i] < r[j]
  {
    if lines == [] then []
    else
      var n := |lines| - 1;
      Positions(lines[..n], src) + if Selected(lines[n].kind, src) then [n] else []
  }

  /** The number of steps until one of the two views is exhausted. */
  function Steps(lines: seq<Line>): (n: nat)
    ensures n <= |Positions(lines, true)| && n <= |Positions(lines, false)|
    ensures n == |Positions(lines, true)| || n == |Positions(lines, false)|
  {
    if |Positions(lines, true)| <= |Positions(lines, false)|
    then |Positions(lines, true)| else |Positions(lines, false)|
  }

  function SrcAt(lines: seq<Line>, i: nat): (p: nat)
    requires i < Steps(lines)
    ensures p < |lines| && IsSrc(lines[p].kind)
  {
    Positions(lines, true)[i]
  }

  function DstAt(lines: seq<Line>, i: nat): (p: nat)
    requires i < Steps(lines)
    ensures p < |lines| && IsDst(lines[p].kind)
  {
    Positions(lines, false)[i]
  }

  /** The match of `^(.*)([ \t]+)$` and the comparison: because the first group is greedy the
      second is a single blank or tab. */
  predicate OneBlankMore(s: string, d: string) {
    s != [] && (s[|s| - 1] == ' ' || s[|s| - 1] == '\t') && s[..|s| - 1] == d
  }

  /** The source line is the destination line and one blank or tab. */
  lemma BlankOrTab(s: string, d: string)
    ensures OneBlankMore(s, d) <==> s == d + [' '] || s == d + ['\t']
  {
    if OneBlankMore(s, d) {
      assert s == d + [s[|s| - 1]];
    }
    assert (d + [' '])[..|d|] == d && (d + ['\t'])[..|d|] == d;
  }

  /** Appending the blank makes the destination line equal to the source line. */
  function Fix(lines: seq<Line>, s: nat, d: nat): (r: seq<Line>)
    requires s < |lines| && d < |lines|
    ensures |r| == |lines|
    ensures forall j :: 0 <= j < |lines| ==> r[j].kind == lines[j].kind
    ensures forall j :: 0 <= j < |lines| && j != d ==> r[j] == lines[j]
  {
    if OneBlankMore(lines[s].text, lines[d].text)
    then lines[d := lines[d].(text := lines[d].text + [lines[s].text[|lines[s].text| - 1]])]
    else lines
  }

  /** The lines after `k` steps of the loop. */
  function FilterUpTo(lines: seq<Line>, k: nat): (r: seq<Line>)
    requires k <= Steps(lines)
    ensures |r| == |lines|
    ensures forall j :: 0 <= j < |lines| ==> r[j].kind == lines[j].kind
  {
    if k == 0 then lines else Fix(FilterUpTo(lines, k - 1), SrcAt(lines, k - 1), DstAt(lines, k - 1))
  }

  function FilterLines(lines: seq<Line>): (r: seq<Line>)
    ensures |r| == |lines|
    ensures forall j :: 0 <= j < |lines| ==> r[j].kind == lines[j].kind
  {
    FilterUpTo(lines, Steps(lines))
  }

  // ----- when the source side is kept -----

  /** At step `i` a context line would be changed, and with it the source view. */
  predicate ContextHit(lines: seq<Line>, i: nat)
    requires i < Steps(lines)
  {
    lines[DstAt(lines, i)].kind == Both && OneBlankMore(lines[SrcAt(lines, i)].text, lines[DstAt(lines, i)].text)
  }

  predicate NoContextHit(lines: seq<Line>, k: nat)
    requires k <= Steps(lines)
  {
    forall i :: 0 <= i < k ==> !ContextHit(lines, i)
  }

  predicate SourceKept(lines: seq<Line>, r: seq<Line>)
    requires |r| == |lines|
  {
    forall j :: 0 <= j < |lines| && IsSrc(lines[j].kind) ==> r[j] == lines[j]
  }

  lemma {:induction false} LaterUntouched(lines: seq<Line>, k: nat, i: nat)
    requires k <= i < Steps(lines)
    ensures FilterUpTo(lines, k)[DstAt(lines, i)] == lines[DstAt(lines, i)]
    decreases k
  {
    hide Fix;
    hide Positions;
    if k > 0 {
      LaterUntouched(lines, k - 1, i);
      assert Positions(lines, false)[k - 1] < Positions(lines, false)[i];
    }
  }

  lemma {:induction false} VisitedOnce(lines: seq<Line>, i: nat, k: nat)
    requires i < k <= Steps(lines)
    ensures FilterUpTo(lines, k)[DstAt(lines, i)] == FilterUpTo(lines, i + 1)[DstAt(lines, i)]
    decreases k
  {
    hide Fix;
    hide Positions;
    if i + 1 < k {
      VisitedOnce(lines, i, k - 1);
      assert Positions(lines, false)[i] < Positions(lines, false)[k - 1];
    }
  }

  /** Until the first hit the source side is as it was. */
  lemma {:induction false} KeptUntilHit(lines: seq<Line>, k: nat)
    requires k <= Steps(lines) && NoContextHit(lines, k)
    ensures SourceKept(lines, FilterUpTo(lines, k))
    decreases k
  {
    hide Positions;
    if k > 0 {
      KeptUntilHit(lines, k - 1);
      StepText(lines, k - 1);
      assert !ContextHit(lines, k - 1);
      hide FilterUpTo;
    }
  }

  lemma HitChanges(lines: seq<Line>, i: nat)
    requires i < Steps(lines) && NoContextHit(lines, i) && ContextHit(lines, i)
    ensures !SourceKept(lines, FilterLines(lines))
  {
    hide Positions;
    KeptUntilHit(lines, i);
    LaterUntouched(lines, i, i);
    VisitedOnce(lines, i, Steps(lines));
    var d := DstAt(lines, i);
    assert |FilterUpTo(lines, i + 1)[d].text| == |lines[d].text| + 1;
    assert FilterLines(lines)[d] != lines[d];
  }

  lemma FirstHit(lines: seq<Line>) returns (i: nat)
    requires !NoContextHit(lines, Steps(lines))
    ensures i < Steps(lines) && NoContextHit(lines, i) && ContextHit(lines, i)
  {
    i := 0;
    while !ContextHit(lines, i)
      invariant i < Steps(lines) && NoContextHit(lines, i)
      invariant exists j :: i <= j < Steps(lines) && ContextHit(lines, j)
      decreases Steps(lines) - i
    {
      i := i + 1;
    }
  }

  /** The filter leaves the source side unchanged if and only if no context line meets a source
      line with one more trailing blank at its own rank of the destination view. */
  lemma SourceKeptIffNoHit(lines: seq<Line>)
    ensures SourceKept(lines, FilterLines(lines)) <==> NoContextHit(lines, Steps(lines))
  {
    if NoContextHit(lines, Steps(lines)) {
      KeptUntilHit(lines, Steps(lines));
    } else {
      var i := FirstHit(lines);
      HitChanges(lines, i);
    }
  }

  /** Context lines have the same rank in both views. */
  predicate Aligned(lines: seq<Line>) {
    forall i :: 0 <= i < Steps(lines) && lines[DstAt(lines, i)].kind == Both ==> SrcAt(lines, i) == DstAt(lines, i)
  }

  lemma AlignedIsKept(lines: seq<Line>)
    requires Aligned(lines)
    ensures NoContextHit(lines, Steps(lines)) && SourceKept(lines, FilterLines(lines))
  {
    SourceKeptIffNoHit(lines);
  }

  lemma RemovedThenContext(lines: seq<Line>)
    requires |lines| == 2 && lines[0].kind == Src && lines[1].kind == Both
    ensures Positions(lines, true) == [0, 1] && Positions(lines, false) == [1]
  {
    assert lines[..1][..0] == [];
    assert Positions(lines[..1], true) == [0] && Positions(lines[..1], false) == [];
  }

  /** Without alignment a removed line with a trailing blank rewrites the context behind it. */
  lemma UnalignedChangesSource(lines: seq<Line>, text: string)
    requires lines == [Line(Src, text + [' ']), Line(Both, text)]
    ensures !SourceKept(lines, FilterLines(lines))
  {
    RemovedThenContext(lines);
    hide Positions;
    hide FilterLines;
    hide SourceKept;
    assert OneBlankMore(text + [' '], text);
    assert SrcAt(lines, 0) == 0 && DstAt(lines, 0) == 1;
    assert ContextHit(lines, 0);
    SourceKeptIffNoHit(lines);
  }

  // ----- what the filter does to the destination side -----

  /** The destination line of step `i` becomes the source line exactly when it lacks one
      trailing blank. */
  lemma DestinationAfter(lines: seq<Line>, i: nat)
    requires NoContextHit(lines, Steps(lines)) && i < Steps(lines)
    ensures var s, d := lines[SrcAt(lines, i)].text, lines[DstAt(lines, i)].text;
      FilterLines(lines)[DstAt(lines, i)].text == if s == d + [' '] || s == d + ['\t'] then s else d
  {
    hide Positions;
    KeptUntilHit(lines, i);
    TextAfter(lines, i, Steps(lines));
    hide FilterUpTo;
    BlankOrTab(lines[SrcAt(lines, i)].text, lines[DstAt(lines, i)].text);
    hide OneBlankMore;
  }

  /** A line that is at no step's destination stays as it is. */
  lemma {:induction false} OthersUntouched(lines: seq<Line>, k: nat, j: nat)
    requires k <= Steps(lines) && j < |lines|
    requires forall i :: 0 <= i < k ==> DstAt(lines, i) != j
    ensures FilterUpTo(lines, k)[j] == lines[j]
    decreases k
  {
    hide Fix;
    hide Positions;
    if k > 0 {
      OthersUntouched(lines, k - 1, j);
    }
  }

  lemma {:induction false} SameKindsSamePositions(a: seq<Line>, b: seq<Line>, src: bool)
    requires |a| == |b| && forall j :: 0 <= j < |a| ==> a[j].kind == b[j].kind
    ensures Positions(a, src) == Positions(b, src)
    decreases |a|
  {
    if a != [] {
      SameKindsSamePositions(a[..|a| - 1], b[..|b| - 1], src);
    }
  }

  lemma {:induction false} NothingToDo(lines: seq<Line>, k: nat)
    requires k <= Steps(lines)
    requires forall i :: 0 <= i < k ==> !OneBlankMore(lines[SrcAt(lines, i)].text, lines[DstAt(lines, i)].text)
    ensures FilterUpTo(lines, k) == lines
    decreases k
  {
    hide Positions;
    if k > 0 {
      NothingToDo(lines, k - 1);
    }
  }

  // ----- filtering twice -----

  /** Step `j` of the filter appends a blank. */
  predicate Fires(lines: seq<Line>, j: nat)
    requires j < Steps(lines)
  {
    OneBlankMore(FilterUpTo(lines, j)[SrcAt(lines, j)].text, lines[DstAt(lines, j)].text)
  }

  /** Step `i` leaves the destination line with the text that the source line has before. */
  predicate Levels(lines: seq<Line>, i: nat)
    requires i < Steps(lines)
  {
    var s, d := lines[SrcAt(lines, i)].text, lines[DstAt(lines, i)].text;
    d == s || OneBlankMore(s, d)
  }

  /** A step that gives a context line a blank, after an earlier step has made another line
      equal to it. */
  predicate Reopens(lines: seq<Line>, i: nat, j: nat)
    requires i < j < Steps(lines)
  {
    SrcAt(lines, i) == DstAt(lines, j) && Fires(lines, j) && Levels(lines, i)
  }

  predicate Stable(lines: seq<Line>) {
    forall i, j :: 0 <= i < j < Steps(lines) ==> !Reopens(lines, i, j)
  }

  lemma FixText(lines: seq<Line>, s: nat, d: nat)
    requires s < |lines| && d < |lines|
    ensures OneBlankMore(lines[s].text, lines[d].text) ==> Fix(lines, s, d)[d].text == lines[s].text
    ensures !OneBlankMore(lines[s].text, lines[d].text) ==> Fix(lines, s, d) == lines
  {
    var text := lines[s].text;
    assert text != [] ==> text == text[..|text| - 1] + [text[|text| - 1]];
  }

  /** What step `j` does. */
  lemma StepText(lines: seq<Line>, j: nat)
    requires j < Steps(lines)
    ensures Fires(lines, j) ==>
      FilterUpTo(lines, j + 1)[DstAt(lines, j)].text == FilterUpTo(lines, j)[SrcAt(lines, j)].text
    ensures !Fires(lines, j) ==> FilterUpTo(lines, j + 1) == FilterUpTo(lines, j)
    ensures forall k :: 0 <= k < |lines| && k != DstAt(lines, j) ==> FilterUpTo(lines, j + 1)[k] == FilterUpTo(lines, j)[k]
  {
    hide Positions;
    hide Fix;
    hide OneBlankMore;
    LaterUntouched(lines, j, j);
    FixText(FilterUpTo(lines, j), SrcAt(lines, j), DstAt(lines, j));
  }

  /** The destination line of step `j` is touched by that step alone. */
  lemma TextAfter(lines: seq<Line>, j: nat, k: nat)
    requires j < k <= Steps(lines)
    ensures FilterUpTo(lines, k)[DstAt(lines, j)].text
      == if Fires(lines, j) then FilterUpTo(lines, j)[SrcAt(lines, j)].text else lines[DstAt(lines, j)].text
  {
    hide Positions;
    LaterUntouched(lines, j, j);
    VisitedOnce(lines, j, k);
    StepText(lines, j);
    hide FilterUpTo;
    hide Fires;
  }

  /** The source line of step `i` changes only at a later step that has it as destination. */
  lemma {:induction false} SourceStays(lines: seq<Line>, i: nat, k: nat)
    requires i < Steps(lines) && i <= k <= Steps(lines)
    requires forall j :: i <= j < k && Fires(lines, j) ==> DstAt(lines, j) != SrcAt(lines, i)
    ensures FilterUpTo(lines, k)[SrcAt(lines, i)] == FilterUpTo(lines, i)[SrcAt(lines, i)]
    decreases k
  {
    hide Positions;
    hide FilterUpTo;
    hide Fires;
    if i < k {
      SourceStays(lines, i, k - 1);
      StepText(lines, k - 1);
    }
  }

  lemma FiresNotOnItself(lines: seq<Line>, i: nat)
    requires i < Steps(lines) && Fires(lines, i)
    ensures SrcAt(lines, i) != DstAt(lines, i)
  {
    LaterUntouched(lines, i, i);
  }

  /** The second pass would append at step `i` what the first has left. */
  predicate StillLacks(lines: seq<Line>, i: nat)
    requires i < Steps(lines)
  {
    OneBlankMore(FilterLines(lines)[SrcAt(lines, i)].text, FilterLines(lines)[DstAt(lines, i)].text)
  }

  lemma ReopenedLacks(lines: seq<Line>, i: nat, j: nat)
    requires i < j < Steps(lines) && SrcAt(lines, i) == DstAt(lines, j) && Fires(lines, j)
    ensures StillLacks(lines, i) <==> Levels(lines, i)
  {
    hide Positions;
    LaterUntouched(lines, i, j);
    TextAfter(lines, i, Steps(lines));
    TextAfter(lines, j, Steps(lines));
    hide FilterUpTo;
  }

  lemma UnreopenedDoesNotLack(lines: seq<Line>, i: nat)
    requires i < Steps(lines)
    requires forall j :: i < j < Steps(lines) && Fires(lines, j) ==> DstAt(lines, j) != SrcAt(lines, i)
    ensures !StillLacks(lines, i)
  {
    hide Positions;
    if Fires(lines, i) {
      FiresNotOnItself(lines, i);
    }
    SourceStays(lines, i, Steps(lines));
    TextAfter(lines, i, Steps(lines));
    hide FilterUpTo;
  }

  lemma LacksIffReopened(lines: seq<Line>, i: nat)
    requires i < Steps(lines)
    ensures StillLacks(lines, i) <==> exists j :: i < j < Steps(lines) && Reopens(lines, i, j)
  {
    hide StillLacks;
    hide Positions;
    hide Fires;
    hide Levels;
    if j :| i < j < Steps(lines) && Fires(lines, j) && DstAt(lines, j) == SrcAt(lines, i) {
      ReopenedLacks(lines, i, j);
      if StillLacks(lines, i) {
        assert Reopens(lines, i, j);
      }
    } else {
      UnreopenedDoesNotLack(lines, i);
    }
  }

  lemma StableLacksNothing(lines: seq<Line>)
    ensures Stable(lines) <==> forall i :: 0 <= i < Steps(lines) ==> !StillLacks(lines, i)
  {
    hide StillLacks;
    hide Reopens;
    hide Steps;
    if Stable(lines) {
      forall i | 0 <= i < Steps(lines) ensures !StillLacks(lines, i) {
        LacksIffReopened(lines, i);
      }
    } else {
      var i, j :| 0 <= i < j < Steps(lines) && Reopens(lines, i, j);
      LacksIffReopened(lines, i);
    }
  }

  lemma FirstLack(lines: seq<Line>, i: nat) returns (k: nat)
    requires i < Steps(lines) && OneBlankMore(lines[SrcAt(lines, i)].text, lines[DstAt(lines, i)].text)
    ensures k < Steps(lines) && FilterUpTo(lines, k) == lines && Fires(lines, k)
  {
    hide Positions;
    k := 0;
    while !OneBlankMore(lines[SrcAt(lines, k)].text, lines[DstAt(lines, k)].text)
      invariant k <= i
      invariant forall j :: 0 <= j < k ==> !OneBlankMore(lines[SrcAt(lines, j)].text, lines[DstAt(lines, j)].text)
      decreases i - k
    {
      k := k + 1;
    }
    NothingToDo(lines, k);
  }

  /** A pass changes something exactly when some source line has one blank more. */
  lemma UnchangedIff(lines: seq<Line>)
    ensures FilterLines(lines) == lines <==>
      forall i :: 0 <= i < Steps(lines) ==> !OneBlankMore(lines[SrcAt(lines, i)].text, lines[DstAt(lines, i)].text)
  {
    hide Positions;
    if i :| 0 <= i < Steps(lines) && OneBlankMore(lines[SrcAt(lines, i)].text, lines[DstAt(lines, i)].text) {
      var k := FirstLack(lines, i);
      TextAfter(lines, k, Steps(lines));
      hide FilterUpTo;
      var d := DstAt(lines, k);
      assert FilterLines(lines)[d].text != lines[d].text;
    } else {
      NothingToDo(lines, Steps(lines));
    }
  }

  /** Filtering twice is filtering once if and only if no step gives a blank to a context line
      that an earlier step has taken as its source and found or made equal. */
  lemma IdempotentIffStable(lines: seq<Line>)
    ensures FilterLines(FilterLines(lines)) == FilterLines(lines) <==> Stable(lines)
  {
    var r := FilterLines(lines);
    SameKindsSamePositions(lines, r, true);
    SameKindsSamePositions(lines, r, false);
    assert Steps(r) == Steps(lines);
    assert forall i :: 0 <= i < Steps(r) ==> SrcAt(r, i) == SrcAt(lines, i) && DstAt(r, i) == DstAt(lines, i);
    hide Positions;
    hide FilterUpTo;
    hide Stable;
    UnchangedIff(r);
    StableLacksNothing(lines);
    hide OneBlankMore;
    assert forall i :: 0 <= i < Steps(lines) ==>
      (StillLacks(lines, i) <==> OneBlankMore(r[SrcAt(r, i)].text, r[DstAt(r, i)].text));
  }

  /** Where the source side is kept, filtering twice is filtering once. */
  lemma FilterIsIdempotent(lines: seq<Line>)
    requires NoContextHit(lines, Steps(lines))
    ensures FilterLines(FilterLines(lines)) == FilterLines(lines)
  {
    hide Positions;
    IdempotentIffStable(lines);
    hide FilterLines;
    forall i, j | 0 <= i < j < Steps(lines) ensures !Reopens(lines, i, j) {
      KeptUntilHit(lines, j);
      assert !ContextHit(lines, j);
      hide FilterUpTo;
    }
  }

  lemma AddedContextRemoved(lines: seq<Line>)
    requires |lines| == 3 && lines[0].kind == Dst && lines[1].kind == Both && lines[2].kind == Src
    ensures Positions(lines, true) == [1, 2] && Positions(lines, false) == [0, 1]
  {
    assert lines[..2][..1] == lines[..1] && lines[..1][..0] == [];
    assert Positions(lines[..1], true) == [] && Positions(lines[..1], false) == [0];
    assert Positions(lines[..2], true) == [1] && Positions(lines[..2], false) == [0, 1];
  }

  /** A chunk that the second pass changes again: the first gives the context line a blank,
      the second gives one to the added line before it. */
  lemma SecondPassChanges(lines: seq<Line>, text: string)
    requires lines == [Line(Dst, text), Line(Both, text), Line(Src, text + [' '])]
    ensures FilterLines(FilterLines(lines)) != FilterLines(lines)
  {
    AddedContextRemoved(lines);
    hide Positions;
    assert Steps(lines) == 2;
    assert SrcAt(lines, 0) == 1 && DstAt(lines, 0) == 0 && SrcAt(lines, 1) == 2 && DstAt(lines, 1) == 1;
    assert FilterUpTo(lines, 0) == lines;
    assert FilterUpTo(lines, 1)[2] == lines[2];
    assert OneBlankMore(text + [' '], text);
    assert Reopens(lines, 0, 1);
    hide FilterLines;
    hide FilterUpTo;
    IdempotentIffStable(lines);
  }

  lemma {:induction false} CountsArePositions(lines: seq<Line>)
    ensures CountSrc(lines) == |Positions(lines, true)|
    ensures CountDst(lines) == |Positions(lines, false)|
  {
    if lines != [] {
      var n := |lines| - 1;
      CountsArePositions(lines[..n]);
      CountsSnoc(lines[..n], lines[n]);
      assert lines == lines[..n] + [lines[n]];
    }
  }

  lemma {:induction false} CountsSnoc(lines: seq<Line>, l: Line)
    ensures CountSrc(lines + [l]) == CountSrc(lines) + if IsSrc(l.kind) then 1 else 0
    ensures CountDst(lines + [l]) == CountDst(lines) + if IsDst(l.kind) then 1 else 0
  {
    if lines == [] {
      assert [l][1..] == [];
    } else {
      assert (lines + [l])[1..] == lines[1..] + [l];
      CountsSnoc(lines[1..], l);
    }
  }

  /** The line counts in the chunk header do not change. */
  lemma FilterKeepsCounts(lines: seq<Line>)
    ensures CountSrc(FilterLines(lines)) == CountSrc(lines) && CountDst(FilterLines(lines)) == CountDst(lines)
  {
    var r := FilterLines(lines);
    SameKindsSamePositions(lines, r, true);
    SameKindsSamePositions(lines, r, false);
    CountsArePositions(lines);
    CountsArePositions(r);
  }

  // ----- whole patchsets -----

  /** More source than destination lines: the loop runs off the destination view, and the
      exception handler ends the whole filter. */
  predicate IsShort(c: Chunk<Line>) {
    |Positions(c.lines, true)| > |Positions(c.lines, false)|
  }

  lemma ShortIff(c: Chunk<Line>)
    ensures IsShort(c) <==> CountSrc(c.lines) > CountDst(c.lines)
  {
    CountsArePositions(c.lines);
  }

  function FilterChunk(c: Chunk<Line>): Chunk<Line> {
    c.(lines := FilterLines(c.lines))
  }

  function FilterChunks(chunks: seq<Chunk<Line>>): (r: seq<Chunk<Line>>)
    ensures |r| == |chunks|
  {
    if chunks == [] then []
    else [FilterChunk(chunks[0])] + if IsShort(chunks[0]) then chunks[1..] else FilterChunks(chunks[1..])
  }

  predicate HasShort(chunks: seq<Chunk<Line>>) {
    exists j :: 0 <= j < |chunks| && IsShort(chunks[j])
  }

  function FilterPatch(p: Patch<Line>): Patch<Line> {
    p.(chunks := FilterChunks(p.chunks))
  }

  function FilterPatches(patchset: seq<Patch<Line>>): (r: seq<Patch<Line>>)
    ensures |r| == |patchset|
  {
    if patchset == [] then []
    else [FilterPatch(patchset[0])] + if HasShort(patchset[0].chunks) then patchset[1..] else FilterPatches(patchset[1..])
  }

  lemma {:induction false} ChunksUpToFirstShort(chunks: seq<Chunk<Line>>, j: nat)
    requires j < |chunks|
    ensures FilterChunks(chunks)[j] == if HasShort(chunks[..j]) then chunks[j] else FilterChunk(chunks[j])
    decreases |chunks|
  {
    hide IsShort;
    hide FilterChunk;
    if j > 0 {
      if IsShort(chunks[0]) {
        assert IsShort(chunks[..j][0]);
      } else {
        ChunksUpToFirstShort(chunks[1..], j - 1);
        assert chunks[..j][1..] == chunks[1..][..j - 1];
        HasShortTail(chunks[..j]);
      }
    }
  }

  lemma HasShortTail(chunks: seq<Chunk<Line>>)
    requires chunks != []
    ensures HasShort(chunks) <==> IsShort(chunks[0]) || HasShort(chunks[1..])
  {
    hide IsShort;
    if HasShort(chunks) {
      var j :| 0 <= j < |chunks| && IsShort(chunks[j]);
      if j > 0 {
        assert IsShort(chunks[1..][j - 1]);
      }
    }
    if HasShort(chunks[1..]) {
      var j :| 0 <= j < |chunks[1..]| && IsShort(chunks[1..][j]);
      assert IsShort(chunks[j + 1]);
    }
  }

  predicate ShortBefore(patchset: seq<Patch<Line>>, i: nat)
    requires i <= |patchset|
  {
    exists k :: 0 <= k < i && HasShort(patchset[k].chunks)
  }

  lemma {:induction false} PatchesUpToFirstShort(patchset: seq<Patch<Line>>, i: nat)
    requires i < |patchset|
    ensures FilterPatches(patchset)[i] == if ShortBefore(patchset, i) then patchset[i] else FilterPatch(patchset[i])
    decreases |patchset|
  {
    hide HasShort;
    hide FilterPatch;
    if i > 0 {
      var rest := patchset[1..];
      assert rest[i - 1] == patchset[i];
      if !HasShort(patchset[0].chunks) {
        PatchesUpToFirstShort(rest, i - 1);
        assert forall k :: 0 <= k < i - 1 ==> rest[k] == patchset[k + 1];
        assert forall k :: 1 <= k < i ==> patchset[k] == rest[k - 1];
      }
    }
  }

  /** Every chunk up to and including the first short one is filtered, all later ones, in this
      patch and in the following ones, are left alone. */
  lemma FiltersUpToFirstShort(patchset: seq<Patch<Line>>, i: nat, j: nat)
    requires i < |patchset| && j < |patchset[i].chunks|
    ensures var r := FilterPatches(patchset);
      var stopped := ShortBefore(patchset, i) || HasShort(patchset[i].chunks[..j]);
      && |r[i].chunks| == |patchset[i].chunks|
      && r[i].chunks[j] == if stopped then patchset[i].chunks[j] else FilterChunk(patchset[i].chunks[j])
  {
    hide FilterChunk;
    hide FilterChunks;
    hide FilterPatches;
    hide HasShort;
    PatchesUpToFirstShort(patchset, i);
    ChunksUpToFirstShort(patchset[i].chunks, j);
  }

  // ----- filtering a patchset twice -----

  lemma FilterKeepsShort(c: Chunk<Line>)
    ensures IsShort(FilterChunk(c)) <==> IsShort(c)
  {
    SameKindsSamePositions(c.lines, FilterLines(c.lines), true);
    SameKindsSamePositions(c.lines, FilterLines(c.lines), false);
  }

  lemma FilterKeepsShortAt(chunks: seq<Chunk<Line>>, j: nat)
    requires j < |chunks|
    ensures IsShort(FilterChunks(chunks)[j]) <==> IsShort(chunks[j])
  {
    ChunksUpToFirstShort(chunks, j);
    FilterKeepsShort(chunks[j]);
  }

  lemma FilterKeepsShortBefore(chunks: seq<Chunk<Line>>, j: nat)
    requires j <= |chunks|
    ensures HasShort(FilterChunks(chunks)[..j]) <==> HasShort(chunks[..j])
  {
    hide IsShort;
    hide FilterChunks;
    var r := FilterChunks(chunks);
    forall k | 0 <= k < j ensures IsShort(r[k]) <==> IsShort(chunks[k]) {
      FilterKeepsShortAt(chunks, k);
    }
    assert forall k :: 0 <= k < j ==> r[..j][k] == r[k] && chunks[..j][k] == chunks[k];
    if k :| 0 <= k < j && IsShort(chunks[k]) {
      assert IsShort(r[..j][k]) && IsShort(chunks[..j][k]);
    }
  }

  /** Every chunk that the filter of these chunks reaches is stable. */
  predicate StableChunks(chunks: seq<Chunk<Line>>) {
    forall j :: 0 <= j < |chunks| && !HasShort(chunks[..j]) ==> Stable(chunks[j].lines)
  }

  lemma ChunkTwice(chunks: seq<Chunk<Line>>, j: nat)
    requires j < |chunks|
    ensures FilterChunks(FilterChunks(chunks))[j] == FilterChunks(chunks)[j]
      <==> HasShort(chunks[..j]) || Stable(chunks[j].lines)
  {
    hide IsShort;
    hide HasShort;
    hide Stable;
    hide FilterLines;
    ChunksUpToFirstShort(chunks, j);
    ChunksUpToFirstShort(FilterChunks(chunks), j);
    FilterKeepsShortBefore(chunks, j);
    IdempotentIffStable(chunks[j].lines);
  }

  lemma ChunksTwice(chunks: seq<Chunk<Line>>)
    ensures FilterChunks(FilterChunks(chunks)) == FilterChunks(chunks) <==> StableChunks(chunks)
  {
    hide HasShort;
    hide Stable;
    hide FilterChunks;
    var once, twice := FilterChunks(chunks), FilterChunks(FilterChunks(chunks));
    forall j | 0 <= j < |chunks| ensures twice[j] == once[j] <==> HasShort(chunks[..j]) || Stable(chunks[j].lines) {
      ChunkTwice(chunks, j);
    }
  }

  lemma PatchTwice(patchset: seq<Patch<Line>>, i: nat)
    requires i < |patchset|
    ensures FilterPatches(FilterPatches(patchset))[i] == FilterPatches(patchset)[i]
      <==> ShortBefore(patchset, i) || StableChunks(patchset[i].chunks)
  {
    hide HasShort;
    hide StableChunks;
    hide FilterChunks;
    hide FilterPatches;
    var r := FilterPatches(patchset);
    forall k | 0 <= k < i ensures HasShort(r[k].chunks) <==> HasShort(patchset[k].chunks) {
      PatchesUpToFirstShort(patchset, k);
      var chunks := patchset[k].chunks;
      FilterKeepsShortBefore(chunks, |chunks|);
      assert chunks[..|chunks|] == chunks && FilterChunks(chunks)[..|chunks|] == FilterChunks(chunks);
    }
    assert ShortBefore(r, i) <==> ShortBefore(patchset, i);
    hide ShortBefore;
    PatchesUpToFirstShort(patchset, i);
    PatchesUpToFirstShort(r, i);
    ChunksTwice(patchset[i].chunks);
  }

  /** Filtering a patchset twice is filtering it once if and only if every chunk up to and
      including the first short one is stable. */
  lemma PatchesIdempotentIff(patchset: seq<Patch<Line>>)
    ensures FilterPatches(FilterPatches(patchset)) == FilterPatches(patchset) <==>
      forall i, j :: 0 <= i < |patchset| && 0 <= j < |patchset[i].chunks| ==>
        ShortBefore(patchset, i) || HasShort(patchset[i].chunks[..j]) || Stable(patchset[i].chunks[j].lines)
  {
    hide HasShort;
    hide ShortBefore;
    hide Stable;
    hide FilterPatches;
    var once, twice := FilterPatches(patchset), FilterPatches(FilterPatches(patchset));
    forall i | 0 <= i < |patchset|
      ensures twice[i] == once[i] <==> ShortBefore(patchset, i) || StableChunks(patchset[i].chunks)
    {
      PatchTwice(patchset, i);
    }
    if twice == once {
      forall i, j | 0 <= i < |patchset| && 0 <= j < |patchset[i].chunks|
        ensures ShortBefore(patchset, i) || HasShort(patchset[i].chunks[..j]) || Stable(patchset[i].chunks[j].lines)
      {
        assert twice[i] == once[i];
      }
    }
  }

  // ----- writing what was filtered -----

  /** Step `k` turns the added line `++` into `++ `, which is written as a file header. */
  predicate Spoils(lines: seq<Line>, k: nat)
    requires k < Steps(lines)
  {
    lines[DstAt(lines, k)] == Line(Dst, "++") && FilterUpTo(lines, k)[SrcAt(lines, k)].text == "++ "
  }

  predicate Unspoiled(lines: seq<Line>) {
    forall k :: 0 <= k < Steps(lines) ==> !Spoils(lines, k)
  }

  lemma ExtendedPrefix(text: string, blank: char)
    requires !("++ " <= text)
    ensures "++ " <= text + [blank] <==> text + [blank] == "++ "
  {
    assert |text| >= 3 ==> (text + [blank])[..3] == text[..3];
  }

  /** A clean line stays clean when a blank is appended, unless it is the added line `++`. */
  lemma CleanExtended(d: Line, s: string)
    requires IsDst(d.kind) && CleanLine(d) && OneBlankMore(s, d.text)
    ensures CleanLine(d.(text := s)) <==> !(d == Line(Dst, "++") && s == "++ ")
  {
    assert s == d.text + [s[|s| - 1]];
    if d.kind == Dst {
      ExtendedPrefix(d.text, s[|s| - 1]);
      assert s == "++ " ==> d.text == "++";
    }
  }

  lemma CleanAtStep(lines: seq<Line>, k: nat)
    requires k < Steps(lines) && CleanLine(lines[DstAt(lines, k)])
    ensures CleanLine(FilterLines(lines)[DstAt(lines, k)]) <==> !Spoils(lines, k)
  {
    hide Positions;
    hide CleanLine;
    TextAfter(lines, k, Steps(lines));
    hide FilterUpTo;
    var d, s := lines[DstAt(lines, k)], FilterUpTo(lines, k)[SrcAt(lines, k)].text;
    if Fires(lines, k) {
      CleanExtended(d, s);
      hide OneBlankMore;
    } else {
      assert "++ "[..2] == "++";
      assert FilterLines(lines)[DstAt(lines, k)] == d;
    }
  }

  lemma CleanLinesAfter(lines: seq<Line>)
    requires forall p :: 0 <= p < |lines| ==> CleanLine(lines[p])
    ensures (forall p :: 0 <= p < |lines| ==> CleanLine(FilterLines(lines)[p])) <==> Unspoiled(lines)
  {
    hide Positions;
    hide CleanLine;
    hide Spoils;
    var r := FilterLines(lines);
    forall k | 0 <= k < Steps(lines) ensures CleanLine(r[DstAt(lines, k)]) <==> !Spoils(lines, k) {
      CleanAtStep(lines, k);
    }
    if Unspoiled(lines) {
      forall p | 0 <= p < |lines| ensures CleanLine(r[p]) {
        if forall k :: 0 <= k < Steps(lines) ==> DstAt(lines, k) != p {
          OthersUntouched(lines, Steps(lines), p);
        }
      }
    }
  }

  lemma CleanChunkAfter(c: Chunk<Line>)
    requires CleanChunk(c)
    ensures CleanChunk(FilterChunk(c)) <==> Unspoiled(c.lines)
  {
    CleanLinesAfter(c.lines);
    hide FilterLines;
    hide CleanLine;
    hide Unspoiled;
  }

  lemma CleanPatchAfter(p: Patch<Line>)
    requires CleanPatch(p)
    ensures CleanPatch(FilterPatch(p)) <==>
      forall j :: 0 <= j < |p.chunks| ==> HasShort(p.chunks[..j]) || Unspoiled(p.chunks[j].lines)
  {
    hide CleanChunk;
    hide FilterChunk;
    hide FilterChunks;
    hide HasShort;
    hide Unspoiled;
    hide OneLine;
    forall j | 0 <= j < |p.chunks|
      ensures CleanChunk(FilterChunks(p.chunks)[j]) <==> HasShort(p.chunks[..j]) || Unspoiled(p.chunks[j].lines)
    {
      ChunksUpToFirstShort(p.chunks, j);
      CleanChunkAfter(p.chunks[j]);
    }
  }

  /** The filtered form of an accepted text is read back as written if and only if no step up
      to the first short chunk turns an added `++` into `++ `. */
  lemma FilteredRoundTripIff(text: string)
    requires ReadText(text).Some?
    ensures var patchset := ReadText(text).value;
      ReadText(WriteText(FilterPatches(patchset))) == Some(FilterPatches(patchset)) <==>
      forall i, j :: 0 <= i < |patchset| && 0 <= j < |patchset[i].chunks| ==>
        ShortBefore(patchset, i) || HasShort(patchset[i].chunks[..j]) || Unspoiled(patchset[i].chunks[j].lines)
  {
    var patchset := ReadText(text).value;
    WriteIsNormalForm(text);
    RoundTripIffClean(FilterPatches(patchset));
    hide ReadText;
    hide WriteText;
    hide CleanPatch;
    hide FilterPatch;
    hide FilterPatches;
    hide HasShort;
    hide ShortBefore;
    hide Unspoiled;
    var r := FilterPatches(patchset);
    forall i | 0 <= i < |patchset|
      ensures CleanPatch(r[i]) <==> (ShortBefore(patchset, i) ||
        forall j :: 0 <= j < |patchset[i].chunks| ==>
          HasShort(patchset[i].chunks[..j]) || Unspoiled(patchset[i].chunks[j].lines))
    {
      PatchesUpToFirstShort(patchset, i);
      CleanPatchAfter(patchset[i]);
    }
  }

  lemma RemovedThenAdded(lines: seq<Line>)
    requires |lines| == 2 && lines[0].kind == Src && lines[1].kind == Dst
    ensures Positions(lines, true) == [0] && Positions(lines, false) == [1]
  {
    assert lines[..1][..0] == [];
    assert Positions(lines[..1], true) == [0] && Positions(lines[..1], false) == [];
  }

  lemma PlusLinesAreClean(lines: seq<Line>)
    requires lines == [Line(Src, "++ "), Line(Dst, "++")]
    ensures CleanLine(lines[0]) && CleanLine(lines[1])
  {
    assert "-- "[0] != "++ "[0];
  }

  lemma PlusPatchIsClean(patchset: seq<Patch<Line>>, lines: seq<Line>)
    requires |patchset| == 1 && |patchset[0].chunks| == 1 && patchset[0].chunks[0].lines == lines
    requires OneLine(patchset[0].src) && OneLine(patchset[0].dst)
    requires lines == [Line(Src, "++ "), Line(Dst, "++")]
    ensures Clean(patchset)
  {
    PlusLinesAreClean(lines);
    hide CleanLine;
    hide OneLine;
  }

  lemma PlusChunkIsSpoiled(lines: seq<Line>)
    requires lines == [Line(Src, "++ "), Line(Dst, "++")]
    ensures !Unspoiled(lines)
  {
    RemovedThenAdded(lines);
    hide Positions;
    assert FilterUpTo(lines, 0) == lines;
    assert SrcAt(lines, 0) == 0 && DstAt(lines, 0) == 1;
    assert Spoils(lines, 0);
  }

  /** The patch that replaces the line `++ ` by `++` is accepted, and its filtered form is not
      read back as written. */
  lemma FilteredHeaderIsLost(patchset: seq<Patch<Line>>)
    requires |patchset| == 1 && |patchset[0].chunks| == 1
    requires OneLine(patchset[0].src) && OneLine(patchset[0].dst)
    requires patchset[0].chunks[0].lines == [Line(Src, "++ "), Line(Dst, "++")]
    ensures ReadText(WriteText(patchset)) == Some(patchset)
    ensures ReadText(WriteText(FilterPatches(patchset))) != Some(FilterPatches(patchset))
  {
    var lines := patchset[0].chunks[0].lines;
    PlusPatchIsClean(patchset, lines);
    PlusChunkIsSpoiled(lines);
    RoundTripIffClean(patchset);
    hide Clean;
    hide OneLine;
    hide ReadText;
    hide WriteText;
    hide FilterPatches;
    hide Unspoiled;
    hide IsShort;
    FilteredRoundTripIff(WriteText(patchset));
    assert !ShortBefore(patchset, 0) && !HasShort(patchset[0].chunks[..0]);
  }
}
