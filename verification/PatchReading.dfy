/**
 * What the diff reader of utils/check-style.py makes of any text, line by line: which line
 * starts a patch or a chunk, which chunk a body line belongs to, and which texts are rejected.
 */
module PatchReading {
  import opened Common
  import opened Patches

  // ----- the kinds of lines -----

  predicate Digits(s: string) {
    s != [] && forall i :: 0 <= i < |s| ==> IsDigit(s[i])
  }

  /** A chunk header with these four numbers, and whatever follows. */
  predicate IsHeader(line: string, a: string, b: string, c: string, d: string, rest: string) {
    && Digits(a) && Digits(b) && Digits(c) && Digits(d)
    && line == "@@ -" + (a + ("," + (b + (" +" + (c + ("," + (d + (" @@" + rest))))))))
  }

  lemma {:induction false} DigitRunIs(s: string, k: nat)
    requires k <= |s| && (forall i :: 0 <= i < k ==> IsDigit(s[i])) && (k < |s| ==> !IsDigit(s[k]))
    ensures DigitRun(s) == k
    decreases k
  {
    if k > 0 {
      DigitRunIs(s[1..], k - 1);
    }
  }

  lemma EatDigits(a: string, rest: string)
    requires Digits(a) && rest != [] && !IsDigit(rest[0])
    ensures EatNumber(a + rest) == Some((NatOf(a), rest))
  {
    var s := a + rest;
    assert forall i :: 0 <= i < |a| ==> s[i] == a[i];
    assert s[|a|] == rest[0];
    DigitRunIs(s, |a|);
    assert s[..|a|] == a && s[|a|..] == rest;
  }

  lemma HeaderMatches(line: string, a: string, b: string, c: string, d: string, rest: string)
    requires IsHeader(line, a, b, c, d, rest)
    ensures MatchChunkStart(line) == Some((NatOf(a), NatOf(b), NatOf(c), NatOf(d)))
  {
    hide EatNumber;
    hide Eat;
    hide NatOf;
    hide Digits;
    var s8 := " @@" + rest;
    var s7 := d + s8;
    var s6 := "," + s7;
    var s5 := c + s6;
    var s4 := " +" + s5;
    var s3 := b + s4;
    var s2 := "," + s3;
    var s1 := a + s2;
    EatLiteral("@@ -", s1);
    EatDigits(a, s2);
    EatLiteral(",", s3);
    EatDigits(b, s4);
    EatLiteral(" +", s5);
    EatDigits(c, s6);
    EatLiteral(",", s7);
    EatDigits(d, s8);
    EatLiteral(" @@", rest);
  }

  lemma EatenNumber(s: string) returns (a: string)
    requires EatNumber(s).Some?
    ensures Digits(a) && s == a + EatNumber(s).value.1 && NatOf(a) == EatNumber(s).value.0
  {
    a := s[..DigitRun(s)];
    assert s == a + s[DigitRun(s)..];
  }

  lemma EatenLiteral(s: string, literal: string)
    requires Eat(s, literal).Some?
    ensures s == literal + Eat(s, literal).value
  {
  }

  lemma MatchIsHeader(line: string) returns (a: string, b: string, c: string, d: string, rest: string)
    requires MatchChunkStart(line).Some?
    ensures IsHeader(line, a, b, c, d, rest)
    ensures MatchChunkStart(line) == Some((NatOf(a), NatOf(b), NatOf(c), NatOf(d)))
  {
    hide EatNumber;
    hide Eat;
    hide NatOf;
    hide Digits;
    EatenLiteral(line, "@@ -");
    var s0 := Eat(line, "@@ -").value;
    a := EatenNumber(s0);
    var s1 := EatNumber(s0).value.1;
    EatenLiteral(s1, ",");
    var s2 := Eat(s1, ",").value;
    b := EatenNumber(s2);
    var s3 := EatNumber(s2).value.1;
    EatenLiteral(s3, " +");
    var s4 := Eat(s3, " +").value;
    c := EatenNumber(s4);
    var s5 := EatNumber(s4).value.1;
    EatenLiteral(s5, ",");
    var s6 := Eat(s5, ",").value;
    d := EatenNumber(s6);
    var s7 := EatNumber(s6).value.1;
    EatenLiteral(s7, " @@");
    rest := Eat(s7, " @@").value;
  }

  function MarkOf(k: Kind): char {
    if k == Src then '-' else if k == Dst then '+' else ' '
  }

  /** A body line is a mark and a text, unless that makes a file header. */
  predicate IsBody(line: string, l: Line) {
    && line == [MarkOf(l.kind)] + l.text
    && !(l.kind == Src && "-- " <= l.text) && !(l.kind == Dst && "++ " <= l.text)
  }

  lemma FileLines(line: string, name: string)
    ensures Classify(line) == SrcFile(name) <==> line == "--- " + name
    ensures Classify(line) == DstFile(name) <==> line == "+++ " + name
  {
    ClassifyFiles(name);
    if Classify(line).SrcFile? {
      assert line == "--- " + line[4..];
    }
    if Classify(line).DstFile? {
      assert line == "+++ " + line[4..];
    }
    hide Classify;
  }

  lemma StartLines(line: string, srcPos: nat, dstPos: nat)
    ensures Classify(line) == Start(srcPos, dstPos) <==>
      MatchChunkStart(line).Some? && MatchChunkStart(line).value.0 == srcPos && MatchChunkStart(line).value.2 == dstPos
  {
    if MatchChunkStart(line).Some? {
      assert "@@ -" <= line;
      assert line[0] == '@';
    }
    hide MatchChunkStart;
  }

  lemma MarkedIsBody(line: string, l: Line)
    requires IsBody(line, l)
    ensures Classify(line) == Body(l)
  {
    MarkedPrefix(line, "-- ");
    MarkedPrefix(line, "++ ");
    assert ['-'] + "-- " == "--- " && ['+'] + "++ " == "+++ ";
    assert line[1..] == l.text;
    assert line[0] != '@';
    assert Eat(line, "@@ -").None?;
    assert MatchChunkStart(line).None?;
    hide MatchChunkStart;
  }

  lemma BodyIsMarked(line: string, l: Line)
    requires Classify(line) == Body(l)
    ensures IsBody(line, l)
  {
    hide MatchChunkStart;
    assert line == [line[0]] + line[1..];
    MarkedPrefix(line, "-- ");
    MarkedPrefix(line, "++ ");
    assert ['-'] + "-- " == "--- " && ['+'] + "++ " == "+++ ";
  }

  lemma BodyLines(line: string, l: Line)
    ensures Classify(line) == Body(l) <==> IsBody(line, l)
  {
    hide Classify;
    hide IsBody;
    if IsBody(line, l) {
      MarkedIsBody(line, l);
    }
    if Classify(line) == Body(l) {
      BodyIsMarked(line, l);
    }
  }

  // ----- positions -----

  /** The kinds of the lines of a text. */
  function Items(lines: seq<string>): (items: seq<Item>)
    ensures |items| == |lines| && forall i :: 0 <= i < |lines| ==> items[i] == Classify(lines[i])
  {
    seq(|lines|, i requires 0 <= i < |lines| => Classify(lines[i]))
  }

  /** The number of patches started before line `n`. */
  function Headers(items: seq<Item>, n: nat): nat
    requires n <= |items|
  {
    if n == 0 then 0 else Headers(items, n - 1) + if items[n - 1].SrcFile? then 1 else 0
  }

  /** The number of chunks started before line `n` by lines with `h` patches before them. */
  function Starts(items: seq<Item>, h: nat, n: nat): nat
    requires n <= |items|
  {
    if n == 0 then 0
    else Starts(items, h, n - 1) + if items[n - 1].Start? && Headers(items, n - 1) == h then 1 else 0
  }

  /** The last chunk header before line `n`, or -1. */
  function LastStart(items: seq<Item>, n: nat): (j: int)
    requires n <= |items|
    ensures -1 <= j < n && (j >= 0 ==> items[j].Start?)
    ensures forall i :: j < i < n ==> !items[i].Start?
  {
    if n == 0 then -1 else if items[n - 1].Start? then n - 1 else LastStart(items, n - 1)
  }

  /** The body lines before line `n` whose last chunk header is `j`; file headers in between do
      not matter. */
  function Owned(items: seq<Item>, j: nat, n: nat): seq<Line>
    requires n <= |items|
  {
    if n == 0 then []
    else
      Owned(items, j, n - 1)
        + if items[n - 1].Body? && LastStart(items, n - 1) == j then [items[n - 1].line] else []
  }

  // ----- what is read -----

  predicate SourcesRead(items: seq<Item>, n: nat, patchset: seq<Patch<Line>>)
    requires n <= |items|
  {
    && |patchset| == Headers(items, n)
    && forall i :: 0 <= i < n && items[i].SrcFile? ==>
         Headers(items, i) < |patchset| && patchset[Headers(items, i)].src == items[i].name
  }

  /** Line `j` names the destination of the patch with `h` patches started before it. */
  predicate NamesDst(items: seq<Item>, h: nat, j: nat)
    requires j < |items|
  {
    items[j].DstFile? && Headers(items, j) == h
  }

  /** The last such line names it; without one it is empty. */
  predicate DstRead(items: seq<Item>, h: nat, n: nat, dst: string)
    requires n <= |items|
  {
    && (forall j :: 0 <= j < n && NamesDst(items, h, j) && (forall i :: j < i < n ==> !NamesDst(items, h, i)) ==>
          dst == items[j].name)
    && ((forall j :: 0 <= j < n ==> !NamesDst(items, h, j)) ==> dst == "")
  }

  predicate DestinationsRead(items: seq<Item>, n: nat, patchset: seq<Patch<Line>>)
    requires n <= |items|
  {
    forall k :: 0 <= k < |patchset| ==> DstRead(items, k + 1, n, patchset[k].dst)
  }

  predicate CountsRead(items: seq<Item>, n: nat, patchset: seq<Patch<Line>>)
    requires n <= |items|
  {
    forall k :: 0 <= k < |patchset| ==> |patchset[k].chunks| == Starts(items, k + 1, n)
  }

  /** The chunk header at `j` gives the chunk at its place in its patch, with its positions and
      the body lines behind it. */
  predicate ChunkRead(items: seq<Item>, j: nat, n: nat, patchset: seq<Patch<Line>>)
    requires j < n <= |items| && items[j].Start?
  {
    var h := Headers(items, j);
    var m := Starts(items, h, j);
    && 0 < h <= |patchset| && m < |patchset[h - 1].chunks|
    && patchset[h - 1].chunks[m] == Chunk(items[j].srcPos, items[j].dstPos, Owned(items, j, n))
  }

  predicate ChunksRead(items: seq<Item>, n: nat, patchset: seq<Patch<Line>>)
    requires n <= |items|
  {
    forall j :: 0 <= j < n && items[j].Start? ==> ChunkRead(items, j, n, patchset)
  }

  predicate PatchsetRead(items: seq<Item>, n: nat, patchset: seq<Patch<Line>>)
    requires n <= |items|
  {
    && SourcesRead(items, n, patchset) && DestinationsRead(items, n, patchset)
    && CountsRead(items, n, patchset) && ChunksRead(items, n, patchset)
  }

  /** A line of no kind, a destination or chunk before the first patch, or a body line before the
      first chunk. */
  predicate BadLine(items: seq<Item>, i: nat)
    requires i < |items|
  {
    match items[i]
    case SrcFile(_) => false
    case DstFile(_) => Headers(items, i) == 0
    case Start(_, _) => Headers(items, i) == 0
    case Body(_) => LastStart(items, i) < 0
    case Junk => true
  }

  // ----- one more line -----

  lemma {:induction false} HeadersGrow(items: seq<Item>, i: nat, n: nat)
    requires i <= n <= |items|
    ensures Headers(items, i) <= Headers(items, n)
    ensures i < n && items[i].SrcFile? ==> Headers(items, i) < Headers(items, n)
    decreases n
  {
    if i < n {
      HeadersGrow(items, i, n - 1);
    }
  }

  lemma {:induction false} StartsGrow(items: seq<Item>, h: nat, i: nat, n: nat)
    requires i <= n <= |items|
    ensures Starts(items, h, i) <= Starts(items, h, n)
    ensures i < n && items[i].Start? && Headers(items, i) == h ==> Starts(items, h, i) < Starts(items, h, n)
    decreases n
  {
    if i < n {
      StartsGrow(items, h, i, n - 1);
    }
  }

  /** A patch that has not started has no chunks. */
  lemma {:induction false} NoStartsAhead(items: seq<Item>, h: nat, n: nat)
    requires n <= |items| && h > Headers(items, n)
    ensures Starts(items, h, n) == 0
    decreases n
  {
    if n > 0 {
      NoStartsAhead(items, h, n - 1);
    }
  }

  /** Behind the last chunk header there are no more chunks. */
  lemma {:induction false} NoStartsBehind(items: seq<Item>, h: nat, i: nat, n: nat)
    requires i <= n <= |items| && forall k :: i <= k < n ==> !items[k].Start?
    ensures Starts(items, h, n) == Starts(items, h, i)
    decreases n
  {
    if i < n {
      NoStartsBehind(items, h, i, n - 1);
    }
  }

  /** A line that is not the body of chunk `j` adds nothing to it. */
  lemma OwnedStays(items: seq<Item>, j: nat, n: nat)
    requires n < |items| && !(items[n].Body? && LastStart(items, n) == j)
    ensures Owned(items, j, n + 1) == Owned(items, j, n)
  {
    hide LastStart;
  }

  lemma {:induction false} OwnedNothing(items: seq<Item>, j: nat, n: nat)
    requires n <= j + 1 && n <= |items|
    ensures Owned(items, j, n) == []
    decreases n
  {
    hide LastStart;
    if n > 0 {
      OwnedNothing(items, j, n - 1);
    }
  }

  lemma DstStays(items: seq<Item>, h: nat, n: nat, dst: string)
    requires n < |items| && DstRead(items, h, n, dst) && !NamesDst(items, h, n)
    ensures DstRead(items, h, n + 1, dst)
  {
    hide NamesDst;
    forall j | 0 <= j < n + 1 && NamesDst(items, h, j) && forall i :: j < i < n + 1 ==> !NamesDst(items, h, i)
      ensures items[j].DstFile? && dst == items[j].name
    {
      assert j < n;
      NamesIs(items, h, j);
    }
  }

  lemma NamesIs(items: seq<Item>, h: nat, j: nat)
    requires j < |items| && NamesDst(items, h, j)
    ensures items[j].DstFile? && Headers(items, j) == h
  {
  }

  lemma DstSet(items: seq<Item>, h: nat, n: nat)
    requires n < |items| && NamesDst(items, h, n)
    ensures items[n].DstFile? && DstRead(items, h, n + 1, items[n].name)
  {
  }

  /** Every chunk stays as it is read, when its patch keeps it and the line does not add to it. */
  lemma ChunkStays(items: seq<Item>, j: nat, n: nat, before: seq<Patch<Line>>, after: seq<Patch<Line>>)
    requires j < n < |items| && items[j].Start? && ChunkRead(items, j, n, before)
    requires !(items[n].Body? && LastStart(items, n) == j)
    requires |after| >= |before|
    requires var h := Headers(items, j); 0 < h <= |before| ==>
      before[h - 1].chunks <= after[h - 1].chunks
    ensures ChunkRead(items, j, n + 1, after)
  {
    OwnedStays(items, j, n);
    hide Owned;
    hide Starts;
    hide Headers;
    hide LastStart;
  }

  lemma SourcesGrow(items: seq<Item>, n: nat, patchset: seq<Patch<Line>>, p: Patch<Line>)
    requires n < |items| && SourcesRead(items, n, patchset) && items[n].SrcFile? && p.src == items[n].name
    ensures SourcesRead(items, n + 1, patchset + [p])
  {
    StartsNext(items, 0, n);
    hide Headers;
  }

  lemma SourceStep(items: seq<Item>, n: nat, patchset: seq<Patch<Line>>)
    requires n < |items| && PatchsetRead(items, n, patchset) && items[n].SrcFile?
    ensures PatchsetRead(items, n + 1, patchset + [Patch(items[n].name, "", [])])
  {
    hide LastStart;
    hide Owned;
    hide ChunkRead;
    hide DstRead;
    hide Starts;
    hide Headers;
    var p: Patch<Line> := Patch(items[n].name, "", []);
    var after := patchset + [p];
    SourcesGrow(items, n, patchset, p);
    forall k | 0 <= k < |after|
      ensures DstRead(items, k + 1, n + 1, after[k].dst)
      ensures |after[k].chunks| == Starts(items, k + 1, n + 1)
    {
      if k < |patchset| {
        DstStays(items, k + 1, n, patchset[k].dst);
        StartsNext(items, k + 1, n);
      } else {
        FreshPatch(items, n);
      }
    }
    forall j | 0 <= j < n + 1 && items[j].Start? ensures ChunkRead(items, j, n + 1, after) {
      assert forall k :: 0 <= k < |patchset| ==> patchset[k].chunks <= after[k].chunks;
      ChunkStays(items, j, n, patchset, after);
    }
  }

  lemma FreshPatch(items: seq<Item>, n: nat)
    requires n < |items| && items[n].SrcFile?
    ensures var h := Headers(items, n) + 1; DstRead(items, h, n + 1, "") && Starts(items, h, n + 1) == 0
  {
    var h := Headers(items, n) + 1;
    NoStartsAhead(items, h, n);
    hide Starts;
    forall j | 0 <= j < n + 1 ensures !NamesDst(items, h, j) {
      HeadersGrow(items, j, n);
    }
    assert Starts(items, h, n + 1) == Starts(items, h, n) by { StartsNext(items, h, n); }
  }

  lemma StartsNext(items: seq<Item>, h: nat, n: nat)
    requires n < |items|
    ensures Starts(items, h, n + 1) == Starts(items, h, n) + if items[n].Start? && Headers(items, n) == h then 1 else 0
    ensures Headers(items, n + 1) == Headers(items, n) + if items[n].SrcFile? then 1 else 0
  {
  }

  /** The patches keep their sources. */
  lemma SourcesStay(items: seq<Item>, n: nat, before: seq<Patch<Line>>, after: seq<Patch<Line>>)
    requires n < |items| && SourcesRead(items, n, before) && !items[n].SrcFile?
    requires |after| == |before| && forall k :: 0 <= k < |before| ==> after[k].src == before[k].src
    ensures SourcesRead(items, n + 1, after)
  {
    StartsNext(items, 0, n);
    hide Headers;
  }

  lemma DstStep(items: seq<Item>, n: nat, patchset: seq<Patch<Line>>)
    requires n < |items| && PatchsetRead(items, n, patchset) && items[n].DstFile? && patchset != []
    ensures var last := |patchset| - 1;
      PatchsetRead(items, n + 1, patchset[last := patchset[last].(dst := items[n].name)])
  {
    hide LastStart;
    hide Owned;
    hide ChunkRead;
    hide DstRead;
    hide Starts;
    hide Headers;
    var last := |patchset| - 1;
    var after := patchset[last := patchset[last].(dst := items[n].name)];
    SourcesStay(items, n, patchset, after);
    forall k | 0 <= k < |after|
      ensures DstRead(items, k + 1, n + 1, after[k].dst)
      ensures |after[k].chunks| == Starts(items, k + 1, n + 1)
    {
      StartsNext(items, k + 1, n);
      if k == last {
        DstSet(items, k + 1, n);
      } else {
        DstStays(items, k + 1, n, patchset[k].dst);
      }
    }
    forall j | 0 <= j < n + 1 && items[j].Start? ensures ChunkRead(items, j, n + 1, after) {
      assert forall k :: 0 <= k < |patchset| ==> patchset[k].chunks <= after[k].chunks;
      ChunkStays(items, j, n, patchset, after);
    }
  }

  lemma FreshChunk(items: seq<Item>, n: nat, after: seq<Patch<Line>>)
    requires n < |items| && items[n].Start? && Headers(items, n) == |after| > 0
    requires var chunks := after[|after| - 1].chunks; var m := Starts(items, |after|, n);
      m < |chunks| && chunks[m] == Chunk(items[n].srcPos, items[n].dstPos, [])
    ensures ChunkRead(items, n, n + 1, after)
  {
    OwnedNothing(items, n, n + 1);
    hide Owned;
    hide Starts;
    hide Headers;
  }

  lemma StartStep(items: seq<Item>, n: nat, patchset: seq<Patch<Line>>)
    requires n < |items| && PatchsetRead(items, n, patchset) && items[n].Start? && patchset != []
    ensures var last := |patchset| - 1;
      var chunk := Chunk(items[n].srcPos, items[n].dstPos, []);
      PatchsetRead(items, n + 1, patchset[last := patchset[last].(chunks := patchset[last].chunks + [chunk])])
  {
    hide LastStart;
    hide Owned;
    hide ChunkRead;
    hide DstRead;
    hide Starts;
    hide Headers;
    var last := |patchset| - 1;
    var chunk: Chunk<Line> := Chunk(items[n].srcPos, items[n].dstPos, []);
    var after := patchset[last := patchset[last].(chunks := patchset[last].chunks + [chunk])];
    SourcesStay(items, n, patchset, after);
    forall k | 0 <= k < |after|
      ensures DstRead(items, k + 1, n + 1, after[k].dst)
      ensures |after[k].chunks| == Starts(items, k + 1, n + 1)
    {
      StartsNext(items, k + 1, n);
      DstStays(items, k + 1, n, patchset[k].dst);
    }
    forall j | 0 <= j < n + 1 && items[j].Start? ensures ChunkRead(items, j, n + 1, after) {
      if j == n {
        FreshChunk(items, n, after);
      } else {
        assert forall k :: 0 <= k < |patchset| ==> patchset[k].chunks <= after[k].chunks;
        ChunkStays(items, j, n, patchset, after);
      }
    }
  }

  // ----- body lines -----

  /** The current chunk is the last chunk of the last patch that has one. */
  lemma {:induction false} AddLineAt(patchset: seq<Patch<Line>>, q: nat, l: Line)
    requires q < |patchset| && patchset[q].chunks != []
    requires forall r :: q < r < |patchset| ==> patchset[r].chunks == []
    ensures var chunks := patchset[q].chunks; var m := |chunks| - 1;
      AddLine(patchset, l)
        == Some(patchset[q := patchset[q].(chunks := chunks[m := chunks[m].(lines := chunks[m].lines + [l])])])
    decreases |patchset|
  {
    var n := |patchset| - 1;
    var front, last := patchset[..n], patchset[n];
    if q < n {
      AddLineAt(front, q, l);
      var chunks := patchset[q].chunks;
      var m := |chunks| - 1;
      var p := patchset[q].(chunks := chunks[m := chunks[m].(lines := chunks[m].lines + [l])]);
      assert front[q := p] + [last] == patchset[q := p];
    } else {
      var m := |last.chunks| - 1;
      var p := last.(chunks := last.chunks[m := last.chunks[m].(lines := last.chunks[m].lines + [l])]);
      assert front + [p] == patchset[n := p];
    }
  }

  lemma {:induction false} AddLineNowhere(patchset: seq<Patch<Line>>, l: Line)
    requires forall r :: 0 <= r < |patchset| ==> patchset[r].chunks == []
    ensures AddLine(patchset, l).None?
  {
    if patchset != [] {
      AddLineNowhere(patchset[..|patchset| - 1], l);
    }
  }

  lemma StartsAtLast(items: seq<Item>, n: nat, h: nat)
    requires n <= |items| && LastStart(items, n) >= 0
    ensures var j := LastStart(items, n);
      && (h == Headers(items, j) ==> Starts(items, h, n) == Starts(items, h, j) + 1)
      && (h > Headers(items, j) ==> Starts(items, h, n) == 0)
  {
    var j := LastStart(items, n);
    hide LastStart;
    NoStartsBehind(items, h, j + 1, n);
    StartsNext(items, h, j);
    if h > Headers(items, j) {
      NoStartsAhead(items, h, j);
    }
    hide Starts;
    hide Headers;
  }

  /** Where the last chunk header put its chunk. */
  lemma CurrentChunk(items: seq<Item>, n: nat, patchset: seq<Patch<Line>>, j: nat, h: nat)
    requires n <= |items| && PatchsetRead(items, n, patchset)
    requires j == LastStart(items, n) && h == Headers(items, j)
    ensures 0 < h <= |patchset| && |patchset[h - 1].chunks| == Starts(items, h, j) + 1
    ensures forall r :: h - 1 < r < |patchset| ==> patchset[r].chunks == []
  {
    hide LastStart;
    hide Owned;
    hide Starts;
    hide Headers;
    hide SourcesRead;
    hide DestinationsRead;
    assert ChunkRead(items, j, n, patchset);
    hide ChunksRead;
    StartsAtLast(items, n, h);
    forall r | h - 1 < r < |patchset| ensures |patchset[r].chunks| == 0 {
      StartsAtLast(items, n, r + 1);
    }
  }

  lemma NoChunks(items: seq<Item>, n: nat, patchset: seq<Patch<Line>>)
    requires n <= |items| && CountsRead(items, n, patchset) && LastStart(items, n) < 0
    ensures forall r :: 0 <= r < |patchset| ==> patchset[r].chunks == []
  {
    forall r | 0 <= r < |patchset| ensures patchset[r].chunks == [] {
      NoStartsBehind(items, r + 1, 0, n);
    }
  }

  lemma OwnedGrows(items: seq<Item>, n: nat)
    requires n < |items| && items[n].Body? && LastStart(items, n) >= 0
    ensures Owned(items, LastStart(items, n), n + 1) == Owned(items, LastStart(items, n), n) + [items[n].line]
  {
    hide LastStart;
  }

  /** `patchset` with one more line in the chunk `m` of patch `q`. */
  function WithLine(patchset: seq<Patch<Line>>, q: nat, m: nat, l: Line): (r: seq<Patch<Line>>)
    requires q < |patchset| && m < |patchset[q].chunks|
    ensures |r| == |patchset|
    ensures forall k :: 0 <= k < |patchset| ==>
      r[k].src == patchset[k].src && r[k].dst == patchset[k].dst && |r[k].chunks| == |patchset[k].chunks|
    ensures forall k, i :: 0 <= k < |patchset| && 0 <= i < |patchset[k].chunks| ==>
      r[k].chunks[i] == if k == q && i == m then patchset[q].chunks[m].(lines := patchset[q].chunks[m].lines + [l])
                        else patchset[k].chunks[i]
  {
    var chunks := patchset[q].chunks;
    patchset[q := patchset[q].(chunks := chunks[m := chunks[m].(lines := chunks[m].lines + [l])])]
  }

  lemma OtherChunk(items: seq<Item>, j: nat, n: nat, patchset: seq<Patch<Line>>, last: nat, h: nat)
    requires j < last < n < |items| && items[j].Start? && ChunkRead(items, j, n, patchset)
    requires last == LastStart(items, n) && h == Headers(items, last)
    requires 0 < h <= |patchset| && Starts(items, h, last) < |patchset[h - 1].chunks|
    requires items[n].Body?
    ensures ChunkRead(items, j, n + 1, WithLine(patchset, h - 1, Starts(items, h, last), items[n].line))
  {
    hide LastStart;
    StartsGrow(items, Headers(items, j), j, last);
    OwnedStays(items, j, n);
    hide Owned;
    hide Starts;
    hide Headers;
    hide WithLine;
  }

  lemma SameChunk(items: seq<Item>, n: nat, patchset: seq<Patch<Line>>, last: nat, h: nat)
    requires last < n < |items| && items[last].Start? && ChunkRead(items, last, n, patchset) && items[n].Body?
    requires last == LastStart(items, n) && h == Headers(items, last)
    requires 0 < h <= |patchset| && Starts(items, h, last) < |patchset[h - 1].chunks|
    ensures ChunkRead(items, last, n + 1, WithLine(patchset, h - 1, Starts(items, h, last), items[n].line))
  {
    OwnedGrows(items, n);
    hide LastStart;
    hide Owned;
    hide Starts;
    hide Headers;
    hide WithLine;
  }

  lemma LineAdded(items: seq<Item>, n: nat, patchset: seq<Patch<Line>>, last: nat, h: nat)
    requires n < |items| && PatchsetRead(items, n, patchset) && items[n].Body?
    requires last == LastStart(items, n) && h == Headers(items, last)
    requires 0 < h <= |patchset| && Starts(items, h, last) < |patchset[h - 1].chunks|
    ensures PatchsetRead(items, n + 1, WithLine(patchset, h - 1, Starts(items, h, last), items[n].line))
  {
    hide LastStart;
    hide Starts;
    hide Headers;
    hide Owned;
    hide DstRead;
    hide ChunkRead;
    var after := WithLine(patchset, h - 1, Starts(items, h, last), items[n].line);
    hide WithLine;
    SourcesStay(items, n, patchset, after);
    hide SourcesRead;
    forall k | 0 <= k < |after|
      ensures DstRead(items, k + 1, n + 1, after[k].dst)
      ensures |after[k].chunks| == Starts(items, k + 1, n + 1)
    {
      StartsNext(items, k + 1, n);
      DstStays(items, k + 1, n, patchset[k].dst);
    }
    forall j | 0 <= j < n + 1 && items[j].Start? ensures ChunkRead(items, j, n + 1, after) {
      if j == last {
        SameChunk(items, n, patchset, last, h);
      } else {
        OtherChunk(items, j, n, patchset, last, h);
      }
    }
  }

  lemma BodyStep(items: seq<Item>, n: nat, patchset: seq<Patch<Line>>)
    requires n < |items| && PatchsetRead(items, n, patchset) && items[n].Body? && LastStart(items, n) >= 0
    ensures AddLine(patchset, items[n].line).Some?
    ensures PatchsetRead(items, n + 1, AddLine(patchset, items[n].line).value)
  {
    hide PatchsetRead;
    hide LastStart;
    hide Starts;
    hide Headers;
    hide AddLine;
    var last := LastStart(items, n);
    var h := Headers(items, last);
    CurrentChunk(items, n, patchset, last, h);
    AddLineAt(patchset, h - 1, items[n].line);
    assert AddLine(patchset, items[n].line) == Some(WithLine(patchset, h - 1, Starts(items, h, last), items[n].line));
    LineAdded(items, n, patchset, last, h);
  }

  // ----- the whole text -----

  lemma HeadersEmpty(items: seq<Item>, n: nat, patchset: seq<Patch<Line>>)
    requires n <= |items| && SourcesRead(items, n, patchset)
    ensures Headers(items, n) == 0 <==> patchset == []
  {
    hide Headers;
  }

  lemma FeedStep(items: seq<Item>, n: nat, patchset: seq<Patch<Line>>, line: string)
    requires n < |items| && PatchsetRead(items, n, patchset) && items[n] == Classify(line)
    ensures Feed(patchset, line).None? <==> BadLine(items, n)
    ensures Feed(patchset, line).Some? ==> PatchsetRead(items, n + 1, Feed(patchset, line).value)
  {
    hide Classify;
    HeadersEmpty(items, n, patchset);
    match items[n] {
      case SrcFile(name) =>
        SourceStep(items, n, patchset);
        hide PatchsetRead;
      case DstFile(name) =>
        if patchset != [] {
          DstStep(items, n, patchset);
        }
        hide PatchsetRead;
        hide Headers;
      case Start(srcPos, dstPos) =>
        if patchset != [] {
          StartStep(items, n, patchset);
        }
        hide PatchsetRead;
        hide Headers;
      case Body(l) =>
        if LastStart(items, n) >= 0 {
          BodyStep(items, n, patchset);
        } else {
          NoChunks(items, n, patchset);
          AddLineNowhere(patchset, l);
        }
        hide PatchsetRead;
        hide LastStart;
        hide AddLine;
      case Junk =>
    }
  }

  lemma NothingRead(items: seq<Item>)
    ensures PatchsetRead(items, 0, [])
  {
  }

  predicate HasBad(items: seq<Item>, n: nat)
    requires n <= |items|
  {
    exists i :: n <= i < |items| && BadLine(items, i)
  }

  lemma HasBadNext(items: seq<Item>, n: nat)
    requires n < |items|
    ensures HasBad(items, n) <==> BadLine(items, n) || HasBad(items, n + 1)
  {
    hide BadLine;
  }

  lemma {:induction false} ReadsFrom(lines: seq<string>, items: seq<Item>, n: nat, patchset: seq<Patch<Line>>)
    requires n <= |lines| && items == Items(lines) && PatchsetRead(items, n, patchset)
    ensures var r := FeedAll(patchset, lines[n..]);
      && (r.None? <==> HasBad(items, n))
      && (r.Some? ==> PatchsetRead(items, |lines|, r.value))
    decreases |lines| - n
  {
    hide Items;
    hide PatchsetRead;
    hide BadLine;
    if n < |lines| {
      HasBadNext(items, n);
      hide HasBad;
      assert lines[n..][0] == lines[n] && lines[n..][1..] == lines[n + 1..];
      assert items[n] == Classify(lines[n]);
      hide Classify;
      FeedStep(items, n, patchset, lines[n]);
      hide Feed;
      if Feed(patchset, lines[n]).Some? {
        ReadsFrom(lines, items, n + 1, Feed(patchset, lines[n]).value);
      }
    }
  }

  /** A text is rejected if and only if one of its lines is of no kind, names a destination or
      starts a chunk before the first patch, or is a body line before the first chunk; and what
      is read from any other text is what its lines say. */
  lemma ReadByPosition(lines: seq<string>)
    ensures Parse(lines).None? <==> HasBad(Items(lines), 0)
    ensures Parse(lines).Some? ==> PatchsetRead(Items(lines), |lines|, Parse(lines).value)
  {
    hide PatchsetRead;
    NothingRead(Items(lines));
    ReadsFrom(lines, Items(lines), 0, []);
    assert lines[0..] == lines;
    hide FeedAll;
  }
}
