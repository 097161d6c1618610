/**
 * The unified-diff reader and writer of utils/check-style.py, on texts and on their lines.  A
 * line is a string without its terminator.
 */
module Patches {
  import opened Common

  datatype Kind = Src | Dst | Both

  datatype Line = Line(kind: Kind, text: string)

  /** Chunks and patches over lines of any representation. */
  datatype Chunk<L> = Chunk(srcPos: nat, dstPos: nat, lines: seq<L>)

  datatype Patch<L> = Patch(src: string, dst: string, chunks: seq<Chunk<L>>)

  predicate IsSrc(k: Kind) {
    k == Src || k == Both
  }

  predicate IsDst(k: Kind) {
    k == Dst || k == Both
  }

  function CountSrc(lines: seq<Line>): nat {
    if lines == [] then 0 else (if IsSrc(lines[0].kind) then 1 else 0) + CountSrc(lines[1..])
  }

  function CountDst(lines: seq<Line>): nat {
    if lines == [] then 0 else (if IsDst(lines[0].kind) then 1 else 0) + CountDst(lines[1..])
  }

  // ----- decimal numbers -----

  predicate IsDigit(c: char) {
    '0' <= c <= '9'
  }

  function DigitChar(d: nat): (c: char)
    requires d < 10
    ensures IsDigit(c) && DigitValue(c) == d
  {
    '0' + d as char
  }

  function DigitValue(c: char): (d: nat)
    requires IsDigit(c)
    ensures d < 10
  {
    (c - '0') as nat
  }

  /** `%d` of a natural number. */
  function Decimal(n: nat): (s: string)
    ensures s != [] && forall i :: 0 <= i < |s| ==> IsDigit(s[i])
  {
    if n < 10 then [DigitChar(n)] else Decimal(n / 10) + [DigitChar(n % 10)]
  }

  /** `int` of a string of digits. */
  function NatOf(s: string): nat
    requires forall i :: 0 <= i < |s| ==> IsDigit(s[i])
  {
    if s == [] then 0 else NatOf(s[..|s| - 1]) * 10 + DigitValue(s[|s| - 1])
  }

  lemma {:induction false} NatOfDecimal(n: nat)
    ensures NatOf(Decimal(n)) == n
  {
    if n < 10 {
      assert Decimal(n)[..0] == [];
      assert NatOf([]) == 0;
    } else {
      NatOfDecimal(n / 10);
      assert Decimal(n)[..|Decimal(n)| - 1] == Decimal(n / 10);
    }
  }

  /** The value of a string of digits, digit by digit. */
  lemma NatOfDigits(s: string, c: char)
    requires forall i :: 0 <= i < |s| ==> IsDigit(s[i])
    requires c in "0123456789"
    ensures NatOf([]) == 0 && IsDigit(c) && NatOf(s + [c]) == NatOf(s) * 10 + (c as int - '0' as int)
  {
    assert (s + [c])[..|s|] == s;
  }

  /** A number is written without leading zeros. */
  lemma {:induction false} DecimalStart(n: nat)
    ensures Decimal(n)[0] == '0' <==> n == 0
    ensures n < 10 ==> |Decimal(n)| == 1
  {
    if n >= 10 {
      DecimalStart(n / 10);
      assert Decimal(n)[0] == Decimal(n / 10)[0];
    }
  }

  // ----- chunk headers -----

  function DigitRun(s: string): (k: nat)
    ensures k <= |s|
    ensures forall i :: 0 <= i < k ==> IsDigit(s[i])
    ensures k < |s| ==> !IsDigit(s[k])
  {
    if s == [] || !IsDigit(s[0]) then 0 else 1 + DigitRun(s[1..])
  }

  function EatNumber(s: string): Option<(nat, string)> {
    var k := DigitRun(s);
    if k == 0 then None else Some((NatOf(s[..k]), s[k..]))
  }

  function Eat(s: string, literal: string): Option<string> {
    if literal <= s then Some(s[|literal|..]) else None
  }

  /** A match of `^@@ -([0-9]+),([0-9]+) \+([0-9]+),([0-9]+) @@`, which may leave a rest. */
  function MatchChunkStart(line: string): Option<(nat, nat, nat, nat)> {
    var s0 :- Eat(line, "@@ -");
    var (srcPos, s1) :- EatNumber(s0);
    var s2 :- Eat(s1, ",");
    var (srcLen, s3) :- EatNumber(s2);
    var s4 :- Eat(s3, " +");
    var (dstPos, s5) :- EatNumber(s4);
    var s6 :- Eat(s5, ",");
    var (dstLen, s7) :- EatNumber(s6);
    var _ :- Eat(s7, " @@");
    Some((srcPos, srcLen, dstPos, dstLen))
  }

  lemma EatNumberOfDecimal(n: nat, rest: string)
    requires rest == [] || !IsDigit(rest[0])
    ensures EatNumber(Decimal(n) + rest) == Some((n, rest))
  {
    var s := Decimal(n) + rest;
    var k := DigitRun(s);
    assert forall i :: 0 <= i < |Decimal(n)| ==> s[i] == Decimal(n)[i];
    assert rest != [] ==> s[|Decimal(n)|] == rest[0];
    assert s[..k] == Decimal(n) && s[k..] == rest;
    NatOfDecimal(n);
  }

  lemma EatLiteral(literal: string, rest: string)
    ensures Eat(literal + rest, literal) == Some(rest)
  {
    assert (literal + rest)[|literal|..] == rest;
  }

  function ChunkStart(srcPos: nat, srcLen: nat, dstPos: nat, dstLen: nat): string {
    "@@ -" + (Decimal(srcPos) + ("," + (Decimal(srcLen) + (" +" + (Decimal(dstPos) + ("," + (Decimal(dstLen) + " @@")))))))
  }

  /** Any header written is matched with the same four numbers. */
  lemma ChunkStartRoundTrip(srcPos: nat, srcLen: nat, dstPos: nat, dstLen: nat)
    ensures MatchChunkStart(ChunkStart(srcPos, srcLen, dstPos, dstLen)) == Some((srcPos, srcLen, dstPos, dstLen))
  {
    hide EatNumber;
    hide Eat;
    hide Decimal;
    var s8 := " @@";
    var s7 := Decimal(dstLen) + s8;
    var s6 := "," + s7;
    var s5 := Decimal(dstPos) + s6;
    var s4 := " +" + s5;
    var s3 := Decimal(srcLen) + s4;
    var s2 := "," + s3;
    var s1 := Decimal(srcPos) + s2;
    EatLiteral("@@ -", s1);
    EatNumberOfDecimal(srcPos, s2);
    EatLiteral(",", s3);
    EatNumberOfDecimal(srcLen, s4);
    EatLiteral(" +", s5);
    EatNumberOfDecimal(dstPos, s6);
    EatLiteral(",", s7);
    EatNumberOfDecimal(dstLen, s8);
    assert s8 == " @@" + [];
    EatLiteral(" @@", []);
  }

  // ----- the writer -----

  function Mark(k: Kind): string {
    match k
    case Src => "-"
    case Dst => "+"
    case Both => " "
  }

  function WriteLine(l: Line): string {
    Mark(l.kind) + l.text
  }

  function WriteLines(lines: seq<Line>): seq<string> {
    if lines == [] then [] else [WriteLine(lines[0])] + WriteLines(lines[1..])
  }

  function WriteChunk(c: Chunk<Line>): seq<string> {
    [ChunkStart(c.srcPos, CountSrc(c.lines), c.dstPos, CountDst(c.lines))] + WriteLines(c.lines)
  }

  function WriteChunks(chunks: seq<Chunk<Line>>): seq<string> {
    if chunks == [] then [] else WriteChunk(chunks[0]) + WriteChunks(chunks[1..])
  }

  function WritePatch(p: Patch<Line>): seq<string> {
    ["--- " + p.src, "+++ " + p.dst] + WriteChunks(p.chunks)
  }

  function Write(patchset: seq<Patch<Line>>): seq<string> {
    if patchset == [] then [] else WritePatch(patchset[0]) + Write(patchset[1..])
  }

  // ----- what is written, counted on the written lines -----

  /** The lines that start with `mark` or with a blank. */
  function CountMarked(lines: seq<string>, mark: char): nat {
    if lines == [] then 0
    else (if lines[0] != [] && (lines[0][0] == mark || lines[0][0] == ' ') then 1 else 0) + CountMarked(lines[1..], mark)
  }

  lemma {:induction false} CountsAreMarked(lines: seq<Line>)
    ensures |WriteLines(lines)| == |lines|
    ensures CountMarked(WriteLines(lines), '-') == CountSrc(lines)
    ensures CountMarked(WriteLines(lines), '+') == CountDst(lines)
  {
    if lines != [] {
      CountsAreMarked(lines[1..]);
      var w := WriteLines(lines);
      assert w[1..] == WriteLines(lines[1..]);
      assert w[0][0] == if lines[0].kind == Src then '-' else if lines[0].kind == Dst then '+' else ' ';
    }
  }

  lemma {:induction false} LineByPosition(lines: seq<Line>, i: nat)
    requires i < |lines|
    ensures |WriteLines(lines)| == |lines|
    ensures WriteLines(lines)[i]
      == [if lines[i].kind == Src then '-' else if lines[i].kind == Dst then '+' else ' '] + lines[i].text
  {
    if i > 0 {
      LineByPosition(lines[1..], i - 1);
    } else {
      LineLengths(lines);
    }
  }

  lemma {:induction false} LineLengths(lines: seq<Line>)
    ensures |WriteLines(lines)| == |lines|
  {
    if lines != [] {
      LineLengths(lines[1..]);
    }
  }

  /** `w` is a chunk as the `patch` program reads it: the header gives the two positions, the
      number of lines that follow with `-` or a blank, and the number with `+` or a blank; and
      every line of the chunk follows behind its mark. */
  predicate IsWrittenChunk(c: Chunk<Line>, w: seq<string>) {
    && |w| == 1 + |c.lines|
    && MatchChunkStart(w[0]) == Some((c.srcPos, CountMarked(w[1..], '-'), c.dstPos, CountMarked(w[1..], '+')))
    && forall i :: 0 <= i < |c.lines| ==>
         w[1 + i] == [if c.lines[i].kind == Src then '-' else if c.lines[i].kind == Dst then '+' else ' '] + c.lines[i].text
  }

  lemma ChunkIsWritten(c: Chunk<Line>)
    ensures IsWrittenChunk(c, WriteChunk(c))
  {
    CountsAreMarked(c.lines);
    var w := WriteChunk(c);
    assert w[1..] == WriteLines(c.lines);
    ChunkStartRoundTrip(c.srcPos, CountSrc(c.lines), c.dstPos, CountDst(c.lines));
    hide ChunkStart;
    hide MatchChunkStart;
    hide WriteLines;
    hide CountMarked;
    forall i | 0 <= i < |c.lines|
      ensures w[1 + i] == [if c.lines[i].kind == Src then '-' else if c.lines[i].kind == Dst then '+' else ' '] + c.lines[i].text
    {
      LineByPosition(c.lines, i);
      assert w[1 + i] == w[1..][i];
    }
  }

  /** The position of the `k`-th chunk among the lines of all chunks. */
  function ChunkOffset(chunks: seq<Chunk<Line>>, k: nat): nat
    requires k <= |chunks|
  {
    if k == 0 then 0 else 1 + |chunks[0].lines| + ChunkOffset(chunks[1..], k - 1)
  }

  lemma SliceBehind(first: seq<string>, rest: seq<string>, a: nat, n: nat)
    requires a + n <= |rest|
    ensures (first + rest)[|first| + a..|first| + a + n] == rest[a..a + n]
    ensures (first + rest)[0..|first|] == first
  {
  }

  /** The `k`-th chunk is written from position `a` on. */
  predicate ChunkStandsAt(chunk: Chunk<Line>, w: seq<string>, a: nat) {
    a + 1 + |chunk.lines| <= |w| && IsWrittenChunk(chunk, w[a..a + 1 + |chunk.lines|])
  }

  lemma StandsBehind(chunk: Chunk<Line>, first: seq<string>, rest: seq<string>, a: nat)
    requires ChunkStandsAt(chunk, rest, a)
    ensures ChunkStandsAt(chunk, first + rest, |first| + a)
  {
    hide IsWrittenChunk;
    SliceBehind(first, rest, a, 1 + |chunk.lines|);
  }

  lemma StandsFirst(chunk: Chunk<Line>, rest: seq<string>)
    ensures ChunkStandsAt(chunk, WriteChunk(chunk) + rest, 0)
    ensures |WriteChunk(chunk)| == 1 + |chunk.lines|
  {
    ChunkIsWritten(chunk);
    assert |WriteChunk(chunk)| == 1 + |chunk.lines|;
    hide IsWrittenChunk;
    hide WriteChunk;
    SliceBehind(WriteChunk(chunk), rest, 0, 0);
  }

  lemma {:induction false} ChunksByPosition(chunks: seq<Chunk<Line>>, k: nat)
    requires k < |chunks|
    ensures ChunkStandsAt(chunks[k], WriteChunks(chunks), ChunkOffset(chunks, k))
  {
    hide ChunkStandsAt;
    hide WriteChunk;
    StandsFirst(chunks[0], WriteChunks(chunks[1..]));
    if k > 0 {
      ChunksByPosition(chunks[1..], k - 1);
      StandsBehind(chunks[k], WriteChunk(chunks[0]), WriteChunks(chunks[1..]), ChunkOffset(chunks[1..], k - 1));
    }
  }

  /** A written patch: the two file headers, then every chunk at its place with honest counts. */
  predicate IsWrittenPatch(p: Patch<Line>, w: seq<string>) {
    && |w| > 1 && w[0] == "--- " + p.src && w[1] == "+++ " + p.dst
    && |w| == 2 + ChunkOffset(p.chunks, |p.chunks|)
    && forall k :: 0 <= k < |p.chunks| ==> ChunkStandsAt(p.chunks[k], w, 2 + ChunkOffset(p.chunks, k))
  }

  lemma {:induction false} ChunksLength(chunks: seq<Chunk<Line>>)
    ensures |WriteChunks(chunks)| == ChunkOffset(chunks, |chunks|)
  {
    if chunks != [] {
      StandsFirst(chunks[0], []);
      hide WriteChunk;
      hide ChunkStandsAt;
      ChunksLength(chunks[1..]);
    }
  }

  lemma PatchIsWritten(p: Patch<Line>)
    ensures IsWrittenPatch(p, WritePatch(p))
  {
    hide ChunkStandsAt;
    hide WriteChunks;
    hide ChunkOffset;
    var head := ["--- " + p.src, "+++ " + p.dst];
    ChunksLength(p.chunks);
    forall k | 0 <= k < |p.chunks| ensures ChunkStandsAt(p.chunks[k], WritePatch(p), 2 + ChunkOffset(p.chunks, k)) {
      ChunksByPosition(p.chunks, k);
      StandsBehind(p.chunks[k], head, WriteChunks(p.chunks), ChunkOffset(p.chunks, k));
    }
  }

  // ----- the reader -----

  datatype Item =
    | SrcFile(name: string)
    | DstFile(name: string)
    | Start(srcPos: nat, dstPos: nat)
    | Body(line: Line)
    | Junk

  /** The six expressions, tried in the order of the source. */
  function Classify(line: string): Item {
    if "--- " <= line then SrcFile(line[4..])
    else if "+++ " <= line then DstFile(line[4..])
    else match MatchChunkStart(line)
    case Some((srcPos, _, dstPos, _)) => Start(srcPos, dstPos)
    case None =>
      if "-" <= line then Body(Line(Src, line[1..]))
      else if "+" <= line then Body(Line(Dst, line[1..]))
      else if " " <= line then Body(Line(Both, line[1..]))
      else Junk
  }

  /** Appends to the chunk started last, which an interposed file header leaves current. */
  function AddLine<L>(patchset: seq<Patch<L>>, line: L): Option<seq<Patch<L>>> {
    if patchset == [] then None
    else
      var front, last := patchset[..|patchset| - 1], patchset[|patchset| - 1];
      if last.chunks == [] then
        var before :- AddLine(front, line);
        Some(before + [last])
      else
        var n := |last.chunks| - 1;
        var chunk := last.chunks[n].(lines := last.chunks[n].lines + [line]);
        Some(front + [last.(chunks := last.chunks[n := chunk])])
  }

  function AddChunk<L>(patchset: seq<Patch<L>>, srcPos: nat, dstPos: nat): Option<seq<Patch<L>>> {
    if patchset == [] then None
    else
      var n := |patchset| - 1;
      Some(patchset[n := patchset[n].(chunks := patchset[n].chunks + [Chunk(srcPos, dstPos, [])])])
  }

  function SetDst<L>(patchset: seq<Patch<L>>, name: string): Option<seq<Patch<L>>> {
    if patchset == [] then None
    else Some(patchset[|patchset| - 1 := patchset[|patchset| - 1].(dst := name)])
  }

  /** One line; `None` stands for the exception that a misplaced or unknown line raises. */
  function Feed(patchset: seq<Patch<Line>>, line: string): Option<seq<Patch<Line>>> {
    match Classify(line)
    case SrcFile(name) => Some(patchset + [Patch(name, "", [])])
    case DstFile(name) => SetDst(patchset, name)
    case Start(srcPos, dstPos) => AddChunk(patchset, srcPos, dstPos)
    case Body(l) => AddLine(patchset, l)
    case Junk => None
  }

  function FeedAll(patchset: seq<Patch<Line>>, lines: seq<string>): Option<seq<Patch<Line>>>
    decreases |lines|
  {
    if lines == [] then Some(patchset)
    else
      var next :- Feed(patchset, lines[0]);
      FeedAll(next, lines[1..])
  }

  function Parse(lines: seq<string>): Option<seq<Patch<Line>>> {
    FeedAll([], lines)
  }

  // ----- writing and reading back -----

  predicate OneLine(s: string) {
    '\n' !in s
  }

  predicate OneLiners(lines: seq<string>) {
    forall i :: 0 <= i < |lines| ==> OneLine(lines[i])
  }

  /** A body line whose written form is one line and is not taken for a file header. */
  predicate CleanLine(l: Line) {
    OneLine(l.text) && !(l.kind == Src && "-- " <= l.text) && !(l.kind == Dst && "++ " <= l.text)
  }

  predicate CleanChunk(c: Chunk<Line>) {
    forall i :: 0 <= i < |c.lines| ==> CleanLine(c.lines[i])
  }

  predicate CleanPatch(p: Patch<Line>) {
    && OneLine(p.src) && OneLine(p.dst)
    && forall i :: 0 <= i < |p.chunks| ==> CleanChunk(p.chunks[i])
  }

  predicate Clean(patchset: seq<Patch<Line>>) {
    forall i :: 0 <= i < |patchset| ==> CleanPatch(patchset[i])
  }

  lemma ClassifyBody(l: Line)
    ensures CleanLine(l) ==> Classify(WriteLine(l)) == Body(l)
  {
    var line := WriteLine(l);
    assert line[1..] == l.text;
    if "--- " <= line {
      assert line[..4] == "--- ";
      assert l.text[..3] == line[1..4] == "-- ";
    }
    if "+++ " <= line {
      assert line[..4] == "+++ ";
      assert l.text[..3] == line[1..4] == "++ ";
    }
    assert line[0] != '@';
    assert Eat(line, "@@ -").None?;
  }

  lemma ClassifyFiles(name: string)
    ensures Classify("--- " + name) == SrcFile(name)
    ensures Classify("+++ " + name) == DstFile(name)
  {
    hide MatchChunkStart;
    assert ("--- " + name)[4..] == name;
    assert ("+++ " + name)[4..] == name;
    assert ("+++ " + name)[0] == '+';
  }

  lemma ClassifyStart(srcPos: nat, srcLen: nat, dstPos: nat, dstLen: nat)
    ensures Classify(ChunkStart(srcPos, srcLen, dstPos, dstLen)) == Start(srcPos, dstPos)
  {
    ChunkStartRoundTrip(srcPos, srcLen, dstPos, dstLen);
    assert ChunkStart(srcPos, srcLen, dstPos, dstLen)[0] == '@';
    hide MatchChunkStart;
    hide ChunkStart;
  }

  lemma {:induction false} FeedConcat(patchset: seq<Patch<Line>>, a: seq<string>, b: seq<string>)
    requires FeedAll(patchset, a).Some?
    ensures FeedAll(patchset, a + b) == FeedAll(FeedAll(patchset, a).value, b)
    decreases |a|
  {
    if a == [] {
      assert a + b == b;
    } else {
      assert (a + b)[0] == a[0] && (a + b)[1..] == a[1..] + b;
      hide Feed;
      FeedConcat(Feed(patchset, a[0]).value, a[1..], b);
    }
  }

  /** `done`, then a patch whose last chunk is `c`. */
  function WithLast(done: seq<Patch<Line>>, p: Patch<Line>, c: Chunk<Line>): seq<Patch<Line>> {
    done + [p.(chunks := p.chunks + [c])]
  }

  lemma AddLineToLast(done: seq<Patch<Line>>, p: Patch<Line>, c: Chunk<Line>, l: Line)
    ensures AddLine(WithLast(done, p, c), l) == Some(WithLast(done, p, c.(lines := c.lines + [l])))
  {
    var all := WithLast(done, p, c);
    var last := all[|all| - 1];
    assert all[..|all| - 1] == done;
    var longer := c.(lines := c.lines + [l]);
    assert last.chunks[|p.chunks| := longer] == p.chunks + [longer];
  }

  lemma {:induction false} FeedLines(done: seq<Patch<Line>>, p: Patch<Line>, c: Chunk<Line>, lines: seq<Line>)
    requires forall i :: 0 <= i < |lines| ==> CleanLine(lines[i])
    ensures FeedAll(WithLast(done, p, c), WriteLines(lines)) == Some(WithLast(done, p, c.(lines := c.lines + lines)))
    decreases |lines|
  {
    if lines == [] {
      assert c.lines + lines == c.lines;
    } else {
      ClassifyBody(lines[0]);
      AddLineToLast(done, p, c, lines[0]);
      var next := c.(lines := c.lines + [lines[0]]);
      assert next.lines + lines[1..] == c.lines + lines;
      hide Classify;
      hide WithLast;
      hide WriteLine;
      FeedLines(done, p, next, lines[1..]);
      assert WriteLines(lines)[1..] == WriteLines(lines[1..]);
    }
  }

  lemma FeedFirst(patchset: seq<Patch<Line>>, line: string, rest: seq<string>)
    requires Feed(patchset, line).Some?
    ensures FeedAll(patchset, [line] + rest) == FeedAll(Feed(patchset, line).value, rest)
  {
    hide Feed;
    assert ([line] + rest)[1..] == rest;
  }

  lemma FeedStart(done: seq<Patch<Line>>, p: Patch<Line>, srcPos: nat, srcLen: nat, dstPos: nat, dstLen: nat)
    ensures Feed(done + [p], ChunkStart(srcPos, srcLen, dstPos, dstLen))
      == Some(WithLast(done, p, Chunk(srcPos, dstPos, [])))
  {
    ClassifyStart(srcPos, srcLen, dstPos, dstLen);
    hide Classify;
    hide ChunkStart;
    var all := done + [p];
    assert all[|all| - 1] == p;
    var q := p.(chunks := p.chunks + [Chunk(srcPos, dstPos, [])]);
    assert all[|all| - 1 := q] == done + [q];
  }

  lemma FeedSrcFile(done: seq<Patch<Line>>, src: string)
    ensures Feed(done, "--- " + src) == Some(done + [Patch(src, "", [])])
  {
    ClassifyFiles(src);
    hide Classify;
    hide AddLine;
    hide AddChunk;
    hide SetDst;
  }

  lemma FeedDstFile(done: seq<Patch<Line>>, src: string, dst: string)
    ensures Feed(done + [Patch(src, "", [])], "+++ " + dst) == Some(done + [Patch(src, dst, [])])
  {
    var all := done + [Patch(src, "", [])];
    assert SetDst(all, dst) == Some(done + [Patch(src, dst, [])]) by {
      assert all[|all| - 1] == Patch(src, "", []);
      assert all[|all| - 1 := Patch(src, dst, [])] == done + [Patch(src, dst, [])];
    }
    ClassifyFiles(dst);
    hide Classify;
    hide AddLine;
    hide AddChunk;
    hide SetDst;
  }

  lemma FeedChunk(done: seq<Patch<Line>>, p: Patch<Line>, c: Chunk<Line>)
    requires CleanChunk(c)
    ensures FeedAll(done + [p], WriteChunk(c)) == Some(WithLast(done, p, c))
  {
    hide Feed;
    hide FeedAll;
    hide WriteLines;
    hide ChunkStart;
    hide WithLast;
    var empty := Chunk(c.srcPos, c.dstPos, []);
    FeedStart(done, p, c.srcPos, CountSrc(c.lines), c.dstPos, CountDst(c.lines));
    FeedFirst(done + [p], ChunkStart(c.srcPos, CountSrc(c.lines), c.dstPos, CountDst(c.lines)), WriteLines(c.lines));
    FeedLines(done, p, empty, c.lines);
    assert empty.lines + c.lines == c.lines;
  }

  lemma FeedNoChunks(done: seq<Patch<Line>>, p: Patch<Line>)
    ensures FeedAll(done + [p], WriteChunks([])) == Some(done + [p.(chunks := p.chunks + [])])
  {
    assert p.chunks + [] == p.chunks;
  }

  lemma CleanTail(chunks: seq<Chunk<Line>>)
    requires chunks != [] && forall i :: 0 <= i < |chunks| ==> CleanChunk(chunks[i])
    ensures CleanChunk(chunks[0]) && forall i :: 0 <= i < |chunks[1..]| ==> CleanChunk(chunks[1..][i])
  {
    hide CleanChunk;
  }

  lemma {:induction false} FeedChunks(done: seq<Patch<Line>>, p: Patch<Line>, chunks: seq<Chunk<Line>>)
    requires forall i :: 0 <= i < |chunks| ==> CleanChunk(chunks[i])
    ensures FeedAll(done + [p], WriteChunks(chunks)) == Some(done + [p.(chunks := p.chunks + chunks)])
    decreases |chunks|
  {
    hide FeedAll;
    hide WriteChunk;
    hide CleanChunk;
    if chunks == [] {
      FeedNoChunks(done, p);
    } else {
      var first, rest := chunks[0], chunks[1..];
      CleanTail(chunks);
      FeedChunk(done, p, first);
      var q := p.(chunks := p.chunks + [first]);
      assert WithLast(done, p, first) == done + [q];
      assert WriteChunks(chunks) == WriteChunk(first) + WriteChunks(rest);
      hide WithLast;
      hide WriteChunks;
      FeedConcat(done + [p], WriteChunk(first), WriteChunks(rest));
      FeedChunks(done, q, rest);
      assert p.chunks + [first] + rest == p.chunks + chunks;
    }
  }

  lemma FeedPatch(done: seq<Patch<Line>>, p: Patch<Line>)
    requires CleanPatch(p)
    ensures FeedAll(done, WritePatch(p)) == Some(done + [p])
  {
    hide Feed;
    hide FeedAll;
    hide WriteChunks;
    hide CleanChunk;
    var body := WriteChunks(p.chunks);
    FeedSrcFile(done, p.src);
    FeedDstFile(done, p.src, p.dst);
    assert WritePatch(p) == ["--- " + p.src] + (["+++ " + p.dst] + body);
    FeedFirst(done, "--- " + p.src, ["+++ " + p.dst] + body);
    FeedFirst(done + [Patch(p.src, "", [])], "+++ " + p.dst, body);
    FeedChunks(done, Patch(p.src, p.dst, []), p.chunks);
    assert [] + p.chunks == p.chunks;
  }

  lemma FeedNothing(done: seq<Patch<Line>>)
    ensures FeedAll(done, Write([])) == Some(done + [])
  {
    assert done + [] == done;
  }

  lemma {:induction false} FeedPatches(done: seq<Patch<Line>>, patchset: seq<Patch<Line>>)
    requires Clean(patchset)
    ensures FeedAll(done, Write(patchset)) == Some(done + patchset)
    decreases |patchset|
  {
    hide FeedAll;
    hide WritePatch;
    hide CleanPatch;
    if patchset == [] {
      FeedNothing(done);
    } else {
      var first, rest := patchset[0], patchset[1..];
      assert Clean(rest);
      FeedPatch(done, first);
      hide Clean;
      assert Write(patchset) == WritePatch(first) + Write(rest);
      hide Write;
      FeedConcat(done, WritePatch(first), Write(rest));
      FeedPatches(done + [first], rest);
      assert done + [first] + rest == done + patchset;
    }
  }

  /** Reading back what was written gives the same patchset. */
  lemma ParseWrite(patchset: seq<Patch<Line>>)
    requires Clean(patchset)
    ensures Parse(Write(patchset)) == Some(patchset)
  {
    FeedPatches([], patchset);
    assert [] + patchset == patchset;
  }

  // ----- what the reader produces -----

  lemma ClassifiedIsClean(line: string)
    requires OneLine(line)
    ensures Classify(line).Body? ==> CleanLine(Classify(line).line)
    ensures Classify(line).SrcFile? || Classify(line).DstFile? ==> OneLine(Classify(line).name)
  {
    if line != [] {
      MarkedPrefix(line, "-- ");
      MarkedPrefix(line, "++ ");
      assert ['-'] + "-- " == "--- " && ['+'] + "++ " == "+++ ";
      hide MatchChunkStart;
    }
  }

  lemma MarkedPrefix(line: string, tail: string)
    requires line != []
    ensures tail <= line[1..] <==> [line[0]] + tail <= line
  {
    assert |tail| <= |line| - 1 ==> line[1..][..|tail|] == line[..|tail| + 1][1..];
  }

  lemma LongerChunkIsClean(p: Patch<Line>, line: Line)
    requires CleanPatch(p) && p.chunks != [] && CleanLine(line)
    ensures var n := |p.chunks| - 1;
      CleanPatch(p.(chunks := p.chunks[n := p.chunks[n].(lines := p.chunks[n].lines + [line])]))
  {
    hide CleanLine;
    var n := |p.chunks| - 1;
    var longer := p.chunks[n].(lines := p.chunks[n].lines + [line]);
    assert CleanChunk(p.chunks[n]);
    assert CleanChunk(longer);
    hide CleanChunk;
  }

  lemma {:induction false} AddLineKeepsClean(patchset: seq<Patch<Line>>, line: Line)
    requires Clean(patchset) && CleanLine(line)
    ensures AddLine(patchset, line).Some? ==> Clean(AddLine(patchset, line).value)
  {
    if patchset != [] {
      hide CleanPatch;
      hide CleanLine;
      var front, last := patchset[..|patchset| - 1], patchset[|patchset| - 1];
      assert Clean(front) && CleanPatch(last);
      if last.chunks == [] {
        AddLineKeepsClean(front, line);
      } else {
        LongerChunkIsClean(last, line);
      }
    }
  }

  lemma AddChunkKeepsClean(patchset: seq<Patch<Line>>, srcPos: nat, dstPos: nat)
    requires Clean(patchset) && patchset != []
    ensures Clean(AddChunk(patchset, srcPos, dstPos).value)
  {
    hide CleanChunk;
    var n := |patchset| - 1;
    var p := patchset[n];
    var empty: Chunk<Line> := Chunk(srcPos, dstPos, []);
    assert CleanPatch(p);
    assert CleanChunk(empty) by { EmptyChunkIsClean(empty); }
    var q := p.(chunks := p.chunks + [empty]);
    assert CleanPatch(q);
    hide CleanPatch;
    assert AddChunk(patchset, srcPos, dstPos).value == patchset[n := q];
  }

  lemma EmptyChunkIsClean(c: Chunk<Line>)
    requires c.lines == []
    ensures CleanChunk(c)
  {
  }

  lemma FeedKeepsClean(patchset: seq<Patch<Line>>, line: string)
    requires OneLine(line) && Clean(patchset) && Feed(patchset, line).Some?
    ensures Clean(Feed(patchset, line).value)
  {
    ClassifiedIsClean(line);
    match Classify(line) {
      case SrcFile(name) =>
        assert CleanPatch(Patch(name, "", []));
        hide CleanPatch;
      case DstFile(name) =>
        var n := |patchset| - 1;
        assert CleanPatch(patchset[n]);
        assert CleanPatch(patchset[n].(dst := name));
        hide CleanPatch;
      case Start(srcPos, dstPos) =>
        hide Clean;
        AddChunkKeepsClean(patchset, srcPos, dstPos);
      case Body(l) =>
        hide Clean;
        AddLineKeepsClean(patchset, l);
    }
  }

  lemma {:induction false} FeedAllKeepsClean(patchset: seq<Patch<Line>>, lines: seq<string>)
    requires OneLiners(lines) && Clean(patchset) && FeedAll(patchset, lines).Some?
    ensures Clean(FeedAll(patchset, lines).value)
    decreases |lines|
  {
    hide Clean;
    hide Feed;
    hide OneLine;
    if lines != [] {
      FeedKeepsClean(patchset, lines[0]);
      FeedAllKeepsClean(Feed(patchset, lines[0]).value, lines[1..]);
    }
  }

  // ----- whole texts -----

  /** Every line with its terminator. */
  function Text(lines: seq<string>): string {
    if lines == [] then [] else lines[0] + ['\n'] + Text(lines[1..])
  }

  /** The position of the first newline, or the length. */
  function LineEnd(text: string): (n: nat)
    ensures n <= |text| && OneLine(text[..n])
    ensures n < |text| ==> text[n] == '\n'
  {
    if text == [] || text[0] == '\n' then 0
    else
      var n := 1 + LineEnd(text[1..]);
      assert text[..n] == [text[0]] + text[1..][..n - 1];
      n
  }

  /** The lines over which a file is iterated; the last one may lack its terminator. */
  function LinesOf(text: string): (lines: seq<string>)
    ensures OneLiners(lines)
    decreases |text|
  {
    if text == [] then []
    else
      var n := LineEnd(text);
      [text[..n]] + if n == |text| then [] else LinesOf(text[n + 1..])
  }

  lemma {:induction false} LineEndIs(line: string, rest: string)
    requires OneLine(line)
    ensures LineEnd(line + ['\n'] + rest) == |line|
  {
    if line == [] {
      assert line + ['\n'] + rest == ['\n'] + rest;
    } else {
      LineEndIs(line[1..], rest);
      assert (line + ['\n'] + rest)[1..] == line[1..] + ['\n'] + rest;
    }
  }

  lemma {:induction false} LinesOfText(lines: seq<string>)
    requires OneLiners(lines)
    ensures LinesOf(Text(lines)) == lines
  {
    hide OneLine;
    if lines != [] {
      var line, rest := lines[0], Text(lines[1..]);
      var text := line + ['\n'] + rest;
      LineEndIs(line, rest);
      assert text[..|line|] == line && text[|line| + 1..] == rest;
      LinesOfText(lines[1..]);
    }
  }

  function ReadText(text: string): Option<seq<Patch<Line>>> {
    Parse(LinesOf(text))
  }

  function WriteText(patchset: seq<Patch<Line>>): string {
    Text(Write(patchset))
  }

  lemma ChunkStartIsOneLine(srcPos: nat, srcLen: nat, dstPos: nat, dstLen: nat)
    ensures OneLine(ChunkStart(srcPos, srcLen, dstPos, dstLen))
  {
  }

  lemma {:induction false} WrittenLines(lines: seq<Line>)
    requires forall i :: 0 <= i < |lines| ==> CleanLine(lines[i])
    ensures OneLiners(WriteLines(lines))
  {
    if lines != [] {
      WrittenLines(lines[1..]);
      assert OneLine(WriteLine(lines[0]));
      hide OneLine;
      hide WriteLine;
    }
  }

  lemma OneLinersConcat(a: seq<string>, b: seq<string>)
    requires OneLiners(a) && OneLiners(b)
    ensures OneLiners(a + b)
  {
    hide OneLine;
  }

  lemma WrittenChunk(c: Chunk<Line>)
    requires CleanChunk(c)
    ensures OneLiners(WriteChunk(c))
  {
    WrittenLines(c.lines);
    var start := ChunkStart(c.srcPos, CountSrc(c.lines), c.dstPos, CountDst(c.lines));
    ChunkStartIsOneLine(c.srcPos, CountSrc(c.lines), c.dstPos, CountDst(c.lines));
    hide OneLine;
    hide ChunkStart;
    hide WriteLines;
    OneLinersConcat([start], WriteLines(c.lines));
  }

  lemma {:induction false} WrittenChunks(chunks: seq<Chunk<Line>>)
    requires forall i :: 0 <= i < |chunks| ==> CleanChunk(chunks[i])
    ensures OneLiners(WriteChunks(chunks))
  {
    hide CleanChunk;
    hide OneLiners;
    hide WriteChunk;
    if chunks != [] {
      WrittenChunk(chunks[0]);
      WrittenChunks(chunks[1..]);
      OneLinersConcat(WriteChunk(chunks[0]), WriteChunks(chunks[1..]));
    } else {
      NoLines();
    }
  }

  lemma NoLines()
    ensures OneLiners([])
  {
  }

  lemma WrittenHeaders(p: Patch<Line>)
    requires CleanPatch(p)
    ensures OneLiners(["--- " + p.src, "+++ " + p.dst])
  {
    assert OneLine("--- " + p.src) && OneLine("+++ " + p.dst);
    hide OneLine;
  }

  lemma {:induction false} WrittenPatches(patchset: seq<Patch<Line>>)
    requires Clean(patchset)
    ensures OneLiners(Write(patchset))
  {
    hide OneLiners;
    if patchset != [] {
      var p, rest := patchset[0], patchset[1..];
      assert CleanPatch(p) && Clean(rest);
      WrittenHeaders(p);
      WrittenChunks(p.chunks);
      hide CleanPatch;
      hide Clean;
      WrittenPatches(rest);
      OneLinersConcat(["--- " + p.src, "+++ " + p.dst], WriteChunks(p.chunks));
      OneLinersConcat(WritePatch(p), Write(rest));
    } else {
      NoLines();
    }
  }

  lemma ReadWritten(patchset: seq<Patch<Line>>)
    requires Clean(patchset)
    ensures ReadText(WriteText(patchset)) == Some(patchset)
  {
    ParseWrite(patchset);
    WrittenPatches(patchset);
    LinesOfText(Write(patchset));
    hide Parse;
    hide Write;
    hide Clean;
  }

  /** Whatever text the reader accepts, writing its result and reading that again changes
      nothing: the writer's output is a normal form of every accepted text. */
  lemma WriteIsNormalForm(text: string)
    requires ReadText(text).Some?
    ensures Clean(ReadText(text).value)
    ensures ReadText(WriteText(ReadText(text).value)) == ReadText(text)
  {
    FeedAllKeepsClean([], LinesOf(text));
    hide FeedAll;
    hide LinesOf;
    ReadWritten(ReadText(text).value);
  }

  /** A patchset survives writing and reading exactly when no removed line starts with `-- `,
      no added line with `++ `, and no line or file name holds a newline. */
  lemma RoundTripIffClean(patchset: seq<Patch<Line>>)
    ensures ReadText(WriteText(patchset)) == Some(patchset) <==> Clean(patchset)
  {
    hide Clean;
    hide ReadText;
    if Clean(patchset) {
      ReadWritten(patchset);
    }
    if ReadText(WriteText(patchset)) == Some(patchset) {
      WriteIsNormalForm(WriteText(patchset));
    }
  }
}
