/**
 * The remote log reader: it follows a growing log file in chunks of bounded size, cuts each chunk
 * into lines and steps back over the last line of a full-size chunk, which may be incomplete.
 */
module LogReader {
  import opened Strings

  const MAX_CHUNK_SIZE := 10 * 1024 * 1024
  const NEWLINE := "\n"

  /** What follows the last newline of a text. */
  function Tail(t: string): string {
    if t == "" then ""
    else if t[|t| - 1] == '\n' then ""
    else Tail(t[..|t| - 1]) + [t[|t| - 1]]
  }

  /** The complete lines of a text, without their newlines. */
  function Lines(t: string): seq<string> {
    if t == "" then []
    else if t[|t| - 1] == '\n' then Lines(t[..|t| - 1]) + [Tail(t[..|t| - 1])]
    else Lines(t[..|t| - 1])
  }

  lemma {:induction false} NoNewline(t: string)
    requires '\n' !in t
    ensures Lines(t) == [] && Tail(t) == t
  {
    if t != "" {
      NoNewline(t[..|t| - 1]);
      assert t == t[..|t| - 1] + [t[|t| - 1]];
    }
  }

  lemma {:induction false} NothingInEmpty()
    ensures Lines("") == [] && Tail("") == ""
  {
  }

  lemma {:induction false} LastCharacter(most: string, x: char)
    ensures Tail(most + [x]) == if x == '\n' then "" else Tail(most) + [x]
    ensures Lines(most + [x]) == if x == '\n' then Lines(most) + [Tail(most)] else Lines(most)
  {
    assert (most + [x])[..|most|] == most;
  }

  /** After complete lines, a text is read as if it stood alone. */
  lemma {:induction false} Appended(a: string, b: string)
    requires Tail(a) == ""
    ensures Lines(a + b) == Lines(a) + Lines(b) && Tail(a + b) == Tail(b)
  {
    NothingInEmpty();
    hide *;
    if b == "" {
      assert a + b == a;
    } else {
      var most, x := b[..|b| - 1], b[|b| - 1];
      Appended(a, most);
      LastCharacter(most, x);
      LastCharacter(a + most, x);
      assert b == most + [x] && a + b == a + most + [x];
    }
  }

  lemma {:induction false} OneLine(front: string)
    requires '\n' !in front
    ensures Lines(front + NEWLINE) == [front] && Tail(front + NEWLINE) == ""
  {
    NoNewline(front);
    assert (front + NEWLINE)[..|front|] == front;
  }

  /** Cutting at newlines gives the complete lines and the rest. */
  lemma {:induction false} SplitLines(t: string)
    ensures Split(t, NEWLINE) == Lines(t) + [Tail(t)]
    decreases |t|
  {
    if '\n' in t {
      var i := FirstNewline(t);
      var front, rest := t[..i], t[i + 1..];
      SplitLines(rest);
      hide *;
      OneLine(front);
      Appended(front + NEWLINE, rest);
      SplitHead(front, NEWLINE, rest);
      assert t == front + NEWLINE + rest;
    } else {
      NoNewline(t);
      SplitOne(t, NEWLINE);
    }
  }

  lemma {:induction false} FirstNewline(t: string) returns (i: nat)
    requires '\n' in t
    ensures i < |t| && t[i] == '\n' && '\n' !in t[..i]
    decreases |t|
  {
    if '\n' in t[..|t| - 1] {
      i := FirstNewline(t[..|t| - 1]);
      assert t[..|t| - 1][..i] == t[..i];
    } else {
      i := |t| - 1;
    }
  }

  /** Every text is complete lines followed by its rest. */
  lemma {:induction false} TailSplit(t: string) returns (head: string)
    ensures t == head + Tail(t) && Tail(head) == "" && Lines(head) == Lines(t) && '\n' !in Tail(t)
    ensures head != "" ==> '\n' in t
  {
    if t == "" {
      head := "";
    } else {
      hide *;
      var most, x := t[..|t| - 1], t[|t| - 1];
      assert t == most + [x];
      LastCharacter(most, x);
      if x == '\n' {
        head := t;
        assert t + "" == t;
      } else {
        head := TailSplit(most);
        assert head + Tail(most) + [x] == head + (Tail(most) + [x]);
      }
    }
  }

  /** The rest is the end of the text, holds no newline, and what is before it is complete. */
  lemma {:induction false} TailEnds(t: string)
    ensures |Tail(t)| <= |t| && t[|t| - |Tail(t)|..] == Tail(t) && '\n' !in Tail(t)
    ensures Tail(t[..|t| - |Tail(t)|]) == "" && Lines(t[..|t| - |Tail(t)|]) == Lines(t)
    ensures |Tail(t)| == |t| <==> '\n' !in t
  {
    hide *;
    var head := TailSplit(t);
    assert t[..|head|] == head && t[|head|..] == Tail(t);
    assert |Tail(t)| == |t| ==> t == Tail(t);
  }

  /** A position where a line begins. */
  predicate Boundary(file: string, o: nat) {
    o <= |file| && (o == 0 || file[o - 1] == '\n')
  }

  lemma {:induction false} BoundaryTail(file: string, o: nat, e: nat)
    requires o <= e <= |file| && Boundary(file, e)
    ensures Tail(file[o..e]) == ""
  {
    if o < e {
      assert file[o..e][e - o - 1] == file[e - 1];
    }
  }

  /** A line as long as a chunk begins at `o`. */
  predicate LongLine(file: string, o: nat, size: nat) {
    o + MAX_CHUNK_SIZE <= size <= |file| && Boundary(file, o) && '\n' !in file[o..o + MAX_CHUNK_SIZE]
  }

  /** No line between `from` and `size` is as long as a chunk. */
  ghost predicate LinesFit(file: string, from: nat, size: nat) {
    forall o: nat :: from <= o ==> !LongLine(file, o, size)
  }

  /** One chunk as handed to the matcher: its complete lines, then the string cut off at its end. */
  datatype Chunk = Chunk(lines: seq<string>, extra: string, at: nat, full: bool)

  /** Everything handed to the matcher. */
  function Texts(log: seq<Chunk>): seq<string> {
    if log == [] then [] else Texts(log[..|log| - 1]) + (log[|log| - 1].lines + [log[|log| - 1].extra])
  }

  /** The complete lines among it. */
  function LinesOf(log: seq<Chunk>): seq<string> {
    if log == [] then [] else LinesOf(log[..|log| - 1]) + log[|log| - 1].lines
  }

  /** The extra string is the beginning of the line that starts at `at`; only a full-size chunk cuts a line. */
  ghost predicate CutLine(file: string, c: Chunk) {
    && Boundary(file, c.at) && c.at + |c.extra| <= |file|
    && c.extra == file[c.at..c.at + |c.extra|] && '\n' !in c.extra
    && (c.extra != "" ==> c.full)
  }

  ghost predicate CutLines(file: string, log: seq<Chunk>) {
    forall i :: 0 <= i < |log| ==> CutLine(file, log[i])
  }

  lemma {:induction false} ChunkAppend(file: string, log: seq<Chunk>, c: Chunk)
    ensures Texts(log + [c]) == Texts(log) + (c.lines + [c.extra])
    ensures LinesOf(log + [c]) == LinesOf(log) + c.lines
    ensures CutLines(file, log) && CutLine(file, c) ==> CutLines(file, log + [c])
  {
    assert (log + [c])[..|log|] == log;
  }

  /** The number of characters asked for. */
  function SizeToRead(offset: nat, size: nat): nat
    requires offset <= size
  {
    if size - offset < MAX_CHUNK_SIZE then size - offset else MAX_CHUNK_SIZE
  }

  /** Where the next chunk begins. */
  function NextOffset(file: string, offset: nat, size: nat): nat
    requires offset <= size <= |file|
  {
    var n := SizeToRead(offset, size);
    var last := Tail(file[offset..offset + n]);
    if n == MAX_CHUNK_SIZE && |last| <= n then offset + n - |last| else offset + n
  }

  function ChunkText(file: string, offset: nat, size: nat): string
    requires offset <= size <= |file|
  {
    file[offset..offset + SizeToRead(offset, size)]
  }

  /** What one chunk hands out. */
  function ChunkOf(file: string, offset: nat, size: nat): Chunk
    requires offset <= size <= |file|
  {
    var text := ChunkText(file, offset, size);
    Chunk(Lines(text), Tail(text), NextOffset(file, offset, size), |text| == MAX_CHUNK_SIZE)
  }

  lemma {:induction false} NextOffsetIs(file: string, offset: nat, size: nat)
    requires offset < size <= |file| && Boundary(file, size)
    ensures var text := ChunkText(file, offset, size);
      |Tail(text)| <= |text| && NextOffset(file, offset, size) == offset + |text| - |Tail(text)|
  {
    TailEnds(ChunkText(file, offset, size));
    if size - offset < MAX_CHUNK_SIZE {
      BoundaryTail(file, offset, size);
    }
  }

  /** For a file whose observed size ends a line, a chunk moves on to where a line begins. */
  lemma {:induction false} ChunkFacts(file: string, offset: nat, size: nat)
    requires offset < size <= |file| && Boundary(file, offset) && Boundary(file, size)
    ensures var next := NextOffset(file, offset, size);
      && offset <= next <= size && next <= offset + MAX_CHUNK_SIZE && Boundary(file, next)
      && Lines(file[offset..next]) == ChunkOf(file, offset, size).lines
      && CutLine(file, ChunkOf(file, offset, size))
      && (next > offset <==> '\n' in ChunkText(file, offset, size))
  {
    var text := ChunkText(file, offset, size);
    NextOffsetIs(file, offset, size);
    TailEnds(text);
    var n, m := |text|, |text| - |Tail(text)|;
    if m > 0 {
      CutAfterNewline(text, m);
    }
    if size - offset < MAX_CHUNK_SIZE {
      BoundaryTail(file, offset, size);
    }
    hide Lines, Tail, NextOffset;
    assert file[offset..offset + m] == text[..m];
    assert text[m..] == file[offset + m..offset + n];
  }

  lemma {:induction false} CutAfterNewline(t: string, m: nat)
    requires 0 < m <= |t| && Tail(t[..m]) == ""
    ensures t[m - 1] == '\n'
  {
    assert t[..m][m - 1] == t[m - 1];
  }

  lemma {:induction false} LinesExtend(file: string, start: nat, offset: nat, next: nat)
    requires start <= offset <= next <= |file| && Boundary(file, offset)
    ensures Lines(file[start..next]) == Lines(file[start..offset]) + Lines(file[offset..next])
  {
    BoundaryTail(file, start, offset);
    Appended(file[start..offset], file[offset..next]);
    hide *;
    assert file[start..next] == file[start..offset] + file[offset..next];
  }

  /** Everything a read needs to know about the chunk it fetches. */
  lemma {:induction false} ReadFacts(file: string, start: nat, offset: nat, size: nat, log: seq<Chunk>)
    requires start <= offset < size <= |file| && Boundary(file, start) && Boundary(file, offset) && Boundary(file, size)
    requires LinesOf(log) == Lines(file[start..offset]) && CutLines(file, log)
    ensures var next, c, pieces := NextOffset(file, offset, size), ChunkOf(file, offset, size), Split(ChunkText(file, offset, size), NEWLINE);
      && offset <= next <= size && Boundary(file, next)
      && pieces == c.lines + [c.extra]
      && next + (if SizeToRead(offset, size) == MAX_CHUNK_SIZE then |c.extra| else 0) == offset + SizeToRead(offset, size)
      && Texts(log + [c]) == Texts(log) + pieces
      && LinesOf(log + [c]) == Lines(file[start..next])
      && CutLines(file, log + [c])
      && (next > offset <==> '\n' in ChunkText(file, offset, size))
  {
    var text := ChunkText(file, offset, size);
    ChunkFacts(file, offset, size);
    NextOffsetIs(file, offset, size);
    SplitLines(text);
    LinesExtend(file, start, offset, NextOffset(file, offset, size));
    if size - offset < MAX_CHUNK_SIZE {
      BoundaryTail(file, offset, size);
    }
    hide Lines, Tail, Split, CutLines, CutLine, Texts, LinesOf, NextOffset;
    ChunkAppend(file, log, ChunkOf(file, offset, size));
  }

  class RemoteLog {
    /** Everything the log file will ever hold; the server has a prefix of it at any time. */
    const file: string
    var size: nat
    var offset: nat
    var lines: seq<string>
    var numOfLines: nat
    var linesRead: nat
    /** The strings given to the matcher. */
    var handed: seq<string>
    ghost var start: nat
    ghost var log: seq<Chunk>

    ghost predicate Valid()
      reads this
    {
      && start <= offset <= size <= |file|
      && Boundary(file, start) && Boundary(file, offset) && Boundary(file, size)
      && numOfLines == |lines| && linesRead <= numOfLines
      && Texts(log) == handed + lines[linesRead..]
      && LinesOf(log) == Lines(file[start..offset])
      && CutLines(file, log)
    }

    /** The reader starts at a line: the end of the first file, or where it left off in a later one. */
    constructor (file: string, from: nat, observed: nat)
      requires Boundary(file, from) && Boundary(file, observed) && from <= observed
      ensures Valid() && this.file == file && start == offset == from && size == observed
      ensures handed == [] && log == [] && linesRead == numOfLines == 0
    {
      this.file := file;
      start, size, offset := from, observed, from;
      lines, numOfLines, linesRead, handed, log := [], 0, 0, [], [];
      assert file[from..from] == "";
    }

    /** Fetch and cut the next chunk. */
    method ReadChunk()
      requires Valid() && linesRead == numOfLines && size != offset
      modifies this
      ensures Valid() && start == old(start) && size == old(size)
      ensures handed == old(handed) && linesRead == 0
      ensures offset == NextOffset(file, old(offset), size)
      ensures offset > old(offset) <==> '\n' in ChunkText(file, old(offset), size)
      ensures log == old(log) + [ChunkOf(file, old(offset), size)]
    {
      hide Lines, Tail, Split, CutLines, CutLine, Texts, LinesOf, NextOffset, ChunkOf;
      var sizeToRead := if size - offset < MAX_CHUNK_SIZE then size - offset else MAX_CHUNK_SIZE;
      var chunk := file[offset..offset + sizeToRead];
      ghost var next := NextOffset(file, offset, size);
      ghost var c := ChunkOf(file, offset, size);
      ReadFacts(file, start, offset, size, log);
      assert lines[linesRead..] == [];
      assert handed + [] == handed;
      lines := Split(chunk, NEWLINE);
      offset := offset + sizeToRead;
      if sizeToRead == MAX_CHUNK_SIZE {
        offset := offset - |lines[|lines| - 1]|;
      }
      assert offset == next;
      numOfLines, linesRead := |lines|, 0;
      log := log + [c];
    }

    /** Hand the next line to the matcher. */
    method HandLine()
      requires Valid() && linesRead < numOfLines
      modifies this`linesRead, this`handed
      ensures Valid() && linesRead == old(linesRead) + 1 && handed == old(handed) + [lines[old(linesRead)]]
    {
      hide Lines, CutLines, Texts, LinesOf;
      assert lines[linesRead..] == [lines[linesRead]] + lines[linesRead + 1..];
      handed := handed + [lines[linesRead]];
      linesRead := linesRead + 1;
    }

    /**
     * One turn: with all lines handed out the size is looked up again, and unless nothing is new the
     * next chunk is read and its lines are handed out.
     */
    method Poll(latestSize: nat)
      requires Valid() && linesRead == numOfLines
      requires size <= latestSize <= |file| && Boundary(file, latestSize)
      modifies this
      ensures Valid() && linesRead == numOfLines && start == old(start)
      ensures size == latestSize && handed == Texts(log)
      ensures offset == if old(offset) == latestSize then latestSize else NextOffset(file, old(offset), latestSize)
      ensures log == if old(offset) == latestSize then old(log) else old(log) + [ChunkOf(file, old(offset), latestSize)]
    {
      hide Lines, CutLines, Texts, LinesOf, NextOffset, ChunkOf;
      if !(size == latestSize && offset == size) {
        size := latestSize;
        if linesRead == numOfLines && size != offset {
          ReadChunk();
          while linesRead < numOfLines
            invariant Valid() && start == old(start) && size == latestSize
            invariant offset == NextOffset(file, old(offset), latestSize)
            invariant log == old(log) + [ChunkOf(file, old(offset), latestSize)]
          {
            HandLine();
          }
        }
      }
      assert lines[linesRead..] == [];
    }

    /**
     * Any run over growing sizes that end lines: the complete lines read so far were handed out once, in
     * order. Once the file stops growing, the reader reaches its end if and only if no line from here on
     * is as long as a chunk; otherwise it stands still for good at the beginning of such a line.
     */
    method Follow(sizes: seq<nat>)
      requires Valid() && linesRead == numOfLines && Growing(file, size, sizes)
      modifies this
      ensures Valid() && linesRead == numOfLines && start == old(start)
      ensures size == if sizes == [] then old(size) else sizes[|sizes| - 1]
      ensures handed == Texts(log) && LinesOf(log) == Lines(file[start..offset]) && CutLines(file, log)
      ensures forall o: nat :: old(offset) <= o && LongLine(file, o, size) ==> offset <= o
      ensures Settled(sizes) && |sizes| >= size - old(offset) ==>
          && (offset == size <==> LinesFit(file, old(offset), size))
          && (offset == size || LongLine(file, offset, size))
    {
      hide Lines, CutLines, Texts, LinesOf, NextOffset, LongLine, ChunkOf, Headed, Boundary;
      HeadedInit(file, offset, size, Settled(sizes));
      for i := 0 to |sizes|
        invariant Valid() && linesRead == numOfLines && start == old(start)
        invariant size == if i == 0 then old(size) else sizes[i - 1]
        invariant Headed(file, old(offset), offset, size, i, Settled(sizes))
      {
        HeadedStep(file, old(offset), offset, size, sizes[i], i, Settled(sizes));
        Poll(sizes[i]);
      }
      assert lines[linesRead..] == [];
      HeadedEnd(file, old(offset), offset, size, |sizes|, Settled(sizes));
    }
  }

  /** After `i` turns from `from` on: no long line was passed and, once the file is settled, there was headway or an end to it. */
  ghost predicate Headed(file: string, from: nat, offset: nat, size: nat, i: nat, settled: bool) {
    && from <= offset
    && (forall o: nat :: from <= o && LongLine(file, o, size) ==> offset <= o)
    && (settled ==> offset >= from + i || (i > 0 && (offset == size || LongLine(file, offset, size))))
  }

  lemma {:induction false} HeadedInit(file: string, offset: nat, size: nat, settled: bool)
    ensures Headed(file, offset, offset, size, 0, settled)
  {
    hide LongLine;
  }

  lemma {:induction false} HeadedStep(file: string, from: nat, offset: nat, size: nat, latest: nat, i: nat, settled: bool)
    requires Headed(file, from, offset, size, i, settled) && offset <= size <= latest <= |file|
    requires Boundary(file, offset) && Boundary(file, size) && Boundary(file, latest) && (settled && i > 0 ==> latest == size)
    ensures Headed(file, from, if offset == latest then latest else NextOffset(file, offset, latest), latest, i + 1, settled)
  {
    hide LongLine, NextOffset, Boundary;
    LongerFile(file, size, latest);
    StopsAtLongLines(file, offset, latest);
    LongInside(file, latest);
  }

  lemma {:induction false} LongInside(file: string, size: nat)
    ensures forall o: nat :: LongLine(file, o, size) ==> o < size
  {
    hide Boundary;
  }

  lemma {:induction false} HeadedEnd(file: string, from: nat, offset: nat, size: nat, i: nat, settled: bool)
    requires Headed(file, from, offset, size, i, settled) && offset <= size <= |file|
    ensures forall o: nat :: from <= o && LongLine(file, o, size) ==> offset <= o
    ensures settled && i >= size - from ==> (offset == size <==> LinesFit(file, from, size)) && (offset == size || LongLine(file, offset, size))
  {
    hide LongLine, LinesFit;
    if settled && i >= size - from {
      RestMeans(file, from, offset, size);
    }
  }

  ghost predicate Settled(sizes: seq<nat>) {
    forall i, j :: 0 <= i < j < |sizes| ==> sizes[i] == sizes[j]
  }

  ghost predicate Growing(file: string, size: nat, sizes: seq<nat>) {
    && (forall i :: 0 <= i < |sizes| ==> size <= sizes[i] <= |file| && Boundary(file, sizes[i]))
    && (forall i, j :: 0 <= i < j < |sizes| ==> sizes[i] <= sizes[j])
  }

  /** A chunk does not move if and only if it begins with a line as long as itself. */
  lemma {:induction false} StuckIffLongLine(file: string, offset: nat, size: nat)
    requires offset < size <= |file| && Boundary(file, offset) && Boundary(file, size)
    ensures NextOffset(file, offset, size) == offset <==> LongLine(file, offset, size)
  {
    ChunkFacts(file, offset, size);
    if size - offset < MAX_CHUNK_SIZE {
      LastIsNewline(file, offset, size);
    }
  }

  lemma {:induction false} LastIsNewline(file: string, offset: nat, size: nat)
    requires offset < size <= |file| && Boundary(file, size)
    ensures '\n' in file[offset..size]
  {
    assert file[offset..size][size - offset - 1] == file[size - 1];
  }

  /** No line begins inside a long one. */
  lemma {:induction false} NoLineInside(file: string, o: nat, size: nat, p: nat)
    requires LongLine(file, o, size) && p <= |file| && Boundary(file, p)
    ensures p <= o || p > o + MAX_CHUNK_SIZE
  {
    forall q | o <= q < o + MAX_CHUNK_SIZE ensures file[q] != '\n' {
      assert file[q] == file[o..o + MAX_CHUNK_SIZE][q - o];
    }
  }

  /** A line that is long in a shorter file ends behind it or was long already. */
  lemma {:induction false} LongerFile(file: string, size: nat, size': nat)
    requires size <= size' <= |file| && Boundary(file, size)
    ensures forall o: nat :: o < size && LongLine(file, o, size') ==> LongLine(file, o, size)
  {
    forall o: nat | o < size && LongLine(file, o, size') ensures LongLine(file, o, size) {
      NoLineInside(file, o, size', size);
    }
  }

  /** A chunk never reaches past the beginning of a line as long as a chunk, and stops only there. */
  lemma {:induction false} StopsAtLongLines(file: string, offset: nat, size: nat)
    requires offset <= size <= |file| && Boundary(file, offset) && Boundary(file, size)
    ensures offset < size ==> offset <= NextOffset(file, offset, size) <= size
    ensures forall o: nat :: offset < size && offset <= o && LongLine(file, o, size) ==> NextOffset(file, offset, size) <= o
    ensures offset < size ==> NextOffset(file, offset, size) > offset || LongLine(file, offset, size)
    ensures forall o: nat :: offset <= o && LongLine(file, o, size) ==> offset < size
  {
    if offset < size {
      ChunkFacts(file, offset, size);
      StuckIffLongLine(file, offset, size);
      var next := NextOffset(file, offset, size);
      forall o: nat | offset <= o && LongLine(file, o, size) ensures next <= o {
        NotBeyond(file, offset, size, o);
      }
    }
  }

  lemma {:induction false} NotBeyond(file: string, offset: nat, size: nat, o: nat)
    requires offset < size <= |file| && Boundary(file, offset) && Boundary(file, size)
    requires offset <= o && LongLine(file, o, size)
    ensures NextOffset(file, offset, size) <= o
  {
    ChunkFacts(file, offset, size);
    NoLineInside(file, o, size, NextOffset(file, offset, size));
  }

  lemma {:induction false} RestMeans(file: string, from: nat, offset: nat, size: nat)
    requires from <= offset <= size <= |file|
    requires offset == size || LongLine(file, offset, size)
    requires forall o: nat :: from <= o && LongLine(file, o, size) ==> offset <= o
    ensures offset == size <==> LinesFit(file, from, size)
    ensures offset == size || LongLine(file, offset, size)
  {
  }

  /** A file that starts with a line as long as a chunk is never read. */
  lemma {:induction false} LongLineIsNeverRead()
    ensures var file := seq(10_485_760, _ => 'x') + NEWLINE;
      Boundary(file, |file|) && LongLine(file, 0, |file|) && NextOffset(file, 0, |file|) == 0
  {
    var file := seq(MAX_CHUNK_SIZE, _ => 'x') + NEWLINE;
    assert forall i :: 0 <= i < MAX_CHUNK_SIZE ==> file[0..MAX_CHUNK_SIZE][i] == 'x';
    StuckIffLongLine(file, 0, |file|);
  }
}
