/** The lines of the run index, newest first: what they are, and how a backward reader that sees the
    file in chunks of any size still finds exactly them. */
module IndexLines {
  import opened Text

  newtype byte = x: int | 0 <= x < 256

  type Bytes = seq<byte>

  const NEWLINE: byte := 10

  /** What trimming removes from bytes. */
  const BLANKS: set<byte> := {9, 10, 11, 12, 13, 32}

  ghost predicate IsBlank(line: Bytes) {
    forall i :: 0 <= i < |line| ==> line[i] in BLANKS
  }

  /** Does trimming leave anything of the line? */
  method HasText(line: Bytes) returns (hasText: bool)
    ensures hasText == !IsBlank(line)
  {
    var start := 0;
    while start < |line| && (line[start] == 32 || 9 <= line[start] <= 13)
      invariant 0 <= start <= |line| && forall k :: 0 <= k < start ==> line[k] in BLANKS
    {
      start := start + 1;
    }
    hasText := start < |line|;
  }

  /** All the pieces between newlines, the empty ones included. */
  function Split(s: Bytes): (parts: seq<Bytes>)
    ensures |parts| >= 1
  {
    if s == [] then [[]]
    else
      var rest := Split(s[1..]);
      if s[0] == NEWLINE then [[]] + rest else [[s[0]] + rest[0]] + rest[1..]
  }

  /** The non-blank pieces, last first. */
  ghost function NewestOf(parts: seq<Bytes>): seq<Bytes> {
    if parts == [] then []
    else
      var n := |parts| - 1;
      (if IsBlank(parts[n]) then [] else [parts[n]]) + NewestOf(parts[..n])
  }

  /** The specification: read the whole file, split it, drop blank lines, reverse. */
  ghost function NewestFirst(file: Bytes): seq<Bytes> {
    NewestOf(Split(file))
  }

  lemma {:induction false} NewestOfConcat(a: seq<Bytes>, b: seq<Bytes>)
    ensures NewestOf(a + b) == NewestOf(b) + NewestOf(a)
  {
    if b == [] {
      assert a + b == a;
    } else {
      var n := |b| - 1;
      InitOfConcat(a, b);
      NewestOfConcat(a, b[..n]);
    }
  }

  /** Two lists of pieces, with the last of one and the first of the other glued together. */
  function Glue(a: seq<Bytes>, b: seq<Bytes>): seq<Bytes>
    requires a != [] && b != []
  {
    a[..|a| - 1] + [a[|a| - 1] + b[0]] + b[1..]
  }

  /** The pieces of a text with one more byte in front. */
  function Push(x: byte, parts: seq<Bytes>): seq<Bytes>
    requires parts != []
  {
    if x == NEWLINE then [[]] + parts else [[x] + parts[0]] + parts[1..]
  }

  lemma SplitPush(x: byte, s: Bytes)
    ensures Split([x] + s) == Push(x, Split(s))
  {
    assert ([x] + s)[1..] == s;
  }

  lemma GluePush(a: seq<Bytes>, b: seq<Bytes>, x: byte)
    requires a != [] && b != []
    ensures Push(x, Glue(a, b)) == Glue(Push(x, a), b)
  {
    if x == NEWLINE {
      GlueAfterLine(a, b);
    } else if |a| == 1 {
      assert [x] + (a[0] + b[0]) == ([x] + a[0]) + b[0];
    } else {
      GlueAfterFirst([x] + a[0], a, b);
    }
  }

  lemma GlueAfterLine(a: seq<Bytes>, b: seq<Bytes>)
    requires a != [] && b != []
    ensures [[]] + Glue(a, b) == Glue([[]] + a, b)
  {
    var n := |a| - 1;
    assert ([[]] + a)[..n + 1] == [[]] + a[..n];
  }

  lemma GlueAfterFirst(first: Bytes, a: seq<Bytes>, b: seq<Bytes>)
    requires |a| > 1 && b != []
    ensures Glue(a, b)[0] == a[0] && [first] + Glue(a, b)[1..] == Glue([first] + a[1..], b)
  {
    var n := |a| - 1;
    var rest := a[1..n];
    assert ([first] + a[1..])[..n] == [first] + rest;
    assert a[..n] == [a[0]] + rest;
    assert Glue(a, b) == [a[0]] + (rest + [a[n] + b[0]] + b[1..]);
  }

  /** Splitting a concatenation glues the two splits at the seam. */
  lemma {:induction false} SplitConcat(a: Bytes, b: Bytes)
    ensures Split(a + b) == Glue(Split(a), Split(b))
  {
    if a == [] {
      assert a + b == b;
      GlueNothing(Split(b));
    } else {
      var x, rest := a[0], a[1..];
      SplitConcat(rest, b);
      assert a == [x] + rest && a + b == [x] + (rest + b);
      SplitPush(x, rest);
      SplitPush(x, rest + b);
      GluePush(Split(rest), Split(b), x);
    }
  }

  lemma GlueNothing(b: seq<Bytes>)
    requires b != []
    ensures Glue([[]], b) == b
  {
    assert [] + b[0] == b[0];
  }

  lemma {:induction false} SplitPieces(s: Bytes)
    ensures forall i :: 0 <= i < |Split(s)| ==> NEWLINE !in Split(s)[i]
  {
    if s != [] {
      SplitPieces(s[1..]);
    }
  }

  lemma {:induction false} SplitOneLine(s: Bytes)
    requires NEWLINE !in s
    ensures Split(s) == [s]
  {
    if s != [] {
      SplitOneLine(s[1..]);
      assert [s[0]] + s[1..] == s;
    }
  }

  lemma GlueRest(a: seq<Bytes>, b: seq<Bytes>)
    requires a != [] && b != []
    ensures Glue(a, b) == Glue(a, [b[0]]) + b[1..]
  {
  }

  /** Reading one more chunk before what is buffered changes nothing about the lines to come. */
  lemma ChunkSeam(before: Bytes, chunk: Bytes)
    ensures NEWLINE !in Split(chunk)[0]
    ensures NewestFirst(before + chunk) == NewestOf(Split(chunk)[1..]) + NewestFirst(before + Split(chunk)[0])
  {
    var first, rest := Split(chunk)[0], Split(chunk)[1..];
    SplitPieces(chunk);
    SplitOneLine(first);
    SplitConcat(before, chunk);
    SplitConcat(before, first);
    GlueRest(Split(before), Split(chunk));
    NewestOfConcat(Glue(Split(before), [first]), rest);
  }

  lemma ChunkRead(file: Bytes, from: nat, till: nat, buffer: Bytes)
    requires from <= till <= |file|
    ensures var parts := Split(file[from..till] + buffer);
      && NEWLINE !in parts[0]
      && NewestFirst(file[..till] + buffer) == NewestOf(parts[1..]) + NewestFirst(file[..from] + parts[0])
  {
    assert file[..till] + buffer == file[..from] + (file[from..till] + buffer);
    ChunkSeam(file[..from], file[from..till] + buffer);
  }

  /** The lines among the parts 1 to index, newest first. */
  ghost function Pending(parts: seq<Bytes>, index: nat): seq<Bytes>
    requires index > 0 ==> index < |parts|
  {
    if index == 0 then [] else NewestOf(parts[1..index + 1])
  }

  lemma AllPending(parts: seq<Bytes>)
    requires parts != []
    ensures Pending(parts, |parts| - 1) == NewestOf(parts[1..])
  {
    assert parts[1..|parts| - 1 + 1] == parts[1..];
  }

  lemma OneLessPending(parts: seq<Bytes>, index: nat)
    requires 1 <= index < |parts|
    ensures Pending(parts, index) == (if IsBlank(parts[index]) then [] else [parts[index]]) + Pending(parts, index - 1)
  {
    var pending := parts[1..index + 1];
    assert pending[..|pending| - 1] == parts[1..index];
  }

  lemma RegroupLines(a: seq<Bytes>, b: seq<Bytes>, c: seq<Bytes>)
    ensures (a + b) + c == a + (b + c)
  {
  }

  // ---------- The backward reader ----------

  /** Yields the lines of a file newest first, reading it backwards chunk by chunk. */
  class BackwardReader {
    const file: Bytes
    const chunkSize: nat
    var filePos: nat
    var lineBuffer: Bytes
    var splitParts: seq<Bytes>
    var partIndex: nat
    var isDrained: bool

    ghost predicate Valid()
      reads this
    {
      && chunkSize > 0 && filePos <= |file| && NEWLINE !in lineBuffer
      && (partIndex > 0 ==> partIndex < |splitParts|)
      && (isDrained ==> filePos == 0 && partIndex == 0)
    }

    /** The lines not yielded yet: the pending parts of this chunk, then the unread prefix with the
        buffered start of its last line. */
    ghost function Remaining(): seq<Bytes>
      reads this
      requires Valid()
    {
      Pending(splitParts, partIndex) + if isDrained then [] else NewestFirst(file[..filePos] + lineBuffer)
    }

    constructor (file: Bytes, chunkSize: nat)
      requires chunkSize > 0
      ensures Valid() && Remaining() == NewestFirst(file)
    {
      this.file, this.chunkSize := file, chunkSize;
      filePos, lineBuffer, splitParts, partIndex, isDrained := |file|, [], [], 0, false;
      new;
      assert file[..|file|] + [] == file;
    }

    method ReadChunk()
      requires Valid() && filePos > 0 && partIndex == 0 && !isDrained
      modifies this
      ensures Valid() && !isDrained && filePos < old(filePos)
      ensures Remaining() == old(Remaining())
    {
      var stepBytes := if chunkSize < filePos then chunkSize else filePos;
      var from := filePos - stepBytes;
      ChunkRead(file, from, filePos, lineBuffer);
      splitParts := Split(file[from..filePos] + lineBuffer);
      filePos, lineBuffer, partIndex := from, splitParts[0], |splitParts| - 1;
      AllPending(splitParts);
    }

    method TakePart() returns (line: Option<Bytes>)
      requires Valid() && partIndex >= 1
      modifies this`partIndex
      ensures Valid() && partIndex == old(partIndex) - 1
      ensures old(Remaining()) == (if line.Some? then [line.value] else []) + Remaining()
    {
      var candidateLine := splitParts[partIndex];
      ghost var unread := if isDrained then [] else NewestFirst(file[..filePos] + lineBuffer);
      var hasText := HasText(candidateLine);
      line := if hasText then Some(candidateLine) else None;
      OneLessPending(splitParts, partIndex);
      RegroupLines(if hasText then [candidateLine] else [], Pending(splitParts, partIndex - 1), unread);
      partIndex := partIndex - 1;
    }

    method TakeRest() returns (line: Option<Bytes>)
      requires Valid() && partIndex == 0 && filePos == 0 && !isDrained
      modifies this`isDrained
      ensures Valid() && isDrained
      ensures old(Remaining()) == (if line.Some? then [line.value] else []) + Remaining()
    {
      assert file[..0] + lineBuffer == lineBuffer;
      SplitOneLine(lineBuffer);
      assert NewestOf([lineBuffer][..0]) == [];
      isDrained := true;
      var hasText := HasText(lineBuffer);
      line := if hasText then Some(lineBuffer) else None;
    }

    /** The next line, or none when the file is exhausted. */
    method Next() returns (line: Option<Bytes>)
      requires Valid()
      modifies this
      ensures Valid()
      ensures line.Some? ==> old(Remaining()) == [line.value] + Remaining()
      ensures line.None? ==> old(Remaining()) == [] == Remaining()
    {
      line := None;
      while line.None? && !(partIndex == 0 && isDrained)
        invariant Valid()
        invariant old(Remaining()) == (if line.Some? then [line.value] else []) + Remaining()
        decreases filePos, partIndex, !isDrained
      {
        if partIndex >= 1 {
          line := TakePart();
        } else if filePos > 0 {
          ReadChunk();
        } else {
          line := TakeRest();
        }
      }
    }
  }
}
