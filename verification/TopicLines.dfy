/** Topic configurations kept as single lines of a text file among other lines: a key-value map in
    which every key may, by accident, have several lines. */
module TopicLines {
  import opened Text

  const PREFIX := "- digest_topic_config_json:"

  /** A configuration; everything but its key is opaque. */
  datatype Payload = Payload(topicKey: string, body: string)

  /** JSON writing, and reading with the checks for an object of the right kind. */
  datatype Codec = Codec(encode: Payload -> string, decode: string -> Option<Payload>)

  predicate Trimmed(s: string) { s != [] && !IsSpace(s[0]) && !IsSpace(s[|s| - 1]) }

  /** What is assumed of JSON: reading gives back what was written, and an object has no outer blanks. */
  ghost predicate Faithful(codec: Codec) {
    forall p :: codec.decode(codec.encode(p)) == Some(p) && Trimmed(codec.encode(p))
  }

  // ---------- Lines ----------

  /** The configuration a line holds, if any. */
  function ConfigOf(codec: Codec, line: string): Option<Payload> {
    var stripped := Strip(line);
    if PREFIX <= stripped then codec.decode(Strip(stripped[|PREFIX|..])) else None
  }

  function Render(codec: Codec, p: Payload): string {
    PREFIX + " " + codec.encode(p)
  }

  predicate IsFor(codec: Codec, line: string, topicKey: string) {
    var config := ConfigOf(codec, line);
    config.Some? && Key(config.value.topicKey) == Key(topicKey)
  }

  lemma TrimmedIsStripped(s: string)
    requires Trimmed(s)
    ensures Strip(s) == s && Strip(" " + s) == s
  {
    assert (" " + s)[1..] == s;
  }

  lemma RenderedLine(codec: Codec, p: Payload)
    requires Faithful(codec)
    ensures ConfigOf(codec, Render(codec, p)) == Some(p)
  {
    var line := Render(codec, p);
    assert Trimmed(codec.encode(p));
    assert Trimmed(line);
    TrimmedIsStripped(line);
    TrimmedIsStripped(codec.encode(p));
    assert line[|PREFIX|..] == " " + codec.encode(p);
  }

  // ---------- The map behind the lines ----------

  /** The first line for a key counts. */
  function LoadIn(codec: Codec, lines: seq<string>, topicKey: string): Option<Payload> {
    if lines == [] then None
    else
      var before := LoadIn(codec, lines[..|lines| - 1], topicKey);
      var last := lines[|lines| - 1];
      if before.Some? then before
      else if IsFor(codec, last, topicKey) then ConfigOf(codec, last)
      else None
  }

  function Replaced(codec: Codec, lines: seq<string>, p: Payload): seq<string> {
    if lines == [] then []
    else
      var last := lines[|lines| - 1];
      Replaced(codec, lines[..|lines| - 1], p) + [if IsFor(codec, last, p.topicKey) then Render(codec, p) else last]
  }

  predicate HasLine(codec: Codec, lines: seq<string>, topicKey: string) {
    exists i :: 0 <= i < |lines| && IsFor(codec, lines[i], topicKey)
  }

  function Upserted(codec: Codec, lines: seq<string>, p: Payload): seq<string> {
    Replaced(codec, lines, p) + if HasLine(codec, lines, p.topicKey) then [] else [Render(codec, p)]
  }

  /** The lines that say nothing about this key, in order. */
  function Others(codec: Codec, lines: seq<string>, topicKey: string): seq<string> {
    if lines == [] then []
    else
      var last := lines[|lines| - 1];
      Others(codec, lines[..|lines| - 1], topicKey) + if IsFor(codec, last, topicKey) then [] else [last]
  }

  lemma LoadSnoc(codec: Codec, lines: seq<string>, line: string, topicKey: string)
    ensures LoadIn(codec, lines + [line], topicKey) ==
      if LoadIn(codec, lines, topicKey).Some? then LoadIn(codec, lines, topicKey)
      else if IsFor(codec, line, topicKey) then ConfigOf(codec, line) else None
    ensures Others(codec, lines + [line], topicKey) ==
      Others(codec, lines, topicKey) + if IsFor(codec, line, topicKey) then [] else [line]
  {
    assert (lines + [line])[..|lines|] == lines;
  }

  lemma {:induction false} LoadFindsLine(codec: Codec, lines: seq<string>, topicKey: string)
    ensures LoadIn(codec, lines, topicKey).Some? <==> HasLine(codec, lines, topicKey)
  {
    if lines != [] {
      var n := |lines| - 1;
      LoadFindsLine(codec, lines[..n], topicKey);
      HasLineSnoc(codec, lines, n, topicKey);
      assert lines[..n + 1] == lines;
    }
  }

  lemma {:induction false} ReplacedFacts(codec: Codec, lines: seq<string>, p: Payload, topicKey: string)
    requires Faithful(codec)
    ensures var same := Key(topicKey) == Key(p.topicKey);
      && LoadIn(codec, Replaced(codec, lines, p), topicKey) ==
         (if !same then LoadIn(codec, lines, topicKey) else if LoadIn(codec, lines, topicKey).Some? then Some(p) else None)
      && Others(codec, Replaced(codec, lines, p), p.topicKey) == Others(codec, lines, p.topicKey)
  {
    if lines != [] {
      var n := |lines| - 1;
      var before, last := Replaced(codec, lines[..n], p), lines[n];
      var line := if IsFor(codec, last, p.topicKey) then Render(codec, p) else last;
      ReplacedFacts(codec, lines[..n], p, topicKey);
      RenderedLine(codec, p);
      LoadSnoc(codec, before, line, topicKey);
      LoadSnoc(codec, before, line, p.topicKey);
    }
  }

  /** After saving a configuration its key loads it, every other key loads what it did before, and
      all other lines are kept in order, however many lines the key had. */
  lemma UpsertIsMapUpdate(codec: Codec, lines: seq<string>, p: Payload, topicKey: string)
    requires Faithful(codec)
    ensures LoadIn(codec, Upserted(codec, lines, p), topicKey) ==
      if Key(topicKey) == Key(p.topicKey) then Some(p) else LoadIn(codec, lines, topicKey)
    ensures Others(codec, Upserted(codec, lines, p), p.topicKey) == Others(codec, lines, p.topicKey)
  {
    ReplacedFacts(codec, lines, p, topicKey);
    ReplacedFacts(codec, lines, p, p.topicKey);
    LoadFindsLine(codec, lines, p.topicKey);
    RenderedLine(codec, p);
    if HasLine(codec, lines, p.topicKey) {
      assert Upserted(codec, lines, p) == Replaced(codec, lines, p);
      SameKeySameLines(codec, lines, p.topicKey, topicKey);
    } else {
      LoadSnoc(codec, Replaced(codec, lines, p), Render(codec, p), topicKey);
      LoadSnoc(codec, Replaced(codec, lines, p), Render(codec, p), p.topicKey);
      SameKeySameLines(codec, lines, p.topicKey, topicKey);
    }
  }

  lemma {:induction false} SameKeySameLines(codec: Codec, lines: seq<string>, a: string, b: string)
    ensures Key(a) == Key(b) ==> LoadIn(codec, lines, a) == LoadIn(codec, lines, b)
  {
    if lines != [] {
      SameKeySameLines(codec, lines[..|lines| - 1], a, b);
    }
  }

  /** After a deletion the key loads nothing and every other key loads what it did before. */
  lemma {:induction false} DeleteIsMapRemoval(codec: Codec, lines: seq<string>, topicKey: string, other: string)
    ensures LoadIn(codec, Others(codec, lines, topicKey), other) ==
      if Key(other) == Key(topicKey) then None else LoadIn(codec, lines, other)
    ensures Others(codec, Others(codec, lines, topicKey), topicKey) == Others(codec, lines, topicKey)
  {
    if lines != [] {
      var n := |lines| - 1;
      DeleteIsMapRemoval(codec, lines[..n], topicKey, other);
      if IsFor(codec, lines[n], topicKey) {
        assert Others(codec, lines, topicKey) == Others(codec, lines[..n], topicKey);
      } else {
        LoadSnoc(codec, Others(codec, lines[..n], topicKey), lines[n], other);
        LoadSnoc(codec, Others(codec, lines[..n], topicKey), lines[n], topicKey);
      }
    }
  }

  // ---------- The file ----------

  /** The characters at which the file is cut into lines when it is read. */
  predicate IsBreak(c: char) {
    c == '\n' || c == '\r' || c == '\U{0B}' || c == '\U{0C}' || '\U{1C}' <= c <= '\U{1E}' ||
    c == '\U{85}' || c == '\U{2028}' || c == '\U{2029}'
  }

  /** The whitespace that does not break a line. */
  predicate IsPlainSpace(c: char) {
    c in {' ', '\t', '\U{1F}', '\U{A0}', '\U{1680}', '\U{202F}', '\U{205F}', '\U{3000}'} || '\U{2000}' <= c <= '\U{200A}'
  }

  /** Line breaks and plain spaces are together what trimming removes. */
  lemma BreaksAndSpaces(c: char)
    ensures IsSpace(c) <==> IsBreak(c) || IsPlainSpace(c)
    ensures !(IsBreak(c) && IsPlainSpace(c))
  {
  }

  predicate OneLine(line: string) {
    forall i :: 0 <= i < |line| ==> !IsBreak(line[i])
  }

  function SplitLines(text: string): (lines: seq<string>)
    ensures |lines| >= 1 && forall i :: 0 <= i < |lines| ==> OneLine(lines[i])
  {
    if text == [] then [[]]
    else
      var rest := SplitLines(text[1..]);
      if IsBreak(text[0]) then [[]] + rest else [[text[0]] + rest[0]] + rest[1..]
  }

  function NonBlank(lines: seq<string>): seq<string> {
    if lines == [] then []
    else (if Strip(lines[0]) == [] then [] else [lines[0]]) + NonBlank(lines[1..])
  }

  function ReadLines(text: string): seq<string> { NonBlank(SplitLines(text)) }

  function WriteLines(lines: seq<string>): string {
    if lines == [] then []
    else if |lines| == 1 then lines[0]
    else lines[0] + "\n" + WriteLines(lines[1..])
  }

  lemma {:induction false} SplitLine(line: string, rest: string)
    requires OneLine(line)
    ensures SplitLines(line) == [line] && SplitLines(line + "\n" + rest) == [line] + SplitLines(rest)
  {
    if line == [] {
      assert line + "\n" + rest == "\n" + rest;
      assert ("\n" + rest)[1..] == rest;
    } else {
      SplitLine(line[1..], rest);
      assert (line + "\n" + rest)[1..] == line[1..] + "\n" + rest;
      assert [line[0]] + line[1..] == line;
    }
  }

  predicate Storable(lines: seq<string>) {
    forall i :: 0 <= i < |lines| ==> OneLine(lines[i]) && Strip(lines[i]) != []
  }

  lemma {:induction false} WrittenLinesAreRead(lines: seq<string>)
    requires Storable(lines)
    ensures ReadLines(WriteLines(lines)) == lines
  {
    if lines == [] {
      assert NonBlank([[]][1..]) == [];
    } else if |lines| == 1 {
      SplitLine(lines[0], []);
      assert NonBlank([lines[0]][1..]) == [];
    } else {
      WrittenLinesAreRead(lines[1..]);
      SplitLine(lines[0], WriteLines(lines[1..]));
      assert ([lines[0]] + SplitLines(WriteLines(lines[1..])))[1..] == SplitLines(WriteLines(lines[1..]));
    }
  }

  lemma {:induction false} NonBlankIsStorable(lines: seq<string>)
    requires forall i :: 0 <= i < |lines| ==> OneLine(lines[i])
    ensures Storable(NonBlank(lines))
  {
    if lines != [] {
      NonBlankIsStorable(lines[1..]);
    }
  }

  /** Lines survive the file exactly when none is blank and none holds a line-break character; JSON
      text escapes most of those, but not U+0085, U+2028 and U+2029. */
  lemma FileKeepsLinesIff(lines: seq<string>)
    ensures ReadLines(WriteLines(lines)) == lines <==> Storable(lines)
  {
    NonBlankIsStorable(SplitLines(WriteLines(lines)));
    if Storable(lines) {
      WrittenLinesAreRead(lines);
    }
  }

  // ---------- The tool ----------

  class TopicMemory {
    const codec: Codec
    var text: string

    constructor (codec: Codec)
      ensures this.codec == codec && text == []
    {
      this.codec, text := codec, [];
    }

    function Lines(): seq<string>
      reads this
    {
      ReadLines(text)
    }

    method LoadTopicConfig(topicKey: string) returns (found: Option<Payload>)
      ensures found == LoadIn(codec, Lines(), topicKey)
    {
      var lines := Lines();
      found := None;
      for n := 0 to |lines|
        invariant LoadIn(codec, lines[..n], topicKey) == None
      {
        TakeOneMore(lines, n);
        LoadSnoc(codec, lines[..n], lines[n], topicKey);
        if IsFor(codec, lines[n], topicKey) {
          found := ConfigOf(codec, lines[n]);
          LoadPrefix(codec, lines, n + 1, topicKey);
          return;
        }
      }
      assert lines[..|lines|] == lines;
    }

    /** Saves a configuration: the file then holds it for its key and is otherwise as before. */
    method UpsertTopicConfigLine(p: Payload)
      requires Faithful(codec)
      modifies this
      ensures text == WriteLines(Upserted(codec, old(Lines()), p))
      ensures OneLine(Render(codec, p)) ==> IsUpdate(codec, old(Lines()), Lines(), p)
      ensures PrefixFree(codec) ==> (IsUpdate(codec, old(Lines()), Lines(), p) <==> OneLine(Render(codec, p)))
    {
      ghost var text0 := text;
      var lines := Lines();
      var replaced := ReplaceLines(codec, lines, p);
      text := WriteLines(replaced);
      UpsertSurvivesFile(codec, lines, p);
      UpsertIsUpdate(codec, lines, p);
      if PrefixFree(codec) && !OneLine(Render(codec, p)) {
        LinesAreStorable(text0);
        BrokenLineIsNoUpdate(codec, lines, p);
      }
    }

    /** Deletes every line of a key and reports whether there was one. */
    method DeleteTopicConfigLines(topicKey: string) returns (wasThere: bool)
      modifies this
      ensures wasThere == old(LoadIn(codec, Lines(), topicKey)).Some?
      ensures IsRemoval(codec, old(Lines()), Lines(), topicKey)
    {
      var lines := Lines();
      var filtered, removedCount := DropLines(codec, lines, topicKey);
      text := WriteLines(filtered);
      wasThere := removedCount > 0;
      LoadFindsLine(codec, lines, topicKey);
      DeleteSurvivesFile(codec, text, lines, topicKey);
      forall key ensures LoadAfterRemoval(codec, lines, filtered, topicKey, key) {
        DeleteIsMapRemoval(codec, lines, topicKey, key);
      }
    }
  }

  /** The loop of a deletion: the other lines are kept, those of the key counted. */
  method DropLines(codec: Codec, lines: seq<string>, topicKey: string) returns (filtered: seq<string>, removedCount: nat)
    ensures filtered == Others(codec, lines, topicKey)
    ensures removedCount > 0 <==> HasLine(codec, lines, topicKey)
  {
    filtered, removedCount := [], 0;
    for n := 0 to |lines|
      invariant filtered == Others(codec, lines[..n], topicKey)
      invariant removedCount > 0 <==> HasLine(codec, lines[..n], topicKey)
    {
      assert lines[..n + 1][..n] == lines[..n];
      HasLineSnoc(codec, lines, n, topicKey);
      if IsFor(codec, lines[n], topicKey) {
        removedCount := removedCount + 1;
      } else {
        filtered := filtered + [lines[n]];
      }
    }
    assert lines[..|lines|] == lines;
  }

  /** The loop of an update: every line of the key is rewritten, or one is appended. */
  method ReplaceLines(codec: Codec, lines: seq<string>, p: Payload) returns (replaced: seq<string>)
    ensures replaced == Upserted(codec, lines, p)
  {
    replaced := [];
    var didReplace := false;
    for n := 0 to |lines|
      invariant replaced == Replaced(codec, lines[..n], p)
      invariant didReplace == HasLine(codec, lines[..n], p.topicKey)
    {
      assert lines[..n + 1][..n] == lines[..n];
      HasLineSnoc(codec, lines, n, p.topicKey);
      if IsFor(codec, lines[n], p.topicKey) {
        replaced := replaced + [Render(codec, p)];
        didReplace := true;
      } else {
        replaced := replaced + [lines[n]];
      }
    }
    assert lines[..|lines|] == lines;
    if !didReplace {
      replaced := replaced + [Render(codec, p)];
    }
  }

  ghost predicate LoadAfterUpdate(codec: Codec, before: seq<string>, after: seq<string>, p: Payload, key: string) {
    LoadIn(codec, after, key) == if Key(key) == Key(p.topicKey) then Some(p) else LoadIn(codec, before, key)
  }

  /** A map update at the payload's key, all other lines kept in order. */
  ghost predicate IsUpdate(codec: Codec, before: seq<string>, after: seq<string>, p: Payload) {
    && (forall key :: LoadAfterUpdate(codec, before, after, p, key))
    && Others(codec, after, p.topicKey) == Others(codec, before, p.topicKey)
  }

  lemma UpsertIsUpdate(codec: Codec, lines: seq<string>, p: Payload)
    requires Faithful(codec)
    ensures IsUpdate(codec, lines, Upserted(codec, lines, p), p)
  {
    forall key ensures LoadAfterUpdate(codec, lines, Upserted(codec, lines, p), p, key) {
      UpsertIsMapUpdate(codec, lines, p, key);
    }
    UpsertIsMapUpdate(codec, lines, p, p.topicKey);
  }

  ghost predicate LoadAfterRemoval(codec: Codec, before: seq<string>, after: seq<string>, topicKey: string, key: string) {
    LoadIn(codec, after, key) == if Key(key) == Key(topicKey) then None else LoadIn(codec, before, key)
  }

  /** A map removal at this key, all other lines kept in order. */
  ghost predicate IsRemoval(codec: Codec, before: seq<string>, after: seq<string>, topicKey: string) {
    && (forall key :: LoadAfterRemoval(codec, before, after, topicKey, key))
    && after == Others(codec, before, topicKey)
  }

  lemma HasLineSnoc(codec: Codec, lines: seq<string>, n: nat, topicKey: string)
    requires n < |lines|
    ensures HasLine(codec, lines[..n + 1], topicKey) <==>
      HasLine(codec, lines[..n], topicKey) || IsFor(codec, lines[n], topicKey)
  {
    assert forall i :: 0 <= i < n ==> lines[..n + 1][i] == lines[..n][i];
  }

  lemma {:induction false} LoadPrefix(codec: Codec, lines: seq<string>, n: nat, topicKey: string)
    requires n <= |lines| && LoadIn(codec, lines[..n], topicKey).Some?
    ensures LoadIn(codec, lines, topicKey) == LoadIn(codec, lines[..n], topicKey)
  {
    if n < |lines| {
      var before := lines[..|lines| - 1];
      assert before[..n] == lines[..n];
      LoadPrefix(codec, before, n, topicKey);
    } else {
      assert lines[..n] == lines;
    }
  }

  lemma {:induction false} ReplacedIsStorable(codec: Codec, lines: seq<string>, p: Payload)
    requires Storable(lines) && Storable([Render(codec, p)])
    ensures Storable(Replaced(codec, lines, p))
  {
    if lines != [] {
      ReplacedIsStorable(codec, lines[..|lines| - 1], p);
      assert Storable([Render(codec, p)]) && [Render(codec, p)][0] == Render(codec, p);
    }
  }

  lemma UpsertSurvivesFile(codec: Codec, lines: seq<string>, p: Payload)
    requires Faithful(codec) && exists text :: lines == ReadLines(text)
    ensures OneLine(Render(codec, p)) ==>
      ReadLines(WriteLines(Upserted(codec, lines, p))) == Upserted(codec, lines, p)
  {
    if OneLine(Render(codec, p)) {
      var text :| lines == ReadLines(text);
      NonBlankIsStorable(SplitLines(text));
      assert Trimmed(codec.encode(p));
      TrimmedIsStripped(Render(codec, p));
      ReplacedIsStorable(codec, lines, p);
      WrittenLinesAreRead(Upserted(codec, lines, p));
    }
  }

  lemma {:induction false} OthersIsStorable(codec: Codec, lines: seq<string>, topicKey: string)
    requires Storable(lines)
    ensures Storable(Others(codec, lines, topicKey))
  {
    if lines != [] {
      OthersIsStorable(codec, lines[..|lines| - 1], topicKey);
    }
  }

  lemma DeleteSurvivesFile(codec: Codec, text: string, lines: seq<string>, topicKey: string)
    requires (exists before :: lines == ReadLines(before)) && text == WriteLines(Others(codec, lines, topicKey))
    ensures ReadLines(text) == Others(codec, lines, topicKey)
  {
    var before :| lines == ReadLines(before);
    NonBlankIsStorable(SplitLines(before));
    OthersIsStorable(codec, lines, topicKey);
    WrittenLinesAreRead(Others(codec, lines, topicKey));
  }

  // ---------- Configurations that hold a line break ----------

  /** What is also true of JSON objects: no proper beginning of one can be read. */
  ghost predicate PrefixFree(codec: Codec) {
    forall p, n :: 0 <= n < |codec.encode(p)| ==> codec.decode(codec.encode(p)[..n]) == None
  }

  lemma LinesAreStorable(text: string)
    ensures Storable(ReadLines(text))
  {
    NonBlankIsStorable(SplitLines(text));
  }

  lemma {:induction false} SplitLinesConcat(a: string, b: string)
    ensures SplitLines(a + "\n" + b) == SplitLines(a) + SplitLines(b)
  {
    if a == [] {
      assert a + "\n" + b == "\n" + b;
      SplitLinesPush('\n', b);
    } else {
      var c, rest := a[0], a[1..] + "\n" + b;
      SplitLinesConcat(a[1..], b);
      assert a == [c] + a[1..] && a + "\n" + b == [c] + rest;
      SplitLinesPush(c, a[1..]);
      SplitLinesPush(c, rest);
      PushConcat(c, SplitLines(a[1..]), SplitLines(b));
    }
  }

  function Push(c: char, lines: seq<string>): seq<string>
    requires lines != []
  {
    if IsBreak(c) then [[]] + lines else [[c] + lines[0]] + lines[1..]
  }

  lemma SplitLinesPush(c: char, rest: string)
    ensures SplitLines([c] + rest) == Push(c, SplitLines(rest))
  {
    assert ([c] + rest)[1..] == rest;
  }

  lemma PushConcat(c: char, a: seq<string>, b: seq<string>)
    requires a != []
    ensures Push(c, a + b) == Push(c, a) + b
  {
  }

  lemma {:induction false} NonBlankConcat(a: seq<string>, b: seq<string>)
    ensures NonBlank(a + b) == NonBlank(a) + NonBlank(b)
  {
    if a == [] {
      assert a + b == b;
    } else {
      assert (a + b)[1..] == a[1..] + b;
      NonBlankConcat(a[1..], b);
    }
  }

  /** What becomes of each line in the file. */
  function Reread(lines: seq<string>): seq<string> {
    if lines == [] then [] else ReadLines(lines[0]) + Reread(lines[1..])
  }

  lemma {:induction false} WrittenIsReread(lines: seq<string>)
    ensures ReadLines(WriteLines(lines)) == Reread(lines)
  {
    if lines == [] {
      assert NonBlank([[]][1..]) == [];
    } else if |lines| == 1 {
      assert lines[1..] == [];
    } else {
      WrittenIsReread(lines[1..]);
      SplitLinesConcat(lines[0], WriteLines(lines[1..]));
      NonBlankConcat(SplitLines(lines[0]), SplitLines(WriteLines(lines[1..])));
    }
  }

  lemma {:induction false} OthersConcat(codec: Codec, a: seq<string>, b: seq<string>, topicKey: string)
    ensures Others(codec, a + b, topicKey) == Others(codec, a, topicKey) + Others(codec, b, topicKey)
  {
    if b == [] {
      assert a + b == a;
    } else {
      InitOfConcat(a, b);
      OthersConcat(codec, a, b[..|b| - 1], topicKey);
    }
  }

  lemma OthersOfOne(codec: Codec, line: string, topicKey: string)
    ensures Others(codec, [line], topicKey) == if IsFor(codec, line, topicKey) then [] else [line]
  {
    assert [line][..0] == [];
  }

  /** Up to its first line break. */
  lemma {:induction false} FirstLine(text: string) returns (n: nat)
    ensures n <= |text| && SplitLines(text)[0] == text[..n] && OneLine(text[..n])
    ensures n < |text| ==> IsBreak(text[n])
  {
    if text == [] || IsBreak(text[0]) {
      n := 0;
    } else {
      var m := FirstLine(text[1..]);
      n := m + 1;
      assert text[..n] == [text[0]] + text[1..][..m];
    }
  }

  lemma {:induction false} TrimRightKeepsStart(a: string, b: string)
    requires b != [] && !IsSpace(b[0])
    ensures TrimRight(a + b) == a + TrimRight(b) && TrimRight(b) != []
  {
    var n := |b| - 1;
    if IsSpace(b[n]) {
      assert (a + b)[..|a + b| - 1] == a + b[..n];
      TrimRightKeepsStart(a, b[..n]);
    }
  }

  lemma PrefixHasNoBreak()
    ensures forall i :: 0 <= i < |PREFIX + " "| ==> !IsBreak((PREFIX + " ")[i])
  {
  }

  /** The first line of a broken configuration line. */
  lemma BrokenStart(codec: Codec, p: Payload) returns (m: nat)
    requires Faithful(codec) && !OneLine(Render(codec, p))
    ensures 1 <= m < |codec.encode(p)|
    ensures SplitLines(Render(codec, p))[0] == (PREFIX + " ") + codec.encode(p)[..m]
  {
    var e, line := codec.encode(p), Render(codec, p);
    assert Trimmed(e);
    var n := FirstLine(line);
    assert n < |line|;
    PrefixHasNoBreak();
    assert forall i :: 0 <= i < |PREFIX + " "| ==> line[i] == (PREFIX + " ")[i];
    assert line[|PREFIX| + 1] == e[0] && !IsBreak(e[0]);
    m := n - |PREFIX| - 1;
    assert line[..n] == (PREFIX + " ") + e[..m];
  }

  /** It holds no configuration. */
  lemma BrokenStartIsOther(codec: Codec, p: Payload, m: nat)
    requires Faithful(codec) && PrefixFree(codec) && 1 <= m < |codec.encode(p)|
    ensures var line := (PREFIX + " ") + codec.encode(p)[..m]; Strip(line) != [] && ConfigOf(codec, line) == None
  {
    var e, line := codec.encode(p), (PREFIX + " ") + codec.encode(p)[..m];
    assert Trimmed(e);
    var start := e[..m];
    TrimRightKeepsStart(PREFIX + " ", start);
    TrimRightFacts(start);
    var kept := TrimRight(start);
    assert kept == e[..|kept|];
    assert line[0] == '-' && Strip(line) == (PREFIX + " ") + kept;
    assert ((PREFIX + " ") + kept)[|PREFIX|..] == " " + kept;
    TrimmedIsStripped(kept);
  }

  /** A line read back yields as many other lines as before, and a broken configuration line yields one. */
  lemma LineReread(codec: Codec, line: string, p: Payload)
    requires Faithful(codec) && PrefixFree(codec) && !OneLine(Render(codec, p))
    requires line == Render(codec, p) || (OneLine(line) && Strip(line) != [])
    ensures |Others(codec, ReadLines(line), p.topicKey)| >=
      |Others(codec, [line], p.topicKey)| + if line == Render(codec, p) then 1 else 0
  {
    OthersOfOne(codec, line, p.topicKey);
    if line == Render(codec, p) {
      RenderedLine(codec, p);
      var m := BrokenStart(codec, p);
      BrokenStartIsOther(codec, p, m);
      var lines := ReadLines(line);
      assert lines == [lines[0]] + lines[1..];
      OthersConcat(codec, [lines[0]], lines[1..], p.topicKey);
      OthersOfOne(codec, lines[0], p.topicKey);
    } else {
      WrittenLinesAreRead([line]);
    }
  }

  lemma {:induction false} BrokenLinesAreMore(codec: Codec, lines: seq<string>, p: Payload)
    requires Faithful(codec) && PrefixFree(codec) && !OneLine(Render(codec, p))
    requires forall i :: 0 <= i < |lines| ==> lines[i] == Render(codec, p) || (OneLine(lines[i]) && Strip(lines[i]) != [])
    ensures |Others(codec, Reread(lines), p.topicKey)| >=
      |Others(codec, lines, p.topicKey)| + if Render(codec, p) in lines then 1 else 0
  {
    if lines != [] {
      var first, rest := lines[0], lines[1..];
      BrokenLinesAreMore(codec, rest, p);
      LineReread(codec, first, p);
      assert lines == [first] + rest;
      OthersConcat(codec, [first], rest, p.topicKey);
      OthersConcat(codec, ReadLines(first), Reread(rest), p.topicKey);
    }
  }

  lemma {:induction false} ReplacedLength(codec: Codec, lines: seq<string>, p: Payload)
    ensures |Replaced(codec, lines, p)| == |lines|
  {
    if lines != [] {
      ReplacedLength(codec, lines[..|lines| - 1], p);
    }
  }

  lemma {:induction false} ReplacedAt(codec: Codec, lines: seq<string>, p: Payload, i: nat)
    requires i < |lines| == |Replaced(codec, lines, p)|
    ensures Replaced(codec, lines, p)[i] == if IsFor(codec, lines[i], p.topicKey) then Render(codec, p) else lines[i]
  {
    var n, before := |lines| - 1, lines[..|lines| - 1];
    ReplacedLength(codec, before, p);
    if i < n {
      ReplacedAt(codec, before, p, i);
      assert before[i] == lines[i];
    }
  }

  lemma UpsertedLines(codec: Codec, lines: seq<string>, p: Payload)
    requires Storable(lines)
    ensures var all := Upserted(codec, lines, p);
      && Render(codec, p) in all
      && forall i :: 0 <= i < |all| ==> all[i] == Render(codec, p) || (OneLine(all[i]) && Strip(all[i]) != [])
  {
    var all := Upserted(codec, lines, p);
    ReplacedLength(codec, lines, p);
    forall i | 0 <= i < |lines| ensures all[i] == if IsFor(codec, lines[i], p.topicKey) then Render(codec, p) else lines[i] {
      ReplacedAt(codec, lines, p, i);
    }
    if HasLine(codec, lines, p.topicKey) {
      var i :| 0 <= i < |lines| && IsFor(codec, lines[i], p.topicKey);
      assert all[i] == Render(codec, p);
    } else {
      assert all[|lines|] == Render(codec, p);
    }
  }

  /** A configuration that holds a line break is not saved: the broken line stays behind as other text. */
  lemma BrokenLineIsNoUpdate(codec: Codec, lines: seq<string>, p: Payload)
    requires Faithful(codec) && PrefixFree(codec) && Storable(lines) && !OneLine(Render(codec, p))
    ensures !IsUpdate(codec, lines, ReadLines(WriteLines(Upserted(codec, lines, p))), p)
    ensures ReadLines(WriteLines(Upserted(codec, lines, p))) != Upserted(codec, lines, p)
  {
    var all := Upserted(codec, lines, p);
    UpsertedLines(codec, lines, p);
    WrittenIsReread(all);
    UpsertIsMapUpdate(codec, lines, p, p.topicKey);
    BrokenLinesAreMore(codec, all, p);
  }

  /** Saving is a map update exactly when the written line holds no line break. */
  lemma UpsertIsUpdateIff(codec: Codec, lines: seq<string>, p: Payload)
    requires Faithful(codec) && PrefixFree(codec) && Storable(lines)
    ensures IsUpdate(codec, lines, ReadLines(WriteLines(Upserted(codec, lines, p))), p) <==> OneLine(Render(codec, p))
  {
    if OneLine(Render(codec, p)) {
      WrittenLinesAreRead(lines);
      UpsertSurvivesFile(codec, lines, p);
      UpsertIsUpdate(codec, lines, p);
    } else {
      BrokenLineIsNoUpdate(codec, lines, p);
    }
  }

  // ---------- A codec, and a configuration that is lost ----------

  /** Like a JSON string: every character is marked, and a quote ends it. */
  function Quoted(s: string): string {
    if s == [] then "\"" else ['.', s[0]] + Quoted(s[1..])
  }

  function Unquoted(s: string): Option<(string, string)> {
    if s == [] then None
    else if s[0] == '"' then Some(([], s[1..]))
    else if s[0] == '.' && |s| >= 2 then
      match Unquoted(s[2..])
      case None => None
      case Some((text, rest)) => Some(([s[1]] + text, rest))
    else None
  }

  function Encode(p: Payload): string {
    "{" + Quoted(p.topicKey) + Quoted(p.body) + "}"
  }

  function Decode(s: string): Option<Payload> {
    if s == [] || s[0] != '{' then None
    else match Unquoted(s[1..])
      case None => None
      case Some((topicKey, rest)) =>
        match Unquoted(rest)
        case None => None
        case Some((body, end)) => if end == "}" then Some(Payload(topicKey, body)) else None
  }

  lemma {:induction false} UnquotedQuoted(s: string, rest: string)
    ensures Unquoted(Quoted(s) + rest) == Some((s, rest))
  {
    if s == [] {
      assert (Quoted(s) + rest)[1..] == rest;
    } else {
      UnquotedQuoted(s[1..], rest);
      assert Quoted(s) + rest == ['.', s[0]] + (Quoted(s[1..]) + rest);
      UnquotedStep(s[0], Quoted(s[1..]) + rest);
      assert [s[0]] + s[1..] == s;
    }
  }

  lemma UnquotedStep(c: char, t: string)
    ensures Unquoted(['.', c] + t) ==
      match Unquoted(t) case None => None case Some((text, rest)) => Some(([c] + text, rest))
  {
    assert (['.', c] + t)[2..] == t;
  }

  lemma {:induction false} UnquotedExtends(s: string, more: string)
    ensures Unquoted(s).Some? ==> Unquoted(s + more) == Some((Unquoted(s).value.0, Unquoted(s).value.1 + more))
  {
    if s != [] {
      assert (s + more)[1..] == s[1..] + more;
      if s[0] == '.' && |s| >= 2 {
        assert (s + more)[2..] == s[2..] + more;
        UnquotedExtends(s[2..], more);
      }
    }
  }

  lemma EncodeDecode(p: Payload)
    ensures Decode(Encode(p)) == Some(p) && Trimmed(Encode(p))
  {
    var rest := Quoted(p.body) + "}";
    assert Encode(p)[1..] == Quoted(p.topicKey) + rest;
    UnquotedQuoted(p.topicKey, rest);
    UnquotedQuoted(p.body, "}");
  }

  lemma RestOfParts(s: string, n: nat)
    requires 0 < n <= |s|
    ensures s[1..] == s[..n][1..] + s[n..]
  {
    assert s == s[..n] + s[n..];
  }

  lemma NoBeginningDecodes(p: Payload, n: nat)
    requires n < |Encode(p)|
    ensures Decode(Encode(p)[..n]) == None
  {
    var e := Encode(p);
    var start, more := e[..n], e[n..];
    EncodeDecode(p);
    if n > 0 {
      RestOfParts(e, n);
      UnquotedExtends(start[1..], more);
      if Unquoted(start[1..]).Some? {
        UnquotedExtends(Unquoted(start[1..]).value.1, more);
      }
    }
  }

  /** With such a codec, a configuration that holds a line separator is never saved, whatever the file holds. */
  lemma SeparatorIsLost() returns (codec: Codec, p: Payload)
    ensures Faithful(codec) && PrefixFree(codec)
    ensures forall lines :: Storable(lines) ==> !IsUpdate(codec, lines, ReadLines(WriteLines(Upserted(codec, lines, p))), p)
  {
    codec, p := Codec(Encode, Decode), Payload("news", "\U{2028}");
    forall q ensures codec.decode(codec.encode(q)) == Some(q) && Trimmed(codec.encode(q)) {
      EncodeDecode(q);
    }
    forall q, n | 0 <= n < |codec.encode(q)| ensures codec.decode(codec.encode(q)[..n]) == None {
      NoBeginningDecodes(q, n);
    }
    SeparatorIsWritten(p);
    forall lines | Storable(lines)
      ensures !IsUpdate(codec, lines, ReadLines(WriteLines(Upserted(codec, lines, p))), p)
    {
      BrokenLineIsNoUpdate(codec, lines, p);
    }
  }

  lemma SeparatorIsWritten(p: Payload)
    requires p.body == "\U{2028}"
    ensures !OneLine(Render(Codec(Encode, Decode), p))
  {
    var line := Render(Codec(Encode, Decode), p);
    var before := PREFIX + " " + "{" + Quoted(p.topicKey);
    assert Quoted(p.body) == ['.', '\U{2028}'] + Quoted([]);
    assert line == before + Quoted(p.body) + "}";
    assert line[|before| + 1] == '\U{2028}';
  }
}
