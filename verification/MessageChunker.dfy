/** Cutting a long message into chunks of bounded length: whole parts are packed greedily, and only a
    part that is itself too long is cut. */
module MessageChunker {
  import opened Text

  // ---------- Splitting and joining text ----------

  /** The pieces of a text between the leftmost, non-overlapping occurrences of a separator. */
  function SplitOn(text: string, sep: string): (parts: seq<string>)
    requires sep != []
    ensures |parts| >= 1
  {
    if |text| < |sep| then [text]
    else if text[..|sep|] == sep then [[]] + SplitOn(text[|sep|..], sep)
    else
      var rest := SplitOn(text[1..], sep);
      [[text[0]] + rest[0]] + rest[1..]
  }

  function Join(parts: seq<string>, sep: string): string {
    if parts == [] then []
    else if |parts| == 1 then parts[0]
    else Join(parts[..|parts| - 1], sep) + sep + parts[|parts| - 1]
  }

  function Concat(parts: seq<string>): string {
    if parts == [] then [] else Concat(parts[..|parts| - 1]) + parts[|parts| - 1]
  }

  lemma {:induction false} JoinFromFront(parts: seq<string>, sep: string)
    requires |parts| >= 2
    ensures Join(parts, sep) == parts[0] + sep + Join(parts[1..], sep)
  {
    var n := |parts| - 1;
    if n > 1 {
      JoinFromFront(parts[..n], sep);
      assert parts[1..][..n - 1] == parts[..n][1..];
      assert parts[1..][n - 1] == parts[n];
    }
  }

  lemma JoinPushChar(parts: seq<string>, sep: string, c: char)
    requires parts != []
    ensures Join([[c] + parts[0]] + parts[1..], sep) == [c] + Join(parts, sep)
  {
    var pushed := [[c] + parts[0]] + parts[1..];
    if |parts| > 1 {
      JoinFromFront(parts, sep);
      JoinFromFront(pushed, sep);
      assert pushed[1..] == parts[1..];
    }
  }

  lemma JoinPushEmpty(parts: seq<string>, sep: string)
    requires parts != []
    ensures Join([[]] + parts, sep) == sep + Join(parts, sep)
  {
    JoinFromFront([[]] + parts, sep);
    assert ([[]] + parts)[1..] == parts;
    assert [] + sep == sep;
  }

  // ---------- What the parts are ----------

  /** The separator begins at this place of the text. */
  predicate BeginsAt(text: string, sep: string, k: int) {
    0 <= k <= |text| - |sep| && text[k..k + |sep|] == sep
  }

  /** The parts join to the text; behind each part but the last stands the first separator that begins in the
      part or behind it, and the last part holds none. */
  ghost predicate IsSplit(parts: seq<string>, sep: string, text: string) {
    && parts != [] && Join(parts, sep) == text
    && (forall i :: 0 <= i < |parts| - 1 ==> EndsAtFirst(parts[i], sep))
    && HoldsNone(parts[|parts| - 1], sep)
  }

  ghost predicate EndsAtFirst(part: string, sep: string) {
    forall k :: 0 <= k < |part| ==> !BeginsAt(part + sep, sep, k)
  }

  ghost predicate HoldsNone(part: string, sep: string) {
    forall k :: !BeginsAt(part, sep, k)
  }

  lemma BeginsInRest(c: char, text: string, sep: string, k: int)
    requires k > 0
    ensures BeginsAt([c] + text, sep, k) <==> BeginsAt(text, sep, k - 1)
  {
    if 0 <= k <= |text| + 1 - |sep| {
      assert ([c] + text)[k..k + |sep|] == text[k - 1..k - 1 + |sep|];
    }
  }

  lemma HoldsNonePush(c: char, part: string, sep: string)
    requires HoldsNone(part, sep) && !BeginsAt([c] + part, sep, 0)
    ensures HoldsNone([c] + part, sep)
  {
    forall k ensures !BeginsAt([c] + part, sep, k) {
      if k > 0 {
        BeginsInRest(c, part, sep, k);
      }
    }
  }

  lemma EndsAtFirstPush(c: char, part: string, sep: string)
    requires EndsAtFirst(part, sep) && !BeginsAt([c] + part + sep, sep, 0)
    ensures EndsAtFirst([c] + part, sep)
  {
    assert [c] + part + sep == [c] + (part + sep);
    forall k | 0 <= k < |[c] + part| ensures !BeginsAt([c] + part + sep, sep, k) {
      if k > 0 {
        BeginsInRest(c, part + sep, sep, k);
      }
    }
  }

  lemma BeginsInStart(start: string, more: string, sep: string, k: int)
    requires k <= |start| - |sep|
    ensures BeginsAt(start + more, sep, k) <==> BeginsAt(start, sep, k)
  {
    if 0 <= k {
      assert (start + more)[k..k + |sep|] == start[k..k + |sep|];
    }
  }

  lemma SplitPush(parts: seq<string>, sep: string, text: string, c: char)
    requires sep != [] && IsSplit(parts, sep, text) && !BeginsAt([c] + text, sep, 0)
    ensures IsSplit([[c] + parts[0]] + parts[1..], sep, [c] + text)
  {
    var pushed := [[c] + parts[0]] + parts[1..];
    JoinPushChar(parts, sep, c);
    if |parts| == 1 {
      HoldsNonePush(c, parts[0], sep);
    } else {
      var first := [c] + parts[0] + sep;
      JoinFromFront(pushed, sep);
      assert [c] + text == first + Join(parts[1..], sep);
      BeginsInStart(first, Join(parts[1..], sep), sep, 0);
      EndsAtFirstPush(c, parts[0], sep);
      assert forall i :: 0 < i < |parts| ==> pushed[i] == parts[i];
    }
  }

  lemma SplitPushEmpty(parts: seq<string>, sep: string, text: string)
    requires sep != [] && IsSplit(parts, sep, text)
    ensures IsSplit([[]] + parts, sep, sep + text)
  {
    JoinPushEmpty(parts, sep);
  }

  /** Splitting cuts the text at its leftmost separators. */
  lemma {:induction false} SplitMeaning(text: string, sep: string)
    requires sep != []
    ensures IsSplit(SplitOn(text, sep), sep, text)
  {
    if |text| < |sep| {
    } else if text[..|sep|] == sep {
      SplitMeaning(text[|sep|..], sep);
      SplitPushEmpty(SplitOn(text[|sep|..], sep), sep, text[|sep|..]);
      assert text == sep + text[|sep|..];
    } else {
      SplitMeaning(text[1..], sep);
      assert text == [text[0]] + text[1..];
      assert text[0..|sep|] == text[..|sep|];
      SplitPush(SplitOn(text[1..], sep), sep, text[1..], text[0]);
    }
  }

  /** The first part ends where the separator first begins in the text. */
  lemma FirstPart(parts: seq<string>, sep: string, text: string)
    requires sep != [] && IsSplit(parts, sep, text) && |parts| > 1
    ensures var n := |parts[0]|;
      && BeginsAt(text, sep, n) && (forall k :: 0 <= k < n ==> !BeginsAt(text, sep, k))
      && parts[0] == text[..n] && IsSplit(parts[1..], sep, text[n + |sep|..])
  {
    var start, rest := parts[0] + sep, Join(parts[1..], sep);
    JoinFromFront(parts, sep);
    assert text == start + rest;
    assert text[|parts[0]| + |sep|..] == rest;
    forall k | 0 <= k <= |parts[0]| ensures BeginsAt(text, sep, k) <==> BeginsAt(start, sep, k) {
      BeginsInStart(start, rest, sep, k);
    }
    assert BeginsAt(start, sep, |parts[0]|);
  }

  /** There is no other way to split the text like this. */
  lemma {:induction false} SplitIsUnique(a: seq<string>, b: seq<string>, sep: string, text: string)
    requires sep != [] && IsSplit(a, sep, text) && IsSplit(b, sep, text)
    ensures a == b
    decreases |a|
  {
    if |a| > 1 {
      FirstPart(a, sep, text);
    }
    if |b| > 1 {
      FirstPart(b, sep, text);
    }
    if |a| > 1 && |b| > 1 {
      assert |a[0]| == |b[0]|;
      SplitIsUnique(a[1..], b[1..], sep, text[|a[0]| + |sep|..]);
      assert a == [a[0]] + a[1..] && b == [b[0]] + b[1..];
    }
  }

  // ---------- What the chunks are made of ----------

  /** A text cut every max characters. */
  function HardSplit(part: string, max: nat): seq<string>
    requires max > 0
  {
    if part == [] then []
    else if |part| <= max then [part]
    else [part[..max]] + HardSplit(part[max..], max)
  }

  /** What is packed: a part that fits, or a cut of one that does not. */
  datatype Piece = Entire(text: string) | Cut(text: string)

  function Cuts(texts: seq<string>): (r: seq<Piece>)
    ensures |r| == |texts| && forall i :: 0 <= i < |texts| ==> r[i] == Cut(texts[i])
  {
    seq(|texts|, i requires 0 <= i < |texts| => Cut(texts[i]))
  }

  function Pieces(parts: seq<string>, max: nat): seq<Piece>
    requires max > 0
  {
    if parts == [] then []
    else
      var part := parts[|parts| - 1];
      Pieces(parts[..|parts| - 1], max) + if |part| <= max then [Entire(part)] else Cuts(HardSplit(part, max))
  }

  /** The pieces joined into one chunk, and how many empty pieces are passed over before it. */
  datatype Group = Group(skipped: nat, pieces: seq<Piece>)

  function Blanks(n: nat): (r: seq<Piece>)
    ensures |r| == n && forall i :: 0 <= i < n ==> r[i] == Entire("")
  {
    seq(n, _ => Entire(""))
  }

  /** The pieces that some groups account for, in order. */
  function Laid(groups: seq<Group>): seq<Piece> {
    if groups == [] then []
    else
      var last := groups[|groups| - 1];
      Laid(groups[..|groups| - 1]) + Blanks(last.skipped) + last.pieces
  }

  function Texts(pieces: seq<Piece>): (r: seq<string>)
    ensures |r| == |pieces| && forall i :: 0 <= i < |pieces| ==> r[i] == pieces[i].text
  {
    seq(|pieces|, i requires 0 <= i < |pieces| => pieces[i].text)
  }

  /** A chunk joins its pieces, starts with text and fits; a cut piece is a chunk of its own. */
  ghost predicate IsChunk(chunk: string, pieces: seq<Piece>, sep: string, max: nat) {
    && pieces != [] && pieces[0].text != [] && chunk == Join(Texts(pieces), sep) && 0 < |chunk| <= max
    && forall i :: 0 <= i < |pieces| && pieces[i].Cut? ==> |pieces| == 1
  }

  ghost predicate Made(chunks: seq<string>, groups: seq<Group>, sep: string, max: nat) {
    |groups| == |chunks| && forall i :: 0 <= i < |chunks| ==> IsChunk(chunks[i], groups[i].pieces, sep, max)
  }

  /** The text of the first of these pieces, the passed-over ones included. */
  function NextText(skipped: nat, pieces: seq<Piece>): string {
    if skipped > 0 || pieces == [] then "" else pieces[0].text
  }

  /** A chunk of whole parts was closed only because the next piece no longer fitted. */
  ghost predicate Closed(chunk: string, group: Group, next: string, sep: string, max: nat) {
    group.pieces != [] && group.pieces[0].Entire? ==> |chunk| + |sep| + |next| > max
  }

  ghost predicate Tight(chunks: seq<string>, groups: seq<Group>, sep: string, max: nat)
    requires |groups| == |chunks|
  {
    forall i, j :: 0 <= i && j == i + 1 < |chunks| ==>
      Closed(chunks[i], groups[i], NextText(groups[j].skipped, groups[j].pieces), sep, max)
  }

  ghost predicate LastClosed(chunks: seq<string>, groups: seq<Group>, next: string, sep: string, max: nat)
    requires |groups| == |chunks|
  {
    chunks != [] ==> Closed(chunks[|chunks| - 1], groups[|groups| - 1], next, sep, max)
  }

  /** The greedy packing of the parts: every piece in its place, nothing passed over but empty parts
      that did not fit into the chunk before, no chunk closed while the next piece fitted. */
  ghost predicate Packing(chunks: seq<string>, groups: seq<Group>, trailing: nat, sep: string, parts: seq<string>, max: nat)
    requires max > 0
  {
    && Made(chunks, groups, sep, max) && Tight(chunks, groups, sep, max)
    && Laid(groups) + Blanks(trailing) == Pieces(parts, max)
    && (trailing > 0 ==> LastClosed(chunks, groups, "", sep, max))
  }

  // ---------- The chunker ----------

  function EffectiveMax(maxChars: int): (max: nat)
    ensures max >= 200 && max >= maxChars && (max == 200 || max == maxChars)
  {
    if maxChars < 200 then 200 else maxChars
  }

  function EffectiveSeparator(preferred: string): (sep: string)
    ensures sep != [] && (sep == preferred || sep == "\n") && (preferred != [] ==> sep == preferred)
  {
    if preferred == [] then "\n" else preferred
  }

  /** The state between parts: finished chunks, and the one being filled after some skipped parts. */
  ghost predicate Packed(chunks: seq<string>, groups: seq<Group>, current: string, open: Group,
                         sep: string, parts: seq<string>, max: nat)
    requires max > 0
  {
    && Made(chunks, groups, sep, max) && Tight(chunks, groups, sep, max)
    && Laid(groups) + Blanks(open.skipped) + open.pieces == Pieces(parts, max)
    && (if current == [] then open.pieces == [] else IsChunk(current, open.pieces, sep, max) && open.pieces[0].Entire?)
    && (open.skipped > 0 || open.pieces != [] ==>
          LastClosed(chunks, groups, NextText(open.skipped, open.pieces), sep, max))
    && (open == NOTHING && chunks != [] ==> groups[|groups| - 1].pieces[0].Cut?)
  }

  const NOTHING := Group(0, [])

  lemma AppendGroup(chunks: seq<string>, groups: seq<Group>, chunk: string, group: Group, sep: string, max: nat)
    requires Made(chunks, groups, sep, max) && Tight(chunks, groups, sep, max)
    requires IsChunk(chunk, group.pieces, sep, max)
    requires LastClosed(chunks, groups, NextText(group.skipped, group.pieces), sep, max)
    ensures Made(chunks + [chunk], groups + [group], sep, max) && Tight(chunks + [chunk], groups + [group], sep, max)
    ensures Laid(groups + [group]) == Laid(groups) + Blanks(group.skipped) + group.pieces
  {
    assert (groups + [group])[..|groups|] == groups;
  }

  lemma OneCut(text: string, sep: string, max: nat)
    requires 0 < |text| <= max
    ensures IsChunk(text, [Cut(text)], sep, max)
  {
    assert Texts([Cut(text)]) == [text];
  }

  /** Some cuts of a part are placed, the rest is still to come, together they are all the pieces. */
  ghost predicate Cutting(chunks: seq<string>, groups: seq<Group>, skip: nat, sep: string, max: nat, rest: string, all: seq<Piece>)
    requires max > 0
  {
    && Made(chunks, groups, sep, max) && Tight(chunks, groups, sep, max)
    && Laid(groups) + Blanks(skip) + Cuts(HardSplit(rest, max)) == all
  }

  lemma CutStep(chunks: seq<string>, groups: seq<Group>, skip: nat, sep: string, max: nat, rest: string, cut: string,
                all: seq<Piece>)
    requires 0 < max && Cutting(chunks, groups, skip, sep, max, rest, all)
    requires rest != [] && cut == rest[..if max < |rest| then max else |rest|]
    requires LastClosed(chunks, groups, if skip > 0 then "" else cut, sep, max)
    ensures Cutting(chunks + [cut], groups + [Group(skip, [Cut(cut)])], 0, sep, max, rest[|cut|..], all)
  {
    OneCut(cut, sep, max);
    AppendGroup(chunks, groups, cut, Group(skip, [Cut(cut)]), sep, max);
    FirstCut(rest, cut, max);
    CutsRegroup(Laid(groups), skip, Cut(cut), Cuts(HardSplit(rest[|cut|..], max)));
  }

  lemma FirstCut(rest: string, cut: string, max: nat)
    requires max > 0 && rest != [] && cut == rest[..if max < |rest| then max else |rest|]
    ensures Cuts(HardSplit(rest, max)) == [Cut(cut)] + Cuts(HardSplit(rest[|cut|..], max))
  {
    if |rest| <= max {
      assert cut == rest && rest[|cut|..] == [];
    }
    assert HardSplit(rest, max) == [cut] + HardSplit(rest[|cut|..], max);
  }

  lemma CutsRegroup(before: seq<Piece>, skipped: nat, cut: Piece, rest: seq<Piece>)
    ensures before + Blanks(skipped) + ([cut] + rest) == (before + Blanks(skipped) + [cut]) + Blanks(0) + rest
  {
  }

  /** Appends the cuts of a part that does not fit into one chunk. */
  method AppendHardSplit(chunks0: seq<string>, ghost groups0: seq<Group>, ghost skipped: nat, sep: string, max: nat, part: string)
    returns (chunks: seq<string>, ghost groups: seq<Group>)
    requires 0 < max < |part| && Made(chunks0, groups0, sep, max) && Tight(chunks0, groups0, sep, max)
    requires LastClosed(chunks0, groups0, if skipped > 0 then "" else part[..max], sep, max)
    ensures Made(chunks, groups, sep, max) && Tight(chunks, groups, sep, max)
    ensures Laid(groups) == Laid(groups0) + Blanks(skipped) + Cuts(HardSplit(part, max))
    ensures chunks != [] && groups[|groups| - 1].pieces[0].Cut?
  {
    chunks, groups := chunks0, groups0;
    var index := 0;
    ghost var skip, all := skipped, Laid(groups0) + Blanks(skipped) + Cuts(HardSplit(part, max));
    assert part[0..] == part;
    while index < |part|
      invariant 0 <= index <= |part| && Cutting(chunks, groups, skip, sep, max, part[index..], all)
      invariant if index == 0 then chunks == chunks0 && groups == groups0 && skip == skipped
                else skip == 0 && chunks != [] && groups[|groups| - 1].pieces[0].Cut?
    {
      var end := if index + max < |part| then index + max else |part|;
      var cut := part[index..end];
      CutOfPart(part, index, end, max);
      CutStep(chunks, groups, skip, sep, max, part[index..], cut, all);
      chunks := chunks + [cut];
      groups := groups + [Group(skip, [Cut(cut)])];
      index, skip := end, 0;
    }
    NothingToCut(Laid(groups), part[index..], max);
  }

  lemma CutOfPart(part: string, index: nat, end: nat, max: nat)
    requires index < |part| && end == if index + max < |part| then index + max else |part|
    ensures var rest, cut := part[index..], part[index..end];
      cut == rest[..if max < |rest| then max else |rest|] && rest[|cut|..] == part[end..]
  {
  }

  lemma NothingToCut(before: seq<Piece>, rest: string, max: nat)
    requires max > 0 && rest == []
    ensures before + Blanks(0) + Cuts(HardSplit(rest, max)) == before
  {
  }

  lemma PiecesSnoc(parts: seq<string>, part: string, max: nat)
    requires max > 0
    ensures Pieces(parts + [part], max) ==
      Pieces(parts, max) + if |part| <= max then [Entire(part)] else Cuts(HardSplit(part, max))
  {
    assert (parts + [part])[..|parts|] == parts;
  }

  /** What is being filled once the part is added to it; an empty part at the start is passed over. */
  function Extended(open: Group, part: string): Group {
    if open.pieces == [] && part == [] then Group(open.skipped + 1, [])
    else open.(pieces := open.pieces + [Entire(part)])
  }

  lemma ExtendLaid(done: seq<Piece>, open: Group, part: string, parts: seq<string>, max: nat)
    requires 0 < max && |part| <= max && done + Blanks(open.skipped) + open.pieces == Pieces(parts, max)
    ensures var next := Extended(open, part);
      done + Blanks(next.skipped) + next.pieces == Pieces(parts + [part], max)
  {
    PiecesSnoc(parts, part, max);
    if open.pieces == [] && part == [] {
      assert Blanks(open.skipped + 1) == Blanks(open.skipped) + [Entire("")];
    }
  }

  lemma ExtendChunk(current: string, open: Group, part: string, sep: string, max: nat)
    requires if current == [] then open.pieces == [] else IsChunk(current, open.pieces, sep, max) && open.pieces[0].Entire?
    ensures var candidate, next := if current == [] then part else current + sep + part, Extended(open, part);
      |candidate| <= max ==>
        if candidate == [] then next.pieces == [] else IsChunk(candidate, next.pieces, sep, max) && next.pieces[0].Entire?
  {
    var pieces := open.pieces + [Entire(part)];
    assert Texts(pieces) == Texts(open.pieces) + [part];
    assert Texts(pieces)[..|open.pieces|] == Texts(open.pieces);
  }

  /** Adds the next part: to the chunk being filled if it fits there, otherwise after closing it. */
  method AddPart(chunks0: seq<string>, ghost groups0: seq<Group>, current0: string, ghost open0: Group,
                 sep: string, ghost parts: seq<string>, part: string, max: nat)
    returns (chunks: seq<string>, ghost groups: seq<Group>, current: string, ghost open: Group)
    requires max > 0 && sep != [] && Packed(chunks0, groups0, current0, open0, sep, parts, max)
    ensures Packed(chunks, groups, current, open, sep, parts + [part], max)
  {
    chunks, groups := chunks0, groups0;
    var candidate := if current0 == [] then part else current0 + sep + part;
    if |candidate| <= max {
      ExtendLaid(Laid(groups), open0, part, parts, max);
      ExtendChunk(current0, open0, part, sep, max);
      current, open := candidate, Extended(open0, part);
    } else if current0 != [] {
      AppendGroup(chunks, groups, current0, open0, sep, max);
      chunks, groups := chunks + [current0], groups + [open0];
      chunks, groups, current, open := StartWith(chunks, groups, NOTHING, sep, parts, part, max);
    } else {
      chunks, groups, current, open := StartWith(chunks, groups, open0, sep, parts, part, max);
    }
  }

  /** Places a part when nothing is being filled: whole if it fits, cut otherwise. */
  method StartWith(chunks0: seq<string>, ghost groups0: seq<Group>, ghost open0: Group, sep: string,
                   ghost parts: seq<string>, part: string, max: nat)
    returns (chunks: seq<string>, ghost groups: seq<Group>, current: string, ghost open: Group)
    requires max > 0 && Made(chunks0, groups0, sep, max) && Tight(chunks0, groups0, sep, max)
    requires open0.pieces == [] && Laid(groups0) + Blanks(open0.skipped) == Pieces(parts, max)
    requires LastClosed(chunks0, groups0, if open0.skipped > 0 then "" else part, sep, max)
    requires sep != []
    ensures Packed(chunks, groups, current, open, sep, parts + [part], max)
  {
    chunks, groups := chunks0, groups0;
    if |part| <= max {
      assert Blanks(open0.skipped) + open0.pieces == Blanks(open0.skipped);
      ExtendLaid(Laid(groups), open0, part, parts, max);
      ExtendChunk([], open0, part, sep, max);
      current, open := part, Extended(open0, part);
    } else {
      PiecesSnoc(parts, part, max);
      chunks, groups := AppendHardSplit(chunks, groups, open0.skipped, sep, max, part);
      current, open := [], NOTHING;
      assert Laid(groups) + Blanks(0) + [] == Laid(groups);
    }
  }

  method PackParts(parts: seq<string>, sep: string, max: nat)
    returns (chunks: seq<string>, ghost groups: seq<Group>, ghost trailing: nat)
    requires max > 0 && sep != []
    ensures Packing(chunks, groups, trailing, sep, parts, max)
    ensures forall i :: 0 <= i < |chunks| ==> 0 < |chunks[i]| <= max
  {
    var current: string;
    ghost var open: Group;
    chunks, groups, current, open := [], [], [], NOTHING;
    ghost var done: seq<string> := [];
    for k := 0 to |parts|
      invariant done == parts[..k] && Packed(chunks, groups, current, open, sep, done, max)
    {
      TakeOneMore(parts, k);
      chunks, groups, current, open := AddPart(chunks, groups, current, open, sep, done, parts[k], max);
      done := parts[..k + 1];
    }
    assert done == parts;
    chunks, groups, trailing := CloseLast(chunks, groups, current, open, sep, parts, max);
    AllFit(chunks, groups, sep, max);
  }

  lemma AllFit(chunks: seq<string>, groups: seq<Group>, sep: string, max: nat)
    requires Made(chunks, groups, sep, max)
    ensures forall i :: 0 <= i < |chunks| ==> 0 < |chunks[i]| <= max
  {
    forall i | 0 <= i < |chunks| ensures 0 < |chunks[i]| <= max {
      assert IsChunk(chunks[i], groups[i].pieces, sep, max);
    }
  }

  method CloseLast(chunks0: seq<string>, ghost groups0: seq<Group>, current: string, ghost open: Group,
                   sep: string, ghost parts: seq<string>, max: nat)
    returns (chunks: seq<string>, ghost groups: seq<Group>, ghost trailing: nat)
    requires max > 0 && Packed(chunks0, groups0, current, open, sep, parts, max)
    ensures Packing(chunks, groups, trailing, sep, parts, max)
  {
    chunks, groups, trailing := chunks0, groups0, open.skipped;
    if current != [] {
      AppendGroup(chunks, groups, current, open, sep, max);
      chunks, groups, trailing := chunks + [current], groups + [open], 0;
      assert Laid(groups) + Blanks(0) == Laid(groups);
    } else {
      assert Laid(groups) + Blanks(open.skipped) + [] == Laid(groups) + Blanks(open.skipped);
    }
  }

  /** Splits a message at its leftmost separators. The groups record which pieces of which parts each chunk
      joins. */
  method SplitTelegramMessage(text: string, maxChars: int, preferSeparator: string)
    returns (result: seq<string>, ghost parts: seq<string>, ghost groups: seq<Group>, ghost trailing: nat)
    ensures forall i :: 0 <= i < |result| ==> |result[i]| <= EffectiveMax(maxChars)
    ensures IsSplit(parts, EffectiveSeparator(preferSeparator), text)
    ensures var max, sep := EffectiveMax(maxChars), EffectiveSeparator(preferSeparator);
      if |text| <= max then result == [text]
      else if Concat(parts) == [] then result == [text[..max]]
      else result != [] && Packing(result, groups, trailing, sep, parts, max)
  {
    var max := EffectiveMax(maxChars);
    var sep := EffectiveSeparator(preferSeparator);
    SplitMeaning(text, sep);
    parts := SplitOn(text, sep);
    if |text| <= max {
      return [text], parts, [], 0;
    }
    result, groups, trailing := PackOrCut(text, SplitOn(text, sep), sep, max);
  }

  /** The chunks of a text that is too long; a text of separators only is cut short. */
  method PackOrCut(text: string, parts: seq<string>, sep: string, max: nat)
    returns (result: seq<string>, ghost groups: seq<Group>, ghost trailing: nat)
    requires 0 < max < |text| && sep != []
    ensures forall i :: 0 <= i < |result| ==> |result[i]| <= max
    ensures if Concat(parts) == [] then result == [text[..max]]
            else result != [] && Packing(result, groups, trailing, sep, parts, max)
  {
    result, groups, trailing := PackParts(parts, sep, max);
    SomethingMade(result, groups, trailing, sep, parts, max);
    if result == [] {
      result := [text[..max]];
    }
  }

  // ---------- Only separators are dropped ----------

  lemma {:induction false} ConcatOfConcat(a: seq<string>, b: seq<string>)
    ensures Concat(a + b) == Concat(a) + Concat(b)
  {
    if b == [] {
      assert a + b == a;
    } else {
      InitOfConcat(a, b);
      ConcatOfConcat(a, b[..|b| - 1]);
    }
  }

  lemma ConcatOne(text: string)
    ensures Concat([text]) == text
  {
    assert [text][..0] == [];
  }

  function TextOf(pieces: seq<Piece>): string { Concat(Texts(pieces)) }

  lemma TextOfConcat(a: seq<Piece>, b: seq<Piece>)
    ensures TextOf(a + b) == TextOf(a) + TextOf(b)
  {
    assert Texts(a + b) == Texts(a) + Texts(b);
    ConcatOfConcat(Texts(a), Texts(b));
  }

  lemma {:induction false} BlanksHaveNoText(n: nat)
    ensures TextOf(Blanks(n)) == []
  {
    if n > 0 {
      BlanksHaveNoText(n - 1);
      assert Texts(Blanks(n))[..n - 1] == Texts(Blanks(n - 1));
    }
  }

  lemma {:induction false} HardSplitConcat(part: string, max: nat)
    requires max > 0
    ensures Concat(HardSplit(part, max)) == part
    decreases |part|
  {
    if part == [] {
    } else if |part| <= max {
      ConcatOne(part);
    } else {
      HardSplitConcat(part[max..], max);
      ConcatOfConcat([part[..max]], HardSplit(part[max..], max));
      ConcatOne(part[..max]);
      assert part == part[..max] + part[max..];
    }
  }

  /** The pieces hold all the text of the parts. */
  lemma {:induction false} PiecesText(parts: seq<string>, max: nat)
    requires max > 0
    ensures TextOf(Pieces(parts, max)) == Concat(parts)
  {
    if parts != [] {
      var n, part := |parts| - 1, parts[|parts| - 1];
      var last := if |part| <= max then [Entire(part)] else Cuts(HardSplit(part, max));
      PiecesText(parts[..n], max);
      HardSplitConcat(part, max);
      TextOfConcat(Pieces(parts[..n], max), last);
      assert Texts(last) == if |part| <= max then [part] else HardSplit(part, max);
      ConcatOne(part);
    }
  }

  /** The pieces that the chunks join, in order, without the passed-over ones. */
  function Joined(groups: seq<Group>): seq<Piece> {
    if groups == [] then [] else Joined(groups[..|groups| - 1]) + groups[|groups| - 1].pieces
  }

  lemma {:induction false} JoinedText(groups: seq<Group>)
    ensures TextOf(Laid(groups)) == TextOf(Joined(groups))
  {
    if groups != [] {
      var before, last := groups[..|groups| - 1], groups[|groups| - 1];
      JoinedText(before);
      BlanksHaveNoText(last.skipped);
      TextOfConcat(Laid(before), Blanks(last.skipped));
      TextOfConcat(Laid(before) + Blanks(last.skipped), last.pieces);
      TextOfConcat(Joined(before), last.pieces);
    }
  }

  /** All the text of the parts is in the chunks, in order: only separators can have been dropped. */
  lemma OnlySeparatorsDropped(chunks: seq<string>, groups: seq<Group>, trailing: nat, sep: string, parts: seq<string>, max: nat)
    requires max > 0 && Packing(chunks, groups, trailing, sep, parts, max)
    ensures TextOf(Joined(groups)) == Concat(parts)
  {
    PiecesText(parts, max);
    JoinedText(groups);
    BlanksHaveNoText(trailing);
    TextOfConcat(Laid(groups), Blanks(trailing));
  }

  lemma SomethingMade(chunks: seq<string>, groups: seq<Group>, trailing: nat, sep: string, parts: seq<string>, max: nat)
    requires max > 0 && Packing(chunks, groups, trailing, sep, parts, max)
    ensures chunks == [] <==> Concat(parts) == []
  {
    OnlySeparatorsDropped(chunks, groups, trailing, sep, parts, max);
    if chunks != [] {
      var n := |groups| - 1;
      assert IsChunk(chunks[n], groups[n].pieces, sep, max);
      StartsWithText(groups[n].pieces);
      TextOfConcat(Joined(groups[..n]), groups[n].pieces);
    } else {
      assert TextOf([]) == [];
    }
  }

  lemma StartsWithText(pieces: seq<Piece>)
    requires pieces != [] && pieces[0].text != []
    ensures TextOf(pieces) != []
  {
    assert pieces == [pieces[0]] + pieces[1..];
    TextOfConcat([pieces[0]], pieces[1..]);
    assert Texts([pieces[0]]) == [pieces[0].text];
    ConcatOne(pieces[0].text);
  }

  // ---------- There is one greedy packing ----------

  lemma {:induction false} LaidUpTo(groups: seq<Group>, k: nat)
    requires k < |groups|
    ensures Laid(groups[..k + 1]) == Laid(groups[..k]) + Blanks(groups[k].skipped) + groups[k].pieces
    ensures Laid(groups[..k + 1]) <= Laid(groups)
    decreases |groups|
  {
    var n := |groups| - 1;
    assert groups[..k + 1][..k] == groups[..k];
    if k < n {
      assert groups[..n][..k + 1] == groups[..k + 1];
      LaidUpTo(groups[..n], k);
    } else {
      assert groups[..k + 1] == groups;
    }
  }

  /** After a chunk of whole parts the next piece, if any, would not have fitted into it. */
  lemma NoRoomLeft(chunks: seq<string>, groups: seq<Group>, trailing: nat, sep: string, parts: seq<string>, max: nat, k: nat)
    requires max > 0 && Packing(chunks, groups, trailing, sep, parts, max) && k < |groups|
    ensures var all, q := Pieces(parts, max), |Laid(groups[..k + 1])|;
      q < |all| && groups[k].pieces[0].Entire? ==> |chunks[k]| + |sep| + |all[q].text| > max
  {
    LaidUpTo(groups, k);
    var q := |Laid(groups[..k + 1])|;
    if k + 1 < |groups| {
      var next := groups[k + 1];
      LaidUpTo(groups, k + 1);
      assert IsChunk(chunks[k + 1], next.pieces, sep, max);
      assert Laid(groups[..k + 2])[q] == (Blanks(next.skipped) + next.pieces)[0];
      assert Closed(chunks[k], groups[k], NextText(next.skipped, next.pieces), sep, max);
    } else {
      assert groups[..k + 1] == groups;
    }
  }

  lemma {:induction false} JoinOfPrefix(texts: seq<string>, n: nat, sep: string)
    requires 0 < n < |texts|
    ensures |Join(texts, sep)| >= |Join(texts[..n], sep)| + |sep| + |texts[n]|
  {
    var m := |texts| - 1;
    if n < m {
      JoinOfPrefix(texts[..m], n, sep);
      assert texts[..m][..n] == texts[..n];
    }
  }

  lemma SkipsAgree(all: seq<Piece>, p: nat, a: Group, b: Group)
    requires a.pieces != [] && b.pieces != [] && a.pieces[0].text != [] && b.pieces[0].text != []
    requires p <= |all| && Blanks(a.skipped) + a.pieces <= all[p..] && Blanks(b.skipped) + b.pieces <= all[p..]
    ensures a.skipped == b.skipped
  {
    assert (Blanks(a.skipped) + a.pieces)[a.skipped] == all[p..][a.skipped];
    assert (Blanks(b.skipped) + b.pieces)[b.skipped] == all[p..][b.skipped];
  }

  /** This group comes next at position p, makes this chunk, and leaves no room for what follows. */
  ghost predicate Placed(all: seq<Piece>, p: nat, group: Group, chunk: string, sep: string, max: nat) {
    var q := p + group.skipped + |group.pieces|;
    && p <= |all| && Blanks(group.skipped) + group.pieces <= all[p..] && IsChunk(chunk, group.pieces, sep, max)
    && (q < |all| && group.pieces[0].Entire? ==> |chunk| + |sep| + |all[q].text| > max)
  }

  lemma GroupIsPlaced(chunks: seq<string>, groups: seq<Group>, trailing: nat, sep: string, parts: seq<string>, max: nat, k: nat)
    requires max > 0 && Packing(chunks, groups, trailing, sep, parts, max) && k < |groups|
    ensures Placed(Pieces(parts, max), |Laid(groups[..k])|, groups[k], chunks[k], sep, max)
  {
    LaidUpTo(groups, k);
    NoRoomLeft(chunks, groups, trailing, sep, parts, max, k);
    RestStartsWith(Laid(groups[..k]), Blanks(groups[k].skipped), groups[k].pieces, Laid(groups[..k + 1]), Laid(groups),
                   Pieces(parts, max));
  }

  lemma RestStartsWith(p: seq<Piece>, b: seq<Piece>, c: seq<Piece>, upTo: seq<Piece>, laid: seq<Piece>, all: seq<Piece>)
    requires upTo == p + b + c && upTo <= laid && laid <= all
    ensures |p| <= |all| && b + c <= all[|p|..] && |upTo| == |p| + |b| + |c|
  {
    assert upTo == p + (b + c);
    assert all[|p|..][..|b + c|] == b + c;
  }

  /** Only one group fits at a position. */
  lemma OneGroupFits(all: seq<Piece>, p: nat, a: Group, b: Group, x: string, y: string, sep: string, max: nat)
    requires Placed(all, p, a, x, sep, max) && Placed(all, p, b, y, sep, max)
    ensures a == b && x == y
  {
    SkipsAgree(all, p, a, b);
    NotShorter(all, p, a, b, x, y, sep, max);
    NotShorter(all, p, b, a, y, x, sep, max);
    PiecesAt(all, p, a);
    PiecesAt(all, p, b);
  }

  /** Of two groups at the same position neither is a proper beginning of the other. */
  lemma NotShorter(all: seq<Piece>, p: nat, a: Group, b: Group, x: string, y: string, sep: string, max: nat)
    requires Placed(all, p, a, x, sep, max) && Placed(all, p, b, y, sep, max) && a.skipped == b.skipped
    ensures |a.pieces| >= |b.pieces|
  {
    PiecesAt(all, p, a);
    PiecesAt(all, p, b);
    var n := |a.pieces|;
    if n < |b.pieces| {
      SameBeginning(all[p + a.skipped..], a.pieces, b.pieces);
      JoinOfPrefix(Texts(b.pieces), n, sep);
    }
  }

  lemma SameBeginning(rest: seq<Piece>, a: seq<Piece>, b: seq<Piece>)
    requires 0 < |a| < |b| <= |rest| && rest[..|a|] == a && rest[..|b|] == b
    ensures a[0] == b[0] && b[|a|] == rest[|a|] && Texts(b)[..|a|] == Texts(a) && Texts(b)[|a|] == rest[|a|].text
  {
    assert b[..|a|] == a;
  }

  lemma PiecesAt(all: seq<Piece>, p: nat, g: Group)
    requires p <= |all| && Blanks(g.skipped) + g.pieces <= all[p..]
    ensures p + g.skipped + |g.pieces| <= |all| && all[p + g.skipped..][..|g.pieces|] == g.pieces
  {
    assert (Blanks(g.skipped) + g.pieces)[g.skipped..] == g.pieces;
  }

  lemma NoMoreGroups(c1: seq<string>, g1: seq<Group>, t1: nat, c2: seq<string>, g2: seq<Group>, t2: nat,
                     sep: string, parts: seq<string>, max: nat)
    requires max > 0 && Packing(c1, g1, t1, sep, parts, max) && Packing(c2, g2, t2, sep, parts, max)
    requires |g1| <= |g2| && g1 == g2[..|g1|]
    ensures |g1| == |g2|
  {
    var all := Pieces(parts, max);
    assert forall i :: |Laid(g1)| <= i < |all| ==> all[i] == Blanks(t1)[i - |Laid(g1)|];
    if |g1| < |g2| {
      GroupHasText(c2, g2, t2, sep, parts, max, |g1|);
    }
  }

  lemma GroupHasText(chunks: seq<string>, groups: seq<Group>, trailing: nat, sep: string, parts: seq<string>, max: nat, k: nat)
    requires max > 0 && Packing(chunks, groups, trailing, sep, parts, max) && k < |groups|
    ensures var all, i := Pieces(parts, max), |Laid(groups[..k])| + groups[k].skipped;
      i < |all| && all[i].text != []
  {
    GroupIsPlaced(chunks, groups, trailing, sep, parts, max, k);
    PiecesAt(Pieces(parts, max), |Laid(groups[..k])|, groups[k]);
  }

  lemma {:induction false} SameGroups(c1: seq<string>, g1: seq<Group>, t1: nat, c2: seq<string>, g2: seq<Group>, t2: nat,
                                      sep: string, parts: seq<string>, max: nat, k: nat)
    requires max > 0 && Packing(c1, g1, t1, sep, parts, max) && Packing(c2, g2, t2, sep, parts, max)
    requires k <= |g1| && k <= |g2|
    ensures g1[..k] == g2[..k] && c1[..k] == c2[..k]
  {
    if k > 0 {
      SameGroups(c1, g1, t1, c2, g2, t2, sep, parts, max, k - 1);
      GroupIsPlaced(c1, g1, t1, sep, parts, max, k - 1);
      GroupIsPlaced(c2, g2, t2, sep, parts, max, k - 1);
      OneGroupFits(Pieces(parts, max), |Laid(g1[..k - 1])|, g1[k - 1], g2[k - 1], c1[k - 1], c2[k - 1], sep, max);
      TakeOneMore(g1, k - 1);
      TakeOneMore(c1, k - 1);
      TakeOneMore(g2, k - 1);
      TakeOneMore(c2, k - 1);
    }
  }

  /** The greedy packing is unique, so the chunks of a message are determined by its parts. */
  lemma PackingIsUnique(c1: seq<string>, g1: seq<Group>, t1: nat, c2: seq<string>, g2: seq<Group>, t2: nat,
                        sep: string, parts: seq<string>, max: nat)
    requires max > 0 && Packing(c1, g1, t1, sep, parts, max) && Packing(c2, g2, t2, sep, parts, max)
    ensures c1 == c2 && g1 == g2
  {
    var k := if |g1| < |g2| then |g1| else |g2|;
    SameGroups(c1, g1, t1, c2, g2, t2, sep, parts, max, k);
    if |g1| <= |g2| {
      NoMoreGroups(c1, g1, t1, c2, g2, t2, sep, parts, max);
    } else {
      NoMoreGroups(c2, g2, t2, c1, g1, t1, sep, parts, max);
    }
  }
}
