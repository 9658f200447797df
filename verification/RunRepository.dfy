/** The run repository: saving appends one index line, listing reads back a page, newest first,
    and stops reading as soon as the page is full. */
module RunRepository {
  import opened Text
  import opened IndexLines

  datatype Record = Record(sessionId: string, body: string)

  /** Decoding and parsing of one index line; none when it is not a JSON object. */
  type Parser = Bytes -> Option<Record>

  // ---------- Tenants ----------

  /** The test that the listing applies to each record. */
  predicate SessionMatches(recordSessionId: string, principalId: string) {
    var record, principal := Strip(recordSessionId), Strip(principalId);
    if principal == "" then false
    else record == principal || (principal + ":") <= record
  }

  /** A session belongs to a principal: it is named like it, or is one of its sub-sessions. */
  ghost predicate BelongsTo(sessionId: string, principalId: string) {
    var session, principal := Strip(sessionId), Strip(principalId);
    principal != "" && (session == principal || exists sub :: session == principal + ":" + sub)
  }

  lemma MatchesMeaning(sessionId: string, principalId: string)
    ensures SessionMatches(sessionId, principalId) <==> BelongsTo(sessionId, principalId)
  {
    var session, start := Strip(sessionId), Strip(principalId) + ":";
    if start <= session {
      assert session == start + session[|start|..];
    }
  }

  const USER := "telegramUser:"

  /** The principal of a Telegram user, whose number is written without blanks and colons. */
  ghost predicate IsUserNumber(number: string) {
    number != "" && forall i :: 0 <= i < |number| ==> '0' <= number[i] <= '9'
  }

  lemma UserIsStripped(number: string)
    requires IsUserNumber(number)
    ensures Strip(USER + number) == USER + number
  {
    var principal := USER + number;
    assert !IsSpace(principal[0]) && principal[|principal| - 1] == number[|number| - 1];
  }

  lemma NumberInSession(sessionId: string, number: string)
    requires IsUserNumber(number) && BelongsTo(sessionId, USER + number)
    ensures var session := Strip(sessionId);
      && USER + number <= session && (session == USER + number || USER + number + ":" <= session)
      && session[|USER|..|USER| + |number|] == number
  {
    var session := Strip(sessionId);
    UserIsStripped(number);
    assert USER + number <= session;
    assert session[..|USER| + |number|] == USER + number;
    assert session[|USER|..|USER| + |number|] == session[..|USER| + |number|][|USER|..];
  }

  /** No session belongs to two users, even where the number of one begins with that of the other. */
  lemma UsersAreSeparate(a: string, b: string, sessionId: string)
    requires IsUserNumber(a) && IsUserNumber(b)
    requires BelongsTo(sessionId, USER + a) && BelongsTo(sessionId, USER + b)
    ensures a == b
  {
    NumberInSession(sessionId, a);
    NumberInSession(sessionId, b);
    if |a| < |b| {
      NumberEnds(Strip(sessionId), a, b);
    } else if |b| < |a| {
      NumberEnds(Strip(sessionId), b, a);
    }
  }

  lemma NumberEnds(session: string, shorter: string, longer: string)
    requires |shorter| < |longer| && USER + longer <= session && IsUserNumber(longer)
    ensures session != USER + shorter && !(USER + shorter + ":" <= session)
  {
    var k := |USER| + |shorter|;
    assert session[k] == (USER + longer)[k] == longer[|shorter|];
    assert (USER + shorter + ":")[k] == ':';
  }

  ghost predicate Selected(r: Record, session: Option<string>) {
    session.Some? ==> BelongsTo(r.sessionId, session.value)
  }

  // ---------- Specification ----------

  /** The records behind a list of lines that a listing for this session selects. */
  ghost function RecordsOf(lines: seq<Bytes>, parse: Parser, session: Option<string>): seq<Record> {
    if lines == [] then []
    else
      var n := |lines| - 1;
      RecordsOf(lines[..n], parse, session) +
      match parse(lines[n])
      case None => []
      case Some(r) => if Selected(r, session) then [r] else []
  }

  function Min(a: int, b: int): int { if a < b then a else b }
  function Max(a: int, b: int): int { if a > b then a else b }

  /** The slice [from, from+count) of a list, as far as it exists. */
  function Slice<T>(all: seq<T>, from: nat, count: nat): seq<T> {
    all[Min(from, |all|)..Min(from + count, |all|)]
  }

  /** One listing: the bounds are clamped as the caller gives them. */
  ghost function Page(file: Bytes, parse: Parser, session: Option<string>, limit: int, offset: int): seq<Record> {
    Slice(AllRecords(file, parse, session), Max(0, offset), Max(1, limit))
  }

  ghost function AllRecords(file: Bytes, parse: Parser, session: Option<string>): seq<Record> {
    RecordsOf(NewestFirst(file), parse, session)
  }

  lemma {:induction false} RecordsOfConcat(a: seq<Bytes>, b: seq<Bytes>, parse: Parser, session: Option<string>)
    ensures RecordsOf(a + b, parse, session) == RecordsOf(a, parse, session) + RecordsOf(b, parse, session)
  {
    if b == [] {
      assert a + b == a;
    } else {
      var n := |b| - 1;
      InitOfConcat(a, b);
      RecordsOfConcat(a, b[..n], parse, session);
    }
  }

  // ---------- The repository ----------

  class JsonRunRepository {
    const chunkSize: nat
    const parse: Parser
    var indexFile: Option<Bytes>

    constructor (parse: Parser)
      ensures indexFile == None && this.parse == parse && chunkSize == 65536
    {
      chunkSize, this.parse, indexFile := 65536, parse, None;
    }

    function Content(): Bytes
      reads this
    {
      indexFile.GetOr([])
    }

    /** Appends the line of one saved run. */
    method AppendIndexLine(line: Bytes)
      modifies this
      ensures Content() == old(Content()) + line + [NEWLINE] && EndsLine(Content())
      ensures EndsLine(old(Content())) && NEWLINE !in line && !IsBlank(line) && parse(line).Some? ==>
        forall session :: AllRecords(Content(), parse, session)
          == (if Selected(parse(line).value, session) then [parse(line).value] else []) +
             old(AllRecords(Content(), parse, session))
    {
      ghost var before := Content();
      indexFile := Some(Content() + line + [NEWLINE]);
      if EndsLine(before) && NEWLINE !in line && !IsBlank(line) && parse(line).Some? {
        forall session {
          SavedRecordIsNewest(before, line, parse, session);
        }
      }
    }

    /** Collects selected records newest first and stops reading once needCount of them are found. */
    method CollectNewest(needCount: nat, session: Option<string>) returns (records: seq<Record>)
      requires chunkSize > 0 && needCount > 0
      ensures records == Slice(AllRecords(Content(), parse, session), 0, needCount)
    {
      if indexFile.None? {
        NothingInEmptyFile();
        return [];
      }
      var reader := new BackwardReader(indexFile.value, chunkSize);
      records := Drain(reader, needCount, session);
    }

    method Drain(reader: BackwardReader, needCount: nat, session: Option<string>) returns (records: seq<Record>)
      requires reader.Valid() && needCount > 0
      modifies reader
      ensures records == Slice(RecordsOf(old(reader.Remaining()), parse, session), 0, needCount)
    {
      records := [];
      ghost var all, seen := reader.Remaining(), [];
      var isFull, isExhausted := false, false;
      while !isFull && !isExhausted
        invariant reader.Valid() && all == seen + reader.Remaining()
        invariant records == RecordsOf(seen, parse, session) && |records| <= needCount
        invariant isFull <==> |records| == needCount
        invariant isExhausted ==> reader.Remaining() == []
        decreases |reader.Remaining()|, !isExhausted
      {
        var line := reader.Next();
        if line.None? {
          isExhausted := true;
        } else {
          SeenGrows(all, seen, line.value, reader.Remaining());
          records := TakeLine(records, line.value, session, seen);
          seen := seen + [line.value];
          isFull := |records| >= needCount;
        }
      }
      EnoughRead(seen, reader.Remaining(), records, needCount, session);
    }

    /** What was read is all there is, or all that is needed. */
    lemma EnoughRead(seen: seq<Bytes>, rest: seq<Bytes>, records: seq<Record>, needCount: nat, session: Option<string>)
      requires records == RecordsOf(seen, parse, session) && |records| <= needCount
      requires |records| == needCount || rest == []
      ensures records == Slice(RecordsOf(seen + rest, parse, session), 0, needCount)
    {
      RecordsOfConcat(seen, rest, parse, session);
      StartOfConcat(records, RecordsOf(rest, parse, session), needCount);
    }

    /** Adds the record of one line, if it has one that is selected. */
    method TakeLine(records0: seq<Record>, line: Bytes, session: Option<string>, ghost seen: seq<Bytes>)
      returns (records: seq<Record>)
      requires records0 == RecordsOf(seen, parse, session)
      ensures records == RecordsOf(seen + [line], parse, session) && |records| <= |records0| + 1
    {
      records := records0;
      RecordsOfSnoc(seen, line, parse, session);
      var record := parse(line);
      if record.Some? {
        var isSelected := IsSelected(record.value, session);
        if isSelected {
          records := records + [record.value];
        }
      }
    }

    /** Without a tenant every record is listed. */
    method IsSelected(r: Record, session: Option<string>) returns (isSelected: bool)
      ensures isSelected <==> Selected(r, session)
    {
      isSelected := true;
      if session.Some? {
        MatchesMeaning(r.sessionId, session.value);
        isSelected := SessionMatches(r.sessionId, session.value);
      }
    }

    /** The page [offset, offset+limit) of the newest-first list of a tenant's runs, or of all runs. */
    method ListRuns(limit: int, offset: int, session: Option<string>) returns (page: seq<Record>)
      requires chunkSize > 0
      ensures page == Page(Content(), parse, session, limit, offset)
      ensures session.Some? ==> forall r :: r in page ==> BelongsTo(r.sessionId, session.value)
    {
      var boundedLimit := Max(1, limit);
      var boundedOffset := Max(0, offset);
      var matched := CollectNewest(boundedOffset + boundedLimit, session);
      page := Slice(matched, boundedOffset, boundedLimit);
      SliceOfStart(AllRecords(Content(), parse, session), boundedOffset, boundedLimit);
      assert page == Page(Content(), parse, session, limit, offset);
      PageBelongs(Content(), parse, session, limit, offset);
    }
  }

  lemma PageBelongs(file: Bytes, parse: Parser, session: Option<string>, limit: int, offset: int)
    ensures session.Some? ==> forall r :: r in Page(file, parse, session, limit, offset) ==> BelongsTo(r.sessionId, session.value)
  {
    RecordsMeaning(NewestFirst(file), parse, session);
    SliceIsPart(AllRecords(file, parse, session), Max(0, offset), Max(1, limit));
  }

  lemma SliceIsPart<T>(all: seq<T>, from: nat, count: nat)
    ensures forall x :: x in Slice(all, from, count) ==> x in all
  {
  }

  /** The records listed are those behind the lines that belong to the tenant, and no others. */
  lemma {:induction false} RecordsMeaning(lines: seq<Bytes>, parse: Parser, session: Option<string>)
    ensures forall r :: r in RecordsOf(lines, parse, session) <==>
      Selected(r, session) && exists line :: line in lines && parse(line) == Some(r)
  {
    if lines != [] {
      var n := |lines| - 1;
      RecordsMeaning(lines[..n], parse, session);
      assert lines == lines[..n] + [lines[n]];
      assert lines[n] in lines;
    }
  }

  /** So two users never see the same record. */
  lemma ListingsAreDisjoint(file: Bytes, parse: Parser, a: string, b: string)
    requires IsUserNumber(a) && IsUserNumber(b) && a != b
    ensures forall r :: r in AllRecords(file, parse, Some(USER + a)) ==> r !in AllRecords(file, parse, Some(USER + b))
  {
    RecordsMeaning(NewestFirst(file), parse, Some(USER + a));
    RecordsMeaning(NewestFirst(file), parse, Some(USER + b));
    forall r | r in AllRecords(file, parse, Some(USER + a)) ensures r !in AllRecords(file, parse, Some(USER + b)) {
      if r in AllRecords(file, parse, Some(USER + b)) {
        UsersAreSeparate(a, b, r.sessionId);
      }
    }
  }

  lemma StartOfConcat<T>(a: seq<T>, b: seq<T>, n: nat)
    requires |a| == n || (|a| <= n && b == [])
    ensures Slice(a + b, 0, n) == a
  {
  }

  lemma NothingInEmptyFile()
    ensures NewestFirst([]) == []
  {
    assert NewestOf([[]][..0]) == [];
  }

  lemma SeenGrows(all: seq<Bytes>, seen: seq<Bytes>, line: Bytes, rest: seq<Bytes>)
    requires all == seen + ([line] + rest)
    ensures all == (seen + [line]) + rest
  {
  }

  lemma RecordsOfSnoc(lines: seq<Bytes>, line: Bytes, parse: Parser, session: Option<string>)
    ensures RecordsOf(lines + [line], parse, session) == RecordsOf(lines, parse, session) +
      (match parse(line) case None => [] case Some(r) => if Selected(r, session) then [r] else [])
  {
    assert (lines + [line])[..|lines|] == lines;
  }

  // ---------- Paging ----------

  /** Where a page starts: as many records in as the pages before it hold. */
  function PageStart(size: nat, index: nat): nat {
    if index == 0 then 0 else PageStart(size, index - 1) + size
  }

  lemma {:induction false} PageStartIsProduct(size: nat, index: nat)
    ensures PageStart(size, index) == index * size
  {
    if index > 0 {
      PageStartIsProduct(size, index - 1);
    }
  }

  /** The listings of consecutive offsets, one after the other. */
  ghost function Pages(file: Bytes, parse: Parser, session: Option<string>, size: nat, count: nat): seq<Record> {
    if count == 0 then []
    else Pages(file, parse, session, size, count - 1) + Page(file, parse, session, size, PageStart(size, count - 1))
  }

  /** Slices of one list, one after the other. */
  ghost function Slices<T>(all: seq<T>, size: nat, count: nat): seq<T> {
    if count == 0 then [] else Slices(all, size, count - 1) + Slice(all, PageStart(size, count - 1), size)
  }

  lemma {:induction false} PagesAreSlices(file: Bytes, parse: Parser, session: Option<string>, size: nat, count: nat)
    requires size > 0
    ensures Pages(file, parse, session, size, count) == Slices(AllRecords(file, parse, session), size, count)
  {
    if count > 0 {
      PagesAreSlices(file, parse, session, size, count - 1);
    }
  }

  lemma {:induction false} SlicesContinue<T>(all: seq<T>, size: nat, count: nat)
    ensures Slices(all, size, count) == all[..Min(PageStart(size, count), |all|)]
  {
    if count > 0 {
      SlicesContinue(all, size, count - 1);
      NextSlice(all, PageStart(size, count - 1), size);
    }
  }

  /** Consecutive listings continue one another: together they are the first records of the tenant, without
      gap or repeat. */
  lemma PagesContinue(file: Bytes, parse: Parser, session: Option<string>, size: nat, count: nat)
    requires size > 0
    ensures var all := AllRecords(file, parse, session);
      Pages(file, parse, session, size, count) == all[..Min(PageStart(size, count), |all|)]
  {
    PagesAreSlices(file, parse, session, size, count);
    SlicesContinue(AllRecords(file, parse, session), size, count);
  }

  lemma SliceOfStart<T>(all: seq<T>, from: nat, count: nat)
    ensures Slice(Slice(all, 0, from + count), from, count) == Slice(all, from, count)
  {
  }

  lemma NextSlice<T>(all: seq<T>, from: nat, count: nat)
    ensures all[..Min(from, |all|)] + Slice(all, from, count) == all[..Min(from + count, |all|)]
  {
  }

  /** Enough listings give back every record. */
  lemma PagesCoverAll(file: Bytes, parse: Parser, session: Option<string>, size: nat, count: nat)
    requires size > 0 && count * size >= |AllRecords(file, parse, session)|
    ensures Pages(file, parse, session, size, count) == AllRecords(file, parse, session)
  {
    PageStartIsProduct(size, count);
    PagesContinue(file, parse, session, size, count);
  }

  // ---------- Saving ----------

  ghost predicate EndsLine(file: Bytes) {
    file == [] || file[|file| - 1] == NEWLINE
  }

  lemma SplitAfterAppend(file: Bytes, line: Bytes)
    requires NEWLINE !in line
    ensures var parts := Split(file);
      Split(file + line + [NEWLINE]) == parts[..|parts| - 1] + [parts[|parts| - 1] + line] + [[]]
  {
    var parts := Split(file);
    SplitOneLine(line);
    SplitConcat(file, line);
    SplitConcat(file + line, [NEWLINE]);
    assert Split([NEWLINE]) == [[], []] by {
      assert Split([NEWLINE][1..]) == [[]];
    }
    var glued := parts[..|parts| - 1] + [parts[|parts| - 1] + line];
    assert Split(file + line) == glued;
    assert glued[|glued| - 1] + [] == glued[|glued| - 1];
  }

  /** Appending fuses the line with whatever stood after the last newline. */
  lemma NewestAfterAppend(file: Bytes, line: Bytes)
    requires NEWLINE !in line && !IsBlank(line)
    ensures var parts := Split(file);
      NewestFirst(file + line + [NEWLINE]) == [parts[|parts| - 1] + line] + NewestOf(parts[..|parts| - 1])
  {
    var parts := Split(file);
    var fused := parts[|parts| - 1] + line;
    SplitAfterAppend(file, line);
    NewestOfSnoc(parts[..|parts| - 1] + [fused], []);
    NewestOfSnoc(parts[..|parts| - 1], fused);
    FusedIsNotBlank(parts[|parts| - 1], line);
  }

  lemma FusedIsNotBlank(start: Bytes, line: Bytes)
    requires !IsBlank(line)
    ensures !IsBlank(start + line)
  {
    var i :| 0 <= i < |line| && line[i] !in BLANKS;
    assert (start + line)[|start| + i] == line[i];
  }

  /** A saved line becomes the newest one, and nothing else changes, exactly when the file was empty
      or ended with a newline; otherwise it is fused with the unfinished last line. */
  lemma AppendedLineIsNewest(file: Bytes, line: Bytes)
    requires NEWLINE !in line && !IsBlank(line)
    ensures NewestFirst(file + line + [NEWLINE]) == [line] + NewestFirst(file) <==> EndsLine(file)
  {
    var last := Split(file)[|Split(file)| - 1];
    LastPiece(file);
    NewestAfterAppend(file, line);
    assert NewestFirst(file + line + [NEWLINE])[0] == last + line;
    if last == [] {
      assert last + line == line;
    } else {
      assert |last + line| > |line|;
      assert ([line] + NewestFirst(file))[0] == line;
    }
  }

  lemma NewestOfSnoc(parts: seq<Bytes>, part: Bytes)
    ensures NewestOf(parts + [part]) == (if IsBlank(part) then [] else [part]) + NewestOf(parts)
  {
    assert (parts + [part])[..|parts|] == parts;
  }

  /** The last piece is empty exactly when the text ends a line. */
  lemma {:induction false} LastPiece(s: Bytes)
    ensures Split(s)[|Split(s)| - 1] == [] <==> EndsLine(s)
  {
    if s != [] {
      LastPiece(s[1..]);
    }
  }

  /** A file written only by saving, each line appended with its newline. */
  function Saved(lines: seq<Bytes>): Bytes {
    if lines == [] then [] else Saved(lines[..|lines| - 1]) + lines[|lines| - 1] + [NEWLINE]
  }

  /** So the saved record heads every listing that selects it, and the others do not change. */
  lemma SavedRecordIsNewest(file: Bytes, line: Bytes, parse: Parser, session: Option<string>)
    requires EndsLine(file) && NEWLINE !in line && !IsBlank(line) && parse(line).Some?
    ensures AllRecords(file + line + [NEWLINE], parse, session)
      == (if Selected(parse(line).value, session) then [parse(line).value] else []) + AllRecords(file, parse, session)
  {
    AppendedLineIsNewest(file, line);
    RecordsOfConcat([line], NewestFirst(file), parse, session);
    RecordsOfOne(line, parse, session);
  }

  lemma RecordsOfOne(line: Bytes, parse: Parser, session: Option<string>)
    ensures RecordsOf([line], parse, session) ==
      (match parse(line) case None => [] case Some(r) => if Selected(r, session) then [r] else [])
  {
    assert [line][..0] == [];
  }

  function Reverse<T>(s: seq<T>): seq<T> {
    if s == [] then [] else [s[|s| - 1]] + Reverse(s[..|s| - 1])
  }

  /** Everything saved is listed, once each, in the reverse order of saving. */
  lemma {:induction false} SavedRunsAreListed(lines: seq<Bytes>)
    requires forall i :: 0 <= i < |lines| ==> NEWLINE !in lines[i] && !IsBlank(lines[i])
    ensures EndsLine(Saved(lines)) && NewestFirst(Saved(lines)) == Reverse(lines)
  {
    if lines == [] {
      NothingInEmptyFile();
    } else {
      var n := |lines| - 1;
      SavedRunsAreListed(lines[..n]);
      AppendedLineIsNewest(Saved(lines[..n]), lines[n]);
    }
  }
}
