/** Reading only unread posts: the last message id seen in each channel is remembered, and nothing at
    or below it is ever returned again. */
module UnreadDigest {
  import opened Text

  const MAX_POSTS_PER_CHANNEL := 20
  const MAX_KEYWORD_PHRASES := 48

  /** A message id as the page parser builds it: a number where the text is all digits. */
  datatype MessageId = Number(n: nat) | Other(text: string)

  datatype Post = Post(id: MessageId, date: int, text: string)

  /** One returned post, by channel and message number. */
  datatype Item = Item(channel: string, id: nat)

  // ---------- Deduplication ----------

  function IndexOf(posts: seq<Post>, id: MessageId): (k: nat)
    ensures k <= |posts| && (k < |posts| ==> posts[k].id == id)
    ensures k == |posts| <==> forall i :: 0 <= i < |posts| ==> posts[i].id != id
  {
    if posts == [] then 0
    else if posts[0].id == id then 0
    else 1 + IndexOf(posts[1..], id)
  }

  /** The first post of an id keeps its place; a strictly newer one takes that place. */
  function KeepNewest(kept: seq<Post>, p: Post): seq<Post> {
    var k := IndexOf(kept, p.id);
    if k == |kept| then kept + [p]
    else if p.date > kept[k].date then kept[k := p]
    else kept
  }

  function Deduped(posts: seq<Post>): seq<Post> {
    if posts == [] then [] else KeepNewest(Deduped(posts[..|posts| - 1]), posts[|posts| - 1])
  }

  ghost predicate DistinctIds(posts: seq<Post>) {
    forall i, j :: 0 <= i < j < |posts| ==> posts[i].id != posts[j].id
  }

  ghost predicate Covers(kept: seq<Post>, p: Post) {
    exists q :: q in kept && q.id == p.id && q.date >= p.date
  }

  lemma KeepNewestFacts(kept: seq<Post>, p: Post)
    requires DistinctIds(kept)
    ensures DistinctIds(KeepNewest(kept, p)) && Covers(KeepNewest(kept, p), p)
    ensures forall q :: q in KeepNewest(kept, p) ==> q in kept || q == p
  {
    var k, after := IndexOf(kept, p.id), KeepNewest(kept, p);
    assert after[k] in after;
  }

  lemma KeepNewestCovers(kept: seq<Post>, p: Post, x: Post)
    requires Covers(kept, x)
    ensures Covers(KeepNewest(kept, p), x)
  {
    var q :| q in kept && q.id == x.id && q.date >= x.date;
    var i :| 0 <= i < |kept| && kept[i] == q;
    assert KeepNewest(kept, p)[i] in KeepNewest(kept, p);
  }

  /** One post per id remains: the newest of its posts. */
  lemma {:induction false} DedupedFacts(posts: seq<Post>)
    ensures DistinctIds(Deduped(posts))
    ensures forall q :: q in Deduped(posts) ==> q in posts
    ensures forall p :: p in posts ==> Covers(Deduped(posts), p)
  {
    if posts != [] {
      var n := |posts| - 1;
      DedupedFacts(posts[..n]);
      KeepNewestFacts(Deduped(posts[..n]), posts[n]);
      assert posts == posts[..n] + [posts[n]];
      forall x | x in posts[..n] ensures Covers(Deduped(posts), x) {
        KeepNewestCovers(Deduped(posts[..n]), posts[n], x);
      }
    }
  }

  method DedupePosts(posts: seq<Post>) returns (kept: seq<Post>)
    ensures kept == Deduped(posts)
  {
    kept := [];
    for n := 0 to |posts|
      invariant kept == Deduped(posts[..n])
    {
      assert posts[..n + 1][..n] == posts[..n];
      var k := IndexOf(kept, posts[n].id);
      if k == |kept| {
        kept := kept + [posts[n]];
      } else if posts[n].date > kept[k].date {
        kept := kept[k := posts[n]];
      }
    }
    assert posts[..|posts|] == posts;
  }

  // ---------- Selection ----------

  /** Some term occurs in the text, whatever the case of its letters. */
  ghost predicate MatchesAny(text: string, terms: seq<string>) {
    exists i, before, after :: 0 <= i < |terms| && Lower(text) == before + terms[i] + after
  }

  method MatchesTerms(text: string, terms: seq<string>) returns (isMatch: bool)
    ensures isMatch <==> MatchesAny(text, terms)
  {
    var loweredText := Lower(text);
    isMatch := false;
    for i := 0 to |terms|
      invariant !isMatch ==> forall k :: 0 <= k < i ==> !Contains(loweredText, terms[k])
      invariant isMatch ==> MatchesAny(text, terms)
    {
      ContainsMeaning(loweredText, terms[i]);
      if Contains(loweredText, terms[i]) {
        return true;
      }
    }
    forall k, before, after | 0 <= k < |terms| ensures loweredText != before + terms[k] + after {
      ContainsMeaning(loweredText, terms[k]);
    }
  }

  ghost predicate IsUnread(p: Post, terms: seq<string>, lastSeen: int) {
    p.id.Number? && p.id.n > lastSeen && MatchesAny(p.text, terms)
  }

  ghost function Unread(posts: seq<Post>, terms: seq<string>, lastSeen: int): seq<Post> {
    if posts == [] then []
    else
      var p := posts[|posts| - 1];
      Unread(posts[..|posts| - 1], terms, lastSeen) + if IsUnread(p, terms, lastSeen) then [p] else []
  }

  /** Inserts behind every post that is at least as new: a stable order, newest first. */
  function InsertByDate(sorted: seq<Post>, p: Post): seq<Post> {
    if sorted == [] || sorted[0].date < p.date then [p] + sorted else [sorted[0]] + InsertByDate(sorted[1..], p)
  }

  function ByDate(posts: seq<Post>): seq<Post> {
    if posts == [] then [] else InsertByDate(ByDate(posts[..|posts| - 1]), posts[|posts| - 1])
  }

  function Peak(posts: seq<Post>): nat {
    if posts == [] then 0
    else
      var before, p := Peak(posts[..|posts| - 1]), posts[|posts| - 1];
      if p.id.Number? && p.id.n > before then p.id.n else before
  }

  ghost predicate Sorted(posts: seq<Post>) {
    forall i, j :: 0 <= i < j < |posts| ==> posts[i].date >= posts[j].date
  }

  lemma {:induction false} InsertMembers(sorted: seq<Post>, p: Post)
    ensures |InsertByDate(sorted, p)| == |sorted| + 1
    ensures multiset(InsertByDate(sorted, p)) == multiset(sorted) + multiset{p}
  {
    if sorted != [] && sorted[0].date >= p.date {
      InsertMembers(sorted[1..], p);
      assert sorted == [sorted[0]] + sorted[1..];
    }
  }

  lemma {:induction false} InsertKeepsSorted(sorted: seq<Post>, p: Post)
    requires Sorted(sorted)
    ensures Sorted(InsertByDate(sorted, p))
  {
    if sorted != [] && sorted[0].date >= p.date {
      var rest := InsertByDate(sorted[1..], p);
      InsertKeepsSorted(sorted[1..], p);
      InsertMembers(sorted[1..], p);
      forall i | 0 <= i < |rest| ensures rest[i].date <= sorted[0].date {
        assert rest[i] in multiset(rest);
        assert rest[i] == p || rest[i] in sorted[1..];
      }
    }
  }

  /** Sorting rearranges: the same posts, each as often, newest first. */
  lemma {:induction false} ByDateFacts(posts: seq<Post>)
    ensures Sorted(ByDate(posts)) && |ByDate(posts)| == |posts|
    ensures multiset(ByDate(posts)) == multiset(posts)
  {
    if posts != [] {
      var before, last := posts[..|posts| - 1], posts[|posts| - 1];
      ByDateFacts(before);
      InsertMembers(ByDate(before), last);
      InsertKeepsSorted(ByDate(before), last);
      assert multiset(posts) == multiset(before) + multiset{last} by {
        assert posts == before + [last];
      }
    }
  }

  lemma {:induction false} UnreadFacts(posts: seq<Post>, terms: seq<string>, lastSeen: int)
    ensures forall p :: p in Unread(posts, terms, lastSeen) <==> p in posts && IsUnread(p, terms, lastSeen)
    ensures DistinctIds(posts) ==> DistinctIds(Unread(posts, terms, lastSeen))
  {
    if posts != [] {
      var n := |posts| - 1;
      UnreadFacts(posts[..n], terms, lastSeen);
      assert posts == posts[..n] + [posts[n]];
      var before := Unread(posts[..n], terms, lastSeen);
      if DistinctIds(posts) {
        forall i | 0 <= i < |before| ensures before[i].id != posts[n].id {
          assert before[i] in before;
        }
      }
    }
  }

  lemma {:induction false} DistinctIsPermutationInvariant(a: seq<Post>, b: seq<Post>)
    requires DistinctIds(a) && multiset(a) == multiset(b)
    ensures DistinctIds(b)
  {
    forall i, j | 0 <= i < j < |b| ensures b[i].id != b[j].id {
      if b[i].id == b[j].id {
        assert b[i] in multiset(a) && b[j] in multiset(a);
        assert b[i] in a && b[j] in a;
        assert b[i] == b[j];
        assert b == b[..i] + [b[i]] + b[i + 1..j] + [b[j]] + b[j + 1..];
        assert multiset(b)[b[i]] >= 2;
        OnceInDistinct(a, b[i]);
        assert false;
      }
    }
  }

  lemma {:induction false} OnceInDistinct(a: seq<Post>, p: Post)
    requires DistinctIds(a)
    ensures multiset(a)[p] <= 1
  {
    if a != [] {
      var n := |a| - 1;
      OnceInDistinct(a[..n], p);
      assert a == a[..n] + [a[n]];
      if a[n] == p {
        assert p !in a[..n];
      }
    }
  }

  // ---------- One channel ----------

  /** The posts of one channel page that a fetch returns: the newest of the unread matching ones. */
  ghost function SelectedPosts(page: seq<Post>, terms: seq<string>, lastSeen: int): seq<Post> {
    var sorted := ByDate(Unread(Deduped(page), terms, lastSeen));
    sorted[..if |sorted| < MAX_POSTS_PER_CHANNEL then |sorted| else MAX_POSTS_PER_CHANNEL]
  }

  lemma SelectedFacts(page: seq<Post>, terms: seq<string>, lastSeen: int)
    ensures DistinctIds(SelectedPosts(page, terms, lastSeen))
    ensures forall p :: p in SelectedPosts(page, terms, lastSeen) ==>
      p in page && IsUnread(p, terms, lastSeen)
  {
    var kept := Deduped(page);
    var unread := Unread(kept, terms, lastSeen);
    DedupedFacts(page);
    UnreadFacts(kept, terms, lastSeen);
    ByDateFacts(unread);
    DistinctIsPermutationInvariant(unread, ByDate(unread));
    forall p | p in SelectedPosts(page, terms, lastSeen)
      ensures p in page && IsUnread(p, terms, lastSeen)
    {
      assert p in multiset(ByDate(unread));
      assert p in unread;
    }
  }

  // ---------- Which posts are returned ----------

  /** The posts that come before one of them: newer, or of the same date and earlier on the page. */
  ghost function Ahead(posts: seq<Post>, k: nat): set<nat>
    requires k < |posts|
  {
    set j | 0 <= j < |posts| && (posts[j].date > posts[k].date || (posts[j].date == posts[k].date && j < k))
  }

  /** How many posts are of this date or newer. */
  function CountFrom(posts: seq<Post>, date: int): nat {
    if posts == [] then 0 else CountFrom(posts[..|posts| - 1], date) + if posts[|posts| - 1].date >= date then 1 else 0
  }

  lemma {:induction false} CountFromConcat(a: seq<Post>, b: seq<Post>, date: int)
    ensures CountFrom(a + b, date) == CountFrom(a, date) + CountFrom(b, date)
  {
    if b == [] {
      assert a + b == a;
    } else {
      InitOfConcat(a, b);
      CountFromConcat(a, b[..|b| - 1], date);
    }
  }

  lemma CountFromOne(p: Post, date: int)
    ensures CountFrom([p], date) == if p.date >= date then 1 else 0
  {
    assert [p][..0] == [];
  }

  lemma {:induction false} NoneFrom(posts: seq<Post>, date: int)
    requires forall i :: 0 <= i < |posts| ==> posts[i].date < date
    ensures CountFrom(posts, date) == 0
  {
    if posts != [] {
      NoneFrom(posts[..|posts| - 1], date);
    }
  }

  /** A post is inserted right behind those of its date or newer. */
  lemma {:induction false} InsertPlace(sorted: seq<Post>, p: Post)
    requires Sorted(sorted)
    ensures var n := CountFrom(sorted, p.date);
      n <= |sorted| && InsertByDate(sorted, p) == sorted[..n] + [p] + sorted[n..]
  {
    if sorted == [] || sorted[0].date < p.date {
      NoneFrom(sorted, p.date);
      PlaceAtStart(sorted, p);
    } else {
      InsertPlace(sorted[1..], p);
      CountFromRest(sorted, p.date);
      PlaceShifts(sorted, CountFrom(sorted[1..], p.date), p);
    }
  }

  lemma CountFromRest(posts: seq<Post>, date: int)
    requires posts != []
    ensures CountFrom(posts, date) == CountFrom(posts[1..], date) + if posts[0].date >= date then 1 else 0
  {
    assert posts == [posts[0]] + posts[1..];
    CountFromConcat([posts[0]], posts[1..], date);
    CountFromOne(posts[0], date);
  }

  lemma {:induction false} FromIsPrefix(sorted: seq<Post>, date: int)
    requires Sorted(sorted)
    ensures CountFrom(sorted, date) <= |sorted|
    ensures forall i :: 0 <= i < |sorted| ==> (sorted[i].date >= date <==> i < CountFrom(sorted, date))
  {
    if sorted != [] {
      var n := |sorted| - 1;
      FromIsPrefix(sorted[..n], date);
      if sorted[n].date >= date && n > 0 {
        assert sorted[..n][n - 1].date >= sorted[n].date;
      }
    }
  }

  lemma PlaceAtStart(sorted: seq<Post>, p: Post)
    ensures [p] + sorted == sorted[..0] + [p] + sorted[0..]
  {
  }

  lemma PlaceShifts(sorted: seq<Post>, n: nat, p: Post)
    requires n < |sorted|
    ensures [sorted[0]] + (sorted[1..][..n] + [p] + sorted[1..][n..]) == sorted[..n + 1] + [p] + sorted[n + 1..]
  {
    assert sorted[..n + 1] == [sorted[0]] + sorted[1..][..n] && sorted[n + 1..] == sorted[1..][n..];
  }

  lemma CountAfterInsert(sorted: seq<Post>, p: Post, date: int)
    requires Sorted(sorted)
    ensures CountFrom(InsertByDate(sorted, p), date) == CountFrom(sorted + [p], date)
  {
    InsertPlace(sorted, p);
    var n := CountFrom(sorted, p.date);
    assert sorted == sorted[..n] + sorted[n..];
    CountFromConcat(sorted[..n], sorted[n..], date);
    CountFromConcat(sorted[..n] + [p], sorted[n..], date);
    CountFromConcat(sorted[..n], [p], date);
    CountFromConcat(sorted, [p], date);
  }

  lemma {:induction false} CountByDate(posts: seq<Post>, date: int)
    ensures CountFrom(ByDate(posts), date) == CountFrom(posts, date)
  {
    if posts != [] {
      var before, last := posts[..|posts| - 1], posts[|posts| - 1];
      CountByDate(before, date);
      ByDateFacts(before);
      CountAfterInsert(ByDate(before), last, date);
      CountFromConcat(ByDate(before), [last], date);
      CountFromOne(last, date);
    }
  }

  lemma {:induction false} CountIsAhead(posts: seq<Post>, date: int)
    ensures |set j: nat | j < |posts| && posts[j].date >= date| == CountFrom(posts, date)
  {
    if posts != [] {
      var n := |posts| - 1;
      var before := posts[..n];
      CountIsAhead(before, date);
      assert (set j: nat | j < |posts| && posts[j].date >= date)
          == (set j: nat | j < |before| && before[j].date >= date) + (if posts[n].date >= date then {n} else {});
    }
  }

  lemma AheadOfLast(before: seq<Post>, last: Post)
    ensures |Ahead(before + [last], |before|)| == CountFrom(before, last.date)
  {
    CountIsAhead(before, last.date);
    LastIsBehind(before, last);
  }

  lemma LastIsBehind(before: seq<Post>, last: Post)
    ensures Ahead(before + [last], |before|) == set j: nat | j < |before| && before[j].date >= last.date
  {
    var posts := before + [last];
    assert forall j :: 0 <= j < |before| ==> posts[j] == before[j];
  }

  lemma AheadOfEarlier(before: seq<Post>, last: Post, k: nat)
    requires k < |before|
    ensures |Ahead(before + [last], k)| == |Ahead(before, k)| + if last.date > before[k].date then 1 else 0
  {
    var n := |before|;
    assert Ahead(before + [last], k) == Ahead(before, k) + if last.date > before[k].date then {n} else {};
  }

  /** In the order newest first a post stands behind exactly those ahead of it. */
  lemma {:induction false} RankByDate(posts: seq<Post>, k: nat)
    requires k < |posts|
    ensures |Ahead(posts, k)| < |posts| == |ByDate(posts)| && ByDate(posts)[|Ahead(posts, k)|] == posts[k]
  {
    var n := |posts| - 1;
    if k < n {
      RankByDate(posts[..n], k);
    }
    RankAfterInsert(posts[..n], posts[n], k);
    assert posts == posts[..n] + [posts[n]];
  }

  lemma RankAfterInsert(before: seq<Post>, last: Post, k: nat)
    requires k <= |before|
    requires k < |before| ==> |Ahead(before, k)| < |ByDate(before)| && ByDate(before)[|Ahead(before, k)|] == before[k]
    ensures var posts, sorted := before + [last], InsertByDate(ByDate(before), last);
      |Ahead(posts, k)| < |posts| == |sorted| && sorted[|Ahead(posts, k)|] == posts[k]
  {
    ByDateFacts(before);
    CountByDate(before, last.date);
    if k == |before| {
      AheadOfLast(before, last);
      Inserted(ByDate(before), last, 0);
    } else {
      AheadOfEarlier(before, last, k);
      Inserted(ByDate(before), last, |Ahead(before, k)|);
    }
  }

  lemma Inserted(sorted: seq<Post>, p: Post, i: nat)
    requires Sorted(sorted)
    ensures var r, n := InsertByDate(sorted, p), CountFrom(sorted, p.date);
      && n < |r| == |sorted| + 1 && r[n] == p
      && (i < |sorted| ==> r[if sorted[i].date >= p.date then i else i + 1] == sorted[i])
  {
    InsertPlace(sorted, p);
    FromIsPrefix(sorted, p.date);
  }

  /** An unread matching post is returned if and only if fewer than twenty of them come before it. */
  lemma ReturnedIff(page: seq<Post>, terms: seq<string>, lastSeen: int, k: nat)
    requires k < |Unread(Deduped(page), terms, lastSeen)|
    ensures var unread := Unread(Deduped(page), terms, lastSeen);
      unread[k] in SelectedPosts(page, terms, lastSeen) <==> |Ahead(unread, k)| < MAX_POSTS_PER_CHANNEL
  {
    var unread := Unread(Deduped(page), terms, lastSeen);
    var sorted, rank := ByDate(unread), |Ahead(unread, k)|;
    RankByDate(unread, k);
    DedupedFacts(page);
    UnreadFacts(Deduped(page), terms, lastSeen);
    ByDateFacts(unread);
    DistinctIsPermutationInvariant(unread, sorted);
    if rank < MAX_POSTS_PER_CHANNEL {
      assert SelectedPosts(page, terms, lastSeen)[rank] == unread[k];
    }
  }

  /** As many posts are returned as qualify, up to twenty: with more of them some are left out. */
  lemma ReturnedCount(page: seq<Post>, terms: seq<string>, lastSeen: int)
    ensures var n := |Unread(Deduped(page), terms, lastSeen)|;
      |SelectedPosts(page, terms, lastSeen)| == if n < MAX_POSTS_PER_CHANNEL then n else MAX_POSTS_PER_CHANNEL
  {
    ByDateFacts(Unread(Deduped(page), terms, lastSeen));
  }

  /** Everything returned is one of the unread matching posts. */
  lemma SelectedIsUnread(page: seq<Post>, terms: seq<string>, lastSeen: int, p: Post)
    requires p in SelectedPosts(page, terms, lastSeen)
    ensures p in Unread(Deduped(page), terms, lastSeen)
  {
    var unread := Unread(Deduped(page), terms, lastSeen);
    ByDateFacts(unread);
    assert p in multiset(ByDate(unread));
    assert p in multiset(unread);
  }

  // ---------- The remembered state ----------

  ghost function SeenIn(lastSeen: map<string, int>, channel: string): int {
    if channel in lastSeen then lastSeen[channel] else 0
  }

  ghost predicate NonNegative(lastSeen: map<string, int>) {
    forall c :: SeenIn(lastSeen, c) >= 0
  }

  /** The highest of a number and some ids. */
  ghost predicate IsHighest(base: int, ids: iset<nat>, top: int) {
    && top >= base && (forall n :: n in ids ==> n <= top)
    && (top == base || exists n :: n in ids && n == top)
  }

  lemma HighestChains(base: int, a: iset<nat>, mid: int, b: iset<nat>, top: int)
    requires IsHighest(base, a, mid) && IsHighest(mid, b, top)
    ensures IsHighest(base, a + b, top)
  {
  }

  /** One update: ids are only ever raised, and blank channel names are ignored. */
  ghost function Raise(lastSeen: map<string, int>, update: (string, int)): map<string, int> {
    var channel := Key(update.0);
    if channel != "" && update.1 > SeenIn(lastSeen, channel) then lastSeen[channel := update.1] else lastSeen
  }

  ghost function Merged(lastSeen: map<string, int>, updates: seq<(string, int)>): map<string, int> {
    if updates == [] then lastSeen
    else Raise(Merged(lastSeen, updates[..|updates| - 1]), updates[|updates| - 1])
  }

  /** A merge lowers nothing, takes every update in, and stores nothing else. */
  lemma {:induction false} MergedFacts(lastSeen: map<string, int>, updates: seq<(string, int)>)
    ensures forall c :: SeenIn(Merged(lastSeen, updates), c) >= SeenIn(lastSeen, c)
    ensures forall u :: u in updates && Key(u.0) != "" ==> SeenIn(Merged(lastSeen, updates), Key(u.0)) >= u.1
    ensures forall c ::
      (SeenIn(Merged(lastSeen, updates), c) == SeenIn(lastSeen, c) ||
       IsUpdate(updates, c, SeenIn(Merged(lastSeen, updates), c)))
  {
    if updates != [] {
      var n := |updates| - 1;
      MergedFacts(lastSeen, updates[..n]);
      assert updates == updates[..n] + [updates[n]];
      forall c | SeenIn(Merged(lastSeen, updates), c) != SeenIn(lastSeen, c)
        ensures IsUpdate(updates, c, SeenIn(Merged(lastSeen, updates), c))
      {
        UpdateSnoc(updates, c, SeenIn(Merged(lastSeen, updates), c));
      }
    }
  }

  ghost predicate IsUpdate(updates: seq<(string, int)>, c: string, id: int) {
    exists u :: u in updates && Key(u.0) == c != "" && u.1 == id
  }

  lemma UpdateSnoc(updates: seq<(string, int)>, c: string, id: int)
    requires updates != []
    ensures var n := |updates| - 1;
      IsUpdate(updates[..n], c, id) || (Key(updates[n].0) == c != "" && updates[n].1 == id) ==> IsUpdate(updates, c, id)
  {
    assert updates == updates[..|updates| - 1] + [updates[|updates| - 1]];
  }

  class ReadStateStore {
    var lastSeen: map<string, int>

    constructor ()
      ensures lastSeen == map[]
    {
      lastSeen := map[];
    }

    method MergeChannelLastSeen(updates: seq<(string, int)>)
      modifies this
      ensures lastSeen == Merged(old(lastSeen), updates)
    {
      var existing := lastSeen;
      for n := 0 to |updates|
        invariant existing == Merged(lastSeen, updates[..n])
      {
        assert updates[..n + 1][..n] == updates[..n];
        var channel := Key(updates[n].0);
        if channel != "" {
          var previous := if channel in existing then existing[channel] else 0;
          if updates[n].1 > previous {
            existing := existing[channel := updates[n].1];
          }
        }
      }
      assert updates[..|updates|] == updates;
      lastSeen := existing;
    }
  }

  // ---------- Fetching ----------

  /** The channel names of a topic as they are fetched: normalised, without blanks, each once. */
  function ChannelSet(configured: seq<string>): set<string> {
    set c | c in configured && Strip(c) != "" :: Key(c)
  }

  lemma ChannelSetFacts(configured: seq<string>)
    ensures forall c :: c in ChannelSet(configured) ==> Key(c) == c && c != ""
  {
    forall c | c in ChannelSet(configured) ensures Key(c) == c && c != "" {
      var raw :| raw in configured && Strip(raw) != "" && Key(raw) == c;
      KeyIdempotent(raw);
      assert |Lower(Strip(raw))| == |Strip(raw)|;
    }
  }

  /** The numbered posts that a page shows. */
  ghost predicate Shows(page: seq<Post>, id: nat) {
    exists p :: p in page && p.id == Number(id)
  }

  /** The unread matching posts of a page that come before one of its posts: newer, or of the same date and
      earlier on the page. */
  ghost function Rivals(posts: seq<Post>, terms: seq<string>, lastSeen: int, k: nat): set<nat>
    requires k < |posts|
  {
    set j | 0 <= j < |posts| && IsUnread(posts[j], terms, lastSeen) && Precedes(posts, j, k)
  }

  ghost predicate Precedes(posts: seq<Post>, j: nat, k: nat)
    requires j < |posts| && k < |posts|
  {
    posts[j].date > posts[k].date || (posts[j].date == posts[k].date && j < k)
  }

  /** The unread matching posts of this date or newer. */
  ghost function UnreadFrom(posts: seq<Post>, terms: seq<string>, lastSeen: int, date: int): set<nat> {
    set j: nat | j < |posts| && IsUnread(posts[j], terms, lastSeen) && posts[j].date >= date
  }

  lemma UnreadFromLast(posts: seq<Post>, terms: seq<string>, lastSeen: int, date: int)
    requires posts != []
    ensures var n := |posts| - 1;
      |UnreadFrom(posts, terms, lastSeen, date)| ==
      |UnreadFrom(posts[..n], terms, lastSeen, date)| + if IsUnread(posts[n], terms, lastSeen) && posts[n].date >= date then 1 else 0
  {
    var n := |posts| - 1;
    assert forall j :: 0 <= j < n ==> posts[..n][j] == posts[j];
    assert UnreadFrom(posts, terms, lastSeen, date) ==
      UnreadFrom(posts[..n], terms, lastSeen, date) +
      (if IsUnread(posts[n], terms, lastSeen) && posts[n].date >= date then {n} else {});
  }

  lemma UnreadWithLast(posts: seq<Post>, terms: seq<string>, lastSeen: int, date: int)
    requires posts != []
    ensures var n := |posts| - 1;
      CountFrom(Unread(posts, terms, lastSeen), date) ==
      CountFrom(Unread(posts[..n], terms, lastSeen), date) + if IsUnread(posts[n], terms, lastSeen) && posts[n].date >= date then 1 else 0
  {
    var before, last := Unread(posts[..|posts| - 1], terms, lastSeen), posts[|posts| - 1];
    if IsUnread(last, terms, lastSeen) {
      CountFromConcat(before, [last], date);
      CountFromOne(last, date);
    } else {
      assert Unread(posts, terms, lastSeen) == before;
    }
  }

  lemma {:induction false} UnreadFromCount(posts: seq<Post>, terms: seq<string>, lastSeen: int, date: int)
    ensures |UnreadFrom(posts, terms, lastSeen, date)| == CountFrom(Unread(posts, terms, lastSeen), date)
  {
    if posts != [] {
      UnreadFromCount(posts[..|posts| - 1], terms, lastSeen, date);
      UnreadFromLast(posts, terms, lastSeen, date);
      UnreadWithLast(posts, terms, lastSeen, date);
    }
  }

  lemma RivalsWithLast(posts: seq<Post>, terms: seq<string>, lastSeen: int, k: nat)
    requires k < |posts|
    ensures var n := |posts| - 1;
      Rivals(posts, terms, lastSeen, k) ==
      if k == n then UnreadFrom(posts[..n], terms, lastSeen, posts[n].date)
      else Rivals(posts[..n], terms, lastSeen, k) +
           if IsUnread(posts[n], terms, lastSeen) && posts[n].date > posts[k].date then {n} else {}
  {
    var n := |posts| - 1;
    assert forall j :: 0 <= j < n ==> posts[..n][j] == posts[j];
  }

  /** Where an unread matching post stands among them, and that its rivals are those ahead of it there. */
  lemma {:induction false} RivalsAreAhead(posts: seq<Post>, terms: seq<string>, lastSeen: int, k: nat) returns (q: nat)
    requires k < |posts| && IsUnread(posts[k], terms, lastSeen)
    ensures var unread := Unread(posts, terms, lastSeen);
      q < |unread| && unread[q] == posts[k] && |Ahead(unread, q)| == |Rivals(posts, terms, lastSeen, k)|
  {
    var n := |posts| - 1;
    var before := Unread(posts[..n], terms, lastSeen);
    RivalsWithLast(posts, terms, lastSeen, k);
    if k == n {
      q := |before|;
      UnreadFromCount(posts[..n], terms, lastSeen, posts[n].date);
      AheadOfLast(before, posts[n]);
    } else {
      q := RivalsAreAhead(posts[..n], terms, lastSeen, k);
      if IsUnread(posts[n], terms, lastSeen) {
        AheadOfEarlier(before, posts[n], q);
      } else {
        assert Unread(posts, terms, lastSeen) == before;
      }
    }
  }

  /** The item is an unread matching post of its channel's page with fewer than twenty rivals. */
  ghost predicate Chosen(pages: string -> seq<Post>, terms: seq<string>, lastSeen: map<string, int>, item: Item) {
    var posts, seen := Deduped(pages(item.channel)), SeenIn(lastSeen, item.channel);
    exists k :: 0 <= k < |posts| && posts[k].id == Number(item.id) && IsUnread(posts[k], terms, seen) &&
      |Rivals(posts, terms, seen, k)| < MAX_POSTS_PER_CHANNEL
  }

  lemma ChosenIsSelected(pages: string -> seq<Post>, terms: seq<string>, lastSeen: map<string, int>, item: Item)
    ensures var page, seen := pages(item.channel), SeenIn(lastSeen, item.channel);
      Chosen(pages, terms, lastSeen, item) <==>
      exists p :: p in SelectedPosts(page, terms, seen) && p.id == Number(item.id)
  {
    var page, seen := pages(item.channel), SeenIn(lastSeen, item.channel);
    var posts := Deduped(page);
    if Chosen(pages, terms, lastSeen, item) {
      var k :| 0 <= k < |posts| && posts[k].id == Number(item.id) && IsUnread(posts[k], terms, seen) &&
        |Rivals(posts, terms, seen, k)| < MAX_POSTS_PER_CHANNEL;
      var q := RivalsAreAhead(posts, terms, seen, k);
      ReturnedIff(page, terms, seen, q);
      assert posts[k] in SelectedPosts(page, terms, seen);
    }
    if p :| p in SelectedPosts(page, terms, seen) && p.id == Number(item.id) {
      SelectedIsChosen(page, terms, seen, p);
    }
  }

  lemma SelectedIsChosen(page: seq<Post>, terms: seq<string>, seen: int, p: Post)
    requires p in SelectedPosts(page, terms, seen)
    ensures var posts := Deduped(page);
      exists k :: 0 <= k < |posts| && posts[k] == p && IsUnread(p, terms, seen) &&
        |Rivals(posts, terms, seen, k)| < MAX_POSTS_PER_CHANNEL
  {
    var posts, unread := Deduped(page), Unread(Deduped(page), terms, seen);
    SelectedIsUnread(page, terms, seen, p);
    DedupedFacts(page);
    UnreadFacts(posts, terms, seen);
    var k :| 0 <= k < |posts| && posts[k] == p;
    var q := RivalsAreAhead(posts, terms, seen, k);
    ReturnedIff(page, terms, seen, q);
  }

  function NumberOf(id: MessageId): nat {
    if id.Number? then id.n else 0
  }

  function ItemsOf(channel: string, posts: seq<Post>): (items: seq<Item>)
    ensures |items| == |posts|
    ensures forall i :: 0 <= i < |posts| ==> items[i] == Item(channel, NumberOf(posts[i].id))
  {
    seq(|posts|, i requires 0 <= i < |posts| => Item(channel, NumberOf(posts[i].id)))
  }

  /** The items of these channels, channel after channel, each channel's newest first. */
  ghost function ItemsIn(channels: seq<string>, terms: seq<string>, lastSeen: map<string, int>, pages: string -> seq<Post>): seq<Item> {
    if channels == [] then []
    else
      var c := channels[|channels| - 1];
      ItemsIn(channels[..|channels| - 1], terms, lastSeen, pages) +
      ItemsOf(c, SelectedPosts(pages(c), terms, SeenIn(lastSeen, c)))
  }

  method MaxParsedMessageId(posts: seq<Post>) returns (peak: nat)
    ensures peak == Peak(posts)
  {
    peak := 0;
    for n := 0 to |posts|
      invariant peak == Peak(posts[..n])
    {
      assert posts[..n + 1][..n] == posts[..n];
      if posts[n].id.Number? && posts[n].id.n > peak {
        peak := posts[n].id.n;
      }
    }
    assert posts[..|posts|] == posts;
  }

  /** The posts that are numbered, above the last id seen, and about one of the terms. */
  method FilterUnread(posts: seq<Post>, terms: seq<string>, lastSeen: int) returns (unread: seq<Post>)
    ensures unread == Unread(posts, terms, lastSeen)
  {
    unread := [];
    for n := 0 to |posts|
      invariant unread == Unread(posts[..n], terms, lastSeen)
    {
      assert posts[..n + 1][..n] == posts[..n];
      if posts[n].id.Number? && posts[n].id.n > lastSeen {
        var isMatch := MatchesTerms(posts[n].text, terms);
        if isMatch {
          unread := unread + [posts[n]];
        }
      }
    }
    assert posts[..|posts|] == posts;
  }

  /** The channel's items for this fetch and the highest id on its page; a failed page load is empty. */
  method CollectUnreadForOneChannel(channel: string, terms: seq<string>, lastSeen: int, page: seq<Post>)
    returns (items: seq<Item>, peak: nat)
    ensures forall p :: p in SelectedPosts(page, terms, lastSeen) ==> p.id.Number?
    ensures items == ItemsOf(channel, SelectedPosts(page, terms, lastSeen)) && peak == Peak(Deduped(page))
  {
    var posts := DedupePosts(page);
    peak := MaxParsedMessageId(posts);
    var unread := FilterUnread(posts, terms, lastSeen);
    SelectedFacts(page, terms, lastSeen);
    var sorted := SortByDate(unread);
    var selected := sorted[..if |sorted| < MAX_POSTS_PER_CHANNEL then |sorted| else MAX_POSTS_PER_CHANNEL];
    items := FormatItems(channel, selected);
  }

  /** Sorts newest first and keeps posts of the same date in their order. */
  method SortByDate(posts: seq<Post>) returns (sorted: seq<Post>)
    ensures Sorted(sorted) && multiset(sorted) == multiset(posts)
    ensures |sorted| == |posts| && forall k :: 0 <= k < |posts| ==>
      |Ahead(posts, k)| < |sorted| && sorted[|Ahead(posts, k)|] == posts[k]
    ensures sorted == ByDate(posts)
  {
    sorted := [];
    for n := 0 to |posts|
      invariant sorted == ByDate(posts[..n])
    {
      assert posts[..n + 1][..n] == posts[..n];
      ByDateFacts(posts[..n]);
      var place := PlaceFor(sorted, posts[n]);
      InsertPlace(sorted, posts[n]);
      sorted := sorted[..place] + [posts[n]] + sorted[place..];
    }
    assert posts[..|posts|] == posts;
    ByDateFacts(posts);
    forall k | 0 <= k < |posts| ensures |Ahead(posts, k)| < |sorted| && sorted[|Ahead(posts, k)|] == posts[k] {
      RankByDate(posts, k);
    }
  }

  /** The place behind every post that is at least as new. */
  method PlaceFor(sorted: seq<Post>, p: Post) returns (place: nat)
    requires Sorted(sorted)
    ensures place == CountFrom(sorted, p.date)
  {
    FromIsPrefix(sorted, p.date);
    place := 0;
    while place < |sorted| && sorted[place].date >= p.date
      invariant place <= CountFrom(sorted, p.date)
    {
      place := place + 1;
    }
  }

  method FormatItems(channel: string, posts: seq<Post>) returns (items: seq<Item>)
    ensures items == ItemsOf(channel, posts)
  {
    items := [];
    for n := 0 to |posts|
      invariant items == ItemsOf(channel, posts[..n])
    {
      items := items + [Item(channel, NumberOf(posts[n].id))];
    }
    assert posts[..|posts|] == posts;
  }

  class TopicDigestReader {
    const store: ReadStateStore
    ghost const firstSeen: map<string, int>
    ghost var returned: seq<Item>
    ghost var shown: iset<Item>

    constructor (store: ReadStateStore)
      requires NonNegative(store.lastSeen)
      ensures Valid() && this.store == store && returned == [] && shown == iset{} && firstSeen == store.lastSeen
    {
      this.store, firstSeen, returned, shown := store, store.lastSeen, [], iset{};
    }

    /** Nothing was returned twice, and the id remembered for each channel is the highest that any fetched page
        ever showed, returned or not, or the one remembered at the start. */
    ghost predicate Valid()
      reads this, store
    {
      && NoRepeats(returned) && NonNegative(firstSeen)
      && (forall item :: item in returned ==> item in shown)
      && (forall c :: IsHighest(SeenIn(firstSeen, c), IdsIn(shown, c), SeenIn(store.lastSeen, c)))
    }

    /** Of the pages of these channels, the new matching posts behind fewer than twenty others: those above every
        id that a page of the channel has shown, and above the one remembered at the start. */
    ghost predicate AreDue(items: seq<Item>, channels: set<string>, terms: seq<string>, pages: string -> seq<Post>,
                           seen: iset<Item>)
    {
      forall item :: item in items <==>
        item.channel in channels &&
        IsDue(Deduped(pages(item.channel)), SeenIn(firstSeen, item.channel), IdsIn(seen, item.channel), terms, item.id)
    }

    method FetchUnread(configured: seq<string>, terms: seq<string>, pages: string -> seq<Post>)
      returns (items: seq<Item>)
      requires Valid()
      modifies this, store
      ensures Valid() && returned == old(returned) + items
      ensures items == ItemsIn(Ordered(ChannelSet(configured)), terms, old(store.lastSeen), pages)
      ensures forall item :: item in items ==> item !in old(shown)
      ensures AreDue(items, ChannelSet(configured), terms, pages, old(shown))
      ensures shown == old(shown) + ShownBy(ChannelSet(configured), pages)
      ensures IsRaised(ChannelSet(configured), pages, old(store.lastSeen), store.lastSeen)
    {
      var lastSeenMap := store.lastSeen;
      ghost var channels := ChannelSet(configured);
      ChannelSetFacts(configured);
      var sorted := SortedChannels(configured);
      var updates;
      items, updates := CollectAll(sorted, channels, terms, lastSeenMap, pages);
      store.MergeChannelLastSeen(updates);
      MergeRaises(channels, pages, lastSeenMap, updates);
      DueItems(items, channels, terms, pages, lastSeenMap);
      ItemsAreNew(items, channels, terms, pages);
      AppendNew(returned, items);
      StillHighest(firstSeen, shown, channels, pages, lastSeenMap, store.lastSeen);
      returned, shown := returned + items, shown + ShownBy(channels, pages);
    }

    lemma DueItems(items: seq<Item>, channels: set<string>, terms: seq<string>, pages: string -> seq<Post>,
                   lastSeen: map<string, int>)
      requires forall c :: IsHighest(SeenIn(firstSeen, c), IdsIn(shown, c), SeenIn(lastSeen, c))
      requires forall item :: item in items <==> item.channel in channels && Chosen(pages, terms, lastSeen, item)
      ensures AreDue(items, channels, terms, pages, shown)
    {
      forall item: Item {
        ChosenIsDue(pages, terms, lastSeen, item, SeenIn(firstSeen, item.channel), IdsIn(shown, item.channel));
      }
    }

    lemma ItemsAreNew(items: seq<Item>, channels: set<string>, terms: seq<string>, pages: string -> seq<Post>)
      requires AreDue(items, channels, terms, pages, shown)
      ensures forall item :: item in items ==> item !in shown && item in ShownBy(channels, pages)
    {
      forall item | item in items ensures item !in shown && item in ShownBy(channels, pages) {
        DueIsShown(pages(item.channel), SeenIn(firstSeen, item.channel), IdsIn(shown, item.channel), terms, item.id);
      }
    }

    /** The fetch of one topic, as far as it is configured. Without a channel or a keyword nothing is
        read, so nothing is marked as seen either. */
    method FetchTopic(config: Option<TopicConfig>, pages: string -> seq<Post>) returns (status: Status, items: seq<Item>)
      requires Valid()
      modifies this, store
      ensures Valid() && returned == old(returned) + items
      ensures status == StatusOf(config)
      ensures status != Fetched ==> items == [] && shown == old(shown) && store.lastSeen == old(store.lastSeen)
      ensures status == Fetched ==>
        var channels, terms := ChannelSet(config.value.channels), Terms(config.value.keywords);
        && items == ItemsIn(Ordered(channels), terms, old(store.lastSeen), pages)
        && AreDue(items, channels, terms, pages, old(shown)) && shown == old(shown) + ShownBy(channels, pages)
        && IsRaised(channels, pages, old(store.lastSeen), store.lastSeen)
      ensures forall item :: item in items ==> item !in old(shown)
    {
      if config.None? {
        return NeedsSetup, [];
      }
      if ChannelSet(config.value.channels) == {} || AllBlank(config.value.keywords) {
        ChannelsBlankIff(config.value.channels);
        return IncompleteConfig, [];
      }
      ChannelsBlankIff(config.value.channels);
      var terms := NormalizeKeywordTerms(config.value.keywords);
      items := FetchUnread(config.value.channels, terms, pages);
      status := Fetched;
    }
  }

  // ---------- New posts ----------

  /** The ids that the pages fetched so far showed for a channel. */
  ghost function IdsIn(shown: iset<Item>, channel: string): iset<nat> {
    iset n: nat | Item(channel, n) in shown
  }

  ghost function IdsOn(page: seq<Post>): iset<nat> {
    iset n: nat | Shows(page, n)
  }

  /** A matching post above a number and some ids. */
  ghost predicate IsNewMatch(base: int, ids: iset<nat>, p: Post, terms: seq<string>) {
    p.id.Number? && p.id.n > base && (forall n :: n in ids ==> n < p.id.n) && MatchesAny(p.text, terms)
  }

  /** The page has a new matching post of this number behind fewer than twenty others. */
  ghost predicate IsDue(posts: seq<Post>, base: int, ids: iset<nat>, terms: seq<string>, id: nat) {
    exists k :: 0 <= k < |posts| && posts[k].id == Number(id) && IsNewMatch(base, ids, posts[k], terms) &&
      |NewRivals(posts, base, ids, terms, k)| < MAX_POSTS_PER_CHANNEL
  }

  ghost function NewRivals(posts: seq<Post>, base: int, ids: iset<nat>, terms: seq<string>, k: nat): set<nat>
    requires k < |posts|
  {
    set j | 0 <= j < |posts| && IsNewMatch(base, ids, posts[j], terms) && Precedes(posts, j, k)
  }

  lemma NewIsUnread(base: int, ids: iset<nat>, top: int, p: Post, terms: seq<string>)
    requires IsHighest(base, ids, top)
    ensures IsNewMatch(base, ids, p, terms) <==> IsUnread(p, terms, top)
  {
  }

  lemma NewRivalsAreRivals(posts: seq<Post>, base: int, ids: iset<nat>, top: int, terms: seq<string>, k: nat)
    requires IsHighest(base, ids, top) && k < |posts|
    ensures NewRivals(posts, base, ids, terms, k) == Rivals(posts, terms, top, k)
  {
    forall j | 0 <= j < |posts| {
      NewIsUnread(base, ids, top, posts[j], terms);
    }
  }

  /** What is unread by the remembered ids is what is new by the pages shown so far. */
  lemma ChosenIsDue(pages: string -> seq<Post>, terms: seq<string>, lastSeen: map<string, int>, item: Item,
                    base: int, ids: iset<nat>)
    requires IsHighest(base, ids, SeenIn(lastSeen, item.channel))
    ensures Chosen(pages, terms, lastSeen, item) <==> IsDue(Deduped(pages(item.channel)), base, ids, terms, item.id)
  {
    var posts, top := Deduped(pages(item.channel)), SeenIn(lastSeen, item.channel);
    forall k | 0 <= k < |posts|
      ensures IsNewMatch(base, ids, posts[k], terms) <==> IsUnread(posts[k], terms, top)
      ensures NewRivals(posts, base, ids, terms, k) == Rivals(posts, terms, top, k)
    {
      NewIsUnread(base, ids, top, posts[k], terms);
      NewRivalsAreRivals(posts, base, ids, top, terms, k);
    }
  }

  lemma DueIsShown(page: seq<Post>, base: int, ids: iset<nat>, terms: seq<string>, id: nat)
    requires IsDue(Deduped(page), base, ids, terms, id)
    ensures id !in ids && Shows(page, id)
  {
    DedupedFacts(page);
    var posts := Deduped(page);
    var k :| 0 <= k < |posts| && posts[k].id == Number(id) && IsNewMatch(base, ids, posts[k], terms);
    assert posts[k] in posts;
  }

  // ---------- What is remembered ----------

  /** For each fetched channel the larger of the old id and the highest on its page; no other channel changes. */
  ghost predicate IsRaised(channels: set<string>, pages: string -> seq<Post>, before: map<string, int>, after: map<string, int>) {
    && (forall c :: c in channels ==> IsHighest(SeenIn(before, c), IdsOn(pages(c)), SeenIn(after, c)))
    && (forall c :: c !in channels ==> SeenIn(after, c) == SeenIn(before, c))
  }

  lemma {:induction false} PeakFacts(posts: seq<Post>)
    ensures forall p :: p in posts && p.id.Number? ==> p.id.n <= Peak(posts)
    ensures Peak(posts) > 0 ==> exists p :: p in posts && p.id == Number(Peak(posts))
  {
    if posts != [] {
      var last := posts[|posts| - 1];
      PeakFacts(posts[..|posts| - 1]);
      assert posts == posts[..|posts| - 1] + [last];
      assert last in posts;
    }
  }

  lemma ShownIsKept(page: seq<Post>, id: nat)
    ensures Shows(page, id) <==> Shows(Deduped(page), id)
  {
    DedupedFacts(page);
    if p :| p in page && p.id == Number(id) {
      assert Covers(Deduped(page), p);
    }
  }

  lemma PeakIsHighest(page: seq<Post>)
    ensures IsHighest(0, IdsOn(page), Peak(Deduped(page)))
  {
    var peak := Peak(Deduped(page));
    PeakFacts(Deduped(page));
    forall n | n in IdsOn(page) ensures n <= peak {
      ShownIsKept(page, n);
    }
    if peak > 0 {
      ShownIsKept(page, peak);
      assert peak in IdsOn(page);
    }
  }

  lemma MergeRaises(channels: set<string>, pages: string -> seq<Post>, lastSeen: map<string, int>, updates: seq<(string, int)>)
    requires PeaksNoted(channels, pages, updates) && NonNegative(lastSeen)
    requires forall c :: c in channels ==> Key(c) == c && c != ""
    ensures IsRaised(channels, pages, lastSeen, Merged(lastSeen, updates))
  {
    MergedFacts(lastSeen, updates);
    forall c | c in channels ensures IsHighest(SeenIn(lastSeen, c), IdsOn(pages(c)), SeenIn(Merged(lastSeen, updates), c)) {
      ChannelIsRaised(c, channels, pages, lastSeen, updates);
    }
    forall c | c !in channels ensures SeenIn(Merged(lastSeen, updates), c) == SeenIn(lastSeen, c) {
      assert forall u :: u in updates ==> Key(u.0) == u.0 != c;
    }
  }

  lemma ChannelIsRaised(c: string, channels: set<string>, pages: string -> seq<Post>, lastSeen: map<string, int>,
                        updates: seq<(string, int)>)
    requires PeaksNoted(channels, pages, updates) && NonNegative(lastSeen)
    requires c in channels && forall c :: c in channels ==> Key(c) == c && c != ""
    ensures IsHighest(SeenIn(lastSeen, c), IdsOn(pages(c)), SeenIn(Merged(lastSeen, updates), c))
  {
    var before, after, peak := SeenIn(lastSeen, c), SeenIn(Merged(lastSeen, updates), c), Peak(Deduped(pages(c)));
    MergedFacts(lastSeen, updates);
    PeakIsHighest(pages(c));
    if peak > 0 {
      assert (c, peak as int) in updates;
    }
    assert before >= 0 && after >= peak;
    if after != before {
      assert IsUpdate(updates, c, after);
    }
  }

  lemma StillHighest(firstSeen: map<string, int>, shown: iset<Item>, channels: set<string>, pages: string -> seq<Post>,
                     before: map<string, int>, after: map<string, int>)
    requires forall c :: IsHighest(SeenIn(firstSeen, c), IdsIn(shown, c), SeenIn(before, c))
    requires IsRaised(channels, pages, before, after)
    ensures forall c :: IsHighest(SeenIn(firstSeen, c), IdsIn(shown + ShownBy(channels, pages), c), SeenIn(after, c))
  {
    forall c ensures IsHighest(SeenIn(firstSeen, c), IdsIn(shown + ShownBy(channels, pages), c), SeenIn(after, c)) {
      var more := IdsIn(shown + ShownBy(channels, pages), c);
      if c in channels {
        HighestChains(SeenIn(firstSeen, c), IdsIn(shown, c), SeenIn(before, c), IdsOn(pages(c)), SeenIn(after, c));
        assert more == IdsIn(shown, c) + IdsOn(pages(c));
      } else {
        assert more == IdsIn(shown, c);
      }
    }
  }

  // ---------- The configuration of a topic ----------

  datatype TopicConfig = TopicConfig(channels: seq<string>, keywords: seq<string>)

  datatype Status = NeedsSetup | IncompleteConfig | Fetched

  predicate AllBlank(texts: seq<string>) {
    forall i :: 0 <= i < |texts| ==> Strip(texts[i]) == ""
  }

  function StatusOf(config: Option<TopicConfig>): Status {
    match config
    case None => NeedsSetup
    case Some(c) => if AllBlank(c.channels) || AllBlank(c.keywords) then IncompleteConfig else Fetched
  }

  lemma ChannelsBlankIff(configured: seq<string>)
    ensures ChannelSet(configured) == {} <==> AllBlank(configured)
  {
    if i :| 0 <= i < |configured| && Strip(configured[i]) != "" {
      assert Key(configured[i]) in ChannelSet(configured);
    }
  }

  /** The keywords that are searched for: normalised, each once, the first 48 of them. */
  function Terms(keywords: seq<string>): seq<string> {
    if keywords == [] then []
    else
      var before, last := Terms(keywords[..|keywords| - 1]), keywords[|keywords| - 1];
      if |before| >= MAX_KEYWORD_PHRASES || Strip(last) == "" || Key(last) in before then before
      else before + [Key(last)]
  }

  lemma {:induction false} EnoughTerms(keywords: seq<string>, n: nat)
    requires n <= |keywords| && |Terms(keywords[..n])| >= MAX_KEYWORD_PHRASES
    ensures Terms(keywords) == Terms(keywords[..n])
  {
    if n < |keywords| {
      assert keywords[..|keywords| - 1][..n] == keywords[..n];
      EnoughTerms(keywords[..|keywords| - 1], n);
    } else {
      assert keywords[..n] == keywords;
    }
  }

  /** The terms are distinct keys of keywords that are not blank, in their first 48; short of 48 none is missing. */
  lemma {:induction false} TermsFacts(keywords: seq<string>)
    ensures NoRepeats(Terms(keywords)) && |Terms(keywords)| <= MAX_KEYWORD_PHRASES
    ensures forall t :: t in Terms(keywords) ==> exists w :: w in keywords && Strip(w) != "" && Key(w) == t
    ensures |Terms(keywords)| < MAX_KEYWORD_PHRASES ==>
      forall w :: w in keywords && Strip(w) != "" ==> Key(w) in Terms(keywords)
  {
    if keywords != [] {
      var before, last := keywords[..|keywords| - 1], keywords[|keywords| - 1];
      assert keywords == before + [last];
      assert last in keywords && forall w :: w in before ==> w in keywords;
      TermsFacts(before);
    }
  }

  method NormalizeKeywordTerms(keywords: seq<string>) returns (terms: seq<string>)
    ensures terms == Terms(keywords) && |terms| <= MAX_KEYWORD_PHRASES
  {
    terms := [];
    for n := 0 to |keywords|
      invariant terms == Terms(keywords[..n]) && |terms| < MAX_KEYWORD_PHRASES
    {
      assert keywords[..n + 1][..n] == keywords[..n];
      if Strip(keywords[n]) != "" && Key(keywords[n]) !in terms {
        terms := terms + [Key(keywords[n])];
        if |terms| >= MAX_KEYWORD_PHRASES {
          EnoughTerms(keywords, n + 1);
          return;
        }
      }
    }
    assert keywords[..|keywords|] == keywords;
  }

  /** Everything the pages of these channels show. */
  ghost function ShownBy(channels: set<string>, pages: string -> seq<Post>): iset<Item> {
    iset item: Item | item.channel in channels && Shows(pages(item.channel), item.id)
  }

  /** The highest id of every page that has one is noted, and nothing else is. */
  ghost predicate PeaksNoted(channels: set<string>, pages: string -> seq<Post>, updates: seq<(string, int)>) {
    forall c, id :: (c, id) in updates <==> c in channels && id == Peak(Deduped(pages(c))) > 0
  }

  /** Collects channel after channel against the ids remembered before the fetch. */
  method CollectAll(sorted: seq<string>, ghost channels: set<string>, terms: seq<string>, lastSeen: map<string, int>,
                    pages: string -> seq<Post>)
    returns (items: seq<Item>, updates: seq<(string, int)>)
    requires NoRepeats(sorted) && forall c :: c in sorted <==> c in channels
    ensures items == ItemsIn(sorted, terms, lastSeen, pages)
    ensures NoRepeats(items) && PeaksNoted(channels, pages, updates)
    ensures forall item :: item in items <==> item.channel in channels && Chosen(pages, terms, lastSeen, item)
  {
    items, updates := [], [];
    ghost var done: set<string> := {};
    for n := 0 to |sorted|
      invariant items == ItemsIn(sorted[..n], terms, lastSeen, pages)
      invariant forall c :: c in done <==> c in sorted[..n]
      invariant NoRepeats(items) && PeaksNoted(done, pages, updates)
      invariant forall item :: item in items <==> item.channel in done && Chosen(pages, terms, lastSeen, item)
    {
      var c := sorted[n];
      NotYet(sorted, n);
      TakeOneMore(sorted, n);
      var seen := if c in lastSeen then lastSeen[c] else 0;
      var collected, peak := CollectUnreadForOneChannel(c, terms, seen, pages(c));
      CollectedFacts(c, terms, lastSeen, pages, collected);
      NoRepeatsConcat(items, collected, c);
      items := items + collected;
      if peak > 0 {
        updates := updates + [(c, peak)];
      }
      done := done + {c};
    }
    assert sorted[..|sorted|] == sorted;
    assert done == channels;
  }

  lemma NotYet(sorted: seq<string>, n: nat)
    requires NoRepeats(sorted) && n < |sorted|
    ensures sorted[n] !in sorted[..n]
  {
  }

  // ---------- The order of channels ----------

  /** The order of texts by their characters. */
  predicate Less(a: string, b: string) {
    if b == [] then false
    else if a == [] then true
    else a[0] < b[0] || (a[0] == b[0] && Less(a[1..], b[1..]))
  }

  lemma {:induction false} LessIsTotal(a: string, b: string)
    ensures Less(a, b) || a == b || Less(b, a)
    ensures !(Less(a, b) && Less(b, a)) && !Less(a, a)
  {
    if a != [] && b != [] {
      LessIsTotal(a[1..], b[1..]);
      assert a == [a[0]] + a[1..] && b == [b[0]] + b[1..];
    }
    if a != [] {
      LessIsTotal(a[1..], a[1..]);
    }
  }

  lemma {:induction false} LessIsTransitive(a: string, b: string, c: string)
    requires Less(a, b) && Less(b, c)
    ensures Less(a, c)
  {
    if a != [] && b[0] == a[0] && c[0] == b[0] {
      LessIsTransitive(a[1..], b[1..], c[1..]);
    }
  }

  ghost predicate Ascending(s: seq<string>) {
    forall i, j :: 0 <= i < j < |s| ==> Less(s[i], s[j])
  }

  /** A sorted list with one more text, each only once. */
  function InsertOrdered(s: seq<string>, x: string): seq<string> {
    if s == [] then [x]
    else if x == s[0] then s
    else if Less(x, s[0]) then [x] + s
    else [s[0]] + InsertOrdered(s[1..], x)
  }

  lemma {:induction false} InsertOrderedFacts(s: seq<string>, x: string)
    requires Ascending(s)
    ensures Ascending(InsertOrdered(s, x)) && forall y :: y in InsertOrdered(s, x) <==> y in s || y == x
  {
    if s != [] {
      var rest, after := s[1..], InsertOrdered(s[1..], x);
      InsertOrderedFacts(rest, x);
      LessIsTotal(x, s[0]);
      assert s == [s[0]] + rest;
      if Less(x, s[0]) {
        forall i | 0 < i < |s| ensures Less(x, s[i]) {
          LessIsTransitive(x, s[0], s[i]);
        }
      } else if x != s[0] {
        forall i | 0 <= i < |after| ensures Less(s[0], after[i]) {
          assert after[i] in after;
        }
      }
    }
  }

  lemma {:induction false} AscendingIsUnique(a: seq<string>, b: seq<string>)
    requires Ascending(a) && Ascending(b) && forall x :: x in a <==> x in b
    ensures a == b
  {
    if b != [] {
      assert b[0] in b && b[0] in a;
    }
    if a != [] {
      assert a[0] in a && a[0] in b;
      SameFirst(a, b);
      RestOf(a);
      RestOf(b);
      AscendingIsUnique(a[1..], b[1..]);
      assert a == [a[0]] + a[1..] && b == [b[0]] + b[1..];
    }
  }

  lemma SameFirst(a: seq<string>, b: seq<string>)
    requires a != [] && b != [] && Ascending(a) && Ascending(b) && a[0] in b && b[0] in a
    ensures a[0] == b[0]
  {
    var i :| 0 <= i < |a| && a[i] == b[0];
    var j :| 0 <= j < |b| && b[j] == a[0];
    LessIsTotal(a[0], b[0]);
  }

  lemma RestOf(s: seq<string>)
    requires s != [] && Ascending(s)
    ensures Ascending(s[1..]) && forall x :: x in s[1..] <==> x in s && x != s[0]
  {
    LessIsTotal(s[0], s[0]);
    assert s == [s[0]] + s[1..];
    forall i | 0 < i < |s| ensures s[i] != s[0] {
      assert Less(s[0], s[i]);
    }
  }

  /** The texts of a set in their order. */
  ghost function Ordered(channels: set<string>): (order: seq<string>)
    ensures Ascending(order) && forall c :: c in order <==> c in channels
  {
    if channels == {} then []
    else
      var c :| c in channels;
      InsertOrderedFacts(Ordered(channels - {c}), c);
      InsertOrdered(Ordered(channels - {c}), c)
  }

  /** The normalised channel names of a topic, each once, in order. */
  method SortedChannels(configured: seq<string>) returns (sorted: seq<string>)
    ensures sorted == Ordered(ChannelSet(configured)) && NoRepeats(sorted)
  {
    sorted := [];
    for n := 0 to |configured|
      invariant Ascending(sorted)
      invariant forall c :: c in sorted <==> c in ChannelSet(configured[..n])
    {
      TakeOneMore(configured, n);
      ChannelSetSnoc(configured[..n], configured[n]);
      if Strip(configured[n]) != "" {
        InsertOrderedFacts(sorted, Key(configured[n]));
        sorted := InsertOrdered(sorted, Key(configured[n]));
      }
    }
    assert configured[..|configured|] == configured;
    AscendingIsUnique(sorted, Ordered(ChannelSet(configured)));
    forall i, j | 0 <= i < j < |sorted| ensures sorted[i] != sorted[j] {
      LessIsTotal(sorted[i], sorted[j]);
      LessIsTotal(sorted[i], sorted[i]);
    }
  }

  lemma ChannelSetSnoc(configured: seq<string>, x: string)
    ensures ChannelSet(configured + [x]) == ChannelSet(configured) + if Strip(x) == "" then {} else {Key(x)}
  {
    assert forall c :: c in configured + [x] <==> c in configured || c == x;
    assert x in configured + [x];
    assert forall c :: c in ChannelSet(configured) ==> c in ChannelSet(configured + [x]);
  }

  lemma CollectedFacts(c: string, terms: seq<string>, lastSeen: map<string, int>, pages: string -> seq<Post>, items: seq<Item>)
    requires forall p :: p in SelectedPosts(pages(c), terms, SeenIn(lastSeen, c)) ==> p.id.Number?
    requires items == ItemsOf(c, SelectedPosts(pages(c), terms, SeenIn(lastSeen, c)))
    ensures NoRepeats(items)
    ensures forall item :: item in items <==> item.channel == c && Chosen(pages, terms, lastSeen, item)
  {
    var posts := SelectedPosts(pages(c), terms, SeenIn(lastSeen, c));
    SelectedFacts(pages(c), terms, SeenIn(lastSeen, c));
    forall i, j | 0 <= i < j < |items| ensures items[i] != items[j] {
      assert posts[i].id != posts[j].id;
    }
    forall item | item in items ensures item.channel == c && Chosen(pages, terms, lastSeen, item) {
      var i :| 0 <= i < |items| && items[i] == item;
      assert posts[i] in posts && posts[i].id == Number(item.id);
      ChosenIsSelected(pages, terms, lastSeen, item);
    }
    forall item: Item | item.channel == c && Chosen(pages, terms, lastSeen, item) ensures item in items {
      ChosenIsSelected(pages, terms, lastSeen, item);
      var p :| p in posts && p.id == Number(item.id);
      var i :| 0 <= i < |posts| && posts[i] == p;
      assert items[i] == item;
    }
  }

  lemma AppendNew(returned: seq<Item>, items: seq<Item>)
    requires NoRepeats(returned) && NoRepeats(items)
    requires forall item :: item in items ==> item !in returned
    ensures NoRepeats(returned + items)
  {
    assert forall i :: 0 <= i < |returned| ==> returned[i] in returned;
    assert forall i :: 0 <= i < |items| ==> items[i] in items;
  }

  lemma NoRepeatsConcat(a: seq<Item>, b: seq<Item>, c: string)
    requires NoRepeats(a) && NoRepeats(b)
    requires (forall x :: x in a ==> x.channel != c) && (forall x :: x in b ==> x.channel == c)
    ensures NoRepeats(a + b)
  {
    assert forall i :: 0 <= i < |a| ==> a[i] in a;
    assert forall i :: 0 <= i < |b| ==> b[i] in b;
  }
}
