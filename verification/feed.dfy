/**
 The server's read side: rows tagged with their `content_type`, the combined
 feed (both tables concatenated, stably sorted newest first, then sliced with
 Python's slice rules) and the per-kind list endpoints (newest first, an
 inclusive row range).
 */
module Feed {
  import opened Wrappers
  import opened Records

  /** A row as returned by a read endpoint: the record plus its `content_type`. */
  datatype FeedItem = FeedItem(contentType: string, record: Record)

  function Tag(rows: seq<Record>, k: Kind): (r: seq<FeedItem>)
    ensures |r| == |rows|
    ensures forall i :: 0 <= i < |r| ==> r[i].record == rows[i] && r[i].contentType == ContentType(k)
  {
    if |rows| == 0 then [] else [FeedItem(ContentType(k), rows[0])] + Tag(rows[1..], k)
  }

  function CreatedAt(it: FeedItem): int {
    it.record.createdAt
  }

  /** Newest first: `created_at` never increases along the sequence. */
  predicate SortedDesc(s: seq<FeedItem>) {
    forall i, j :: 0 <= i < j < |s| ==> CreatedAt(s[i]) >= CreatedAt(s[j])
  }

  /** Places `x` before the first element that is not newer than it, so ties keep `x` in front. */
  function Insert(x: FeedItem, s: seq<FeedItem>): (r: seq<FeedItem>)
    requires SortedDesc(s)
    ensures SortedDesc(r)
    ensures |r| == |s| + 1
    ensures CreatedAt(r[0]) == if |s| == 0 then CreatedAt(x) else Max(CreatedAt(x), CreatedAt(s[0]))
    ensures multiset(r) == multiset(s) + multiset{x}
  {
    if |s| == 0 || CreatedAt(s[0]) <= CreatedAt(x) then [x] + s
    else
      var rest := Insert(x, s[1..]);
      assert s == [s[0]] + s[1..];
      assert CreatedAt(s[0]) >= CreatedAt(rest[0]) by {
        if |s| > 1 { assert CreatedAt(s[0]) >= CreatedAt(s[1]); }
      }
      [s[0]] + rest
  }

  /**
   `list.sort(key=created_at, reverse=True)`: a stable insertion sort, newest
   first, that permutes its input.
   */
  function Sort(s: seq<FeedItem>): (r: seq<FeedItem>)
    ensures SortedDesc(r)
    ensures multiset(r) == multiset(s)
    ensures |r| == |s|
  {
    if |s| == 0 then []
    else
      assert s == [s[0]] + s[1..];
      Insert(s[0], Sort(s[1..]))
  }

  /** The items with timestamp `t`, in order. */
  function WithTimestamp(s: seq<FeedItem>, t: int): seq<FeedItem> {
    if |s| == 0 then []
    else (if CreatedAt(s[0]) == t then [s[0]] else []) + WithTimestamp(s[1..], t)
  }

  /** `WithTimestamp` of a sequence with a known head. */
  lemma WithTimestampCons(a: FeedItem, s: seq<FeedItem>, t: int)
    ensures WithTimestamp([a] + s, t) == (if CreatedAt(a) == t then [a] else []) + WithTimestamp(s, t)
  {
    assert ([a] + s)[1..] == s;
  }

  lemma {:induction false} InsertWithTimestamp(x: FeedItem, s: seq<FeedItem>, t: int)
    requires SortedDesc(s)
    ensures WithTimestamp(Insert(x, s), t)
            == (if CreatedAt(x) == t then [x] else []) + WithTimestamp(s, t)
  {
    if |s| == 0 || CreatedAt(s[0]) <= CreatedAt(x) {
      WithTimestampCons(x, s, t);
    } else {
      var tail := s[1..];
      InsertWithTimestamp(x, tail, t);
      WithTimestampCons(s[0], Insert(x, tail), t);
      WithTimestampCons(s[0], tail, t);
      assert s == [s[0]] + tail;
      var own := if CreatedAt(x) == t then [x] else [];
      var head := if CreatedAt(s[0]) == t then [s[0]] else [];
      assert head == [] || own == [];
      assert head + (own + WithTimestamp(tail, t)) == own + (head + WithTimestamp(tail, t));
    }
  }

  /**
   The sort is stable: for every timestamp, the items carrying it appear in
   the output in the same order as in the input.
   */
  lemma {:induction false} SortIsStable(s: seq<FeedItem>, t: int)
    ensures WithTimestamp(Sort(s), t) == WithTimestamp(s, t)
  {
    if |s| > 0 {
      SortIsStable(s[1..], t);
      InsertWithTimestamp(s[0], Sort(s[1..]), t);
    }
  }

  /** 0 for a transcript item, 1 for anything else. */
  function Rank(it: FeedItem): nat {
    if it.contentType == ContentType(TranscriptKind) then 0 else 1
  }

  /** All transcript items come before all other items. */
  predicate TranscriptsFirst(s: seq<FeedItem>) {
    forall i, j :: 0 <= i < j < |s| ==> Rank(s[i]) <= Rank(s[j])
  }

  /** Among items with equal timestamps, transcripts come first. */
  predicate TiesTranscriptsFirst(s: seq<FeedItem>) {
    forall i, j :: 0 <= i < j < |s| && CreatedAt(s[i]) == CreatedAt(s[j]) ==> Rank(s[i]) <= Rank(s[j])
  }

  /**
   An item of `Insert(x, s[1..])` that shares the head's timestamp is not `x`
   (which is older than the head), so it is one of the items behind the head.
   */
  lemma TieWithHeadAfterInsert(x: FeedItem, s: seq<FeedItem>, y: FeedItem)
    requires SortedDesc(s) && TiesTranscriptsFirst(s)
    requires |s| > 0 && CreatedAt(s[0]) > CreatedAt(x)
    requires y in Insert(x, s[1..]) && CreatedAt(y) == CreatedAt(s[0])
    ensures Rank(s[0]) <= Rank(y)
  {
    var tail := s[1..];
    assert y in multiset(Insert(x, tail));
    assert y != x;
    assert y in multiset(tail);
    var k :| 0 <= k < |tail| && tail[k] == y;
    assert s[k + 1] == y;
  }

  lemma {:induction false} InsertKeepsTieOrder(x: FeedItem, s: seq<FeedItem>)
    requires SortedDesc(s) && TiesTranscriptsFirst(s)
    requires forall y :: y in s ==> Rank(x) <= Rank(y)
    ensures TiesTranscriptsFirst(Insert(x, s))
  {
    if |s| == 0 || CreatedAt(s[0]) <= CreatedAt(x) {
      var r := [x] + s;
      forall i, j | 0 <= i < j < |r| && CreatedAt(r[i]) == CreatedAt(r[j])
        ensures Rank(r[i]) <= Rank(r[j])
      {
        if i > 0 {
          assert r[i] == s[i - 1] && r[j] == s[j - 1];
        } else {
          assert r[j] == s[j - 1] && r[j] in s;
        }
      }
    } else {
      var tail := s[1..];
      assert TiesTranscriptsFirst(tail) by {
        forall i, j | 0 <= i < j < |tail| && CreatedAt(tail[i]) == CreatedAt(tail[j])
          ensures Rank(tail[i]) <= Rank(tail[j])
        {
          assert tail[i] == s[i + 1] && tail[j] == s[j + 1];
        }
      }
      InsertKeepsTieOrder(x, tail);
      var rest := Insert(x, tail);
      var r := [s[0]] + rest;
      forall i, j | 0 <= i < j < |r| && CreatedAt(r[i]) == CreatedAt(r[j])
        ensures Rank(r[i]) <= Rank(r[j])
      {
        if i > 0 {
          assert r[i] == rest[i - 1] && r[j] == rest[j - 1];
        } else {
          assert r[j] == rest[j - 1] && rest[j - 1] in rest;
          TieWithHeadAfterInsert(x, s, rest[j - 1]);
        }
      }
    }
  }

  /**
   Sorting an input that lists all transcripts before all icebreakers keeps
   transcripts ahead of icebreakers among items with equal timestamps.
   */
  lemma {:induction false} SortKeepsTranscriptsFirstOnTies(s: seq<FeedItem>)
    requires TranscriptsFirst(s)
    ensures TiesTranscriptsFirst(Sort(s))
  {
    if |s| > 0 {
      var tail := s[1..];
      assert TranscriptsFirst(tail) by {
        forall i, j | 0 <= i < j < |tail| ensures Rank(tail[i]) <= Rank(tail[j]) {
          assert tail[i] == s[i + 1] && tail[j] == s[j + 1];
        }
      }
      SortKeepsTranscriptsFirstOnTies(tail);
      forall y | y in Sort(tail) ensures Rank(s[0]) <= Rank(y) {
        assert y in multiset(Sort(tail));
        assert y in multiset(tail);
        var k :| 0 <= k < |tail| && tail[k] == y;
        assert s[k + 1] == y;
      }
      InsertKeepsTieOrder(s[0], Sort(tail));
    }
  }

  /** Python's normalisation of a slice bound against a sequence of length `n`. */
  function SliceBound(i: int, n: nat): (r: nat)
    ensures r <= n
    ensures 0 <= i <= n ==> r == i
  {
    if i < 0 then (if i + n < 0 then 0 else i + n)
    else if i > n then n
    else i
  }

  /** `s[start:stop]` with Python semantics, negative bounds counting from the end. */
  function PySlice<T>(s: seq<T>, start: int, stop: int): (r: seq<T>)
    ensures |r| <= |s|
    ensures SliceBound(start, |s|) + |r| <= |s|
    ensures r == s[SliceBound(start, |s|)..SliceBound(start, |s|) + |r|]
    ensures |r| == Max(0, SliceBound(stop, |s|) - SliceBound(start, |s|))
  {
    var a := SliceBound(start, |s|);
    var b := SliceBound(stop, |s|);
    if a < b then s[a..b] else []
  }

  function Min(a: int, b: int): int { if a <= b then a else b }
  function Max(a: int, b: int): int { if a >= b then a else b }

  /** With non-negative bounds, a page is the run of `limit` items starting at `offset`, cut at the end. */
  lemma PageShape<T>(s: seq<T>, offset: int, limit: int)
    requires offset >= 0 && limit >= 0
    ensures |PySlice(s, offset, offset + limit)| == Max(0, Min(limit, |s| - offset))
    ensures var page := PySlice(s, offset, offset + limit);
      forall j :: 0 <= j < |page| ==> page[j] == s[offset + j]
  {
  }

  /** A contiguous run of a sorted sequence is sorted, and so is its tie order. */
  lemma SliceKeepsOrder(s: seq<FeedItem>, a: int, n: int)
    requires 0 <= a && 0 <= n && a + n <= |s|
    ensures SortedDesc(s) ==> SortedDesc(s[a..a + n])
    ensures TiesTranscriptsFirst(s) ==> TiesTranscriptsFirst(s[a..a + n])
  {
    var r := s[a..a + n];
    forall i, j | 0 <= i < j < |r| ensures r[i] == s[a + i] && r[j] == s[a + j] {}
  }

  /** Both tables tagged and concatenated, transcripts first, then sorted newest first. */
  function Combined(transcripts: seq<Record>, icebreakers: seq<Record>): seq<FeedItem> {
    Sort(Tag(transcripts, TranscriptKind) + Tag(icebreakers, IcebreakerKind))
  }

  lemma TaggedTablesTranscriptsFirst(transcripts: seq<Record>, icebreakers: seq<Record>)
    ensures TranscriptsFirst(Tag(transcripts, TranscriptKind) + Tag(icebreakers, IcebreakerKind))
  {
    var tagged := Tag(transcripts, TranscriptKind) + Tag(icebreakers, IcebreakerKind);
    forall i, j | 0 <= i < j < |tagged| ensures Rank(tagged[i]) <= Rank(tagged[j]) {
      if j < |transcripts| {
        assert tagged[i].contentType == ContentType(TranscriptKind);
      }
    }
  }

  /** Sorting adds no item: whatever the sorted sequence holds, the input held. */
  lemma SortedItemIsInput(s: seq<FeedItem>, it: FeedItem)
    requires it in Sort(s)
    ensures it in s
  {
    assert it in multiset(Sort(s));
  }

  /** Every item of the combined feed comes from one of the two tables, with that table's tag. */
  lemma CombinedItemsFromTables(transcripts: seq<Record>, icebreakers: seq<Record>, it: FeedItem)
    requires it in Combined(transcripts, icebreakers)
    ensures || (it.contentType == ContentType(TranscriptKind) && it.record in transcripts)
            || (it.contentType == ContentType(IcebreakerKind) && it.record in icebreakers)
  {
    var tagged := Tag(transcripts, TranscriptKind) + Tag(icebreakers, IcebreakerKind);
    SortedItemIsInput(tagged, it);
    var k :| 0 <= k < |tagged| && tagged[k] == it;
    if k < |transcripts| {
      assert it.record == transcripts[k];
    } else {
      assert it.record == icebreakers[k - |transcripts|];
    }
  }

  /**
   `GET /feed`: one page of the combined feed. Every item is tagged by the
   table it came from, the page is newest first with transcripts ahead on
   equal timestamps, and with non-negative bounds it holds
   `max(0, min(limit, total - offset))` items.
   */
  function CombinedFeed(transcripts: seq<Record>, icebreakers: seq<Record>, offset: int, limit: int)
    : (r: seq<FeedItem>)
    ensures SortedDesc(r)
    ensures TiesTranscriptsFirst(r)
    ensures forall it :: it in r ==>
      || (it.contentType == ContentType(TranscriptKind) && it.record in transcripts)
      || (it.contentType == ContentType(IcebreakerKind) && it.record in icebreakers)
    ensures offset >= 0 && limit >= 0 ==>
      |r| == Max(0, Min(limit, |transcripts| + |icebreakers| - offset))
    ensures offset >= 0 && limit >= 0 ==>
      forall j :: 0 <= j < |r| ==> r[j] == Combined(transcripts, icebreakers)[offset + j]
  {
    var all := Combined(transcripts, icebreakers);
    var page := PySlice(all, offset, offset + limit);
    CombinedFeedFacts(transcripts, icebreakers, offset, limit);
    CombinedFeedShape(transcripts, icebreakers, offset, limit);
    page
  }

  lemma CombinedFeedFacts(transcripts: seq<Record>, icebreakers: seq<Record>, offset: int, limit: int)
    ensures var page := PySlice(Combined(transcripts, icebreakers), offset, offset + limit);
      && SortedDesc(page)
      && TiesTranscriptsFirst(page)
      && (forall it :: it in page ==>
            || (it.contentType == ContentType(TranscriptKind) && it.record in transcripts)
            || (it.contentType == ContentType(IcebreakerKind) && it.record in icebreakers))
  {
    var tagged := Tag(transcripts, TranscriptKind) + Tag(icebreakers, IcebreakerKind);
    var all := Combined(transcripts, icebreakers);
    TaggedTablesTranscriptsFirst(transcripts, icebreakers);
    SortKeepsTranscriptsFirstOnTies(tagged);
    var page := PySlice(all, offset, offset + limit);
    SliceKeepsOrder(all, SliceBound(offset, |all|), |page|);
    forall it | it in page ensures
      || (it.contentType == ContentType(TranscriptKind) && it.record in transcripts)
      || (it.contentType == ContentType(IcebreakerKind) && it.record in icebreakers)
    {
      CombinedItemsFromTables(transcripts, icebreakers, it);
    }
  }

  lemma CombinedFeedShape(transcripts: seq<Record>, icebreakers: seq<Record>, offset: int, limit: int)
    ensures var page := PySlice(Combined(transcripts, icebreakers), offset, offset + limit);
      offset >= 0 && limit >= 0 ==>
        && |page| == Max(0, Min(limit, |transcripts| + |icebreakers| - offset))
        && forall j :: 0 <= j < |page| ==> page[j] == Combined(transcripts, icebreakers)[offset + j]
  {
    if offset >= 0 && limit >= 0 {
      PageShape(Combined(transcripts, icebreakers), offset, limit);
    }
  }

  /** A page starting at 0 that is long enough holds every row of both tables, each exactly once. */
  lemma FullFeedIsEveryRow(transcripts: seq<Record>, icebreakers: seq<Record>, limit: int)
    requires limit >= |transcripts| + |icebreakers|
    ensures multiset(CombinedFeed(transcripts, icebreakers, 0, limit))
            == multiset(Tag(transcripts, TranscriptKind)) + multiset(Tag(icebreakers, IcebreakerKind))
  {
    var all := Combined(transcripts, icebreakers);
    assert CombinedFeed(transcripts, icebreakers, 0, limit) == all[0..|all|];
    assert all[0..|all|] == all;
  }

  /**
   A database read of the inclusive row range `from..to` of `ordered`; a
   negative start or an end before `from - 1` is an error of the database
   call, which the endpoint reports as status 500.
   */
  function RangeInclusive(ordered: seq<FeedItem>, from: int, to: int): (r: Result<seq<FeedItem>, int>)
    ensures r.Success? <==> 0 <= from && from - 1 <= to
    ensures r.Failure? ==> r.error == 500
    ensures r.Success? ==> |r.value| == Max(0, Min(to + 1, |ordered|) - from)
    ensures r.Success? ==> forall j :: 0 <= j < |r.value| ==> from + j < |ordered| && r.value[j] == ordered[from + j]
  {
    if from < 0 || to < from - 1 then Failure(500)
    else if from >= |ordered| then Success([])
    else Success(ordered[from..Min(to + 1, |ordered|)])
  }

  /**
   `GET /transcripts` and `GET /linkedin-icebreakers`: rows ordered newest
   first, range `offset..offset + limit - 1`. A successful page is the run of
   `min(limit, total - offset)` sorted rows starting at `offset`, all from the
   kind's table and tagged with its content type.
   */
  function ListPage(rows: seq<Record>, k: Kind, offset: int, limit: int): (r: Result<seq<FeedItem>, int>)
    ensures r.Success? <==> offset >= 0 && limit >= 0
    ensures r.Success? ==> |r.value| == Max(0, Min(limit, |rows| - offset)) && SortedDesc(r.value)
    ensures r.Success? ==> forall j :: 0 <= j < |r.value| ==> r.value[j] == Sort(Tag(rows, k))[offset + j]
    ensures r.Success? ==> forall it :: it in r.value ==> it.contentType == ContentType(k) && it.record in rows
  {
    ListPageFacts(rows, k, offset, limit);
    RangeInclusive(Sort(Tag(rows, k)), offset, offset + limit - 1)
  }

  lemma SortedTaggedItem(rows: seq<Record>, k: Kind, it: FeedItem)
    requires it in Sort(Tag(rows, k))
    ensures it.contentType == ContentType(k) && it.record in rows
  {
    var tagged := Tag(rows, k);
    SortedItemIsInput(tagged, it);
    var i :| 0 <= i < |tagged| && tagged[i] == it;
    assert it.record == rows[i];
  }

  /** A successful range read is a run of `ordered`: sorted if `ordered` is, and made of its items. */
  lemma RangeIsRun(ordered: seq<FeedItem>, from: int, to: int)
    ensures var r := RangeInclusive(ordered, from, to);
      r.Success? ==>
        && (SortedDesc(ordered) ==> SortedDesc(r.value))
        && (forall it :: it in r.value ==> it in ordered)
  {
    var r := RangeInclusive(ordered, from, to);
    if r.Success? {
      var page := r.value;
      forall i, j | 0 <= i < j < |page| && SortedDesc(ordered)
        ensures CreatedAt(page[i]) >= CreatedAt(page[j])
      {
        assert page[i] == ordered[from + i] && page[j] == ordered[from + j];
      }
      forall it | it in page ensures it in ordered {
        var j :| 0 <= j < |page| && page[j] == it;
        assert it == ordered[from + j];
      }
    }
  }

  lemma ListPageFacts(rows: seq<Record>, k: Kind, offset: int, limit: int)
    ensures var r := RangeInclusive(Sort(Tag(rows, k)), offset, offset + limit - 1);
      r.Success? ==>
        && SortedDesc(r.value)
        && (forall it :: it in r.value ==> it.contentType == ContentType(k) && it.record in rows)
  {
    var ordered := Sort(Tag(rows, k));
    RangeIsRun(ordered, offset, offset + limit - 1);
    var r := RangeInclusive(ordered, offset, offset + limit - 1);
    if r.Success? {
      forall it | it in r.value ensures it.contentType == ContentType(k) && it.record in rows {
        SortedTaggedItem(rows, k, it);
      }
    }
  }

  /** Query defaults: the list endpoints serve 10 rows, the combined feed 20, both from offset 0. */
  const DefaultListLimit: int := 10
  const DefaultFeedLimit: int := 20
  const DefaultOffset: int := 0

  /**
   A list request without a query string succeeds with the `min(10, rows)`
   newest rows of the kind's table, newest first: no row left off the page is
   newer than a row on it.
   */
  lemma DefaultListPage(rows: seq<Record>, k: Kind)
    ensures var r := ListPage(rows, k, DefaultOffset, DefaultListLimit);
      && r.Success?
      && |r.value| == Min(DefaultListLimit, |rows|)
      && (forall j :: 0 <= j < |r.value| ==> r.value[j] == Sort(Tag(rows, k))[j])
      && (forall j, m :: 0 <= j < |r.value| <= m < |rows| ==>
            CreatedAt(r.value[j]) >= CreatedAt(Sort(Tag(rows, k))[m]))
  {
    var r := ListPage(rows, k, DefaultOffset, DefaultListLimit);
    var ordered := Sort(Tag(rows, k));
    forall j, m | 0 <= j < |r.value| <= m < |rows|
      ensures CreatedAt(r.value[j]) >= CreatedAt(ordered[m])
    {
      assert r.value[j] == ordered[j];
    }
  }

  /** A feed request without a query string holds the `min(20, total)` newest items of both tables. */
  lemma DefaultFeedPage(transcripts: seq<Record>, icebreakers: seq<Record>)
    ensures var r := CombinedFeed(transcripts, icebreakers, DefaultOffset, DefaultFeedLimit);
      && |r| == Min(DefaultFeedLimit, |transcripts| + |icebreakers|)
      && (forall j :: 0 <= j < |r| ==> r[j] == Combined(transcripts, icebreakers)[j])
      && (forall j, m :: 0 <= j < |r| <= m < |transcripts| + |icebreakers| ==>
            CreatedAt(r[j]) >= CreatedAt(Combined(transcripts, icebreakers)[m]))
  {
    var r := CombinedFeed(transcripts, icebreakers, DefaultOffset, DefaultFeedLimit);
    var all := Combined(transcripts, icebreakers);
    forall j, m | 0 <= j < |r| <= m < |transcripts| + |icebreakers|
      ensures CreatedAt(r[j]) >= CreatedAt(all[m])
    {
      assert r[j] == all[j];
    }
  }
}
