/** Folding streamed search events into the lists the search views show. */
module SearchFold {
  import opened Common

  const RESULT_LIMIT := 100

  /** A path match; `info` stands for its remaining fields. */
  datatype Entry = Entry(score: int, path: string, info: nat)

  // ---------------------------------------------------------------- the order of matches

  /** Strings by their first different character; a string comes before what continues it. */
  predicate Less(a: string, b: string) {
    b != [] && (a == [] || a[0] < b[0] || (a[0] == b[0] && Less(a[1..], b[1..])))
  }

  lemma {:induction false} LessTotal(a: string, b: string)
    ensures a == b || Less(a, b) || Less(b, a)
    ensures !(Less(a, b) && Less(b, a)) && (a == b ==> !Less(a, b))
  {
    if a != [] && b != [] {
      LessTotal(a[1..], b[1..]);
      assert a == [a[0]] + a[1..] && b == [b[0]] + b[1..];
    }
  }

  lemma {:induction false} LessTransitive(a: string, b: string, c: string)
    requires Less(a, b) && Less(b, c)
    ensures Less(a, c)
  {
    if a != [] && a[0] == b[0] == c[0] {
      LessTransitive(a[1..], b[1..], c[1..]);
    }
  }

  /** Better matches first: the higher score, then the smaller path. */
  predicate Before(a: Entry, b: Entry) {
    a.score > b.score || (a.score == b.score && Less(a.path, b.path))
  }

  predicate SameRank(a: Entry, b: Entry) {
    a.score == b.score && a.path == b.path
  }

  lemma BeforeTotal(a: Entry, b: Entry)
    ensures SameRank(a, b) || Before(a, b) || Before(b, a)
    ensures !(Before(a, b) && Before(b, a)) && (SameRank(a, b) ==> !Before(a, b))
  {
    LessTotal(a.path, b.path);
  }

  lemma BeforeTransitive(a: Entry, b: Entry, c: Entry)
    requires !Before(b, a) && Before(b, c)
    ensures Before(a, c)
  {
    BeforeTotal(a, b);
    if a.score == b.score == c.score && Before(a, b) {
      LessTransitive(a.path, b.path, c.path);
    }
  }

  // ---------------------------------------------------------------- stable sorting

  /** `x` behind everything that may stay in front of it. */
  function Insert(sorted: seq<Entry>, x: Entry): (more: seq<Entry>)
    ensures |more| == |sorted| + 1
  {
    if sorted == [] || Before(x, sorted[0]) then [x] + sorted else [sorted[0]] + Insert(sorted[1..], x)
  }

  function Sort(entries: seq<Entry>): (sorted: seq<Entry>)
    ensures |sorted| == |entries|
  {
    if entries == [] then [] else Insert(Sort(entries[..|entries| - 1]), entries[|entries| - 1])
  }

  ghost predicate Sorted(entries: seq<Entry>) {
    forall i, j :: 0 <= i < j < |entries| ==> !Before(entries[j], entries[i])
  }

  /** The entries of one rank, in order. */
  function Having(entries: seq<Entry>, rank: Entry): seq<Entry> {
    if entries == [] then []
    else (if SameRank(entries[0], rank) then [entries[0]] else []) + Having(entries[1..], rank)
  }

  /** Sorted, with the same entries as `entries`, and those of equal rank in the same order. */
  ghost predicate StablySorts(sorted: seq<Entry>, entries: seq<Entry>) {
    Sorted(sorted) && SameRanks(sorted, entries)
  }

  ghost predicate SameRanks(a: seq<Entry>, b: seq<Entry>) {
    forall rank :: Having(a, rank) == Having(b, rank)
  }

  lemma RankAgrees(a: seq<Entry>, b: seq<Entry>, rank: Entry)
    requires SameRanks(a, b)
    ensures Having(a, rank) == Having(b, rank)
  {
  }

  lemma {:induction false} HavingNone(entries: seq<Entry>, rank: Entry)
    requires forall i :: 0 <= i < |entries| ==> !SameRank(entries[i], rank)
    ensures Having(entries, rank) == []
  {
    if entries != [] {
      HavingNone(entries[1..], rank);
    }
  }

  lemma {:induction false} HavingSome(entries: seq<Entry>, rank: Entry, i: nat)
    requires i < |entries| && SameRank(entries[i], rank)
    ensures Having(entries, rank) != []
  {
    if i > 0 {
      HavingSome(entries[1..], rank, i - 1);
    }
  }

  lemma {:induction false} HavingFrom(entries: seq<Entry>, rank: Entry)
    ensures forall x <- Having(entries, rank) :: x in entries && SameRank(x, rank)
  {
    if entries != [] {
      HavingFrom(entries[1..], rank);
    }
  }

  lemma {:induction false} HavingConcat(a: seq<Entry>, b: seq<Entry>, rank: Entry)
    ensures Having(a + b, rank) == Having(a, rank) + Having(b, rank)
  {
    if a == [] {
      assert a + b == b;
    } else {
      HavingConcat(a[1..], b, rank);
      assert (a + b)[1..] == a[1..] + b && (a + b)[0] == a[0];
      ConcatAssoc(if SameRank(a[0], rank) then [a[0]] else [], Having(a[1..], rank), Having(b, rank));
    }
  }

  lemma {:induction false} InsertKeeps(sorted: seq<Entry>, x: Entry, rank: Entry)
    requires Sorted(sorted)
    ensures Having(Insert(sorted, x), rank) == Having(sorted, rank) + (if SameRank(x, rank) then [x] else [])
  {
    if sorted == [] {
    } else if Before(x, sorted[0]) {
      forall i | 0 <= i < |sorted|
        ensures !SameRank(sorted[i], x)
      {
        BeforeTotal(x, sorted[0]);
        assert i > 0 ==> !Before(sorted[i], sorted[0]);
      }
      if SameRank(x, rank) {
        HavingNone(sorted, rank);
      }
      assert ([x] + sorted)[1..] == sorted;
    } else {
      InsertKeeps(sorted[1..], x, rank);
      assert Insert(sorted, x)[1..] == Insert(sorted[1..], x);
    }
  }

  lemma {:induction false} InsertSorted(sorted: seq<Entry>, x: Entry)
    requires Sorted(sorted)
    ensures Sorted(Insert(sorted, x))
    ensures forall y <- Insert(sorted, x) :: y in sorted || y == x
  {
    if sorted == [] {
    } else if Before(x, sorted[0]) {
      forall j | 0 <= j < |sorted|
        ensures !Before(sorted[j], x)
      {
        BeforeTotal(sorted[j], x);
        if Before(sorted[j], x) {
          BeforeTotal(x, sorted[j]);
          BeforeTransitive(sorted[j], x, sorted[0]);
        }
      }
    } else {
      InsertSorted(sorted[1..], x);
      var rest := Insert(sorted[1..], x);
      forall j | 0 <= j < |rest|
        ensures !Before(rest[j], sorted[0])
      {
        assert rest[j] in rest;
        if rest[j] in sorted[1..] {
          var k :| 0 <= k < |sorted| - 1 && sorted[1..][k] == rest[j];
          assert rest[j] == sorted[k + 1];
        }
      }
    }
  }

  lemma {:induction false} SortIsStable(entries: seq<Entry>)
    ensures StablySorts(Sort(entries), entries)
  {
    if entries != [] {
      var front, last := entries[..|entries| - 1], entries[|entries| - 1];
      SortIsStable(front);
      InsertSorted(Sort(front), last);
      forall rank
        ensures Having(Sort(entries), rank) == Having(entries, rank)
      {
        InsertKeeps(Sort(front), last, rank);
        HavingConcat(front, [last], rank);
        assert front + [last] == entries;
        assert Having([last], rank) == if SameRank(last, rank) then [last] else [];
      }
    }
  }

  /** There is only one stably sorted list, so every correct stable sort gives it. */
  lemma {:induction false} StablySortedIsUnique(a: seq<Entry>, b: seq<Entry>)
    requires Sorted(a) && Sorted(b) && SameRanks(a, b)
    ensures a == b
  {
    hide SameRanks;
    if a == [] {
      if b != [] {
        HavingSome(b, b[0], 0);
        RankAgrees(a, b, b[0]);
      }
    } else {
      RankAgrees(a, b, a[0]);
      if b != [] {
        RankAgrees(a, b, b[0]);
      }
      FirstsAgree(a, b);
      RestAgrees(a, b);
      StablySortedIsUnique(a[1..], b[1..]);
      assert a == [a[0]] + a[1..] && b == [b[0]] + b[1..];
    }
  }

  lemma RestAgrees(a: seq<Entry>, b: seq<Entry>)
    requires SameRanks(a, b) && a != [] && b != [] && a[0] == b[0]
    ensures SameRanks(a[1..], b[1..])
  {
    forall rank
      ensures Having(a[1..], rank) == Having(b[1..], rank)
    {
      assert Having(a, rank) == Having(b, rank);
      var head := if SameRank(a[0], rank) then [a[0]] else [];
      assert Having(a, rank)[|head|..] == Having(a[1..], rank);
      assert Having(b, rank)[|head|..] == Having(b[1..], rank);
    }
  }

  lemma FirstsAgree(a: seq<Entry>, b: seq<Entry>)
    requires Sorted(a) && Sorted(b) && a != [] && Having(a, a[0]) == Having(b, a[0])
    requires b != [] ==> Having(a, b[0]) == Having(b, b[0])
    ensures b != [] && a[0] == b[0]
  {
    HavingSome(a, a[0], 0);
    HavingFrom(b, a[0]);
    var x := Having(b, a[0])[0];
    assert x in Having(b, a[0]);
    var i :| 0 <= i < |b| && b[i] == x;
    HavingSome(b, b[0], 0);
    HavingFrom(a, b[0]);
    var y := Having(a, b[0])[0];
    assert y in Having(a, b[0]);
    var j :| 0 <= j < |a| && a[j] == y;
    BeforeTotal(a[0], b[0]);
    assert !Before(b[i], b[0]) by { BeforeTotal(b[0], b[0]); }
    assert !Before(a[j], a[0]) by { BeforeTotal(a[0], a[0]); }
    assert SameRank(a[0], b[0]);
    assert Having(a, a[0])[0] == a[0] && Having(b, a[0])[0] == b[0];
  }

  // ---------------------------------------------------------------- cutting to the best

  function Cut(entries: seq<Entry>, k: nat): (cut: seq<Entry>)
    ensures |cut| <= k
  {
    if |entries| <= k then entries else entries[..k]
  }

  /** What was cut off cannot come back. */
  lemma {:induction false} CutInsert(entries: seq<Entry>, x: Entry, k: nat)
    ensures Cut(Insert(Cut(entries, k), x), k) == Cut(Insert(entries, x), k)
  {
    if |entries| > k {
      if k == 0 {
      } else if Before(x, entries[0]) {
        assert entries[..k][0] == entries[0];
      } else {
        CutInsert(entries[1..], x, k - 1);
        assert entries[..k][0] == entries[0] && entries[..k][1..] == entries[1..][..k - 1];
        assert Cut(entries[1..], k - 1) == entries[1..][..k - 1];
        assert Cut([entries[0]] + Insert(entries[1..], x), k) == [entries[0]] + Cut(Insert(entries[1..], x), k - 1);
        assert Cut([entries[0]] + Insert(entries[1..][..k - 1], x), k)
          == [entries[0]] + Cut(Insert(entries[1..][..k - 1], x), k - 1);
      }
    }
  }

  function Top(entries: seq<Entry>, k: nat): seq<Entry> {
    Cut(Sort(entries), k)
  }

  lemma {:induction false} InsertLast(sorted: seq<Entry>, x: Entry)
    requires forall i :: 0 <= i < |sorted| ==> !Before(x, sorted[i])
    ensures Insert(sorted, x) == sorted + [x]
  {
    if sorted != [] {
      InsertLast(sorted[1..], x);
      assert sorted == [sorted[0]] + sorted[1..];
    }
  }

  lemma {:induction false} SortedStays(entries: seq<Entry>)
    requires Sorted(entries)
    ensures Sort(entries) == entries
  {
    if entries != [] {
      SortedStays(entries[..|entries| - 1]);
      InsertLast(entries[..|entries| - 1], entries[|entries| - 1]);
    }
  }

  lemma TopMore(entries: seq<Entry>, x: Entry, k: nat)
    ensures Top(entries + [x], k) == Cut(Insert(Top(entries, k), x), k)
  {
    assert (entries + [x])[..|entries|] == entries;
    CutInsert(Sort(entries), x, k);
  }

  /** Sorting and cutting what was already cut, with more behind it, is sorting and cutting everything. */
  lemma {:induction false} TopOfTop(a: seq<Entry>, b: seq<Entry>, k: nat)
    ensures Top(Top(a, k) + b, k) == Top(a + b, k)
  {
    if b == [] {
      assert Top(a, k) + b == Top(a, k) && a + b == a;
      SortIsStable(a);
      SortedStays(Top(a, k));
    } else {
      var front, last := b[..|b| - 1], b[|b| - 1];
      TopOfTop(a, front, k);
      hide Top, Cut, Insert;
      assert b == front + [last];
      ConcatAssoc(a, front, [last]);
      ConcatAssoc(Top(a, k), front, [last]);
      TopMore(a + front, last, k);
      TopMore(Top(a, k) + front, last, k);
    }
  }

  // ---------------------------------------------------------------- path search

  datatype SearchEvent = Match(entry: Entry) | Done(timedOut: bool, durationMs: nat)

  datatype SearchResponse = SearchResponse(results: seq<Entry>, timedOut: bool, durationMs: nat)

  const EMPTY_SEARCH := SearchResponse([], false, 0)

  function Matches(events: seq<SearchEvent>): seq<Entry> {
    if events == [] then []
    else (if events[0].Match? then [events[0].entry] else []) + Matches(events[1..])
  }

  function FirstDone(events: seq<SearchEvent>): (done: Option<SearchEvent>)
    ensures done.Some? ==> done.value.Done?
  {
    if events == [] then None else if events[0].Done? then Some(events[0]) else FirstDone(events[1..])
  }

  /** `reduceFileSearchEvents`. */
  function Reduce(current: SearchResponse, events: seq<SearchEvent>): SearchResponse {
    var matches, done := Matches(events), FirstDone(events);
    var next := if done.None? then current
      else current.(timedOut := done.value.timedOut, durationMs := done.value.durationMs);
    if matches == [] then next else next.(results := Top(next.results + matches, RESULT_LIMIT))
  }

  function Fold(current: SearchResponse, batches: seq<seq<SearchEvent>>): SearchResponse {
    if batches == [] then current else Reduce(Fold(current, batches[..|batches| - 1]), batches[|batches| - 1])
  }

  lemma {:induction false} MatchesConcat(a: seq<SearchEvent>, b: seq<SearchEvent>)
    ensures Matches(a + b) == Matches(a) + Matches(b)
    ensures FirstDone(a + b) == if FirstDone(a).Some? then FirstDone(a) else FirstDone(b)
  {
    if a == [] {
      assert a + b == b;
    } else {
      MatchesConcat(a[1..], b);
      assert (a + b)[1..] == a[1..] + b && (a + b)[0] == a[0];
      ConcatAssoc(if a[0].Match? then [a[0].entry] else [], Matches(a[1..]), Matches(b));
    }
  }

  /** However the events are batched, the list is the best of all matches, sorted once. */
  lemma {:induction false} StreamedSearchIsTop(batches: seq<seq<SearchEvent>>)
    ensures Fold(EMPTY_SEARCH, batches).results == Top(Matches(Flatten(batches)), RESULT_LIMIT)
  {
    if batches != [] {
      var front, last := batches[..|batches| - 1], batches[|batches| - 1];
      StreamedSearchIsTop(front);
      MatchesConcat(Flatten(front), last);
      TopOfTop(Matches(Flatten(front)), Matches(last), RESULT_LIMIT);
      assert Matches(Flatten(front)) + [] == Matches(Flatten(front));
    }
  }

  function Dones(events: seq<SearchEvent>): nat {
    if events == [] then 0 else (if events[0].Done? then 1 else 0) + Dones(events[1..])
  }

  lemma {:induction false} DonesConcat(a: seq<SearchEvent>, b: seq<SearchEvent>)
    ensures Dones(a + b) == Dones(a) + Dones(b)
    ensures FirstDone(a).Some? <==> Dones(a) > 0
  {
    if a == [] {
      assert a + b == b;
    } else {
      DonesConcat(a[1..], b);
      assert (a + b)[1..] == a[1..] + b && (a + b)[0] == a[0];
    }
  }

  lemma {:induction false} DoneFolds(batches: seq<seq<SearchEvent>>)
    requires Dones(Flatten(batches)) <= 1
    ensures var folded, done := Fold(EMPTY_SEARCH, batches), FirstDone(Flatten(batches));
      (folded.timedOut, folded.durationMs)
        == if done.Some? then (done.value.timedOut, done.value.durationMs) else (false, 0)
  {
    if batches != [] {
      var front, last := batches[..|batches| - 1], batches[|batches| - 1];
      DonesConcat(Flatten(front), last);
      DonesConcat(last, []);
      DoneFolds(front);
      MatchesConcat(Flatten(front), last);
    }
  }

  /** With at most one `done` event, any batching of a stream gives what one batch of all its events gives. */
  lemma BatchingDoesNotMatter(batches: seq<seq<SearchEvent>>)
    requires Dones(Flatten(batches)) <= 1
    ensures Fold(EMPTY_SEARCH, batches) == Reduce(EMPTY_SEARCH, Flatten(batches))
  {
    StreamedSearchIsTop(batches);
    var all := Matches(Flatten(batches));
    assert [] + all == all && Top([], RESULT_LIMIT) == [];
    DoneFolds(batches);
  }

  ghost predicate DistinctPaths(entries: seq<Entry>) {
    forall i, j :: 0 <= i < j < |entries| ==> entries[i].path != entries[j].path
  }

  lemma {:induction false} HavingDistinct(entries: seq<Entry>, rank: Entry)
    requires DistinctPaths(entries)
    ensures |Having(entries, rank)| <= 1
    ensures forall x :: x in Having(entries, rank) <==> x in entries && SameRank(x, rank)
  {
    if entries != [] {
      HavingDistinct(entries[1..], rank);
      HavingFrom(entries[1..], rank);
      if SameRank(entries[0], rank) {
        HavingNone(entries[1..], rank);
      }
    }
  }

  lemma SameEntriesSameRank(a: seq<Entry>, b: seq<Entry>, rank: Entry)
    requires DistinctPaths(a) && DistinctPaths(b) && forall x :: x in a <==> x in b
    ensures Having(a, rank) == Having(b, rank)
  {
    HavingDistinct(a, rank);
    HavingDistinct(b, rank);
    var ha, hb := Having(a, rank), Having(b, rank);
    hide DistinctPaths, Having, SameRank;
    if ha != [] {
      assert ha[0] in ha && ha[0] in hb;
    }
    if hb != [] {
      assert hb[0] in hb && hb[0] in ha;
    }
  }

  /** With distinct paths, the order in which matches arrive does not matter either. */
  lemma ArrivalOrderDoesNotMatter(a: seq<Entry>, b: seq<Entry>, k: nat)
    requires DistinctPaths(a) && DistinctPaths(b) && forall x :: x in a <==> x in b
    ensures Top(a, k) == Top(b, k)
  {
    SortIsStable(a);
    SortIsStable(b);
    assert SameRanks(Sort(a), Sort(b)) by {
      forall rank
        ensures Having(Sort(a), rank) == Having(Sort(b), rank)
      {
        SameEntriesSameRank(a, b, rank);
      }
    }
    hide SameRanks, Sorted, DistinctPaths, Sort, Having;
    StablySortedIsUnique(Sort(a), Sort(b));
  }

  // ---------------------------------------------------------------- content search

  datatype GrepSummary = GrepSummary(timedOut: bool, cancelled: bool, truncated: bool, omittedLongLines: nat, durationMs: nat)

  datatype GrepEvent<T> = GrepMatch(entry: T) | GrepDone(summary: GrepSummary)

  datatype GrepResponse<T> = GrepResponse(results: seq<T>, summary: GrepSummary)

  function GrepMatches<T>(events: seq<GrepEvent<T>>): seq<T> {
    if events == [] then []
    else (if events[0].GrepMatch? then [events[0].entry] else []) + GrepMatches(events[1..])
  }

  function GrepDoneOf<T>(events: seq<GrepEvent<T>>): Option<GrepSummary> {
    if events == [] then None
    else if events[0].GrepDone? then Some(events[0].summary) else GrepDoneOf(events[1..])
  }

  /** `reduceContentGrepEvents`. */
  function ReduceGrep<T>(current: GrepResponse<T>, events: seq<GrepEvent<T>>): GrepResponse<T> {
    var matches, done := GrepMatches(events), GrepDoneOf(events);
    var results := if matches == [] then current.results else current.results + matches;
    if done.None? then current.(results := results) else GrepResponse(results, done.value)
  }

  function FoldGrep<T>(current: GrepResponse<T>, batches: seq<seq<GrepEvent<T>>>): GrepResponse<T> {
    if batches == [] then current else ReduceGrep(FoldGrep(current, batches[..|batches| - 1]), batches[|batches| - 1])
  }

  lemma {:induction false} GrepConcat<T>(a: seq<GrepEvent<T>>, b: seq<GrepEvent<T>>)
    ensures GrepMatches(a + b) == GrepMatches(a) + GrepMatches(b)
    ensures GrepDoneOf(a + b) == if GrepDoneOf(a).Some? then GrepDoneOf(a) else GrepDoneOf(b)
  {
    if a == [] {
      assert a + b == b;
    } else {
      GrepConcat(a[1..], b);
      assert (a + b)[1..] == a[1..] + b && (a + b)[0] == a[0];
      ConcatAssoc(if a[0].GrepMatch? then [a[0].entry] else [], GrepMatches(a[1..]), GrepMatches(b));
    }
  }

  function GrepDones<T>(events: seq<GrepEvent<T>>): nat {
    if events == [] then 0 else (if events[0].GrepDone? then 1 else 0) + GrepDones(events[1..])
  }

  lemma {:induction false} GrepDonesConcat<T>(a: seq<GrepEvent<T>>, b: seq<GrepEvent<T>>)
    ensures GrepDones(a + b) == GrepDones(a) + GrepDones(b)
    ensures GrepDoneOf(a).Some? <==> GrepDones(a) > 0
  {
    if a == [] {
      assert a + b == b;
    } else {
      GrepDonesConcat(a[1..], b);
      assert (a + b)[1..] == a[1..] + b && (a + b)[0] == a[0];
    }
  }

  /** Content matches stay in the order found, and one batch of everything gives the same. */
  lemma {:induction false} GrepBatchingDoesNotMatter<T>(current: GrepResponse<T>, batches: seq<seq<GrepEvent<T>>>)
    requires GrepDones(Flatten(batches)) <= 1
    ensures FoldGrep(current, batches) == ReduceGrep(current, Flatten(batches))
    ensures FoldGrep(current, batches).results == current.results + GrepMatches(Flatten(batches))
  {
    if batches == [] {
    } else {
      var front, last := batches[..|batches| - 1], batches[|batches| - 1];
      GrepDonesConcat(Flatten(front), last);
      GrepDonesConcat(last, []);
      GrepBatchingDoesNotMatter(current, front);
      GrepConcat(Flatten(front), last);
      ConcatAssoc(current.results, GrepMatches(Flatten(front)), GrepMatches(last));
    }
  }
}
