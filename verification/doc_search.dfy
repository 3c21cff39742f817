/** DocumentationIndexer::search: compile the query, keep the full-text rows
    the engine matches that pass the type and category filters, order them
    by the engine's rank, apply LIMIT, and attach a snippet.

    The FTS5 engine itself (MATCH with the porter/unicode61 tokenizer, the
    bm25 rank and snippet()) is a parameter: the model states what search
    does with whatever the engine answers. */
module DocSearch {
  import opened Wrappers
  import opened DocStore
  import opened FtsQuery

  /** The parts of SQLite FTS5 that search relies on, for a compiled query.
      `fault` is the error the database raises when it prepares or runs the
      statement for the compiled query (an FTS5 syntax error, say), if any. */
  datatype Engine = Engine(
    matches: (string, FtsRow) -> bool,
    rank: (string, FtsRow) -> int,
    snippet: (string, FtsRow) -> string,
    fault: string -> Option<string>)

  /** One row of search()'s result set. */
  datatype SearchResult = SearchResult(title: string, url: string, docType: string, category: Option<string>, snippet: string, relevance: int)

  /** `type IN (...)` and `category IN (...)`, each added only when its list
      is non-empty. A NULL category is never IN a list. */
  predicate PassesFilters(row: FtsRow, types: seq<string>, categories: seq<string>) {
    && (|types| == 0 || row.docType in types)
    && (|categories| == 0 || (row.category.Some? && row.category.value in categories))
  }

  /** The WHERE clause as a whole. */
  predicate IsHit(e: Engine, q: string, types: seq<string>, categories: seq<string>, row: FtsRow) {
    e.matches(q, row) && PassesFilters(row, types, categories)
  }

  /** The rows the WHERE clause selects, in rowid order. */
  function Hits(e: Engine, q: string, types: seq<string>, categories: seq<string>, rows: seq<FtsRow>): (hs: seq<FtsRow>)
    ensures forall x :: x in hs <==> x in rows && IsHit(e, q, types, categories, x)
    ensures multiset(hs) <= multiset(rows)
    ensures forall x :: multiset(hs)[x] == if IsHit(e, q, types, categories, x) then multiset(rows)[x] else 0
    decreases |rows|
  {
    if |rows| == 0 then []
    else
      var rest := Hits(e, q, types, categories, rows[1..]);
      assert rows == [rows[0]] + rows[1..];
      (if IsHit(e, q, types, categories, rows[0]) then [rows[0]] else []) + rest
  }

  /** The rows the engine matches, with no filter at all. */
  function Matching(e: Engine, q: string, rows: seq<FtsRow>): seq<FtsRow>
    decreases |rows|
  {
    if |rows| == 0 then []
    else (if e.matches(q, rows[0]) then [rows[0]] else []) + Matching(e, q, rows[1..])
  }

  /** Empty filter lists add no restriction: the selection is exactly the
      rows the engine matches. */
  lemma {:induction false} EmptyFiltersSelectAllMatches(e: Engine, q: string, rows: seq<FtsRow>)
    ensures Hits(e, q, [], [], rows) == Matching(e, q, rows)
    decreases |rows|
  {
    if |rows| > 0 {
      EmptyFiltersSelectAllMatches(e, q, rows[1..]);
    }
  }

  /** ORDER BY rank: ascending, so the best match comes first. */
  predicate Ascending(e: Engine, q: string, xs: seq<FtsRow>) {
    forall i, j :: 0 <= i < j < |xs| ==> e.rank(q, xs[i]) <= e.rank(q, xs[j])
  }

  /** Insert x before the first row that ranks strictly worse, so that rows
      of equal rank keep their order. */
  function Insert(e: Engine, q: string, x: FtsRow, ys: seq<FtsRow>): (r: seq<FtsRow>)
    ensures |r| == |ys| + 1
    ensures r[0] == x || (|ys| > 0 && r[0] == ys[0])
    decreases |ys|
  {
    if |ys| == 0 then [x]
    else if e.rank(q, x) <= e.rank(q, ys[0]) then [x] + ys
    else [ys[0]] + Insert(e, q, x, ys[1..])
  }

  /** Inserting into an ascending list keeps it ascending. */
  lemma {:induction false} InsertAscending(e: Engine, q: string, x: FtsRow, ys: seq<FtsRow>)
    requires Ascending(e, q, ys)
    ensures Ascending(e, q, Insert(e, q, x, ys))
    decreases |ys|
  {
    if |ys| > 0 {
      if e.rank(q, x) <= e.rank(q, ys[0]) {
        AscendingCons(e, q, x, ys);
      } else {
        var tail := ys[1..];
        assert Ascending(e, q, tail) by {
          assert forall i :: 0 <= i < |tail| ==> tail[i] == ys[i + 1];
        }
        InsertAscending(e, q, x, tail);
        var rest := Insert(e, q, x, tail);
        assert |tail| > 0 ==> tail[0] == ys[1];
        AscendingCons(e, q, ys[0], rest);
      }
    }
  }

  /** Inserting adds x and loses nothing. */
  lemma {:induction false} InsertPermutes(e: Engine, q: string, x: FtsRow, ys: seq<FtsRow>)
    ensures multiset(Insert(e, q, x, ys)) == multiset(ys) + multiset{x}
    decreases |ys|
  {
    if |ys| > 0 && e.rank(q, x) > e.rank(q, ys[0]) {
      InsertPermutes(e, q, x, ys[1..]);
      assert ys == [ys[0]] + ys[1..];
    }
  }

  /** A row ranked no worse than the head of an ascending list extends it. */
  lemma AscendingCons(e: Engine, q: string, x: FtsRow, xs: seq<FtsRow>)
    requires Ascending(e, q, xs)
    requires |xs| > 0 ==> e.rank(q, x) <= e.rank(q, xs[0])
    ensures Ascending(e, q, [x] + xs)
  {
    var r := [x] + xs;
    forall i, j | 0 <= i < j < |r| ensures e.rank(q, r[i]) <= e.rank(q, r[j]) {
      if i > 0 {
        assert r[i] == xs[i - 1] && r[j] == xs[j - 1];
      } else {
        assert r[j] == xs[j - 1];
      }
    }
  }

  lemma MultisetCons(xs: seq<FtsRow>)
    requires |xs| > 0
    ensures multiset(xs) == multiset{xs[0]} + multiset(xs[1..])
  {
    assert xs == [xs[0]] + xs[1..];
  }

  /** ORDER BY rank as an insertion sort. SQLite fixes no order among rows
      of equal rank; this sort keeps them in rowid order, which is one of
      the orders SQLite may use (see README). */
  function SortByRank(e: Engine, q: string, xs: seq<FtsRow>): (ys: seq<FtsRow>)
    ensures Ascending(e, q, ys)
    ensures multiset(ys) == multiset(xs)
    decreases |xs|
  {
    if |xs| == 0 then []
    else
      var rest := SortByRank(e, q, xs[1..]);
      InsertAscending(e, q, xs[0], rest);
      InsertPermutes(e, q, xs[0], rest);
      MultisetCons(xs);
      Insert(e, q, xs[0], rest)
  }

  /** SQLite's LIMIT: at most `limit` rows, and a negative limit means no
      limit. */
  function Take(xs: seq<FtsRow>, limit: int): (r: seq<FtsRow>)
    ensures 0 <= limit ==> |r| == if limit < |xs| then limit else |xs|
    ensures limit < 0 ==> r == xs
    ensures |r| <= |xs| && r == xs[..|r|]
    ensures multiset(r) <= multiset(xs)
  {
    if 0 <= limit < |xs| then
      assert xs == xs[..limit] + xs[limit..];
      xs[..limit]
    else xs
  }

  /** The rows search() returns, before snippets: hits only, best rank
      first, at most `limit` of them, and no hit left out (not even a second
      copy of a kept row) ranks better than one kept. */
  function Ranked(e: Engine, q: string, rows: seq<FtsRow>, limit: int, types: seq<string>, categories: seq<string>): (top: seq<FtsRow>)
    ensures forall k :: 0 <= k < |top| ==> top[k] in rows && IsHit(e, q, types, categories, top[k])
    ensures Ascending(e, q, top)
    ensures 0 <= limit ==> |top| <= limit
    ensures |top| == KeptCount(limit, |Hits(e, q, types, categories, rows)|)
    ensures multiset(top) <= multiset(Hits(e, q, types, categories, rows))
    ensures limit < 0 ==> multiset(top) == multiset(Hits(e, q, types, categories, rows))
    ensures forall x :: multiset(top)[x] < multiset(Hits(e, q, types, categories, rows))[x] ==> RanksNoBetter(e, q, top, x)
  {
    var hits := Hits(e, q, types, categories, rows);
    var sorted := SortByRank(e, q, hits);
    var top := Take(sorted, limit);
    assert |sorted| == |hits| by {
      assert |multiset(sorted)| == |multiset(hits)|;
    }
    TopIsHits(hits, sorted, top);
    LeftOutRankNoBetter(e, q, hits, sorted, top);
    top
  }

  /** How many of n matching rows `LIMIT limit` keeps: min(limit, n), or
      all n for a negative limit. */
  function KeptCount(limit: int, n: nat): nat {
    if 0 <= limit < n then limit else n
  }

  /** Every kept row ranks at least as well as x. */
  predicate RanksNoBetter(e: Engine, q: string, top: seq<FtsRow>, x: FtsRow) {
    forall k :: 0 <= k < |top| ==> e.rank(q, top[k]) <= e.rank(q, x)
  }

  lemma TopIsHits(hits: seq<FtsRow>, sorted: seq<FtsRow>, top: seq<FtsRow>)
    requires multiset(sorted) == multiset(hits)
    requires |top| <= |sorted| && top == sorted[..|top|]
    ensures forall k :: 0 <= k < |top| ==> top[k] in hits
  {
    forall k | 0 <= k < |top| ensures top[k] in hits {
      assert top[k] == sorted[k];
      assert sorted[k] in multiset(sorted);
    }
  }

  lemma LeftOutRankNoBetter(e: Engine, q: string, hits: seq<FtsRow>, sorted: seq<FtsRow>, top: seq<FtsRow>)
    requires multiset(sorted) == multiset(hits)
    requires Ascending(e, q, sorted)
    requires |top| <= |sorted| && top == sorted[..|top|]
    ensures forall x :: multiset(top)[x] < multiset(hits)[x] ==> RanksNoBetter(e, q, top, x)
  {
    var rest := sorted[|top|..];
    assert sorted == top + rest;
    assert multiset(sorted) == multiset(top) + multiset(rest);
    forall x | multiset(top)[x] < multiset(hits)[x] ensures RanksNoBetter(e, q, top, x) {
      assert x in multiset(rest);
      var j :| 0 <= j < |rest| && rest[j] == x;
      assert sorted[|top| + j] == x;
      forall k | 0 <= k < |top| ensures e.rank(q, top[k]) <= e.rank(q, x) {
        assert top[k] == sorted[k];
      }
    }
  }

  function Present(e: Engine, q: string, row: FtsRow): SearchResult {
    SearchResult(row.title, row.url, row.docType, row.category, e.snippet(q, row), e.rank(q, row))
  }

  function PresentAll(e: Engine, q: string, rows: seq<FtsRow>): (rs: seq<SearchResult>)
    ensures |rs| == |rows|
    ensures forall k :: 0 <= k < |rs| ==> rs[k] == Present(e, q, rows[k])
    decreases |rows|
  {
    if |rows| == 0 then [] else [Present(e, q, rows[0])] + PresentAll(e, q, rows[1..])
  }

  /** Presenting a row keeps its url, type, category and rank. */
  lemma PresentKeeps(e: Engine, q: string, top: seq<FtsRow>)
    ensures forall k :: 0 <= k < |top| ==>
      var p := PresentAll(e, q, top)[k];
      p.url == top[k].url && p.docType == top[k].docType && p.category == top[k].category && p.relevance == e.rank(q, top[k])
  {
  }

  /** Every result is the presentation of a row of `rows` that the WHERE
      clause selects. */
  predicate PresentsHits(e: Engine, q: string, rows: seq<FtsRow>, types: seq<string>, categories: seq<string>, rs: seq<SearchResult>) {
    forall k :: 0 <= k < |rs| ==> exists x :: x in rows && IsHit(e, q, types, categories, x) && rs[k] == Present(e, q, x)
  }

  lemma PresentAllOfHits(e: Engine, q: string, rows: seq<FtsRow>, types: seq<string>, categories: seq<string>, top: seq<FtsRow>)
    requires forall k :: 0 <= k < |top| ==> top[k] in rows && IsHit(e, q, types, categories, top[k])
    ensures PresentsHits(e, q, rows, types, categories, PresentAll(e, q, top))
    ensures forall k :: 0 <= k < |top| ==> PresentAll(e, q, top)[k].url in FtsUrls(rows)
  {
    var rs := PresentAll(e, q, top);
    forall k | 0 <= k < |rs| ensures exists x :: x in rows && IsHit(e, q, types, categories, x) && rs[k] == Present(e, q, x) {
      assert rs[k] == Present(e, q, top[k]);
    }
    forall k | 0 <= k < |top| ensures rs[k].url in FtsUrls(rows) {
      assert top[k] in rows;
    }
  }

  /** search($query, $limit, $types, $categories). */
  function Search(e: Engine, s: Store, query: string, limit: int, types: seq<string>, categories: seq<string>): (r: Result<seq<SearchResult>, string>)
    ensures r.Failure? <==> e.fault(PrepareFtsQuery(query)).Some?
    ensures r.Failure? ==> r.error == e.fault(PrepareFtsQuery(query)).value
    ensures r.Success? ==> forall k :: 0 <= k < |r.value| && |types| > 0 ==> r.value[k].docType in types
    ensures r.Success? ==> forall k :: 0 <= k < |r.value| && |categories| > 0 ==>
      r.value[k].category.Some? && r.value[k].category.value in categories
    ensures r.Success? ==> forall i, j :: 0 <= i < j < |r.value| ==> r.value[i].relevance <= r.value[j].relevance
    ensures r.Success? && 0 <= limit ==> |r.value| <= limit
    ensures r.Success? ==> |r.value| == KeptCount(limit, |Hits(e, PrepareFtsQuery(query), types, categories, s.fts)|)
    ensures r.Success? ==> PresentsHits(e, PrepareFtsQuery(query), s.fts, types, categories, r.value)
    ensures r.Success? ==> r.value == PresentAll(e, PrepareFtsQuery(query), Ranked(e, PrepareFtsQuery(query), s.fts, limit, types, categories))
    ensures r.Success? ==> forall k :: 0 <= k < |r.value| ==> r.value[k].url in FtsUrls(s.fts)
  {
    var q := PrepareFtsQuery(query);
    match e.fault(q)
    case Some(msg) => Failure(msg)
    case None =>
      var top := Ranked(e, q, s.fts, limit, types, categories);
      var rs := PresentAll(e, q, top);
      PresentKeeps(e, q, top);
      PresentAllOfHits(e, q, s.fts, types, categories, top);
      Success(rs)
  }
}
