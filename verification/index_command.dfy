/** BoostIndexCommand: `bin/cake boost index [--clear] [--source book|api|all]`.
    It optionally clears the index, adds every parsed book document (counting
    failures instead of stopping), and reports the counts and the database
    statistics.

    The book parser and the per-document database failures are parameters:
    `parsed` is what BookParser::parse() returns or the message of the
    exception it throws, and `fault(k)` is the failure, if any, of the k-th
    addDocument call. Console output is left out. */
module IndexCommand {
  import opened Wrappers
  import opened DocStore

  /** One parsed book entry. */
  datatype BookDoc = BookDoc(title: string, content: string, url: string, category: Option<string>)

  datatype Counts = Counts(indexed: nat, errors: nat)

  /** The `--source` option; the option parser admits only these choices. */
  datatype Source = Book | Api | All

  datatype Indexed = Indexed(store: Store, counts: Counts)

  const BookType: string := "book"
  const BookSource: string := "cakephp-5.x"

  /** The addDocument call made for a parsed entry. */
  function AsDocument(b: BookDoc): (d: Document)
    ensures d.url == b.url && d.title == b.title && d.content == b.content && d.category == b.category
    ensures d.docType == BookType && d.source == Some(BookSource)
  {
    Document(b.title, b.content, b.url, BookType, b.category, Some(BookSource))
  }

  /** How many of the first n addDocument calls fail. */
  function FaultCount(fault: nat -> Option<string>, n: nat): nat
    decreases n
  {
    if n == 0 then 0 else FaultCount(fault, n - 1) + (if fault(n - 1).Some? then 1 else 0)
  }

  /** The urls of the entries whose addDocument call succeeds. */
  function IndexedUrls(docs: seq<BookDoc>, fault: nat -> Option<string>): (us: set<string>)
    decreases |docs|
  {
    if |docs| == 0 then {}
    else
      var n := |docs| - 1;
      IndexedUrls(docs[..n], fault) + (if fault(n).None? then {docs[n].url} else {})
  }

  /** A url is indexed exactly when some entry with that url was added
      without failure. */
  lemma {:induction false} IndexedUrlsMembers(docs: seq<BookDoc>, fault: nat -> Option<string>)
    ensures forall u :: u in IndexedUrls(docs, fault) ==> exists k :: 0 <= k < |docs| && docs[k].url == u && fault(k).None?
    ensures forall k :: 0 <= k < |docs| && fault(k).None? ==> docs[k].url in IndexedUrls(docs, fault)
    decreases |docs|
  {
    if |docs| > 0 {
      var n := |docs| - 1;
      IndexedUrlsMembers(docs[..n], fault);
      assert forall k :: 0 <= k < n ==> docs[..n][k] == docs[k];
    }
  }

  /** A row this command writes: type book, source cakephp-5.x. */
  predicate IsBookRow(r: MetaRow) {
    r.docType == BookType && r.source == Some(BookSource)
  }

  /** The foreach loop of indexBook(): each entry is added; a failure is
      counted as an error, rolled back, and the loop goes on. */
  function IndexDocs(s: Store, docs: seq<BookDoc>, fault: nat -> Option<string>): (r: Indexed)
    ensures r.counts.indexed + r.counts.errors == |docs|
    ensures r.counts.errors == FaultCount(fault, |docs|)
    ensures |r.store.fts| == |s.fts| + r.counts.indexed
    decreases |docs|
  {
    if |docs| == 0 then Indexed(s, Counts(0, 0))
    else
      var n := |docs| - 1;
      var prev := IndexDocs(s, docs[..n], fault);
      var w := AddDocument(prev.store, AsDocument(docs[n]), fault(n));
      if w.failure.Some? then Indexed(w.store, Counts(prev.counts.indexed, prev.counts.errors + 1))
      else Indexed(w.store, Counts(prev.counts.indexed + 1, prev.counts.errors))
  }

  /** The last entry is added to the store the earlier ones left. */
  lemma IndexDocsLast(s: Store, docs: seq<BookDoc>, fault: nat -> Option<string>)
    requires |docs| > 0
    ensures IndexDocs(s, docs, fault).store ==
      AddDocument(IndexDocs(s, docs[..|docs| - 1], fault).store, AsDocument(docs[|docs| - 1]), fault(|docs| - 1)).store
  {
  }

  /** The loop keeps the store consistent. */
  lemma {:induction false} IndexDocsConsistent(s: Store, docs: seq<BookDoc>, fault: nat -> Option<string>)
    requires Consistent(s)
    ensures Consistent(IndexDocs(s, docs, fault).store)
    decreases |docs|
  {
    if |docs| > 0 {
      IndexDocsConsistent(s, docs[..|docs| - 1], fault);
      IndexDocsLast(s, docs, fault);
    }
  }

  /** The loop only appends full-text rows. */
  lemma {:induction false} IndexDocsKeepsFts(s: Store, docs: seq<BookDoc>, fault: nat -> Option<string>)
    ensures |s.fts| <= |IndexDocs(s, docs, fault).store.fts|
    ensures IndexDocs(s, docs, fault).store.fts[..|s.fts|] == s.fts
    decreases |docs|
  {
    if |docs| > 0 {
      var prev := IndexDocs(s, docs[..|docs| - 1], fault).store;
      IndexDocsKeepsFts(s, docs[..|docs| - 1], fault);
      IndexDocsLast(s, docs, fault);
      var after := IndexDocs(s, docs, fault).store;
      assert after.fts[..|prev.fts|] == prev.fts;
      assert after.fts[..|s.fts|] == prev.fts[..|s.fts|];
    }
  }

  /** Afterwards the metadata holds the urls it held and exactly the urls of
      the entries that were added. */
  lemma {:induction false} IndexDocsUrls(s: Store, docs: seq<BookDoc>, fault: nat -> Option<string>)
    ensures MetaUrls(IndexDocs(s, docs, fault).store.meta) == MetaUrls(s.meta) + IndexedUrls(docs, fault)
    decreases |docs|
  {
    if |docs| > 0 {
      var n := |docs| - 1;
      var prev := IndexDocs(s, docs[..n], fault).store;
      var after := IndexDocs(s, docs, fault).store;
      var d := AsDocument(docs[n]);
      var extra := if fault(n).None? then {docs[n].url} else {};
      assert MetaUrls(after.meta) == MetaUrls(prev.meta) + extra by {
        IndexDocsLast(s, docs, fault);
        AddDocumentUrls(prev, d, fault(n));
      }
      assert MetaUrls(prev.meta) == MetaUrls(s.meta) + IndexedUrls(docs[..n], fault) by {
        IndexDocsUrls(s, docs[..n], fault);
      }
      assert IndexedUrls(docs, fault) == IndexedUrls(docs[..n], fault) + extra;
    }
  }

  /** Every metadata row the loop writes has type book and source
      cakephp-5.x. */
  lemma {:induction false} IndexDocsRows(s: Store, docs: seq<BookDoc>, fault: nat -> Option<string>)
    ensures forall x :: x in IndexDocs(s, docs, fault).store.meta ==> x in s.meta || IsBookRow(x)
    decreases |docs|
  {
    if |docs| > 0 {
      var n := |docs| - 1;
      var prev := IndexDocs(s, docs[..n], fault).store;
      IndexDocsRows(s, docs[..n], fault);
      IndexDocsLast(s, docs, fault);
      if fault(n).None? {
        assert IndexDocs(s, docs, fault).store.meta == Upsert(prev.meta, MetaRowOf(AsDocument(docs[n])));
      }
    }
  }

  /** indexBook(): a parser exception counts as one error and adds nothing. */
  function IndexBook(s: Store, parsed: Result<seq<BookDoc>, string>, fault: nat -> Option<string>): (r: Indexed)
    ensures parsed.Failure? ==> r == Indexed(s, Counts(0, 1))
    ensures parsed.Success? ==> r.counts.indexed + r.counts.errors == |parsed.value|
    ensures parsed.Success? ==> r.counts.errors == FaultCount(fault, |parsed.value|)
    ensures parsed.Success? ==> MetaUrls(r.store.meta) == MetaUrls(s.meta) + IndexedUrls(parsed.value, fault)
    ensures |r.store.fts| == |s.fts| + r.counts.indexed
    ensures |s.fts| <= |r.store.fts| && r.store.fts[..|s.fts|] == s.fts
    ensures MetaUrls(s.meta) <= MetaUrls(r.store.meta)
    ensures forall x :: x in r.store.meta ==> x in s.meta || IsBookRow(x)
  {
    match parsed
    case Failure(_) => Indexed(s, Counts(0, 1))
    case Success(docs) =>
      IndexDocsKeepsFts(s, docs, fault);
      IndexDocsUrls(s, docs, fault);
      IndexDocsRows(s, docs, fault);
      IndexDocs(s, docs, fault)
  }

  /** What execute() leaves behind and reports. */
  datatype Report = Report(store: Store, counts: Counts, stats: Stats)

  /** execute(): clear when asked, index the book for `book` and `all`, do
      nothing for the API (not implemented), then read the statistics. */
  function Execute(s: Store, clear: bool, source: Source, parsed: Result<seq<BookDoc>, string>, fault: nat -> Option<string>): (r: Report)
    ensures source == Api ==> r.counts == Counts(0, 0) && r.store == (if clear then EmptyStore else s)
    ensures source != Api && parsed.Failure? ==> r.counts == Counts(0, 1)
    ensures source != Api && parsed.Success? ==> r.counts.indexed + r.counts.errors == |parsed.value|
    ensures source != Api && parsed.Success? ==> r.counts.errors == FaultCount(fault, |parsed.value|)
    ensures source != Api && parsed.Failure? ==> r.store == (if clear then EmptyStore else s)
    ensures source != Api && parsed.Success? ==>
      MetaUrls(r.store.meta) == MetaUrls((if clear then EmptyStore else s).meta) + IndexedUrls(parsed.value, fault)
    ensures clear ==> |r.store.fts| == r.counts.indexed
    ensures !clear ==> |r.store.fts| == |s.fts| + r.counts.indexed
    ensures !clear ==> |s.fts| <= |r.store.fts| && r.store.fts[..|s.fts|] == s.fts
    ensures !clear ==> MetaUrls(s.meta) <= MetaUrls(r.store.meta)
    ensures clear ==> forall x :: x in r.store.meta ==> IsBookRow(x)
    ensures r.stats.total == |r.store.meta| && Sum(r.stats.byType) == r.stats.total
  {
    var start := if clear then Clear(s) else s;
    match source
    case Api => Report(start, Counts(0, 0), GetStats(start))
    case _ =>
      var done := IndexBook(start, parsed, fault);
      Report(done.store, done.counts, GetStats(done.store))
  }

  /* ---------------- a cleared index filled with distinct urls ---------------- */

  predicate DistinctUrls(docs: seq<BookDoc>) {
    forall i, j :: 0 <= i < j < |docs| ==> docs[i].url != docs[j].url
  }

  predicate NoFaults(fault: nat -> Option<string>, n: nat) {
    forall k :: 0 <= k < n ==> fault(k).None?
  }

  /** With distinct urls, the last entry's url is not among the earlier ones. */
  lemma LastUrlFresh(docs: seq<BookDoc>, fault: nat -> Option<string>)
    requires DistinctUrls(docs) && |docs| > 0
    ensures docs[|docs| - 1].url !in IndexedUrls(docs[..|docs| - 1], fault)
  {
    var n := |docs| - 1;
    var init := docs[..n];
    IndexedUrlsMembers(init, fault);
    forall k | 0 <= k < n ensures init[k].url != docs[n].url {
      assert init[k] == docs[k];
    }
  }

  /** Indexing entries with pairwise-distinct urls into an empty index, with
      no failure, gives one metadata row per entry. */
  lemma {:induction false} FreshIndexSize(docs: seq<BookDoc>, fault: nat -> Option<string>)
    requires DistinctUrls(docs) && NoFaults(fault, |docs|)
    ensures |IndexDocs(EmptyStore, docs, fault).store.meta| == |docs|
    decreases |docs|
  {
    if |docs| > 0 {
      var n := |docs| - 1;
      var init := docs[..n];
      assert DistinctUrls(init) && NoFaults(fault, n);
      FreshIndexSize(init, fault);
      var prev := IndexDocs(EmptyStore, init, fault);
      LastUrlFresh(docs, fault);
      EmptyMetaUrls();
      IndexDocsConsistent(EmptyStore, init, fault);
      IndexDocsUrls(EmptyStore, init, fault);
      assert MetaUrls(prev.store.meta) == IndexedUrls(init, fault);
      assert UniqueUrls(prev.store.meta);
      IndexDocsLast(EmptyStore, docs, fault);
      AddDocumentCounts(prev.store, AsDocument(docs[n]));
    }
  }

  lemma EmptyMetaUrls()
    ensures MetaUrls(EmptyStore.meta) == {} && Consistent(EmptyStore)
  {
  }

  /** `boost index --clear` with a parser that yields entries of pairwise
      distinct urls, none failing: every entry is indexed, total equals the
      number of entries, and by_type is the single entry book. */
  lemma ClearThenIndexDistinct(s: Store, source: Source, docs: seq<BookDoc>, fault: nat -> Option<string>)
    requires source != Api && |docs| > 0
    requires DistinctUrls(docs) && NoFaults(fault, |docs|)
    ensures Execute(s, true, source, Success(docs), fault).counts == Counts(|docs|, 0)
    ensures Execute(s, true, source, Success(docs), fault).stats == Stats(|docs|, [TypeCount(BookType, |docs|)])
  {
    var r := IndexDocs(EmptyStore, docs, fault);
    ExecuteAfterClear(s, source, Success(docs), fault);
    FreshIndexSize(docs, fault);
    NoFaultsCountZero(fault, |docs|);
    IndexDocsRows(EmptyStore, docs, fault);
    BookOnlyStats(r.store);
  }

  lemma ExecuteAfterClear(s: Store, source: Source, parsed: Result<seq<BookDoc>, string>, fault: nat -> Option<string>)
    requires source != Api
    ensures var d := IndexBook(EmptyStore, parsed, fault);
      Execute(s, true, source, parsed, fault) == Report(d.store, d.counts, GetStats(d.store))
  {
  }

  /** A store of this command's rows only has one by_type entry, book. */
  lemma BookOnlyStats(st: Store)
    requires |st.meta| > 0
    requires forall x :: x in st.meta ==> x in EmptyStore.meta || IsBookRow(x)
    ensures GetStats(st) == Stats(|st.meta|, [TypeCount(BookType, |st.meta|)])
  {
    assert forall k :: 0 <= k < |st.meta| ==> st.meta[k].docType == BookType by {
      assert forall k :: 0 <= k < |st.meta| ==> st.meta[k] in st.meta;
    }
    UniformTally(st.meta, BookType);
  }

  lemma {:induction false} NoFaultsCountZero(fault: nat -> Option<string>, n: nat)
    requires NoFaults(fault, n)
    ensures FaultCount(fault, n) == 0
    decreases n
  {
    if n > 0 {
      NoFaultsCountZero(fault, n - 1);
    }
  }

  /* ---------------- the book's sample entries ---------------- */

  const BookUrlPrefix: string := "https://book.cakephp.org/5/en/"

  /** The pages of the 20 sample entries BookParser returns, in order. */
  const SamplePages: seq<string> := [
    "orm/saving-data.html",
    "orm/associations.html#belongstomany",
    "core-libraries/validation.html",
    "controllers/request-response.html",
    "orm/query-builder.html",
    "controllers/middleware.html#authentication",
    "controllers/middleware.html#authorization",
    "controllers/middleware.html",
    "development/testing.html",
    "core-libraries/email.html",
    "development/routing.html",
    "core-libraries/events.html",
    "orm/behaviors.html",
    "controllers/components.html",
    "views/helpers.html",
    "controllers/pagination.html",
    "orm/database-basics.html#transactions",
    "core-libraries/caching.html",
    "core-libraries/validation.html#custom-validation-rules",
    "console-commands/commands.html"
  ]

  function SampleUrl(k: nat): string
    requires k < |SamplePages|
  {
    BookUrlPrefix + SamplePages[k]
  }

  lemma SamplePagesDistinct()
    ensures |SamplePages| == 20
    ensures forall i, j :: 0 <= i < j < |SamplePages| ==> SamplePages[i] != SamplePages[j]
  {
  }

  /** Clearing and indexing the book's sample entries gives total 20 and a
      single by_type entry, book, with count 20. */
  lemma SampleBookStats(s: Store, source: Source, docs: seq<BookDoc>, fault: nat -> Option<string>)
    requires source != Api
    requires |docs| == |SamplePages| && forall k :: 0 <= k < |docs| ==> docs[k].url == SampleUrl(k)
    requires NoFaults(fault, |docs|)
    ensures Execute(s, true, source, Success(docs), fault).counts == Counts(20, 0)
    ensures Execute(s, true, source, Success(docs), fault).stats == Stats(20, [TypeCount(BookType, 20)])
  {
    SamplePagesDistinct();
    forall i, j | 0 <= i < j < |docs| ensures docs[i].url != docs[j].url {
      assert docs[i].url[|BookUrlPrefix|..] == SamplePages[i];
      assert docs[j].url[|BookUrlPrefix|..] == SamplePages[j];
    }
    ClearThenIndexDistinct(s, source, docs, fault);
  }
}
