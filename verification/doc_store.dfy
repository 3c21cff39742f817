/** The storage side of DocumentationIndexer: the documentation_meta table
    (unique url, INSERT OR REPLACE is an upsert) and the documentation_fts
    virtual table (no key, so every insert appends a row), with addDocument,
    clear and getStats. Each relation is a sequence of rows in rowid order. */
module DocStore {
  import opened Wrappers

  /** A documentation_meta row; the surrogate id and indexed_at are not
      modelled. */
  datatype MetaRow = MetaRow(url: string, title: string, docType: string, category: Option<string>, source: Option<string>)

  /** A documentation_fts row. */
  datatype FtsRow = FtsRow(title: string, content: string, url: string, docType: string, category: Option<string>)

  datatype Store = Store(meta: seq<MetaRow>, fts: seq<FtsRow>)

  /** The arguments of addDocument. */
  datatype Document = Document(title: string, content: string, url: string, docType: string, category: Option<string>, source: Option<string>)

  /** The store after addDocument, and the RuntimeException message if it
      threw. */
  datatype Written = Written(store: Store, failure: Option<string>)

  const EmptyStore := Store([], [])

  const AddFailurePrefix := "Failed to add document: "

  function MetaRowOf(d: Document): MetaRow {
    MetaRow(d.url, d.title, d.docType, d.category, d.source)
  }

  function FtsRowOf(d: Document): FtsRow {
    FtsRow(d.title, d.content, d.url, d.docType, d.category)
  }

  function MetaUrls(meta: seq<MetaRow>): set<string> {
    set r | r in meta :: r.url
  }

  function FtsUrls(fts: seq<FtsRow>): set<string> {
    set r | r in fts :: r.url
  }

  /** The UNIQUE constraint on documentation_meta.url. */
  predicate UniqueUrls(meta: seq<MetaRow>) {
    forall i, j :: 0 <= i < j < |meta| ==> meta[i].url != meta[j].url
  }

  /** What addDocument and clear keep true: urls are unique in the metadata
      relation, and both relations know the same urls (the full-text relation
      may hold several rows for one url). */
  predicate Consistent(s: Store) {
    UniqueUrls(s.meta) && MetaUrls(s.meta) == FtsUrls(s.fts)
  }

  /** SELECT * FROM documentation_meta WHERE url = ?. */
  function RowsFor(meta: seq<MetaRow>, url: string): (rows: seq<MetaRow>)
    ensures forall k :: 0 <= k < |rows| ==> rows[k].url == url && rows[k] in meta
    decreases |meta|
  {
    if |meta| == 0 then []
    else (if meta[0].url == url then [meta[0]] else []) + RowsFor(meta[1..], url)
  }

  /** The lookup finds nothing exactly when no row has the url. */
  lemma {:induction false} RowsForEmpty(meta: seq<MetaRow>, url: string)
    ensures url !in MetaUrls(meta) <==> RowsFor(meta, url) == []
    decreases |meta|
  {
    if |meta| > 0 {
      RowsForEmpty(meta[1..], url);
      assert forall r :: r in meta <==> r == meta[0] || r in meta[1..];
    }
  }

  /** DELETE FROM documentation_meta WHERE url = ?. */
  function Without(meta: seq<MetaRow>, url: string): (rows: seq<MetaRow>)
    ensures forall r :: r in rows <==> r in meta && r.url != url
    ensures UniqueUrls(meta) ==> UniqueUrls(rows)
    decreases |meta|
  {
    if |meta| == 0 then []
    else
      var rest := Without(meta[1..], url);
      assert forall r :: r in meta <==> r == meta[0] || r in meta[1..];
      if meta[0].url == url then rest
      else
        assert forall r :: r in [meta[0]] + rest <==> r == meta[0] || r in rest;
        [meta[0]] + rest
  }

  lemma WithoutUrls(meta: seq<MetaRow>, url: string)
    ensures MetaUrls(Without(meta, url)) == MetaUrls(meta) - {url}
  {
    var rows := Without(meta, url);
    forall u | u in MetaUrls(meta) - {url} ensures u in MetaUrls(rows) {
      var r :| r in meta && r.url == u;
      assert r in rows;
    }
  }

  /** Deleting a url that is present removes exactly one row, since urls are
      unique; deleting an absent url removes nothing. */
  lemma {:induction false} WithoutSize(meta: seq<MetaRow>, url: string)
    requires UniqueUrls(meta)
    ensures |Without(meta, url)| == |meta| - (if url in MetaUrls(meta) then 1 else 0)
    decreases |meta|
  {
    if |meta| > 0 {
      var tail := meta[1..];
      WithoutSize(tail, url);
      assert forall r :: r in meta <==> r == meta[0] || r in tail;
      assert url in MetaUrls(meta) <==> meta[0].url == url || url in MetaUrls(tail);
      if meta[0].url == url {
        assert url !in MetaUrls(tail);
      }
    }
  }

  lemma {:induction false} RowsForAppend(a: seq<MetaRow>, b: seq<MetaRow>, url: string)
    ensures RowsFor(a + b, url) == RowsFor(a, url) + RowsFor(b, url)
    decreases |a|
  {
    if |a| > 0 {
      RowsForAppend(a[1..], b, url);
      assert (a + b)[0] == a[0];
      assert (a + b)[1..] == a[1..] + b;
      var h := if a[0].url == url then [a[0]] else [];
      assert RowsFor(a + b, url) == h + RowsFor(a[1..] + b, url);
    } else {
      assert a + b == b;
    }
  }

  lemma {:induction false} RowsForWithout(meta: seq<MetaRow>, url: string, other: string)
    requires other != url
    ensures RowsFor(Without(meta, url), other) == RowsFor(meta, other)
    decreases |meta|
  {
    if |meta| > 0 {
      RowsForWithout(meta[1..], url, other);
      if meta[0].url != url {
        assert ([meta[0]] + Without(meta[1..], url))[1..] == Without(meta[1..], url);
      }
    }
  }

  /** INSERT OR REPLACE INTO documentation_meta: the conflicting row is
      deleted and the new row gets the next rowid. */
  function Upsert(meta: seq<MetaRow>, row: MetaRow): seq<MetaRow> {
    Without(meta, row.url) + [row]
  }

  /** addDocument(): both inserts inside one transaction. `fault` is the
      message of the PDOException raised by whichever insert fails, if one
      does; the transaction is then rolled back. */
  function AddDocument(s: Store, d: Document, fault: Option<string>): (w: Written)
    ensures fault.Some? ==> w == Written(s, Some(AddFailurePrefix + fault.value))
    ensures fault.None? ==> w.failure == None
    ensures fault.None? ==> RowsFor(w.store.meta, d.url) == [MetaRowOf(d)]
    ensures fault.None? ==> forall u :: u != d.url ==> RowsFor(w.store.meta, u) == RowsFor(s.meta, u)
    ensures fault.None? ==> w.store.fts == s.fts + [FtsRowOf(d)]
    ensures Consistent(s) ==> Consistent(w.store)
  {
    match fault
    case Some(msg) => Written(s, Some(AddFailurePrefix + msg))
    case None =>
      var meta := Upsert(s.meta, MetaRowOf(d));
      var fts := s.fts + [FtsRowOf(d)];
      AddDocumentFacts(s, d);
      Written(Store(meta, fts), None)
  }

  lemma AddDocumentFacts(s: Store, d: Document)
    ensures RowsFor(Upsert(s.meta, MetaRowOf(d)), d.url) == [MetaRowOf(d)]
    ensures forall u :: u != d.url ==> RowsFor(Upsert(s.meta, MetaRowOf(d)), u) == RowsFor(s.meta, u)
    ensures UniqueUrls(s.meta) ==> UniqueUrls(Upsert(s.meta, MetaRowOf(d)))
    ensures MetaUrls(Upsert(s.meta, MetaRowOf(d))) == MetaUrls(s.meta) + {d.url}
    ensures FtsUrls(s.fts + [FtsRowOf(d)]) == FtsUrls(s.fts) + {d.url}
  {
    UpsertRows(s.meta, MetaRowOf(d));
    if UniqueUrls(s.meta) {
      UpsertUnique(s.meta, MetaRowOf(d));
    }
    UpsertUrls(s.meta, MetaRowOf(d));
    AppendFtsUrls(s.fts, FtsRowOf(d));
  }

  /** The metadata urls after addDocument: the new url is added unless the
      add failed. */
  lemma AddDocumentUrls(s: Store, d: Document, fault: Option<string>)
    ensures MetaUrls(AddDocument(s, d, fault).store.meta) == MetaUrls(s.meta) + (if fault.None? then {d.url} else {})
  {
    if fault.None? {
      UpsertUrls(s.meta, MetaRowOf(d));
    }
  }

  lemma UpsertRows(meta: seq<MetaRow>, row: MetaRow)
    ensures RowsFor(Upsert(meta, row), row.url) == [row]
    ensures forall u :: u != row.url ==> RowsFor(Upsert(meta, row), u) == RowsFor(meta, u)
  {
    var kept := Without(meta, row.url);
    RowsForAppend(kept, [row], row.url);
    WithoutUrls(meta, row.url);
    RowsForEmpty(kept, row.url);
    assert RowsFor([row], row.url) == [row];
    forall u | u != row.url
      ensures RowsFor(Upsert(meta, row), u) == RowsFor(meta, u)
    {
      RowsForAppend(kept, [row], u);
      assert RowsFor([row], u) == [];
      RowsForWithout(meta, row.url, u);
    }
  }

  lemma UpsertUnique(meta: seq<MetaRow>, row: MetaRow)
    requires UniqueUrls(meta)
    ensures UniqueUrls(Upsert(meta, row))
  {
    var kept := Without(meta, row.url);
    var up := kept + [row];
    forall i, j | 0 <= i < j < |up| ensures up[i].url != up[j].url {
      if j == |up| - 1 {
        assert up[i] in kept;
      } else {
        assert up[i] == kept[i] && up[j] == kept[j];
      }
    }
  }

  lemma UpsertUrls(meta: seq<MetaRow>, row: MetaRow)
    ensures MetaUrls(Upsert(meta, row)) == MetaUrls(meta) + {row.url}
  {
    var kept := Without(meta, row.url);
    WithoutUrls(meta, row.url);
    var up := kept + [row];
    assert forall r :: r in up <==> r in kept || r == row;
    assert MetaUrls(up) == MetaUrls(kept) + {row.url};
  }

  lemma AppendFtsUrls(fts: seq<FtsRow>, row: FtsRow)
    ensures FtsUrls(fts + [row]) == FtsUrls(fts) + {row.url}
  {
    assert forall r :: r in fts + [row] <==> r in fts || r == row;
  }

  /** Adding a url that is already present keeps the metadata count and
      grows the full-text relation; a new url grows both by one. */
  lemma AddDocumentCounts(s: Store, d: Document)
    requires UniqueUrls(s.meta)
    ensures |AddDocument(s, d, None).store.meta| == |s.meta| + (if d.url in MetaUrls(s.meta) then 0 else 1)
    ensures |AddDocument(s, d, None).store.fts| == |s.fts| + 1
  {
    WithoutSize(s.meta, d.url);
  }

  /** Adding the same document twice leaves one metadata row for its url but
      two full-text rows. */
  lemma AddTwice(s: Store, d: Document)
    ensures var once := AddDocument(s, d, None).store;
            var twice := AddDocument(once, d, None).store;
            RowsFor(twice.meta, d.url) == [MetaRowOf(d)]
            && twice.fts == s.fts + [FtsRowOf(d), FtsRowOf(d)]
  {
    var once := AddDocument(s, d, None).store;
    assert once.fts == s.fts + [FtsRowOf(d)];
    var twice := AddDocument(once, d, None).store;
    assert twice.fts == (s.fts + [FtsRowOf(d)]) + [FtsRowOf(d)];
    assert RowsFor(twice.meta, d.url) == [MetaRowOf(d)];
  }

  /* ---------------- getStats() and clear() ---------------- */

  /** One row of `SELECT type, COUNT(*) ... GROUP BY type`. */
  datatype TypeCount = TypeCount(docType: string, count: nat)

  /** getStats() without db_path. */
  datatype Stats = Stats(total: nat, byType: seq<TypeCount>)

  /** Number of metadata rows of the given type. */
  function CountOfType(meta: seq<MetaRow>, t: string): nat
    decreases |meta|
  {
    if |meta| == 0 then 0
    else CountOfType(meta[..|meta| - 1], t) + (if meta[|meta| - 1].docType == t then 1 else 0)
  }

  /** The count the tally holds for a type (0 when the type is absent). */
  function Counted(tally: seq<TypeCount>, t: string): nat
    decreases |tally|
  {
    if |tally| == 0 then 0
    else (if tally[0].docType == t then tally[0].count else 0) + Counted(tally[1..], t)
  }

  function Sum(tally: seq<TypeCount>): nat
    decreases |tally|
  {
    if |tally| == 0 then 0 else tally[0].count + Sum(tally[1..])
  }

  /** GROUP BY output: one entry per type, each counting at least one row. */
  predicate WellGrouped(tally: seq<TypeCount>) {
    && (forall i, j :: 0 <= i < j < |tally| ==> tally[i].docType != tally[j].docType)
    && (forall i :: 0 <= i < |tally| ==> tally[i].count > 0)
  }

  /** Count one more row of type t. */
  function Bump(tally: seq<TypeCount>, t: string): (r: seq<TypeCount>)
    ensures forall i :: 0 <= i < |r| ==> r[i].docType == t || r[i] in tally
    ensures Sum(r) == Sum(tally) + 1
    ensures forall x :: Counted(r, x) == Counted(tally, x) + (if x == t then 1 else 0)
    decreases |tally|
  {
    if |tally| == 0 then [TypeCount(t, 1)]
    else if tally[0].docType == t then
      var r := [TypeCount(t, tally[0].count + 1)] + tally[1..];
      assert r[1..] == tally[1..];
      r
    else
      var r := [tally[0]] + Bump(tally[1..], t);
      assert r[1..] == Bump(tally[1..], t);
      r
  }

  /** Counting a row keeps the tally grouped: still one entry per type,
      none of them zero. */
  lemma {:induction false} BumpKeepsGrouped(tally: seq<TypeCount>, t: string)
    requires WellGrouped(tally)
    ensures WellGrouped(Bump(tally, t))
    decreases |tally|
  {
    if |tally| > 0 {
      var r := Bump(tally, t);
      if tally[0].docType == t {
        assert forall i :: 1 <= i < |r| ==> r[i] == tally[i];
      } else {
        var tail := tally[1..];
        assert WellGrouped(tail) by {
          assert forall i :: 0 <= i < |tail| ==> tail[i] == tally[i + 1];
        }
        BumpKeepsGrouped(tail, t);
        BumpAvoidsHead(tally, t);
        var rest := Bump(tail, t);
        assert r == [tally[0]] + rest;
        assert forall i :: 1 <= i < |r| ==> r[i] == rest[i - 1];
      }
    }
  }

  /** Counting a t-row in the tail of a grouped tally whose head is not of
      type t leaves the head's type out of the tail. */
  lemma BumpAvoidsHead(tally: seq<TypeCount>, t: string)
    requires WellGrouped(tally) && |tally| > 0 && tally[0].docType != t
    ensures forall i :: 0 <= i < |Bump(tally[1..], t)| ==> Bump(tally[1..], t)[i].docType != tally[0].docType
  {
    var tail := tally[1..];
    var rest := Bump(tail, t);
    forall i | 0 <= i < |rest| ensures rest[i].docType != tally[0].docType {
      if rest[i].docType != t {
        var k :| 0 <= k < |tail| && tail[k] == rest[i];
        assert tally[k + 1] == rest[i];
      }
    }
  }

  /** The GROUP BY type aggregation, row by row. */
  function Tally(meta: seq<MetaRow>): (r: seq<TypeCount>)
    ensures WellGrouped(r)
    ensures Sum(r) == |meta|
    ensures forall x :: Counted(r, x) == CountOfType(meta, x)
    decreases |meta|
  {
    if |meta| == 0 then []
    else
      var init := Tally(meta[..|meta| - 1]);
      BumpKeepsGrouped(init, meta[|meta| - 1].docType);
      Bump(init, meta[|meta| - 1].docType)
  }

  /** In a well-grouped tally an entry's count is the count of its type. */
  lemma {:induction false} CountedEntry(tally: seq<TypeCount>, i: nat)
    requires WellGrouped(tally) && i < |tally|
    ensures Counted(tally, tally[i].docType) == tally[i].count
    decreases |tally|
  {
    if i == 0 {
      CountedAbsent(tally[1..], tally[0].docType);
    } else {
      CountedEntry(tally[1..], i - 1);
    }
  }

  lemma {:induction false} CountedAbsent(tally: seq<TypeCount>, t: string)
    requires forall k :: 0 <= k < |tally| ==> tally[k].docType != t
    ensures Counted(tally, t) == 0
    decreases |tally|
  {
    if |tally| > 0 {
      CountedAbsent(tally[1..], t);
    }
  }

  /** getStats(): total is the number of metadata rows; by_type has one
      entry per distinct type, each with that type's row count, and the
      counts add up to total. The order of by_type is not modelled. */
  function GetStats(s: Store): (st: Stats)
    ensures st.total == |s.meta|
    ensures WellGrouped(st.byType)
    ensures forall i :: 0 <= i < |st.byType| ==> st.byType[i].count == CountOfType(s.meta, st.byType[i].docType)
    ensures forall x :: Counted(st.byType, x) == CountOfType(s.meta, x)
    ensures Sum(st.byType) == st.total
  {
    var tally := Tally(s.meta);
    assert forall i :: 0 <= i < |tally| ==> tally[i].count == CountOfType(s.meta, tally[i].docType) by {
      forall i | 0 <= i < |tally| ensures tally[i].count == CountOfType(s.meta, tally[i].docType) {
        CountedEntry(tally, i);
      }
    }
    Stats(|s.meta|, tally)
  }

  /** clear(): both relations emptied; getStats then reports nothing. */
  function Clear(s: Store): (r: Store)
    ensures |r.meta| == 0 && |r.fts| == 0
    ensures Consistent(r)
    ensures GetStats(r) == Stats(0, [])
  {
    EmptyStore
  }

  /** A relation whose rows all have one type groups into a single entry. */
  lemma {:induction false} UniformTally(meta: seq<MetaRow>, t: string)
    requires |meta| > 0
    requires forall k :: 0 <= k < |meta| ==> meta[k].docType == t
    ensures Tally(meta) == [TypeCount(t, |meta|)]
    decreases |meta|
  {
    if |meta| > 1 {
      UniformTally(meta[..|meta| - 1], t);
    }
  }
}
