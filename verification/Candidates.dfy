/** db/candidates.py: the query a tape caches, and the exclude list applied to its answer. */
module Candidates {
  import opened Prelude
  import opened SortedSet

  datatype Document = Document(source: int, published: int)
  datatype DateRange = DateRange(dateFrom: Option<int>, dateTo: Option<int>)
  datatype Selection = Selection(sources: set<int>, range: DateRange, descending: bool)

  predicate InRange(range: DateRange, at: int) {
    && (range.dateFrom.None? || at >= range.dateFrom.value)
    && (range.dateTo.None? || at <= range.dateTo.value)
  }

  /** The WHERE clause without its NOT EXISTS. */
  predicate Selected(sel: Selection, doc: Document) {
    doc.source in sel.sources && InRange(sel.range, doc.published)
  }

  /** The ORDER BY clause: may a row published at `a` stand before one published at `b`? */
  predicate InOrder(descending: bool, a: int, b: int) {
    if descending then a >= b else a <= b
  }

  predicate Wanted(docs: map<int, Document>, scored: set<int>, sel: Selection, d: int) {
    d in docs && Selected(sel, docs[d]) && d !in scored
  }

  ghost predicate Sorted(docs: map<int, Document>, descending: bool, rows: seq<int>) {
    && (forall i :: 0 <= i < |rows| ==> rows[i] in docs)
    && (forall i, j :: 0 <= i < j < |rows| ==> InOrder(descending, docs[rows[i]].published, docs[rows[j]].published))
  }

  /** rows is a correct answer of the SELECT over documents docs for a user who has scored `scored`:
      each wanted document once, ordered by publication. SQL leaves the order of equal dates open. */
  ghost predicate IsAnswer(docs: map<int, Document>, scored: set<int>, sel: Selection, rows: seq<int>) {
    && NoDuplicates(rows)
    && (forall d :: d in rows <==> Wanted(docs, scored, sel, d))
    && Sorted(docs, sel.descending, rows)
  }

  // --- a database that answers: a scan in physical order, then a stable sort ---------------

  function Scan(docs: map<int, Document>, scored: set<int>, sel: Selection, physical: seq<int>): (rows: seq<int>)
    ensures forall d :: d in rows <==> d in physical && Wanted(docs, scored, sel, d)
    ensures forall i :: 0 <= i < |rows| ==> rows[i] in docs
  {
    if physical == [] then []
    else (if Wanted(docs, scored, sel, physical[0]) then [physical[0]] else []) + Scan(docs, scored, sel, physical[1..])
  }

  function Insert(docs: map<int, Document>, descending: bool, d: int, rows: seq<int>): (r: seq<int>)
    requires d in docs && forall i :: 0 <= i < |rows| ==> rows[i] in docs
    ensures forall e :: e in r <==> e == d || e in rows
    ensures forall i :: 0 <= i < |r| ==> r[i] in docs
  {
    if rows == [] then [d]
    else if InOrder(descending, docs[d].published, docs[rows[0]].published) then [d] + rows
    else [rows[0]] + Insert(docs, descending, d, rows[1..])
  }

  function Sort(docs: map<int, Document>, descending: bool, rows: seq<int>): (r: seq<int>)
    requires forall i :: 0 <= i < |rows| ==> rows[i] in docs
    ensures forall e :: e in r <==> e in rows
    ensures forall i :: 0 <= i < |r| ==> r[i] in docs
  {
    if rows == [] then []
    else Insert(docs, descending, rows[0], Sort(docs, descending, rows[1..]))
  }

  /** candidates_for_user's SELECT over a database whose documents lie on disk in the order `physical`. */
  function Answer(docs: map<int, Document>, scored: set<int>, sel: Selection, physical: seq<int>): seq<int> {
    Sort(docs, sel.descending, Scan(docs, scored, sel, physical))
  }

  lemma {:induction false} ScanDistinct(docs: map<int, Document>, scored: set<int>, sel: Selection, physical: seq<int>)
    requires NoDuplicates(physical)
    ensures NoDuplicates(Scan(docs, scored, sel, physical))
  {
    if physical != [] {
      ScanDistinct(docs, scored, sel, physical[1..]);
      assert physical[0] !in physical[1..];
    }
  }

  lemma {:induction false} InsertSorts(docs: map<int, Document>, descending: bool, d: int, rows: seq<int>)
    requires d in docs && d !in rows && Sorted(docs, descending, rows) && NoDuplicates(rows)
    ensures Sorted(docs, descending, Insert(docs, descending, d, rows))
    ensures NoDuplicates(Insert(docs, descending, d, rows))
  {
    if rows != [] {
      var tail := rows[1..];
      if !InOrder(descending, docs[d].published, docs[rows[0]].published) {
        InsertSorts(docs, descending, d, tail);
        var rest := Insert(docs, descending, d, tail);
        assert rows[0] !in tail;
        forall j | 0 <= j < |rest| ensures InOrder(descending, docs[rows[0]].published, docs[rest[j]].published) {
          assert rest[j] in rest;
          if rest[j] in tail { var k :| 0 <= k < |tail| && tail[k] == rest[j]; assert rows[k + 1] == rest[j]; }
        }
      } else {
        forall j | 0 <= j < |rows| ensures InOrder(descending, docs[d].published, docs[rows[j]].published) {
        }
      }
    }
  }

  lemma {:induction false} SortSorts(docs: map<int, Document>, descending: bool, rows: seq<int>)
    requires (forall i :: 0 <= i < |rows| ==> rows[i] in docs) && NoDuplicates(rows)
    ensures Sorted(docs, descending, Sort(docs, descending, rows)) && NoDuplicates(Sort(docs, descending, rows))
  {
    if rows != [] {
      SortSorts(docs, descending, rows[1..]);
      assert rows[0] !in rows[1..];
      InsertSorts(docs, descending, rows[0], Sort(docs, descending, rows[1..]));
    }
  }

  ghost predicate Lays(docs: map<int, Document>, physical: seq<int>) {
    NoDuplicates(physical) && forall d :: d in docs <==> d in physical
  }

  /** Whatever order the documents lie in, the SELECT answers correctly ... */
  lemma AnswerIsCorrect(docs: map<int, Document>, scored: set<int>, sel: Selection, physical: seq<int>)
    requires Lays(docs, physical)
    ensures IsAnswer(docs, scored, sel, Answer(docs, scored, sel, physical))
  {
    ScanDistinct(docs, scored, sel, physical);
    SortSorts(docs, sel.descending, Scan(docs, scored, sel, physical));
  }

  lemma {:induction false} SortKeepsSorted(docs: map<int, Document>, descending: bool, rows: seq<int>)
    requires Sorted(docs, descending, rows)
    ensures Sort(docs, descending, rows) == rows
  {
    if rows != [] {
      SortKeepsSorted(docs, descending, rows[1..]);
      if |rows| > 1 { assert rows[1..][0] == rows[1]; }
    }
  }

  lemma {:induction false} ScanAll(docs: map<int, Document>, scored: set<int>, sel: Selection, a: seq<int>, b: seq<int>)
    requires forall d :: d in a ==> Wanted(docs, scored, sel, d)
    requires forall d :: d in b ==> !Wanted(docs, scored, sel, d)
    ensures Scan(docs, scored, sel, a + b) == a
  {
    if a == [] {
      assert a + b == b;
      if b != [] { assert b[0] in b; assert b[1..] == [] + b[1..]; ScanAll(docs, scored, sel, [], b[1..]); }
    } else {
      assert (a + b)[1..] == a[1..] + b;
      assert a[0] in a;
      ScanAll(docs, scored, sel, a[1..], b);
    }
  }

  /** ... and every correct answer is the answer of some order on disk: quantifying over `physical`
      quantifies over all answers SQL allows. */
  lemma EveryAnswerOccurs(docs: map<int, Document>, scored: set<int>, sel: Selection, rows: seq<int>, others: seq<int>)
    requires IsAnswer(docs, scored, sel, rows)
    requires forall d :: d in others ==> !Wanted(docs, scored, sel, d)
    ensures Answer(docs, scored, sel, rows + others) == rows
  {
    ScanAll(docs, scored, sel, rows, others);
    SortKeepsSorted(docs, sel.descending, rows);
  }

  // --- the exclude list -------------------------------------------------------------------

  /** The Python half of candidates_for_user. */
  function CandidatesFor(rows: seq<int>, exclude: set<int>): seq<int> { Without(rows, exclude) }

  lemma CandidatesExact(rows: seq<int>, exclude: set<int>)
    ensures forall d :: d in CandidatesFor(rows, exclude) <==> d in rows && d !in exclude
    ensures forall i :: 0 <= i < |CandidatesFor(rows, exclude)| ==> CandidatesFor(rows, exclude)[i] in rows
  {
    WithoutExact(rows, exclude);
  }

  /** Excluding any part of the tape (so also its first 10,000 entries) is only an optimisation: an append
      above the tape adds the same documents, as many, in the same order, and lists alike. Only positions differ. */
  lemma ExcludeIsOnlyAnOptimisation(t: Tape, rows: seq<int>, exclude: set<int>, start: int)
    requires NoDuplicates(rows) && exclude <= t.Keys && Above(t, start)
    ensures DocsOf(Added(t, CandidatesFor(rows, exclude), start)) == Without(rows, t.Keys)
    ensures DocsOf(Added(t, CandidatesFor(rows, t.Keys), start)) == Without(rows, t.Keys)
    ensures DocsOf(Rows(AddAll(t, CandidatesFor(rows, exclude), start))) ==
            DocsOf(Rows(AddAll(t, CandidatesFor(rows, t.Keys), start)))
    ensures forall d :: d in t ==> d in AddAll(t, CandidatesFor(rows, exclude), start)
                                   && AddAll(t, CandidatesFor(rows, exclude), start)[d] == t[d]
  {
    ExcludeOne(t, rows, exclude, start);
    ExcludeOne(t, rows, t.Keys, start);
    WithoutKeepsDistinct(rows, exclude);
    AddAllExact(t, Without(rows, exclude), start);
  }

  lemma ExcludeOne(t: Tape, rows: seq<int>, exclude: set<int>, start: int)
    requires NoDuplicates(rows) && exclude <= t.Keys && Above(t, start)
    ensures DocsOf(Added(t, Without(rows, exclude), start)) == Without(rows, t.Keys)
    ensures DocsOf(Rows(AddAll(t, Without(rows, exclude), start))) == DocsOf(Rows(t)) + Without(rows, t.Keys)
  {
    var docs := Without(rows, exclude);
    WithoutKeepsDistinct(rows, exclude);
    AddedDocs(t, docs, start);
    WithoutTwice(rows, exclude, t.Keys);
    AppendLists(t, docs, start);
  }
}
