/** The Redis sorted set that holds one user's tape, and the reads and writes store/tape.py makes on it.
    A tape maps a document id (the member) to its position (the score). */
module SortedSet {
  import opened Prelude
  import Keys

  type Tape = map<int, int>
  datatype Row = Row(pos: int, doc: int)

  /** Redis orders members of equal score by their bytes. */
  predicate StrLess(a: string, b: string) {
    if b == "" then false
    else if a == "" then true
    else a[0] < b[0] || (a[0] == b[0] && StrLess(a[1..], b[1..]))
  }

  /** The first byte in which they differ decides, and a proper prefix comes first. */
  lemma {:induction false} StrLessExact(a: string, b: string)
    ensures StrLess(a, b) <==>
              exists k: nat :: k < |b| && k <= |a| && a[..k] == b[..k] && (k == |a| || (k < |a| && a[k] < b[k]))
  {
    if a != "" && b != "" {
      StrLessExact(a[1..], b[1..]);
      if StrLess(a, b) {
        if a[0] < b[0] {
          assert a[..0] == b[..0];
        } else {
          var k: nat :| k < |b[1..]| && k <= |a[1..]| && a[1..][..k] == b[1..][..k]
                        && (k == |a[1..]| || (k < |a[1..]| && a[1..][k] < b[1..][k]));
          assert a[..k + 1] == [a[0]] + a[1..][..k] && b[..k + 1] == [b[0]] + b[1..][..k];
        }
      } else {
        forall k: nat | k < |b| && k <= |a| && a[..k] == b[..k] ensures !(k == |a| || (k < |a| && a[k] < b[k])) {
          if k > 0 {
            assert a[0] == a[..k][0] == b[..k][0] == b[0];
            assert a[1..][..k - 1] == a[..k][1..] == b[..k][1..] == b[1..][..k - 1];
          }
        }
      }
    } else if b != "" {
      assert a[..0] == b[..0];
    }
  }

  lemma {:induction false} StrLessTrichotomy(a: string, b: string)
    ensures a == b ==> !StrLess(a, b)
    ensures StrLess(a, b) ==> !StrLess(b, a)
    ensures a != b ==> StrLess(a, b) || StrLess(b, a)
  {
    if a != "" && b != "" && a[0] == b[0] {
      StrLessTrichotomy(a[1..], b[1..]);
      assert a == [a[0]] + a[1..] && b == [b[0]] + b[1..];
    }
  }

  lemma {:induction false} StrLessTransitive(a: string, b: string, c: string)
    requires StrLess(a, b) && StrLess(b, c)
    ensures StrLess(a, c)
  {
    if a != "" && a[0] == b[0] && b[0] == c[0] {
      StrLessTransitive(a[1..], b[1..], c[1..]);
    }
  }

  predicate MemberLess(d: int, e: int) { StrLess(Keys.Decimal(d), Keys.Decimal(e)) }

  /** The order of ZRANGE: by score, then by member. */
  predicate Before(a: Row, b: Row) {
    a.pos < b.pos || (a.pos == b.pos && MemberLess(a.doc, b.doc))
  }

  lemma BeforeTrichotomy(a: Row, b: Row)
    ensures !Before(a, a)
    ensures Before(a, b) ==> !Before(b, a)
    ensures a != b ==> Before(a, b) || Before(b, a)
  {
    StrLessTrichotomy(Keys.Decimal(a.doc), Keys.Decimal(a.doc));
    StrLessTrichotomy(Keys.Decimal(a.doc), Keys.Decimal(b.doc));
    Keys.DecimalInjective(a.doc, b.doc);
  }

  lemma BeforeTransitive(a: Row, b: Row, c: Row)
    requires Before(a, b) && Before(b, c)
    ensures Before(a, c)
  {
    if a.pos == b.pos == c.pos {
      StrLessTransitive(Keys.Decimal(a.doc), Keys.Decimal(b.doc), Keys.Decimal(c.doc));
    }
  }

  predicate IsFirst(t: Tape, d: int) {
    d in t && forall e | e in t :: e == d || Before(Row(t[d], d), Row(t[e], e))
  }

  lemma NonEmpty(t: Tape)
    ensures t == map[] || exists e :: e in t
  {
    if !exists e :: e in t {
      assert t == map[];
    }
  }

  lemma {:induction false} FirstExists(t: Tape)
    requires exists e :: e in t
    ensures exists d :: IsFirst(t, d)
    decreases |t|
  {
    var e :| e in t;
    if forall x :: x in t ==> x == e {
      assert IsFirst(t, e);
    } else {
      var rest := t - {e};
      var other :| other in t && other != e;
      assert other in rest;
      FirstExists(rest);
      var f :| IsFirst(rest, f);
      var first := if Before(Row(t[e], e), Row(t[f], f)) then e else f;
      BeforeTrichotomy(Row(t[e], e), Row(t[f], f));
      forall x | x in t && x != first ensures Before(Row(t[first], first), Row(t[x], x)) {
        if first == e && x != f {
          assert x in rest;
          BeforeTransitive(Row(t[e], e), Row(t[f], f), Row(t[x], x));
        } else if first == f && x != e {
          assert x in rest;
        }
      }
      assert IsFirst(t, first);
    }
  }

  lemma FirstIsUnique(t: Tape, d: int, e: int)
    requires IsFirst(t, d) && IsFirst(t, e)
    ensures d == e
  {
    BeforeTrichotomy(Row(t[d], d), Row(t[e], e));
  }

  function FirstDoc(t: Tape): (d: int)
    requires t != map[]
    ensures IsFirst(t, d)
  {
    NonEmpty(t);
    FirstExists(t);
    assert forall d, e | IsFirst(t, d) && IsFirst(t, e) :: d == e by {
      forall d, e | IsFirst(t, d) && IsFirst(t, e) ensures d == e { FirstIsUnique(t, d, e); }
    }
    var d :| d in t && IsFirst(t, d);
    d
  }

  ghost predicate Ordered(rows: seq<Row>) {
    forall i, j :: 0 <= i < j < |rows| ==> Before(rows[i], rows[j])
  }

  /** rows lists t: every entry, nothing else, in ZRANGE order. */
  ghost predicate Lists(t: Tape, rows: seq<Row>) {
    && Ordered(rows)
    && (forall r :: r in rows ==> r.doc in t && t[r.doc] == r.pos)
    && (forall d :: d in t ==> Row(t[d], d) in rows)
  }

  /** ZRANGE key 0 -1 WITHSCORES. */
  function Rows(t: Tape): (rows: seq<Row>)
    ensures |rows| == |t|
    decreases |t|
  {
    if t == map[] then []
    else
      var d := FirstDoc(t);
      assert t.Keys == (t - {d}).Keys + {d};
      [Row(t[d], d)] + Rows(t - {d})
  }

  lemma ListsWithFirst(t: Tape, d: int, rest: seq<Row>)
    requires IsFirst(t, d) && Lists(t - {d}, rest)
    ensures Lists(t, [Row(t[d], d)] + rest)
  {
    var rows := [Row(t[d], d)] + rest;
    forall r | r in rest ensures Before(Row(t[d], d), r) && r.doc in t && t[r.doc] == r.pos {
      assert r == Row(t[r.doc], r.doc);
    }
    forall e | e in t ensures Row(t[e], e) in rows {
      if e != d { assert Row((t - {d})[e], e) in rest; }
    }
  }

  lemma SmallerTape(t: Tape, d: int)
    requires d in t
    ensures |t - {d}| == |t| - 1
  {
    assert t.Keys == (t - {d}).Keys + {d};
  }

  lemma {:induction false} RowsListTape(t: Tape)
    ensures Lists(t, Rows(t))
    decreases |t|
  {
    if t != map[] {
      var d := FirstDoc(t);
      SmallerTape(t, d);
      RowsListTape(t - {d});
      ListsWithFirst(t, d, Rows(t - {d}));
    }
  }

  lemma ListingHead(t: Tape, rows: seq<Row>)
    requires Lists(t, rows) && t != map[]
    ensures rows != [] && rows[0] == Row(t[FirstDoc(t)], FirstDoc(t))
  {
    var d := FirstDoc(t);
    var k :| 0 <= k < |rows| && rows[k] == Row(t[d], d);
    assert rows[0] in rows;
    if k > 0 {
      assert Before(rows[0], rows[k]);
      BeforeTrichotomy(rows[0], rows[k]);
    }
  }

  lemma ListingTail(t: Tape, rows: seq<Row>)
    requires Lists(t, rows) && rows != []
    ensures Lists(t - {rows[0].doc}, rows[1..])
  {
    var first, tail := rows[0], rows[1..];
    assert first in rows;
    forall r | r in tail ensures r.doc in t && t[r.doc] == r.pos && r.doc != first.doc {
      assert r in rows;
      BeforeTrichotomy(first, r);
      assert Before(first, r);
    }
    forall e | e in t && e != first.doc ensures Row(t[e], e) in tail {
      assert Row(t[e], e) in rows && rows == [first] + tail;
    }
  }

  lemma ListedMeansNonEmpty(t: Tape, rows: seq<Row>)
    requires Lists(t, rows) && rows != []
    ensures t != map[]
  {
    assert rows[0] in rows;
    assert rows[0].doc in t;
  }

  /** A listing is determined by the tape it lists. */
  lemma {:induction false} ListingIsUnique(t: Tape, rows: seq<Row>)
    requires Lists(t, rows)
    ensures rows == Rows(t)
    decreases |t|
  {
    if t == map[] {
      if rows != [] { ListedMeansNonEmpty(t, rows); }
    } else {
      ListingHead(t, rows);
      ListingTail(t, rows);
      SmallerTape(t, rows[0].doc);
      ListingIsUnique(t - {rows[0].doc}, rows[1..]);
      assert rows == [rows[0]] + rows[1..];
    }
  }

  lemma OrderedPrefix(rows: seq<Row>, n: nat)
    requires Ordered(rows) && n <= |rows|
    ensures Ordered(rows[..n]) && Ordered(rows[n..])
  {
  }

  // --- reads ---------------------------------------------------------------------------

  /** The index arithmetic of ZRANGE key start stop: negative indices count from the end, both ends inclusive. */
  function ZRange(rows: seq<Row>, start: int, stop: int): (r: seq<Row>) {
    var n := |rows|;
    var from := if start < 0 then (if n + start < 0 then 0 else n + start) else start;
    var last := if stop < 0 then n + stop else if stop >= n then n - 1 else stop;
    if from > last || from >= n then [] else rows[from..last + 1]
  }

  /** ZRANGEBYSCORE key (after +inf over an ordered listing. */
  function AfterPos(rows: seq<Row>, after: int): (r: seq<Row>)
    ensures |r| <= |rows| && r == rows[|rows| - |r|..]
  {
    if rows == [] then []
    else if rows[0].pos > after then rows
    else AfterPos(rows[1..], after)
  }

  lemma {:induction false} AfterPosExact(rows: seq<Row>, after: int)
    requires Ordered(rows)
    ensures forall r :: r in AfterPos(rows, after) <==> r in rows && r.pos > after
  {
    if rows != [] {
      var tail := rows[1..];
      if rows[0].pos <= after {
        AfterPosExact(tail, after);
        assert forall r :: r in rows <==> r == rows[0] || r in tail;
      } else {
        forall r | r in rows ensures r.pos > after {
          var i :| 0 <= i < |rows| && rows[i] == r;
          assert i > 0 ==> Before(rows[0], rows[i]);
        }
      }
    }
  }

  /** ... LIMIT 0 limit, where a negative count means no limit. */
  function Limit(rows: seq<Row>, limit: int): seq<Row> {
    if limit < 0 then rows else Take(rows, limit)
  }

  /** list_entries_page. */
  function Page(t: Tape, after: Option<int>, limit: int): seq<Row> {
    if after.None? then ZRange(Rows(t), 0, limit - 1) else Limit(AfterPos(Rows(t), after.value), limit)
  }

  predicate Past(after: Option<int>, pos: int) { after.None? || pos > after.value }

  function Rest(t: Tape, after: Option<int>): (r: seq<Row>)
  {
    if after.None? then Rows(t) else AfterPos(Rows(t), after.value)
  }

  /** r is an entry of t past the cursor. */
  predicate EntryPast(t: Tape, after: Option<int>, r: Row) {
    r.doc in t && t[r.doc] == r.pos && Past(after, r.pos)
  }

  /** What remains past a cursor: exactly the entries with a greater position, in order. */
  lemma RestIsExact(t: Tape, after: Option<int>)
    ensures Ordered(Rest(t, after))
    ensures forall r :: r in Rest(t, after) <==> EntryPast(t, after, r)
  {
    var rows := Rows(t);
    RowsListTape(t);
    if after.Some? {
      AfterPosExact(rows, after.value);
      OrderedPrefix(rows, |rows| - |Rest(t, after)|);
    }
    forall r | EntryPast(t, after, r) ensures r in rows {
      assert Row(t[r.doc], r.doc) in rows;
    }
  }

  lemma PageIsPrefixOfRest(t: Tape, after: Option<int>, limit: int)
    requires limit >= 1
    ensures Page(t, after, limit) == Take(Rest(t, after), limit)
  {
  }

  ghost predicate DistinctPositions(t: Tape) {
    forall d, e :: d in t && e in t && d != e ==> t[d] != t[e]
  }

  /** Where the next page starts: the position of the last row, if the page is full. */
  function NextPosition(page: seq<Row>, limit: int): Option<int> {
    if page != [] && |page| == limit then Some(page[|page| - 1].pos) else None
  }

  ghost predicate Increasing(rows: seq<Row>) {
    forall i, j :: 0 <= i < j < |rows| ==> rows[i].pos < rows[j].pos
  }

  lemma RestIncreases(t: Tape, after: Option<int>)
    requires DistinctPositions(t)
    ensures Increasing(Rest(t, after))
  {
    var rest := Rest(t, after);
    RestIsExact(t, after);
    forall i, j | 0 <= i < j < |rest| ensures rest[i].pos < rest[j].pos {
      assert Before(rest[i], rest[j]);
      assert EntryPast(t, after, rest[i]) && EntryPast(t, after, rest[j]);
      BeforeTrichotomy(rest[i], rest[i]);
    }
  }

  lemma PrefixCut(rows: seq<Row>, n: nat)
    requires Increasing(rows) && 0 < n <= |rows|
    ensures forall r :: r in rows[..n] <==> r in rows && r.pos <= rows[n - 1].pos
  {
    forall r | r in rows && r.pos <= rows[n - 1].pos ensures r in rows[..n] {
      var i :| 0 <= i < |rows| && rows[i] == r;
      assert i < n;
      assert rows[..n][i] == r;
    }
  }

  lemma CutIsExact(rest: seq<Row>, limit: int)
    requires Increasing(rest) && limit >= 1
    ensures var page := Take(rest, limit);
            var next := NextPosition(page, limit);
            && Increasing(page)
            && (next.Some? ==> rest != [] && next.value >= rest[0].pos)
            && (forall r :: r in page <==> r in rest && (next.None? || r.pos <= next.value))
  {
    if |rest| >= limit {
      PrefixCut(rest, limit);
    }
  }

  /** A page holds, in order, exactly the entries past the cursor up to its own next position. */
  lemma PageIsExact(t: Tape, after: Option<int>, limit: int)
    requires limit >= 1 && DistinctPositions(t)
    ensures Increasing(Page(t, after, limit))
    ensures var next := NextPosition(Page(t, after, limit), limit);
            next.Some? ==> Past(after, next.value)
    ensures var next := NextPosition(Page(t, after, limit), limit);
            forall r :: r in Page(t, after, limit) <==> EntryPast(t, after, r) && (next.None? || r.pos <= next.value)
  {
    var rest := Rest(t, after);
    RestIsExact(t, after);
    RestIncreases(t, after);
    PageIsPrefixOfRest(t, after, limit);
    CutIsExact(rest, limit);
    if rest != [] { assert EntryPast(t, after, rest[0]); }
  }

  /** max_position: ZRANGE key -1 -1, or -1 on an empty tape. */
  function MaxPosition(t: Tape): int {
    var last := ZRange(Rows(t), -1, -1);
    if last == [] then -1 else last[0].pos
  }

  lemma LastIsGreatest(rows: seq<Row>)
    requires Ordered(rows) && rows != []
    ensures forall r :: r in rows ==> r.pos <= rows[|rows| - 1].pos
  {
    forall r | r in rows ensures r.pos <= rows[|rows| - 1].pos {
      var i :| 0 <= i < |rows| && rows[i] == r;
      assert i < |rows| - 1 ==> Before(rows[i], rows[|rows| - 1]);
    }
  }

  lemma MaxPositionExact(t: Tape)
    ensures t == map[] ==> MaxPosition(t) == -1
    ensures Above(t, MaxPosition(t) + 1)
    ensures t != map[] ==> exists d :: d in t && t[d] == MaxPosition(t)
  {
    var rows := Rows(t);
    if rows != [] {
      RowsListTape(t);
      LastIsGreatest(rows);
      var last := rows[|rows| - 1];
      assert ZRange(rows, -1, -1) == [last];
      assert last in rows;
      forall d | d in t ensures t[d] <= last.pos { assert Row(t[d], d) in rows; }
    }
  }

  /** How many entries an incremental run reads for its exclude list. */
  const EXISTING_LIMIT := 10_000

  function RowDocs(rows: seq<Row>): set<int> { set r | r in rows :: r.doc }

  lemma PageDocsAreEntries(t: Tape, limit: int)
    ensures RowDocs(Page(t, None, limit)) <= t.Keys
  {
    RowsListTape(t);
    forall r | r in Page(t, None, limit) ensures r.doc in t {
      assert r in Rows(t);
    }
  }

  /** A page size that is not positive, which PUT /config refuses: from the start, ZRANGE counts its end from the back,
      so 0 reads everything; past a cursor, 0 reads nothing and a negative count everything. */
  lemma OddPageSizes(t: Tape, after: int)
    ensures Page(t, None, 0) == Rows(t)
    ensures Page(t, Some(after), 0) == []
    ensures forall limit :: limit < 0 ==> Page(t, Some(after), limit) == Rest(t, Some(after))
    ensures forall limit :: limit < 0 && |t| + limit >= 0 ==> Page(t, None, limit) == Rows(t)[..|t| + limit]
  {
  }

  // --- writes --------------------------------------------------------------------------

  /** ZADD NX of one member. */
  function ZAddNx(t: Tape, doc: int, pos: int): Tape {
    if doc in t then t else t[doc := pos]
  }

  /** ZREM of one member. */
  function ZRem(t: Tape, doc: int): Tape { t - {doc} }

  /** The ZADD NX commands of append_entries, one after another from position start. */
  function AddAll(t: Tape, docs: seq<int>, start: int): Tape
    decreases |docs|
  {
    if docs == [] then t
    else
      var n := |docs| - 1;
      ZAddNx(AddAll(t, docs[..n], start), docs[n], start + n)
  }

  /** The pairs append_entries reports: those whose ZADD added a member. */
  function Added(t: Tape, docs: seq<int>, start: int): seq<Row>
    decreases |docs|
  {
    if docs == [] then []
    else
      var n := |docs| - 1;
      Added(t, docs[..n], start) +
      (if docs[n] in AddAll(t, docs[..n], start) then [] else [Row(start + n, docs[n])])
  }

  function DocsOf(rows: seq<Row>): (ds: seq<int>)
    ensures |ds| == |rows| && forall i :: 0 <= i < |rows| ==> ds[i] == rows[i].doc
  {
    if rows == [] then [] else [rows[0].doc] + DocsOf(rows[1..])
  }

  lemma {:induction false} DocsOfAppend(a: seq<Row>, b: seq<Row>)
    ensures DocsOf(a + b) == DocsOf(a) + DocsOf(b)
  {
  }

  /** Appending keeps every old entry where it is, covers every document given, and puts new ones at the
      position of their first occurrence in the request. */
  lemma {:induction false} AddAllExact(t: Tape, docs: seq<int>, start: int)
    requires NoDuplicates(docs)
    ensures forall d :: d in AddAll(t, docs, start) <==> d in t || d in docs
    ensures forall d :: d in t ==> AddAll(t, docs, start)[d] == t[d]
    ensures forall i :: 0 <= i < |docs| && docs[i] !in t ==>
              docs[i] in AddAll(t, docs, start) && AddAll(t, docs, start)[docs[i]] == start + i
    decreases |docs|
  {
    if docs != [] {
      var n := |docs| - 1;
      var init, last := docs[..n], docs[n];
      assert docs == init + [last];
      assert last !in init;
      AddAllExact(t, init, start);
      var before := AddAll(t, init, start);
      assert AddAll(t, docs, start) == ZAddNx(before, last, start + n);
      assert forall i :: 0 <= i < n ==> docs[i] == init[i];
    }
  }

  lemma AddedLast(t: Tape, init: seq<int>, last: int, start: int)
    requires NoDuplicates(init + [last])
    ensures Added(t, init + [last], start) ==
            Added(t, init, start) + (if last in t then [] else [Row(start + |init|, last)])
  {
    var docs := init + [last];
    assert docs[..|init|] == init && docs[|init|] == last;
    assert last !in init;
    AddAllExact(t, init, start);
  }

  /** What is reported is exactly what became new, in request order. */
  lemma {:induction false} AddedDocs(t: Tape, docs: seq<int>, start: int)
    requires NoDuplicates(docs)
    ensures DocsOf(Added(t, docs, start)) == Without(docs, t.Keys)
    decreases |docs|
  {
    if docs != [] {
      var n := |docs| - 1;
      var init, last := docs[..n], docs[n];
      assert docs == init + [last];
      AddedDocs(t, init, start);
      AddedLast(t, init, last, start);
      WithoutLast(init, last, t.Keys);
      DocsOfAppend(Added(t, init, start), if last in t then [] else [Row(start + n, last)]);
    }
  }

  /** Each reported pair carries the place of its document in the request. */
  lemma {:induction false} AddedPositions(t: Tape, docs: seq<int>, start: int)
    ensures Increasing(Added(t, docs, start))
    ensures forall r :: r in Added(t, docs, start) ==> start <= r.pos < start + |docs| && docs[r.pos - start] == r.doc
    decreases |docs|
  {
    if docs != [] {
      var n := |docs| - 1;
      AddedPositions(t, docs[..n], start);
      var init, all := Added(t, docs[..n], start), Added(t, docs, start);
      forall i, j | 0 <= i < j < |all| ensures all[i].pos < all[j].pos {
        assert init[i] in init;
      }
    }
  }

  predicate Above(t: Tape, start: int) { forall d | d in t :: t[d] < start }

  lemma AppendedRowsAreListed(t: Tape, docs: seq<int>, start: int)
    requires NoDuplicates(docs)
    ensures forall r :: r in Added(t, docs, start) <==>
              r.doc !in t && r.doc in AddAll(t, docs, start) && AddAll(t, docs, start)[r.doc] == r.pos
  {
    var after, added := AddAll(t, docs, start), Added(t, docs, start);
    AddAllExact(t, docs, start);
    AddedDocs(t, docs, start);
    AddedPositions(t, docs, start);
    WithoutExact(docs, t.Keys);
    forall r | r in added ensures r.doc !in t && r.doc in after && after[r.doc] == r.pos {
      var k :| 0 <= k < |added| && added[k] == r;
      assert DocsOf(added)[k] == r.doc;
      assert r.doc in Without(docs, t.Keys);
    }
    forall r: Row | r.doc !in t && r.doc in after && after[r.doc] == r.pos ensures r in added {
      assert r.doc in Without(docs, t.Keys);
      var k :| 0 <= k < |added| && DocsOf(added)[k] == r.doc;
      assert added[k] in added;
    }
  }

  /** The listing after an append above the tape: the old listing, then the reported rows. */
  lemma {:induction false} AppendExtendsListing(t: Tape, docs: seq<int>, start: int)
    requires NoDuplicates(docs) && Above(t, start)
    ensures Rows(AddAll(t, docs, start)) == Rows(t) + Added(t, docs, start)
    ensures |AddAll(t, docs, start)| == |t| + |Added(t, docs, start)|
  {
    var after, before, added := AddAll(t, docs, start), Rows(t), Added(t, docs, start);
    RowsListTape(t);
    AddAllExact(t, docs, start);
    AddedPositions(t, docs, start);
    AppendedRowsAreListed(t, docs, start);
    var rows := before + added;
    forall d | d in after ensures Row(after[d], d) in rows {
      if d in t { assert Row(t[d], d) in before; } else { assert Row(after[d], d) in added; }
    }
    forall r: Row | r in rows ensures r.doc in after && after[r.doc] == r.pos {
      if r in before { assert after[r.doc] == t[r.doc]; }
    }
    forall i, j | 0 <= i < j < |rows| ensures Before(rows[i], rows[j]) {
      if i < |before| {
        assert before[i] in before;
        if j < |before| { assert Before(before[i], before[j]); } else { assert added[j - |before|] in added; }
      }
    }
    ListingIsUnique(after, rows);
  }

  lemma AppendLists(t: Tape, docs: seq<int>, start: int)
    requires NoDuplicates(docs) && Above(t, start)
    ensures DocsOf(Rows(AddAll(t, docs, start))) == DocsOf(Rows(t)) + Without(docs, t.Keys)
  {
    AppendExtendsListing(t, docs, start);
    AddedDocs(t, docs, start);
    DocsOfAppend(Rows(t), Added(t, docs, start));
  }

  lemma AppendKeepsDistinct(t: Tape, docs: seq<int>, start: int)
    requires NoDuplicates(docs) && Above(t, start) && DistinctPositions(t)
    ensures DistinctPositions(AddAll(t, docs, start))
    ensures Above(AddAll(t, docs, start), start + |docs|)
  {
    var after := AddAll(t, docs, start);
    AddAllExact(t, docs, start);
    forall d | d in after && d !in t ensures start <= after[d] < start + |docs| && docs[after[d] - start] == d {
      var i :| 0 <= i < |docs| && docs[i] == d;
    }
  }
}
