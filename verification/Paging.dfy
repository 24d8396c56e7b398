/** Walking a tape page by page along next_position, while the tape changes between the reads. */
module Paging {
  import opened Prelude
  import opened SortedSet

  /** One GET /tape of a walk: the tape at the moment it is read, and the page size configured then. */
  datatype Visit = Visit(tape: Tape, limit: int)

  /** The rows a client collects by following next_position from after until it is null. */
  function Walk(visits: seq<Visit>, after: Option<int>): seq<Row> {
    if visits == [] then []
    else
      var page := Page(visits[0].tape, after, visits[0].limit);
      var next := NextPosition(page, visits[0].limit);
      page + if next.None? then [] else Walk(visits[1..], next)
  }

  datatype Progress = Ended | At(after: Option<int>)

  /** Where the walk stands after these reads. */
  function Reached(visits: seq<Visit>, after: Option<int>): Progress {
    if visits == [] then At(after)
    else
      var next := NextPosition(Page(visits[0].tape, after, visits[0].limit), visits[0].limit);
      if next.None? then Ended else Reached(visits[1..], next)
  }

  ghost predicate Readable(visits: seq<Visit>) {
    forall i :: 0 <= i < |visits| ==> visits[i].limit >= 1 && DistinctPositions(visits[i].tape)
  }

  /** Document d sits at position p in every tape the walk reads. */
  ghost predicate StaysAt(visits: seq<Visit>, d: int, p: int) {
    forall i :: 0 <= i < |visits| ==> d in visits[i].tape && visits[i].tape[d] == p
  }

  /** pos lies in the part of the tape a walk from after has covered. */
  predicate Covered(progress: Progress, pos: int) {
    progress.Ended? || !Past(progress.after, pos)
  }

  /** A walk collects strictly increasing positions (so no entry twice), all between its cursors. */
  lemma {:induction false} WalkIncreases(visits: seq<Visit>, after: Option<int>)
    requires Readable(visits)
    ensures Increasing(Walk(visits, after))
    ensures forall r :: r in Walk(visits, after) ==> Past(after, r.pos) && Covered(Reached(visits, after), r.pos)
    ensures Reached(visits, after).At? && Reached(visits, after).after.None? ==> after.None?
    ensures Reached(visits, after).At? && after.Some? ==> Reached(visits, after).after.value >= after.value
  {
    if visits != [] {
      var t, limit := visits[0].tape, visits[0].limit;
      var page := Page(t, after, limit);
      var next := NextPosition(page, limit);
      PageIsExact(t, after, limit);
      if next.None? {
        assert Walk(visits, after) == page;
      } else {
        WalkIncreases(visits[1..], next);
        var rest := Walk(visits[1..], next);
        forall i, j | 0 <= i < j < |page + rest| ensures (page + rest)[i].pos < (page + rest)[j].pos {
          if i < |page| <= j {
            assert page[i] in page && rest[j - |page|] in rest;
          }
        }
      }
    }
  }

  /** An entry that stays put during the walk is collected exactly when the walk has passed its position. */
  lemma {:induction false} StayingEntryIsRead(visits: seq<Visit>, after: Option<int>, d: int, p: int)
    requires Readable(visits) && StaysAt(visits, d, p) && Past(after, p)
    ensures Row(p, d) in Walk(visits, after) <==> Covered(Reached(visits, after), p)
    ensures forall r :: r in Walk(visits, after) && r.doc == d ==> r.pos == p
  {
    if visits != [] {
      var t, limit := visits[0].tape, visits[0].limit;
      var next := NextPosition(Page(t, after, limit), limit);
      PageIsExact(t, after, limit);
      assert EntryPast(t, after, Row(p, d));
      if next.Some? {
        if Past(next, p) {
          StayingEntryIsRead(visits[1..], next, d, p);
        } else {
          WalkIncreases(visits[1..], next);
          StayingEntryOnlyHere(visits[1..], next, d, p);
        }
      }
    }
  }

  lemma {:induction false} StayingEntryOnlyHere(visits: seq<Visit>, after: Option<int>, d: int, p: int)
    requires Readable(visits) && StaysAt(visits, d, p)
    ensures forall r :: r in Walk(visits, after) && r.doc == d ==> r.pos == p
  {
    if visits != [] {
      var t, limit := visits[0].tape, visits[0].limit;
      var next := NextPosition(Page(t, after, limit), limit);
      PageIsExact(t, after, limit);
      if next.Some? {
        StayingEntryOnlyHere(visits[1..], next, d, p);
      }
    }
  }

  /** The walk from the start: an entry present throughout is read exactly once if the walk ended, at one place
      in a list that is sorted by position. */
  lemma PagingIsStable(visits: seq<Visit>, d: int, p: int)
    requires Readable(visits) && StaysAt(visits, d, p) && Reached(visits, None) == Ended
    ensures Increasing(Walk(visits, None))
    ensures exists k :: 0 <= k < |Walk(visits, None)| && Walk(visits, None)[k] == Row(p, d)
                        && forall j :: 0 <= j < |Walk(visits, None)| && Walk(visits, None)[j].doc == d ==> j == k
  {
    var rows := Walk(visits, None);
    WalkIncreases(visits, None);
    StayingEntryIsRead(visits, None, d, p);
    var k :| 0 <= k < |rows| && rows[k] == Row(p, d);
    forall j | 0 <= j < |rows| && rows[j].doc == d ensures j == k {
      assert rows[j] in rows;
    }
  }

  // --- what read_tape returns of a page -------------------------------------------------

  /** read_tape keeps a row whose document exists and has not been scored. */
  predicate Shown(row: Row, known: set<int>, hidden: set<int>) { row.doc !in hidden && row.doc in known }

  /** The items read_tape builds from its rows. */
  function Items(rows: seq<Row>, known: set<int>, hidden: set<int>): seq<Row> {
    if rows == [] then []
    else
      var init, last := rows[..|rows| - 1], rows[|rows| - 1];
      if Shown(last, known, hidden) then Items(init, known, hidden) + [last] else Items(init, known, hidden)
  }

  /** They are the rows of known, unscored documents, in order: nothing else and nothing twice. */
  lemma {:induction false} ItemsExact(rows: seq<Row>, known: set<int>, hidden: set<int>)
    ensures forall r :: r in Items(rows, known, hidden) <==> r in rows && Shown(r, known, hidden)
    ensures Increasing(rows) ==> Increasing(Items(rows, known, hidden))
    ensures |Items(rows, known, hidden)| <= |rows|
  {
    if rows != [] {
      var init, last := rows[..|rows| - 1], rows[|rows| - 1];
      assert rows == init + [last];
      ItemsExact(init, known, hidden);
      var items := Items(init, known, hidden);
      if Increasing(rows) {
        forall i | 0 <= i < |items| ensures items[i].pos < last.pos {
          assert items[i] in init;
          var k :| 0 <= k < |init| && init[k] == items[i];
          assert rows[k] == init[k];
        }
      }
    }
  }

  lemma {:induction false} ItemsOfRows(rows: seq<Row>, known: set<int>, hidden: set<int>, docs: set<int>)
    requires RowDocs(rows) <= docs
    ensures Items(rows, docs * known, docs * hidden) == Items(rows, known, hidden)
  {
    if rows != [] {
      var init, last := rows[..|rows| - 1], rows[|rows| - 1];
      assert last in rows && forall r :: r in init ==> r in rows;
      ItemsOfRows(init, known, hidden, docs);
    }
  }

  /** One GET /tape with what it shows: documents that exist and are not scored. */
  datatype Answer = Answer(visit: Visit, known: set<int>, hidden: set<int>)

  function VisitsOf(answers: seq<Answer>): (v: seq<Visit>)
    ensures |v| == |answers| && forall i :: 0 <= i < |v| ==> v[i] == answers[i].visit
  {
    seq(|answers|, i requires 0 <= i < |answers| => answers[i].visit)
  }

  function NextAfter(visit: Visit, after: Option<int>): Option<int> {
    NextPosition(Page(visit.tape, after, visit.limit), visit.limit)
  }

  /** The items a client collects by following next_position from after until it is null. */
  function Collect(answers: seq<Answer>, after: Option<int>): seq<Row> {
    if answers == [] then []
    else
      var first := answers[0];
      var next := NextAfter(first.visit, after);
      Items(Page(first.visit.tape, after, first.visit.limit), first.known, first.hidden) +
      if next.None? then [] else Collect(answers[1..], next)
  }

  lemma VisitsOfRest(answers: seq<Answer>)
    requires answers != []
    ensures VisitsOf(answers)[1..] == VisitsOf(answers[1..])
  {
  }

  /** The items are rows of the walk, in the walk's order. */
  lemma {:induction false} CollectIncreases(answers: seq<Answer>, after: Option<int>)
    requires Readable(VisitsOf(answers))
    ensures Increasing(Collect(answers, after))
    ensures forall r :: r in Collect(answers, after) ==> r in Walk(VisitsOf(answers), after) && Past(after, r.pos)
  {
    WalkIncreases(VisitsOf(answers), after);
    if answers != [] {
      var first, next := answers[0], NextAfter(answers[0].visit, after);
      var page := Page(first.visit.tape, after, first.visit.limit);
      assert VisitsOf(answers)[0] == first.visit;
      PageIsExact(first.visit.tape, after, first.visit.limit);
      ItemsExact(page, first.known, first.hidden);
      if next.Some? {
        VisitsOfRest(answers);
        CollectIncreases(answers[1..], next);
        IncreasingAppend(Items(page, first.known, first.hidden), Collect(answers[1..], next), next.value);
      }
    }
  }

  lemma IncreasingAppend(a: seq<Row>, b: seq<Row>, cut: int)
    requires Increasing(a) && Increasing(b)
    requires (forall r :: r in a ==> r.pos <= cut) && (forall r :: r in b ==> r.pos > cut)
    ensures Increasing(a + b)
  {
    forall i, j | 0 <= i < |a| <= j < |a| + |b| ensures (a + b)[i].pos < (a + b)[j].pos {
      assert a[i] in a && b[j - |a|] in b;
    }
  }

  /** A row every answer would show is collected if the walk meets it. */
  lemma {:induction false} ShownIsCollected(answers: seq<Answer>, after: Option<int>, r: Row)
    requires forall n :: 0 <= n < |answers| ==> Shown(r, answers[n].known, answers[n].hidden)
    requires r in Walk(VisitsOf(answers), after)
    ensures r in Collect(answers, after)
  {
    var first, next := answers[0], NextAfter(answers[0].visit, after);
    assert VisitsOf(answers)[0] == first.visit;
    VisitsOfRest(answers);
    ItemsExact(Page(first.visit.tape, after, first.visit.limit), first.known, first.hidden);
    if r !in Page(first.visit.tape, after, first.visit.limit) {
      ShownIsCollected(answers[1..], next, r);
    }
  }

  /** r is in the list at one place only. */
  ghost predicate OnceIn(rows: seq<Row>, d: int, r: Row) {
    exists k :: 0 <= k < |rows| && rows[k] == r && forall j :: 0 <= j < |rows| && rows[j].doc == d ==> j == k
  }

  /** A document that stays put and that every answer would show reaches the client exactly once. */
  lemma {:induction false} CollectIsStable(answers: seq<Answer>, d: int, p: int)
    requires Readable(VisitsOf(answers)) && StaysAt(VisitsOf(answers), d, p)
    requires Reached(VisitsOf(answers), None) == Ended
    requires forall n :: 0 <= n < |answers| ==> Shown(Row(p, d), answers[n].known, answers[n].hidden)
    ensures Increasing(Collect(answers, None)) && OnceIn(Collect(answers, None), d, Row(p, d))
  {
    var rows := Collect(answers, None);
    CollectIncreases(answers, None);
    StayingEntryIsRead(VisitsOf(answers), None, d, p);
    ShownIsCollected(answers, None, Row(p, d));
    var k :| 0 <= k < |rows| && rows[k] == Row(p, d);
    forall j | 0 <= j < |rows| && rows[j].doc == d ensures j == k {
      assert rows[j] in rows;
    }
  }

  // --- a tape nobody changes ------------------------------------------------------------

  ghost predicate AllOf(t: Tape, visits: seq<Visit>) {
    forall i :: 0 <= i < |visits| ==> visits[i].tape == t && visits[i].limit >= 1
  }

  lemma {:induction false} AfterPosAgain(rows: seq<Row>, a: int, b: int)
    requires a <= b
    ensures AfterPos(AfterPos(rows, a), b) == AfterPos(rows, b)
  {
    if rows != [] && rows[0].pos <= a {
      AfterPosAgain(rows[1..], a, b);
    }
  }

  lemma {:induction false} AfterPosSkips(rows: seq<Row>, n: nat)
    requires Increasing(rows) && 0 < n <= |rows|
    ensures AfterPos(rows, rows[n - 1].pos) == rows[n..]
  {
    assert n > 1 ==> rows[0].pos < rows[n - 1].pos;
    if n > 1 {
      AfterPosSkips(rows[1..], n - 1);
      assert rows[1..][n - 1..] == rows[n..];
    } else if |rows| > 1 {
      assert rows[1..][0].pos > rows[0].pos;
    }
  }

  /** What remains past a later cursor, in terms of what remained past the earlier one. */
  lemma RestFurther(t: Tape, after: Option<int>, next: int)
    requires after.None? || after.value <= next
    ensures Rest(t, Some(next)) == AfterPos(Rest(t, after), next)
  {
    if after.Some? { AfterPosAgain(Rows(t), after.value, next); }
  }

  lemma NextOfFullPage(rows: seq<Row>, limit: int)
    requires 1 <= limit <= |rows|
    ensures NextPosition(Take(rows, limit), limit) == Some(rows[limit - 1].pos)
  {
  }

  lemma RestAfterPage(t: Tape, after: Option<int>, limit: int)
    requires limit >= 1 && DistinctPositions(t) && |Rest(t, after)| >= limit
    ensures NextPosition(Page(t, after, limit), limit).Some?
    ensures Rest(t, NextPosition(Page(t, after, limit), limit)) == Rest(t, after)[limit..]
  {
    var rest := Rest(t, after);
    var last := rest[limit - 1];
    PageIsPrefixOfRest(t, after, limit);
    NextOfFullPage(rest, limit);
    RestIsExact(t, after);
    assert EntryPast(t, after, last);
    RestIncreases(t, after);
    AfterPosSkips(rest, limit);
    RestFurther(t, after, last.pos);
  }

  function NextOf(t: Tape, after: Option<int>, limit: int): Option<int> {
    NextPosition(Page(t, after, limit), limit)
  }

  lemma StillStep(visits: seq<Visit>, t: Tape, after: Option<int>, limit: int)
    requires visits != [] && visits[0] == Visit(t, limit) && limit >= 1 && DistinctPositions(t)
    ensures |Rest(t, after)| < limit ==> Reached(visits, after) == Ended && Walk(visits, after) == Rest(t, after)
    ensures |Rest(t, after)| >= limit ==>
              && NextOf(t, after, limit).Some?
              && Rest(t, NextOf(t, after, limit)) == Rest(t, after)[limit..]
              && Reached(visits, after) == Reached(visits[1..], NextOf(t, after, limit))
              && Walk(visits, after) == Rest(t, after)[..limit] + Walk(visits[1..], NextOf(t, after, limit))
  {
    PageIsPrefixOfRest(t, after, limit);
    if |Rest(t, after)| >= limit {
      RestAfterPage(t, after, limit);
    }
  }

  lemma Rejoin(rows: seq<Row>, n: nat)
    requires n <= |rows|
    ensures rows[..n] + rows[n..] == rows
  {
  }

  /** Enough pages of an unchanging tape, whatever their sizes, are the whole listing past the cursor. */
  lemma {:induction false} StillWalk(visits: seq<Visit>, t: Tape, after: Option<int>)
    requires AllOf(t, visits) && DistinctPositions(t) && |visits| > |Rest(t, after)|
    ensures Reached(visits, after) == Ended && Walk(visits, after) == Rest(t, after)
  {
    var limit := visits[0].limit;
    StillStep(visits, t, after, limit);
    assert AllOf(t, visits[1..]);
    if |Rest(t, after)| >= limit {
      var rest, next := Rest(t, after), NextOf(t, after, limit);
      StillWalk(visits[1..], t, next);
      Rejoin(rest, limit);
    }
  }

  /** The walk over t with one page size, long enough to finish when every page makes progress. */
  function Visits(t: Tape, limit: int, n: nat): (v: seq<Visit>)
    ensures |v| == n && forall i :: 0 <= i < n ==> v[i] == Visit(t, limit)
  {
    if n == 0 then [] else [Visit(t, limit)] + Visits(t, limit, n - 1)
  }

  ghost predicate EveryPageSizeReadsAll(t: Tape) {
    forall limit, n: nat :: limit >= 1 && n > |t| ==> Walk(Visits(t, limit, n), None) == Rows(t)
  }

  lemma SingleRowPage(t: Tape, after: Option<int>)
    ensures |Page(t, after, 1)| <= 1
    ensures Page(t, after, 1) != [] ==> Past(after, Page(t, after, 1)[0].pos)
    ensures Page(t, after, 1) != [] ==> NextPosition(Page(t, after, 1), 1) == Some(Page(t, after, 1)[0].pos)
  {
    PageIsPrefixOfRest(t, after, 1);
    RestIsExact(t, after);
    if Rest(t, after) != [] { assert EntryPast(t, after, Rest(t, after)[0]); }
  }

  lemma IncreasingCons(first: Row, rest: seq<Row>)
    requires Increasing(rest) && forall r :: r in rest ==> first.pos < r.pos
    ensures Increasing([first] + rest)
    ensures forall r :: r in [first] + rest ==> r == first || r in rest
  {
    forall j | 0 <= j < |rest| ensures first.pos < rest[j].pos {
      assert rest[j] in rest;
    }
  }

  lemma {:induction false} SingleRowPagesIncrease(visits: seq<Visit>, after: Option<int>)
    requires forall i :: 0 <= i < |visits| ==> visits[i].limit == 1
    ensures Increasing(Walk(visits, after))
    ensures forall r :: r in Walk(visits, after) ==> Past(after, r.pos)
  {
    if visits != [] {
      var page := Page(visits[0].tape, after, 1);
      SingleRowPage(visits[0].tape, after);
      if page != [] {
        SingleRowPagesIncrease(visits[1..], Some(page[0].pos));
        var rest := Walk(visits[1..], Some(page[0].pos));
        assert Walk(visits, after) == [page[0]] + rest;
        IncreasingCons(page[0], rest);
      }
    }
  }

  lemma IncreasingIsDistinct(t: Tape)
    ensures Increasing(Rows(t)) <==> DistinctPositions(t)
  {
    RowsListTape(t);
    var rows := Rows(t);
    if Increasing(rows) {
      forall d, e | d in t && e in t && d != e ensures t[d] != t[e] {
        var i :| 0 <= i < |rows| && rows[i] == Row(t[d], d);
        var j :| 0 <= j < |rows| && rows[j] == Row(t[e], e);
        assert i < j || j < i;
      }
    }
    if DistinctPositions(t) {
      RestIncreases(t, None);
    }
  }

  lemma DistinctIsComplete(t: Tape)
    requires DistinctPositions(t)
    ensures EveryPageSizeReadsAll(t)
  {
    forall limit, n: nat | limit >= 1 && n > |t| ensures Walk(Visits(t, limit, n), None) == Rows(t) {
      StillWalk(Visits(t, limit, n), t, None);
    }
  }

  /** Walking returns the whole tape for every page size exactly when no two entries share a position:
      a page is cut by position, so the second of two equal positions is lost at a page boundary. */
  lemma WalkIsCompleteIffDistinct(t: Tape)
    ensures EveryPageSizeReadsAll(t) <==> DistinctPositions(t)
  {
    if DistinctPositions(t) {
      DistinctIsComplete(t);
    }
    if EveryPageSizeReadsAll(t) {
      SingleRowPagesIncrease(Visits(t, 1, |t| + 1), None);
      IncreasingIsDistinct(t);
    }
  }
}
