/** Scored documents: who can put one back into the tape, and what GET /tape returns. */
module ProtocolScores {
  import opened Prelude
  import opened SortedSet
  import opened Candidates
  import opened Paging
  import opened Protocol
  import opened ProtocolPositions

  /** proc is a run that has its answer already and d still among the documents it will add. */
  predicate Carries(proc: Proc, d: int) {
    proc.GenAppend? && proc.i < |proc.docs| && d in proc.docs[proc.i..]
  }

  ghost predicate Carrier(w: World, p: int, d: int) { p in w.procs && Carries(w.procs[p], d) }

  lemma OnlyCarriersAdd(w: World, l: Label, d: int)
    requires Enabled(w, l) && d !in w.tape && d in Next(w, l).tape
    ensures l.Run? && Carrier(w, l.pid, d)
  {
    TapeAfter(w, l);
    var proc := w.procs[l.pid];
    assert proc.docs[proc.i] == proc.docs[proc.i..][0];
  }

  lemma QueryCarriesNothingScored(w: World, l: Label, d: int)
    requires Enabled(w, l) && l.Run? && w.procs[l.pid].GenQuery? && d in w.scored
    ensures !Carrier(Next(w, l), l.pid, d)
  {
    CandidatesExact(l.choice.rows, w.procs[l.pid].existing);
    assert !Wanted(w.docs, w.scored, w.procs[l.pid].job.sel, d);
    assert Next(w, l).procs[l.pid].docs == CandidatesFor(l.choice.rows, w.procs[l.pid].existing);
  }

  /** Once scored, a document gets no new carrier: a query made after the score does not return it. */
  lemma NoNewCarriers(w: World, l: Label, p: int, d: int)
    requires Enabled(w, l) && d in w.scored && Carrier(Next(w, l), p, d)
    ensures Carrier(w, p, d)
  {
    OthersStay(w, l, p);
    if l.Run? && l.pid == p {
      if w.procs[p].GenQuery? {
        QueryCarriesNothingScored(w, l, d);
      } else if w.procs[p].GenAppend? {
        var docs, i := w.procs[p].docs, w.procs[p].i;
        assert docs[i..] == [docs[i]] + docs[i + 1..];
      }
    }
  }

  lemma ScoresAreKept(w: World, l: Label, d: int)
    requires Enabled(w, l) && d in w.scored
    ensures d in Next(w, l).scored
  {
  }

  lemma {:induction false} CarriersGoBack(ws: seq<World>, ls: seq<Label>, i: nat, j: nat, p: int, d: int)
    requires Path(ws, ls) && i <= j < |ws| && d in ws[i].scored
    ensures d in ws[j].scored
    ensures Carrier(ws[j], p, d) ==> Carrier(ws[i], p, d)
  {
    if i < j {
      CarriersGoBack(ws, ls, i, j - 1, p, d);
      assert Enabled(ws[j - 1], ls[j - 1]) && ws[j] == Next(ws[j - 1], ls[j - 1]);
      ScoresAreKept(ws[j - 1], ls[j - 1], d);
      if Carrier(ws[j], p, d) { NoNewCarriers(ws[j - 1], ls[j - 1], p, d); }
    }
  }

  /** After a document is scored, only a run whose candidate query was answered before the score can put it back. */
  lemma ScoredReturnsOnlyByEarlierQuery(ws: seq<World>, ls: seq<Label>, i: nat, j: nat, d: int)
    requires Path(ws, ls) && i <= j < |ls| && d in ws[i].scored
    requires d !in ws[j].tape && d in ws[j + 1].tape
    ensures ls[j].Run? && Carrier(ws[i], ls[j].pid, d)
  {
    assert Enabled(ws[j], ls[j]) && ws[j + 1] == Next(ws[j], ls[j]);
    OnlyCarriersAdd(ws[j], ls[j], d);
    CarriersGoBack(ws, ls, i, j, ls[j].pid, d);
  }

  /** Once those runs are over, a scored document that is out of the tape is out for ever. */
  lemma {:induction false} ScoredStaysOut(ws: seq<World>, ls: seq<Label>, i: nat, j: nat, d: int)
    requires Path(ws, ls) && i <= j < |ws| && d in ws[i].scored && d !in ws[i].tape
    requires forall p :: !Carrier(ws[i], p, d)
    ensures d !in ws[j].tape
  {
    if i < j {
      ScoredStaysOut(ws, ls, i, j - 1, d);
      if d in ws[j].tape { ScoredReturnsOnlyByEarlierQuery(ws, ls, i, j - 1, d); }
    }
  }

  lemma NoCarriersLater(ws: seq<World>, ls: seq<Label>, i: nat, j: nat, d: int)
    requires Path(ws, ls) && i <= j < |ws| && d in ws[i].scored && forall p :: !Carrier(ws[i], p, d)
    ensures d in ws[j].scored && forall p :: !Carrier(ws[j], p, d)
  {
    CarriersGoBack(ws, ls, i, j, 0, d);
    forall p | Carrier(ws[j], p, d) ensures false { CarriersGoBack(ws, ls, i, j, p, d); }
  }

  /** The step is a ZREM of d by POST /score, the listener or GET /tape. */
  predicate Removes(w: World, l: Label, d: int) {
    l.Run? && l.pid in w.procs &&
    match w.procs[l.pid]
    case PostRemove(doc) => doc == d
    case Listen(doc) => doc == d
    case GetWalk(rows, _, _, hidden, i, _) => i < |rows| && rows[i].doc == d && d in hidden
    case _ => false
  }

  /** So after the earlier runs have ended one further removal, by anyone, settles it. */
  lemma OneRemovalSettles(ws: seq<World>, ls: seq<Label>, i: nat, k: nat, j: nat, d: int)
    requires Path(ws, ls) && i <= k < j < |ws| && d in ws[i].scored && forall p :: !Carrier(ws[i], p, d)
    requires Removes(ws[k], ls[k], d)
    ensures d !in ws[j].tape
  {
    assert Enabled(ws[k], ls[k]) && ws[k + 1] == Next(ws[k], ls[k]);
    NoCarriersLater(ws, ls, i, k + 1, d);
    ScoredStaysOut(ws, ls, k + 1, j, d);
  }

  // --- GET /tape -------------------------------------------------------------------------

  /** What a GET process can be once its filter query has answered `hidden` for its page `rows`. */
  predicate Gets(proc: Proc, rows: seq<Row>, known: set<int>, hidden: set<int>) {
    match proc
    case GetWalk(rows', _, known', hidden', i, items) =>
      rows' == rows && known' == known && hidden' == hidden && i <= |rows| && items == Items(rows[..i], known, hidden)
    case GetDone(items, _) => items == Items(rows, known, hidden)
    case Finished => true
    case _ => false
  }

  /** How many of its rows the process has dealt with. */
  function Dealt(proc: Proc, rows: seq<Row>): nat {
    match proc
    case GetWalk(_, _, _, _, i, _) => if i <= |rows| then i else |rows|
    case GetDone(_, _) => |rows|
    case _ => 0
  }

  lemma GetsStep(w: World, l: Label, p: int, rows: seq<Row>, known: set<int>, hidden: set<int>)
    requires Enabled(w, l) && p in w.procs && Gets(w.procs[p], rows, known, hidden)
    ensures p in Next(w, l).procs && Gets(Next(w, l).procs[p], rows, known, hidden)
    ensures var n := Dealt(w.procs[p], rows);
            Dealt(Next(w, l).procs[p], rows) <= n ||
            (Dealt(Next(w, l).procs[p], rows) == n + 1 && n < |rows|
             && (rows[n].doc in hidden ==> rows[n].doc !in Next(w, l).tape))
  {
    var proc := w.procs[p];
    if proc.GetWalk? && l.Run? && l.pid == p {
      var i := proc.at;
      if i < |rows| {
        assert rows[..i + 1][..i] == rows[..i];
      } else {
        assert rows[..i] == rows;
      }
    }
  }

  ghost predicate RemovedUpTo(ws: seq<World>, f: nat, j: nat, rows: seq<Row>, hidden: set<int>, n: nat)
    requires f <= j < |ws| && n <= |rows|
  {
    forall x :: 0 <= x < n && rows[x].doc in hidden ==> exists k :: f < k <= j && rows[x].doc !in ws[k].tape
  }

  lemma RemovedGrows(ws: seq<World>, f: nat, j: nat, rows: seq<Row>, hidden: set<int>, n: nat, m: nat)
    requires f < j < |ws| && n <= |rows| && RemovedUpTo(ws, f, j - 1, rows, hidden, n)
    requires m <= n || (m == n + 1 && n < |rows| && (rows[n].doc in hidden ==> rows[n].doc !in ws[j].tape))
    ensures RemovedUpTo(ws, f, j, rows, hidden, m)
  {
    forall x | 0 <= x < m && rows[x].doc in hidden ensures exists k :: f < k <= j && rows[x].doc !in ws[k].tape {
      if x < n {
        var k :| f < k <= j - 1 && rows[x].doc !in ws[k].tape;
      }
    }
  }

  /** What the filter query of process p at step f found scored. */
  function HiddenAt(w: World, p: int): set<int>
    requires p in w.procs && w.procs[p].GetFilter?
  {
    RowDocs(w.procs[p].rows) * w.scored
  }

  /** Process p, which runs its filter query at step f, is at world j a reader of its rows. */
  ghost predicate GetsAt(ws: seq<World>, f: nat, j: nat, p: int)
    requires f < j < |ws| && p in ws[f].procs && ws[f].procs[p].GetFilter?
  {
    p in ws[j].procs && Gets(ws[j].procs[p], ws[f].procs[p].rows, ws[f].procs[p].known, HiddenAt(ws[f], p))
  }

  lemma FilterLeads(w: World, l: Label)
    requires Enabled(w, l) && l.Run? && w.procs[l.pid].GetFilter?
    ensures var proc := w.procs[l.pid];
            Next(w, l).procs[l.pid] == GetWalk(proc.rows, proc.next, proc.known, HiddenAt(w, l.pid), 0, [])
  {
  }

  lemma GetsFirst(ws: seq<World>, ls: seq<Label>, f: nat, p: int)
    requires Path(ws, ls) && f < |ls| && p in ws[f].procs && ws[f].procs[p].GetFilter? && ls[f].Run? && ls[f].pid == p
    ensures GetsAt(ws, f, f + 1, p)
  {
    PathStep(ws, ls, f);
    FilterLeads(ws[f], ls[f]);
  }

  lemma GetsNext(ws: seq<World>, ls: seq<Label>, f: nat, j: nat, p: int)
    requires Path(ws, ls) && f + 1 < j < |ws| && p in ws[f].procs && ws[f].procs[p].GetFilter?
    requires GetsAt(ws, f, j - 1, p)
    ensures GetsAt(ws, f, j, p)
  {
    PathStep(ws, ls, j - 1);
    GetsStep(ws[j - 1], ls[j - 1], p, ws[f].procs[p].rows, ws[f].procs[p].known, HiddenAt(ws[f], p));
  }

  lemma GetsHolds(ws: seq<World>, ls: seq<Label>, f: nat, j: nat, p: int)
    requires Path(ws, ls) && f < j < |ws| && p in ws[f].procs && ws[f].procs[p].GetFilter?
    requires ls[f].Run? && ls[f].pid == p
    ensures GetsAt(ws, f, j, p)
  {
    var inv := (k: int) => f < k < |ws| && GetsAt(ws, f, k, p);
    GetsFirst(ws, ls, f, p);
    forall k | f < k < j && inv(k) ensures inv(k + 1) { GetsNext(ws, ls, f, k + 1, p); }
    Handed(f + 1, j, inv);
  }

  /** It has removed the scored ones among the rows it has dealt with. */
  ghost predicate RemovedAt(ws: seq<World>, f: nat, j: nat, p: int)
    requires f < j < |ws| && p in ws[f].procs && ws[f].procs[p].GetFilter? && p in ws[j].procs
  {
    RemovedUpTo(ws, f, j, ws[f].procs[p].rows, HiddenAt(ws[f], p), Dealt(ws[j].procs[p], ws[f].procs[p].rows))
  }

  lemma RemovedNext(ws: seq<World>, ls: seq<Label>, f: nat, j: nat, p: int)
    requires Path(ws, ls) && f + 1 < j < |ws| && p in ws[f].procs && ws[f].procs[p].GetFilter?
    requires GetsAt(ws, f, j - 1, p) && RemovedAt(ws, f, j - 1, p)
    ensures p in ws[j].procs && RemovedAt(ws, f, j, p)
  {
    var rows, known, hidden := ws[f].procs[p].rows, ws[f].procs[p].known, HiddenAt(ws[f], p);
    PathStep(ws, ls, j - 1);
    GetsStep(ws[j - 1], ls[j - 1], p, rows, known, hidden);
    RemovedGrows(ws, f, j, rows, hidden, Dealt(ws[j - 1].procs[p], rows), Dealt(ws[j].procs[p], rows));
  }

  lemma RemovedFirst(ws: seq<World>, ls: seq<Label>, f: nat, p: int)
    requires Path(ws, ls) && f < |ls| && p in ws[f].procs && ws[f].procs[p].GetFilter? && ls[f].Run? && ls[f].pid == p
    ensures p in ws[f + 1].procs && RemovedAt(ws, f, f + 1, p)
  {
    PathStep(ws, ls, f);
    FilterLeads(ws[f], ls[f]);
  }

  lemma RemovedHolds(ws: seq<World>, ls: seq<Label>, f: nat, j: nat, p: int)
    requires Path(ws, ls) && f < j < |ws| && p in ws[f].procs && ws[f].procs[p].GetFilter?
    requires ls[f].Run? && ls[f].pid == p
    ensures p in ws[j].procs && RemovedAt(ws, f, j, p)
  {
    var inv := (k: int) => f < k < |ws| && p in ws[k].procs && RemovedAt(ws, f, k, p);
    RemovedFirst(ws, ls, f, p);
    forall k | f < k < j && inv(k) ensures inv(k + 1) {
      GetsHolds(ws, ls, f, k, p);
      RemovedNext(ws, ls, f, k + 1, p);
    }
    Handed(f + 1, j, inv);
  }

  /** GET /tape returns no document its user had scored before its filter query, whatever the tape held or holds;
      it returns exactly the other rows of its page whose documents exist, in page order. */
  lemma GetReturnsNothingScored(ws: seq<World>, ls: seq<Label>, f: nat, j: nat, p: int)
    requires Path(ws, ls) && f < j < |ws| && p in ws[f].procs && ws[f].procs[p].GetFilter?
    requires ls[f].Run? && ls[f].pid == p
    requires p in ws[j].procs && ws[j].procs[p].GetDone?
    ensures forall r :: r in ws[j].procs[p].items <==>
              r in ws[f].procs[p].rows && r.doc in ws[f].procs[p].known && r.doc !in ws[f].scored
    ensures Increasing(ws[f].procs[p].rows) ==> Increasing(ws[j].procs[p].items)
  {
    GetsHolds(ws, ls, f, j, p);
    var rows, known := ws[f].procs[p].rows, ws[f].procs[p].known;
    ItemsExact(rows, known, HiddenAt(ws[f], p));
  }

  /** And it repairs the tape: between its filter query and its return every scored document of its page is out of the
      tape at some moment, whoever may be adding it. */
  lemma GetTakesScoredOut(ws: seq<World>, ls: seq<Label>, f: nat, j: nat, p: int, r: Row)
    requires Path(ws, ls) && f < j < |ws| && p in ws[f].procs && ws[f].procs[p].GetFilter?
    requires ls[f].Run? && ls[f].pid == p
    requires p in ws[j].procs && ws[j].procs[p].GetDone?
    requires r in ws[f].procs[p].rows && r.doc in ws[f].scored
    ensures exists k :: f < k <= j && r.doc !in ws[k].tape
  {
    RemovedHolds(ws, ls, f, j, p);
    var rows := ws[f].procs[p].rows;
    var x :| 0 <= x < |rows| && rows[x] == r;
    assert r.doc in RowDocs(rows);
  }

  /** If no earlier-queried run was still adding it at the filter query, it is out when GET returns, and stays out. */
  lemma GetRepairsTape(ws: seq<World>, ls: seq<Label>, f: nat, j: nat, n: nat, p: int, r: Row)
    requires Path(ws, ls) && f < j <= n < |ws| && p in ws[f].procs && ws[f].procs[p].GetFilter?
    requires ls[f].Run? && ls[f].pid == p
    requires p in ws[j].procs && ws[j].procs[p].GetDone?
    requires r in ws[f].procs[p].rows && r.doc in ws[f].scored && forall q :: !Carrier(ws[f], q, r.doc)
    ensures r.doc !in ws[n].tape
  {
    GetTakesScoredOut(ws, ls, f, j, p, r);
    var k :| f < k <= j && r.doc !in ws[k].tape;
    NoCarriersLater(ws, ls, f, k, r.doc);
    ScoredStaysOut(ws, ls, k, n, r.doc);
  }
}
