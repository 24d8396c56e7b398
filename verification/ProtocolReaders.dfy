/** What GET /tape gives its clients in every interleaving: pages in position order, and a walk that misses nothing
    that stays and repeats nothing. */
module ProtocolReaders {
  import opened Prelude
  import opened SortedSet
  import opened Paging
  import opened Protocol
  import opened ProtocolPositions
  import ProtocolScores

  // --- pages come in order ---------------------------------------------------------------

  /** Page sizes are positive, and the rows a reader holds increase. */
  ghost predicate InOrder(proc: Proc) {
    match proc
    case PutHash(cfg, _) => cfg.pageSize >= 1
    case GetReadRows(_, limit) => limit >= 1
    case GetFetch(rows, _) => Increasing(rows)
    case GetFilter(rows, _, _) => Increasing(rows)
    case _ => true
  }

  ghost predicate ReadersInv(w: World) {
    (w.config.Some? ==> w.config.value.pageSize >= 1) && forall p :: p in w.procs ==> InOrder(w.procs[p])
  }

  lemma PageIncreases(t: Tape, after: Option<int>, limit: int)
    requires limit >= 1 && DistinctPositions(t)
    ensures Increasing(Page(t, after, limit))
  {
    PageIsExact(t, after, limit);
  }

  lemma OwnStepInOrder(w: World, proc: Proc, choice: Choice)
    requires ReadersInv(w) && InOrder(proc) && DistinctPositions(w.tape)
    ensures !IsGenerator(proc) ==> InOrder(ApiContinues(w, proc, choice))
    ensures IsGenerator(proc) ==> InOrder(GeneratorContinues(w, proc, choice))
    ensures Effect(w, proc, choice).config.Some? ==> Effect(w, proc, choice).config.value.pageSize >= 1
  {
    if proc.GetReadRows? { PageIncreases(w.tape, proc.after, proc.limit); }
  }

  lemma StepKeepsReadersInv(w: World, l: Label)
    requires Enabled(w, l) && ReadersInv(w) && DistinctPositions(w.tape)
    ensures ReadersInv(Next(w, l))
  {
    if l.Run? { OwnStepInOrder(w, w.procs[l.pid], l.choice); }
  }

  lemma {:induction false} ReadersInvHolds(ws: seq<World>, ls: seq<Label>, k: nat)
    requires Behaviour(ws, ls) && Fenced(ws, ls) && k < |ws|
    ensures ReadersInv(ws[k])
  {
    if k > 0 {
      ReadersInvHolds(ws, ls, k - 1);
      PositionsStayDistinct(ws, ls, k - 1);
      StepKeepsReadersInv(ws[k - 1], ls[k - 1]);
    }
  }

  /** A page's items have strictly increasing positions. */
  lemma GetReturnsInOrder(ws: seq<World>, ls: seq<Label>, f: nat, j: nat, p: int)
    requires Behaviour(ws, ls) && Fenced(ws, ls) && f < j < |ws|
    requires p in ws[f].procs && ws[f].procs[p].GetFilter? && ls[f].Run? && ls[f].pid == p
    requires p in ws[j].procs && ws[j].procs[p].GetDone?
    ensures Increasing(ws[j].procs[p].items)
  {
    ReadersInvHolds(ws, ls, f);
    ProtocolScores.GetReturnsNothingScored(ws, ls, f, j, p);
  }

  // --- one request -----------------------------------------------------------------------

  /** What a GET process can be after it has read `rows`, if the documents were `known` when it fetched them and the
      scores `hidden` when it filtered them. */
  predicate Serves(proc: Proc, rows: seq<Row>, next: Option<int>, known: set<int>, hidden: set<int>) {
    match proc
    case GetFetch(r, n) => r == rows && n == next
    case GetFilter(r, n, k) => r == rows && n == next && k == RowDocs(rows) * known
    case GetWalk(r, n, k, h, i, items) =>
      && r == rows && n == next && k == RowDocs(rows) * known && h == RowDocs(rows) * hidden
      && i <= |rows| && items == Items(rows[..i], k, h)
    case GetDone(items, n) => items == Items(rows, RowDocs(rows) * known, RowDocs(rows) * hidden) && n == next
    case Finished => true
    case _ => false
  }

  lemma OwnServes(w: World, proc: Proc, choice: Choice, rows: seq<Row>, next: Option<int>, known: set<int>,
                  hidden: set<int>)
    returns (known': set<int>, hidden': set<int>)
    requires Serves(proc, rows, next, known, hidden) && !proc.Finished? && !proc.GetDone?
    ensures Serves(ApiContinues(w, proc, choice), rows, next, known', hidden')
    ensures known' in {known, w.docs.Keys} && hidden' in {hidden, w.scored}
  {
    known', hidden' := known, hidden;
    if proc.GetFetch? { known' := w.docs.Keys; }
    if proc.GetFilter? { hidden' := w.scored; }
    if proc.GetWalk? {
      if proc.at < |rows| {
        assert rows[..proc.at + 1][..proc.at] == rows[..proc.at];
      } else {
        assert rows[..proc.at] == rows;
      }
    }
  }

  /** A process that is no generator run, after a step: it has gone on by itself, has ended, or is as it was. */
  lemma ApiStep(w: World, l: Label, p: int)
    requires Enabled(w, l) && p in w.procs && !IsGenerator(w.procs[p])
    ensures p in Next(w, l).procs
    ensures l.Run? && l.pid == p ==> Next(w, l).procs[p] == ApiContinues(w, w.procs[p], l.choice)
    ensures !(l.Run? && l.pid == p) ==> Next(w, l).procs[p] == w.procs[p] || Next(w, l).procs[p] == Finished
  {
  }

  lemma ServesStep(w: World, l: Label, p: int, rows: seq<Row>, next: Option<int>, known: set<int>, hidden: set<int>)
    returns (known': set<int>, hidden': set<int>)
    requires Enabled(w, l) && p in w.procs && Serves(w.procs[p], rows, next, known, hidden)
    ensures p in Next(w, l).procs && Serves(Next(w, l).procs[p], rows, next, known', hidden')
    ensures known' in {known, w.docs.Keys} && hidden' in {hidden, w.scored}
  {
    known', hidden' := known, hidden;
    ApiStep(w, l, p);
    if l.Run? && l.pid == p {
      known', hidden' := OwnServes(w, w.procs[p], l.choice, rows, next, known, hidden);
    }
  }

  /** The page process p reads in world w. */
  function RowsRead(w: World, p: int): seq<Row>
    requires p in w.procs && w.procs[p].GetReadRows?
  {
    Page(w.tape, w.procs[p].after, w.procs[p].limit)
  }

  function NextRead(w: World, p: int): Option<int>
    requires p in w.procs && w.procs[p].GetReadRows?
  {
    NextPosition(RowsRead(w, p), w.procs[p].limit)
  }

  lemma ReadServes(w: World, l: Label, p: int)
    requires Enabled(w, l) && l.Run? && l.pid == p && p in w.procs && w.procs[p].GetReadRows?
    ensures Serves(Next(w, l).procs[p], RowsRead(w, p), NextRead(w, p), w.docs.Keys, {})
  {
  }

  /** d exists in all these worlds. */
  ghost predicate Exists(ws: seq<World>, k: nat, j: nat, d: int)
    requires j < |ws|
  {
    forall x :: k <= x <= j ==> d in ws[x].docs
  }

  /** A document that has existed since world k is known at world j, one unscored at j is not hidden. */
  ghost predicate Fair(ws: seq<World>, k: nat, j: nat, d: int, known: set<int>, hidden: set<int>)
    requires k <= j < |ws|
  {
    (Exists(ws, k, j, d) ==> d in known) && (d !in ws[j].scored ==> d !in hidden)
  }

  lemma FairNext(ws: seq<World>, k: nat, j: nat, d: int, known: set<int>, hidden: set<int>, known': set<int>,
                 hidden': set<int>)
    requires k < j < |ws| && Fair(ws, k, j - 1, d, known, hidden) && (d in ws[j - 1].scored ==> d in ws[j].scored)
    requires known' in {known, ws[j - 1].docs.Keys} && hidden' in {hidden, ws[j - 1].scored}
    ensures Fair(ws, k, j, d, known', hidden')
  {
    assert Exists(ws, k, j, d) ==> Exists(ws, k, j - 1, d) && d in ws[j - 1].docs;
  }

  /** What Served says of world j. */
  ghost predicate ServesAt(ws: seq<World>, k: nat, j: nat, p: int, d: int, known: set<int>, hidden: set<int>)
    requires k < j < |ws| && p in ws[k].procs && ws[k].procs[p].GetReadRows?
  {
    && p in ws[j].procs && Serves(ws[j].procs[p], RowsRead(ws[k], p), NextRead(ws[k], p), known, hidden)
    && Fair(ws, k, j, d, known, hidden)
  }

  lemma ServesAtNext(ws: seq<World>, ls: seq<Label>, k: nat, j: nat, p: int, d: int, known: set<int>, hidden: set<int>)
    returns (known': set<int>, hidden': set<int>)
    requires Path(ws, ls) && k + 1 < j < |ws| && p in ws[k].procs && ws[k].procs[p].GetReadRows?
    requires ServesAt(ws, k, j - 1, p, d, known, hidden)
    ensures ServesAt(ws, k, j, p, d, known', hidden')
  {
    PathStep(ws, ls, j - 1);
    known', hidden' := ServesStep(ws[j - 1], ls[j - 1], p, RowsRead(ws[k], p), NextRead(ws[k], p), known, hidden);
    if d in ws[j - 1].scored { ProtocolScores.ScoresAreKept(ws[j - 1], ls[j - 1], d); }
    FairNext(ws, k, j, d, known, hidden, known', hidden');
  }

  lemma ServedFirst(ws: seq<World>, ls: seq<Label>, k: nat, p: int, d: int)
    requires Path(ws, ls) && k < |ls| && p in ws[k].procs && ws[k].procs[p].GetReadRows? && ls[k].Run? && ls[k].pid == p
    ensures ServesAt(ws, k, k + 1, p, d, ws[k].docs.Keys, {})
  {
    PathStep(ws, ls, k);
    ReadServes(ws[k], ls[k], p);
  }

  /** Process p reads its rows at step k; at a later world j it serves them. What it knows holds every document that
      exists all the while, what it hides none that is unscored at j. */
  lemma {:induction false} Served(ws: seq<World>, ls: seq<Label>, k: nat, j: nat, p: int, d: int)
    returns (known: set<int>, hidden: set<int>)
    requires Path(ws, ls) && k < j < |ws| && p in ws[k].procs && ws[k].procs[p].GetReadRows?
    requires ls[k].Run? && ls[k].pid == p
    ensures ServesAt(ws, k, j, p, d, known, hidden)
  {
    if k + 1 == j {
      known, hidden := ws[k].docs.Keys, {};
      ServedFirst(ws, ls, k, p, d);
    } else {
      known, hidden := Served(ws, ls, k, j - 1, p, d);
      known, hidden := ServesAtNext(ws, ls, k, j, p, d, known, hidden);
    }
  }

  // --- a client that follows next_position -------------------------------------------------

  /** A GET process: the step at which it reads its rows, and a world in which it has answered. */
  datatype Request = Request(pid: int, read: nat, done: nat)

  ghost predicate Answers(ws: seq<World>, ls: seq<Label>, r: Request, after: Option<int>) {
    && r.read < r.done < |ws| && |ws| == |ls| + 1
    && ls[r.read].Run? && ls[r.read].pid == r.pid
    && r.pid in ws[r.read].procs && ws[r.read].procs[r.pid].GetReadRows? && ws[r.read].procs[r.pid].after == after
    && r.pid in ws[r.done].procs && ws[r.done].procs[r.pid].GetDone?
  }

  /** The client asks for the page after each answer's next_position until an answer has none. */
  ghost predicate Follows(ws: seq<World>, ls: seq<Label>, rs: seq<Request>, after: Option<int>) {
    && rs != [] && Answers(ws, ls, rs[0], after)
    && var next := ws[rs[0].done].procs[rs[0].pid].next;
       if next.None? then |rs| == 1 else Follows(ws, ls, rs[1..], next)
  }

  /** All the items the client gets. */
  ghost function Received(ws: seq<World>, ls: seq<Label>, rs: seq<Request>, after: Option<int>): seq<Row>
    requires Follows(ws, ls, rs, after)
  {
    var last := ws[rs[0].done].procs[rs[0].pid];
    last.items + if last.next.None? then [] else Received(ws, ls, rs[1..], last.next)
  }

  /** All requests fall between worlds a and b; d is in the tape and exists all the while, and nobody has scored it. */
  ghost predicate StaysShowable(ws: seq<World>, rs: seq<Request>, a: nat, b: nat, d: int) {
    && b < |ws| && a <= b
    && (forall n :: 0 <= n < |rs| ==> a <= rs[n].read && rs[n].done <= b)
    && (forall x :: a <= x <= b ==> d in ws[x].tape && d in ws[x].docs)
    && d !in ws[b].scored
  }

  /** An answer of a positive page size over a tape with distinct positions that has d at p and shows it. */
  ghost predicate ShowsAt(answer: Answer, d: int, p: int) {
    && answer.visit.limit >= 1 && DistinctPositions(answer.visit.tape)
    && d in answer.visit.tape && answer.visit.tape[d] == p && d in answer.known && d !in answer.hidden
  }

  lemma {:induction false} ScoredLater(ws: seq<World>, ls: seq<Label>, i: nat, j: nat, d: int)
    requires Path(ws, ls) && i <= j < |ws| && d in ws[i].scored
    ensures d in ws[j].scored
  {
    ProtocolScores.CarriersGoBack(ws, ls, i, j, 0, d);
  }

  /** A request reads a page of positive size from a tape with distinct positions. */
  lemma ReadsWell(ws: seq<World>, ls: seq<Label>, k: nat, p: int)
    requires Behaviour(ws, ls) && Fenced(ws, ls) && k < |ws| && p in ws[k].procs && ws[k].procs[p].GetReadRows?
    ensures ws[k].procs[p].limit >= 1 && DistinctPositions(ws[k].tape)
  {
    ReadersInvHolds(ws, ls, k);
    assert InOrder(ws[k].procs[p]);
    PositionsStayDistinct(ws, ls, k);
  }

  /** What a finished request has answered. */
  lemma ServedItems(proc: Proc, rows: seq<Row>, next: Option<int>, known: set<int>, hidden: set<int>)
    requires proc.GetDone? && Serves(proc, rows, next, known, hidden)
    ensures proc.items == Items(rows, known, hidden) && proc.next == next
  {
    ItemsOfRows(rows, known, hidden, RowDocs(rows));
  }

  /** One request of the client, and what it shows if d is there to be shown. */
  lemma Answered(ws: seq<World>, ls: seq<Label>, r: Request, after: Option<int>, d: int) returns (answer: Answer)
    requires Behaviour(ws, ls) && Fenced(ws, ls) && Answers(ws, ls, r, after)
    ensures answer.visit.limit >= 1 && answer.visit.tape == ws[r.read].tape && DistinctPositions(answer.visit.tape)
    ensures var page := Page(answer.visit.tape, after, answer.visit.limit);
            && ws[r.done].procs[r.pid].items == Items(page, answer.known, answer.hidden)
            && ws[r.done].procs[r.pid].next == NextAfter(answer.visit, after)
    ensures Fair(ws, r.read, r.done, d, answer.known, answer.hidden)
  {
    var known, hidden := Served(ws, ls, r.read, r.done, r.pid, d);
    answer := Answer(Visit(ws[r.read].tape, ws[r.read].procs[r.pid].limit), known, hidden);
    ServedItems(ws[r.done].procs[r.pid], RowsRead(ws[r.read], r.pid), NextRead(ws[r.read], r.pid), known, hidden);
    ReadsWell(ws, ls, r.read, r.pid);
  }

  /** What stays showable is shown. */
  lemma AnswerShows(ws: seq<World>, ls: seq<Label>, r: Request, answer: Answer, a: nat, b: nat, d: int)
    requires Path(ws, ls) && r.read < r.done < |ws| && StaysShowable(ws, [r], a, b, d)
    requires answer.visit.limit >= 1 && answer.visit.tape == ws[r.read].tape && DistinctPositions(answer.visit.tape)
    requires Fair(ws, r.read, r.done, d, answer.known, answer.hidden)
    ensures ShowsAt(answer, d, ws[a].tape[d])
  {
    assert a <= [r][0].read && [r][0].done <= b;
    assert Exists(ws, r.read, r.done, d);
    if d in ws[r.done].scored { ScoredLater(ws, ls, r.done, b, d); }
    PositionNeverMoves(ws, ls, a, r.read, d);
  }

  /** One answer in front of the rest of a walk that ends. */
  lemma CollectOneMore(first: Answer, rest: seq<Answer>, after: Option<int>)
    requires NextAfter(first.visit, after).Some? ==> Reached(VisitsOf(rest), NextAfter(first.visit, after)) == Ended
    requires NextAfter(first.visit, after).None? ==> rest == []
    ensures Reached(VisitsOf([first] + rest), after) == Ended
    ensures Collect([first] + rest, after) ==
            Items(Page(first.visit.tape, after, first.visit.limit), first.known, first.hidden) +
            if NextAfter(first.visit, after).None? then [] else Collect(rest, NextAfter(first.visit, after))
  {
    var answers := [first] + rest;
    assert answers[1..] == rest;
    VisitsOfRest(answers);
    assert VisitsOf(answers)[0] == first.visit;
  }

  lemma PartsAreShowable(ws: seq<World>, rs: seq<Request>, a: nat, b: nat, d: int)
    requires rs != [] && StaysShowable(ws, rs, a, b, d)
    ensures StaysShowable(ws, [rs[0]], a, b, d) && StaysShowable(ws, rs[1..], a, b, d)
  {
  }

  /** What the client gets first, and what after that. */
  lemma FollowsOn(ws: seq<World>, ls: seq<Label>, rs: seq<Request>, after: Option<int>, items: seq<Row>,
                  next: Option<int>)
    requires Follows(ws, ls, rs, after)
    requires ws[rs[0].done].procs[rs[0].pid].items == items && ws[rs[0].done].procs[rs[0].pid].next == next
    ensures next.Some? ==> Follows(ws, ls, rs[1..], next)
    ensures Received(ws, ls, rs, after) == items + if next.None? then [] else Received(ws, ls, rs[1..], next)
  {
  }

  ghost predicate AllShow(answers: seq<Answer>, d: int, p: int) {
    forall n :: 0 <= n < |answers| ==> ShowsAt(answers[n], d, p)
  }

  /** The client's requests as answers over the tapes they read. */
  lemma {:induction false} ClientCollects(ws: seq<World>, ls: seq<Label>, rs: seq<Request>, after: Option<int>, d: int)
    returns (answers: seq<Answer>)
    requires Behaviour(ws, ls) && Fenced(ws, ls) && Follows(ws, ls, rs, after)
    ensures Readable(VisitsOf(answers)) && Reached(VisitsOf(answers), after) == Ended
    ensures Received(ws, ls, rs, after) == Collect(answers, after)
    ensures ShowWhatStays(ws, rs, answers, d)
    decreases |rs|
  {
    var first := Answered(ws, ls, rs[0], after, d);
    var rest, next := [], NextAfter(first.visit, after);
    FollowsOn(ws, ls, rs, after, Items(Page(first.visit.tape, after, first.visit.limit), first.known, first.hidden),
              next);
    if next.Some? {
      rest := ClientCollects(ws, ls, rs[1..], next, d);
    } else {
      assert ShowWhatStays(ws, rs[1..], rest, d);
    }
    answers := [first] + rest;
    ReadableOneMore(first, rest);
    CollectOneMore(first, rest, after);
    ShowsOneMore(ws, ls, rs, first, rest, d);
  }

  /** Wherever d stays showable, all these answers show it. */
  ghost predicate ShowWhatStays(ws: seq<World>, rs: seq<Request>, answers: seq<Answer>, d: int) {
    forall a: nat, b: nat :: StaysShowable(ws, rs, a, b, d) ==> AllShow(answers, d, ws[a].tape[d])
  }

  lemma ShowsOneMore(ws: seq<World>, ls: seq<Label>, rs: seq<Request>, first: Answer, rest: seq<Answer>, d: int)
    requires Path(ws, ls) && rs != [] && rs[0].read < rs[0].done < |ws| && ShowWhatStays(ws, rs[1..], rest, d)
    requires first.visit.limit >= 1 && first.visit.tape == ws[rs[0].read].tape && DistinctPositions(first.visit.tape)
    requires Fair(ws, rs[0].read, rs[0].done, d, first.known, first.hidden)
    ensures ShowWhatStays(ws, rs, [first] + rest, d)
  {
    forall a: nat, b: nat | StaysShowable(ws, rs, a, b, d) ensures AllShow([first] + rest, d, ws[a].tape[d]) {
      PartsAreShowable(ws, rs, a, b, d);
      AnswerShows(ws, ls, rs[0], first, a, b, d);
    }
  }

  lemma ReadableOneMore(first: Answer, rest: seq<Answer>)
    requires first.visit.limit >= 1 && DistinctPositions(first.visit.tape) && Readable(VisitsOf(rest))
    ensures Readable(VisitsOf([first] + rest))
  {
  }

  /** A client follows next_position while generator runs, removers and config writes interleave: everything it gets
      comes in strictly increasing position order, so nothing comes twice. */
  lemma ReceivedInOrder(ws: seq<World>, ls: seq<Label>, rs: seq<Request>, after: Option<int>)
    requires Behaviour(ws, ls) && Fenced(ws, ls) && Follows(ws, ls, rs, after)
    ensures Increasing(Received(ws, ls, rs, after))
  {
    var answers := ClientCollects(ws, ls, rs, after, 0);
    CollectIncreases(answers, after);
  }

  /** And a document that is in the tape, exists and is unscored all the while reaches it exactly once, at its position,
      if it walks from the start to the end. */
  lemma PagingIsStable(ws: seq<World>, ls: seq<Label>, rs: seq<Request>, a: nat, b: nat, d: int)
    requires Behaviour(ws, ls) && Fenced(ws, ls) && Follows(ws, ls, rs, None) && StaysShowable(ws, rs, a, b, d)
    ensures OnceIn(Received(ws, ls, rs, None), d, Row(ws[a].tape[d], d))
  {
    var answers := ClientCollects(ws, ls, rs, None, d);
    assert AllShow(answers, d, ws[a].tape[d]);
    CollectIsStable(answers, d, ws[a].tape[d]);
  }
}
