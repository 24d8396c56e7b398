/** Why the hypotheses of ProtocolPositions and ProtocolDirty are there: from any run that still has a document to add
    the others can be driven so that two documents share a position; and any narrowing config write in a full run's
    window can be lost. */
module ProtocolWitness {
  import opened Prelude
  import opened SortedSet
  import opened Candidates
  import opened Protocol
  import opened ProtocolPositions
  import opened ProtocolDirty
  import opened ProtocolSolo
  import Lock

  // --- reachability ------------------------------------------------------------------------

  /** Only these processes are generator runs. */
  ghost predicate Among(w: World, gens: set<int>) {
    forall p | p in w.procs :: IsGenerator(w.procs[p]) ==> p in gens
  }

  /** Upstream only adds documents, which the score table's foreign key always permits. */
  ghost predicate OnlyAdds(w: World, l: Label) {
    l.Upstream? ==> forall d :: d in w.docs ==> d in l.docs && l.docs[d] == w.docs[d]
  }

  ghost predicate Gentle(ws: seq<World>, ls: seq<Label>, from: nat) {
    |ws| == |ls| + 1 && forall i :: from <= i < |ls| ==> OnlyAdds(ws[i], ls[i])
  }

  ghost predicate Links(ws: seq<World>, ls: seq<Label>, v: World, w: World, gens: set<int>) {
    && Path(ws, ls) && Gentle(ws, ls, 0) && ws[0] == v && ws[|ws| - 1] == w
    && forall k :: 0 <= k < |ws| ==> Among(ws[k], gens)
  }

  /** Some interleaving leads from v to w, with no other generator runs than gens, and no document edited or deleted. */
  ghost predicate Reaches(v: World, w: World, gens: set<int>) {
    exists ws: seq<World>, ls: seq<Label> :: Links(ws, ls, v, w, gens)
  }

  lemma ReachesStep(v: World, l: Label, gens: set<int>)
    requires Enabled(v, l) && Among(v, gens) && Among(Next(v, l), gens) && OnlyAdds(v, l)
    ensures Reaches(v, Next(v, l), gens)
  {
    assert Links([v, Next(v, l)], [l], v, Next(v, l), gens);
  }

  lemma GentleJoin(ws: seq<World>, ls: seq<Label>, ws': seq<World>, ls': seq<Label>, from: nat)
    requires Gentle(ws, ls, from) && Gentle(ws', ls', 0) && ws'[0] == ws[|ws| - 1] && from <= |ls|
    ensures Gentle(ws + ws'[1..], ls + ls', from)
  {
    var all, labels := ws + ws'[1..], ls + ls';
    forall i | from <= i < |labels| ensures OnlyAdds(all[i], labels[i]) {
      if i < |ls| {
        assert all[i] == ws[i] && labels[i] == ls[i];
      } else {
        assert all[i] == ws'[i - |ls|] && labels[i] == ls'[i - |ls|];
      }
    }
  }

  lemma ReachesOn(u: World, v: World, w: World, gens: set<int>)
    requires Reaches(u, v, gens) && Reaches(v, w, gens)
    ensures Reaches(u, w, gens)
  {
    var ws, ls :| Links(ws, ls, u, v, gens);
    var ws', ls' :| Links(ws', ls', v, w, gens);
    PathsJoin(ws, ls, ws', ls');
    GentleJoin(ws, ls, ws', ls', 0);
    assert Links(ws + ws'[1..], ls + ls', u, w, gens);
  }

  lemma OwnKeepsAmong(w: World, l: Label, p: int, gens: set<int>)
    requires Enabled(w, l) && Own(l, p) && p in gens && Among(w, gens)
    ensures Among(Next(w, l), gens)
  {
  }

  lemma {:induction false} SoloStaysAmong(ws: seq<World>, ls: seq<Label>, v: World, w: World, p: int, gens: set<int>,
                                          k: nat)
    requires SoloPath(ws, ls, v, w, p) && p in gens && Among(v, gens) && k < |ws|
    ensures Among(ws[k], gens)
  {
    if k > 0 {
      SoloStaysAmong(ws, ls, v, w, p, gens, k - 1);
      PathStep(ws, ls, k - 1);
      OwnKeepsAmong(ws[k - 1], ls[k - 1], p, gens);
    }
  }

  lemma SoloReaches(v: World, w: World, p: int, gens: set<int>)
    requires Solo(v, w, p) && Among(v, gens) && p in gens
    ensures Reaches(v, w, gens)
  {
    var ws, ls :| SoloPath(ws, ls, v, w, p);
    forall k | 0 <= k < |ws| ensures Among(ws[k], gens) { SoloStaysAmong(ws, ls, v, w, p, gens, k); }
    assert Gentle(ws, ls, 0);
    assert Links(ws, ls, v, w, gens);
  }

  // --- a config write and a full run ---------------------------------------------------------

  function Configured(v: World, c: int, cfg: Config, sources: set<int>): World {
    To(v.(config := Some(cfg), sources := sources, dirty := true), c, Finished)
  }

  lemma SpawnReaches(v: World, p: int, proc: Proc, gens: set<int>)
    requires p !in v.procs && Starts(v, proc) && Among(v, gens) && (IsGenerator(proc) ==> p in gens)
    ensures Reaches(v, To(v, p, proc), gens)
  {
    ReachesStep(v, Spawn(p, proc), gens);
  }

  /** One PUT /config. */
  lemma PutReaches(v: World, c: int, cfg: Config, sources: set<int>, gens: set<int>)
    requires c !in v.procs && 1 <= cfg.pageSize <= 200 && Among(v, gens)
    ensures Reaches(v, Configured(v, c, cfg, sources), gens)
  {
    var a := To(v, c, PutHash(cfg, sources));
    var b := To(v.(config := Some(cfg), dirty := true), c, PutSources(sources));
    var d := Configured(v, c, cfg, sources);
    SpawnReaches(v, c, PutHash(cfg, sources), gens);
    assert Next(a, Run(c, ANY)) == b;
    ReachesStep(a, Run(c, ANY), gens);
    assert Next(b, Run(c, ANY)) == d;
    ReachesStep(b, Run(c, ANY), gens);
    ReachesOn(v, a, b, gens);
    ReachesOn(v, b, d, gens);
  }

  /** v after a full run q has appended the first k documents of its answer. */
  function Filled(v: World, q: int, choice: Choice, cfg: Config, k: nat): World
    requires k <= |choice.rows|
  {
    Appending(Locked(v, choice.token).(tape := map[]), q, JobFor(v, true, cfg),
              Lock.Hold(choice.token, v.now + v.ttl), 0, choice.rows, k)
  }

  lemma SoloBegins(v: World, q: int, choice: Choice, cfg: Config)
    requires v.config == Some(cfg) && v.sources != {} && !Lock.Live(v.lock, v.now) && choice.token !in v.used
    ensures Solo(To(v, q, GenReadConfig(true)),
                 To(Locked(v, choice.token), q,
                    GenBegin(JobFor(v, true, cfg), Lock.Hold(choice.token, v.now + v.ttl))), q)
  {
    var start, read, take := GenReadConfig(true), GenReadSources(true, cfg), GenTakeLock(JobFor(v, true, cfg));
    GeneratorStep(v, q, start, choice);
    GeneratorStep(v, q, read, choice);
    GeneratorStep(v, q, take, choice);
    SoloOn(To(v, q, start), To(v, q, read), To(v, q, take), q);
    SoloOn(To(v, q, start), To(v, q, take),
           To(Locked(v, choice.token), q, GenBegin(JobFor(v, true, cfg), Lock.Hold(choice.token, v.now + v.ttl))), q);
  }

  lemma SoloFillsTo(v: World, q: int, choice: Choice, cfg: Config, k: nat)
    requires k <= |choice.rows|
    requires v.config == Some(cfg) && v.sources != {} && !Lock.Live(v.lock, v.now) && choice.token !in v.used
    requires IsAnswer(v.docs, v.scored, JobFor(v, true, cfg).sel, choice.rows)
    ensures Solo(To(v, q, GenReadConfig(true)), Filled(v, q, choice, cfg, k), q)
  {
    var job, hold := JobFor(v, true, cfg), Lock.Hold(choice.token, v.now + v.ttl);
    var start, locked := To(v, q, GenReadConfig(true)), Locked(v, choice.token);
    var based := locked.(tape := map[]);
    SoloBegins(v, q, choice, cfg);
    SoloPrepares(locked, q, job, hold);
    WithoutNothing(choice.rows);
    SoloAnswers(based, q, choice, job, hold, 0, {}, k);
    SoloOn(start, To(locked, q, GenBegin(job, hold)), To(based, q, GenQuery(job, hold, 0, {})), q);
    SoloOn(start, To(based, q, GenQuery(job, hold, 0, {})), Filled(v, q, choice, cfg, k), q);
  }

  lemma FullRunReaches(v: World, q: int, choice: Choice, cfg: Config, k: nat, gens: set<int>)
    requires k <= |choice.rows|
    requires v.config == Some(cfg) && v.sources != {} && !Lock.Live(v.lock, v.now) && choice.token !in v.used
    requires IsAnswer(v.docs, v.scored, JobFor(v, true, cfg).sel, choice.rows)
    requires q !in v.procs && q in gens && Among(v, gens)
    ensures Reaches(v, Filled(v, q, choice, cfg, k), gens)
  {
    var start := To(v, q, GenReadConfig(true));
    SpawnReaches(v, q, GenReadConfig(true), gens);
    SoloFillsTo(v, q, choice, cfg, k);
    SoloReaches(start, Filled(v, q, choice, cfg, k), q, gens);
    ReachesOn(v, start, Filled(v, q, choice, cfg, k), gens);
  }

  // --- a tie ---------------------------------------------------------------------------------

  lemma {:induction false} Bound(s: set<int>) returns (m: int)
    ensures forall x :: x in s ==> x < m
  {
    m := 0;
    if x :| x in s {
      var rest := Bound(s - {x});
      m := if rest <= x then x + 1 else rest;
      assert forall y :: y in s ==> y == x || y in s - {x};
    }
  }

  const CFG := Config(DateRange(None, None), false, 20)

  /** n documents of source s with ids from m on, published in the order of their ids. */
  function Fresh(s: int, m: int, n: nat): map<int, Document> { map d | m <= d < m + n :: Document(s, d) }

  function FreshRows(m: int, n: nat): (rows: seq<int>)
    ensures |rows| == n && forall i :: 0 <= i < n ==> rows[i] == m + i
  {
    seq(n, i => m + i)
  }

  /** Ids from m on and the source s are new to a database of these documents and scores. */
  ghost predicate AreNew(docs: map<int, Document>, scored: set<int>, s: int, m: int) {
    && (forall d :: d in docs ==> d < m && docs[d].source < s)
    && (forall d :: d in scored ==> d < m)
  }

  lemma FreshIsAnswer(docs: map<int, Document>, scored: set<int>, s: int, m: int, n: nat)
    requires AreNew(docs, scored, s, m)
    ensures IsAnswer(docs + Fresh(s, m, n), scored, Selection({s}, CFG.range, CFG.descending), FreshRows(m, n))
  {
    var rows, all, sel := FreshRows(m, n), docs + Fresh(s, m, n), Selection({s}, CFG.range, CFG.descending);
    forall d | m <= d < m + n ensures d in rows { assert rows[d - m] == d; }
    forall d ensures Wanted(all, scored, sel, d) <==> m <= d < m + n {
      if m <= d < m + n { assert all[d] == Document(s, d); }
    }
  }

  /** v with the lock free, fresh documents added upstream, and a config that selects them. */
  function Ready(v: World, c: int, s: int, m: int, n: nat): World {
    var later := if Lock.Live(v.lock, v.now) then v.lock.value.deadline else v.now;
    Configured(v.(docs := v.docs + Fresh(s, m, n), now := later), c, CFG, {s})
  }

  lemma ReadyReaches(v: World, c: int, s: int, m: int, n: nat, gens: set<int>)
    requires c !in v.procs && Among(v, gens) && AreNew(v.docs, v.scored, s, m)
    ensures Reaches(v, Ready(v, c, s, m, n), gens)
  {
    var wait := if Lock.Live(v.lock, v.now) then v.lock.value.deadline - v.now else 0;
    var more := v.docs + Fresh(s, m, n);
    var a := v.(docs := more);
    var b := a.(now := v.now + wait);
    ReachesStep(v, Upstream(more), gens);
    ReachesStep(a, Pass(wait), gens);
    PutReaches(b, c, CFG, {s}, gens);
    ReachesOn(v, a, b, gens);
    ReachesOn(v, b, Ready(v, c, s, m, n), gens);
  }

  /** ... and a full run over it that has appended the n fresh documents. */
  function Refilled(v: World, c: int, q: int, s: int, m: int, n: nat, token: int): World {
    Filled(Ready(v, c, s, m, n), q, Choice(token, FreshRows(m, n), false), CFG, n)
  }

  lemma ReachedIsAmong(v: World, w: World, gens: set<int>)
    requires Reaches(v, w, gens)
    ensures Among(w, gens)
  {
  }

  lemma RefilledReaches(v: World, c: int, q: int, s: int, m: int, n: nat, token: int, gens: set<int>)
    requires c !in v.procs && q !in v.procs && c != q && q in gens && Among(v, gens) && token !in v.used
    requires AreNew(v.docs, v.scored, s, m)
    ensures Reaches(v, Refilled(v, c, q, s, m, n, token), gens)
  {
    ReadyReaches(v, c, s, m, n, gens);
    FreshIsAnswer(v.docs, v.scored, s, m, n);
    FullRunReaches(Ready(v, c, s, m, n), q, Choice(token, FreshRows(m, n), false), CFG, n, gens);
    ReachesOn(v, Ready(v, c, s, m, n), Refilled(v, c, q, s, m, n, token), gens);
  }

  /** Its tape: the fresh documents, numbered. */
  lemma FreshTape(m: int, n: nat)
    ensures var t := AddAll(map[], FreshRows(m, n), 0);
            && (forall d :: d in t ==> m <= d < m + n && t[d] == d - m)
            && (forall d :: m <= d < m + n ==> d in t)
  {
    var rows, t := FreshRows(m, n), AddAll(map[], FreshRows(m, n), 0);
    AddAllExact(map[], rows, 0);
    forall d | d in t ensures m <= d < m + n && t[d] == d - m {
      var i :| 0 <= i < |rows| && rows[i] == d;
    }
    forall d | m <= d < m + n ensures d in t { assert rows[d - m] == d; }
  }

  lemma RefilledState(v: World, c: int, q: int, s: int, m: int, n: nat, token: int)
    ensures var u := Refilled(v, c, q, s, m, n, token);
            && u.tape == AddAll(map[], FreshRows(m, n), 0)
            && forall p :: p in v.procs && p != c && p != q ==> p in u.procs && u.procs[p] == v.procs[p]
  {
    assert FreshRows(m, n)[..n] == FreshRows(m, n);
  }

  /** Whenever a run has a document left to add, the rest of the system can take its lock once it has run out, rebuild
      the tape, and so make the run's next ZADD give two documents one position. */
  lemma TieReaches(v: World, p: int, gens: set<int>) returns (w: World)
    requires p in v.procs && v.procs[p].GenAppend? && v.procs[p].i < |v.procs[p].docs|
    requires NextFree(v.procs[p]).value >= 0
    requires gens == v.procs.Keys
    ensures !DistinctPositions(w.tape)
    ensures exists more :: Reaches(v, w, gens + {more})
  {
    var proc := v.procs[p];
    var doc, n := proc.docs[proc.i], proc.start + proc.i + 1;
    var c := Bound(v.procs.Keys);
    var token := Bound(v.used);
    var m := Bound(v.scored + {doc} + v.docs.Keys);
    var s := Bound(SourcesOf(v.docs));
    var q, all := c + 1, gens + {c + 1};
    var u := Refilled(v, c, q, s, m, n, token);
    IsNew(v, doc, s, m);
    RefilledReaches(v, c, q, s, m, n, token, all);
    RefilledState(v, c, q, s, m, n, token);
    FreshTape(m, n);
    assert p in v.procs.Keys;
    ReachedIsAmong(v, u, all);
    w := TieStep(u, p, m + n - 1, all);
    ReachesOn(v, u, w, all);
    assert Reaches(v, w, gens + {q});
  }

  function SourcesOf(docs: map<int, Document>): set<int> { set d | d in docs :: docs[d].source }

  lemma IsNew(v: World, doc: int, s: int, m: int)
    requires forall x :: x in v.scored + {doc} + v.docs.Keys ==> x < m
    requires forall x :: x in SourcesOf(v.docs) ==> x < s
    ensures AreNew(v.docs, v.scored, s, m) && doc < m
  {
    forall d | d in v.docs ensures d < m && v.docs[d].source < s {
      assert d in v.scored + {doc} + v.docs.Keys;
      assert v.docs[d].source in SourcesOf(v.docs);
    }
    forall d | d in v.scored ensures d < m { assert d in v.scored + {doc} + v.docs.Keys; }
    assert doc in v.scored + {doc} + v.docs.Keys;
  }

  /** The ZADD of a document that is not in the tape, at the position of one that is. */
  lemma TieStep(u: World, p: int, other: int, gens: set<int>) returns (w: World)
    requires p in u.procs && u.procs[p].GenAppend? && u.procs[p].i < |u.procs[p].docs| && Among(u, gens) && p in gens
    requires u.procs[p].docs[u.procs[p].i] !in u.tape
    requires other in u.tape && u.tape[other] == u.procs[p].start + u.procs[p].i
    ensures Reaches(u, w, gens) && !DistinctPositions(w.tape)
  {
    var doc := u.procs[p].docs[u.procs[p].i];
    w := Next(u, Run(p, ANY));
    assert w.tape == u.tape[doc := u.tape[other]];
    assert other in w.tape && doc in w.tape && w.tape[other] == w.tape[doc] && doc != other;
    AmongKept(u, p, gens);
    ReachesStep(u, Run(p, ANY), gens);
  }

  lemma AmongKept(w: World, p: int, gens: set<int>)
    requires Among(w, gens) && p in gens && p in w.procs && Enabled(w, Run(p, ANY))
    ensures Among(Next(w, Run(p, ANY)), gens)
  {
  }

  lemma Extended(ws: seq<World>, ls: seq<Label>, w: World, gens: set<int>) returns (ws': seq<World>, ls': seq<Label>)
    requires Behaviour(ws, ls) && Reaches(ws[|ws| - 1], w, gens)
    ensures Behaviour(ws', ls') && ws <= ws' && ls <= ls' && ws'[|ws'| - 1] == w && Gentle(ws', ls', |ls|)
  {
    var more, steps :| Links(more, steps, ws[|ws| - 1], w, gens);
    PathsJoin(ws, ls, more, steps);
    GentleJoin(ws, ls, more, steps, |ls|);
    ws', ls' := ws + more[1..], ls + steps;
  }

  /** (ws', ls') goes on from (ws, ls), with no document edited or deleted upstream, to two documents at one
      position. */
  ghost predicate GoesOnToTie(ws: seq<World>, ls: seq<Label>, ws': seq<World>, ls': seq<Label>) {
    && Behaviour(ws', ls') && ws <= ws' && ls <= ls' && Gentle(ws', ls', |ls|)
    && !DistinctPositions(ws'[|ws'| - 1].tape) && !Fenced(ws', ls')
  }

  /** So no weaker hypothesis on the past would do: every interleaving in which a run has a document left to add goes on
      to one that ends in a tie, in which a superseded run appends. */
  lemma AnyRunCanTie(ws: seq<World>, ls: seq<Label>, p: int)
    requires Behaviour(ws, ls) && HasDocumentLeft(ws[|ws| - 1], p)
    ensures exists ws': seq<World>, ls': seq<Label> :: GoesOnToTie(ws, ls, ws', ls')
  {
    var v := ws[|ws| - 1];
    NaturalHolds(ws, ls, |ws| - 1);
    var w := TieReaches(v, p, v.procs.Keys);
    var more :| Reaches(v, w, v.procs.Keys + {more});
    var ws', ls' := Extended(ws, ls, w, v.procs.Keys + {more});
    if Fenced(ws', ls') { PositionsStayDistinct(ws', ls', |ws'| - 1); }
    assert GoesOnToTie(ws, ls, ws', ls');
  }

  predicate HasDocumentLeft(w: World, p: int) {
    p in w.procs && w.procs[p].GenAppend? && w.procs[p].i < |w.procs[p].docs|
  }

  // --- a lost write ----------------------------------------------------------------------------

  /** Nothing has happened; one document, 7, exists. */
  function Fresh1(doc: Document): World {
    World(0, 600, map[], None, false, {}, None, {}, map[7 := doc], {}, map[])
  }

  function SelectionOf(cfg: Config, sources: set<int>): Selection { Selection(sources, cfg.range, cfg.descending) }

  /** Document 7 is in the tape of a full run that has read cfg and sources and comes to its clear_dirty. */
  function InWindow7(doc: Document, cfg: Config, sources: set<int>): World {
    Filled(Configured(Fresh1(doc), 1, cfg, sources), 2, Choice(100, [7], false), cfg, 1)
  }

  lemma InWindow7Reaches(doc: Document, cfg: Config, sources: set<int>)
    requires 1 <= cfg.pageSize <= 200 && Selected(SelectionOf(cfg, sources), doc)
    ensures Reaches(Fresh1(doc), InWindow7(doc, cfg, sources), {2})
    ensures InWindow7(doc, cfg, sources).tape == map[7 := 0]
  {
    var v := Configured(Fresh1(doc), 1, cfg, sources);
    PutReaches(Fresh1(doc), 1, cfg, sources, {2});
    FullRunReaches(v, 2, Choice(100, [7], false), cfg, 1, {2});
    ReachesOn(Fresh1(doc), v, InWindow7(doc, cfg, sources), {2});
    assert [7][..1] == [7] && AddAll(map[], [7], 0) == ZAddNx(AddAll(map[], [7][..0], 0), 7, 0);
  }

  /** The run before its clear_dirty, after a PUT of cfg' and sources'. */
  function BeforeClear(doc: Document, cfg: Config, sources: set<int>, cfg': Config, sources': set<int>): World {
    To(Configured(InWindow7(doc, cfg, sources), 3, cfg', sources'), 2,
       GenClear(Job(true, SelectionOf(cfg, sources)), Lock.Hold(100, 600)))
  }

  lemma BeforeClearReaches(doc: Document, cfg: Config, sources: set<int>, cfg': Config, sources': set<int>)
    requires 1 <= cfg.pageSize <= 200 && 1 <= cfg'.pageSize <= 200 && Selected(SelectionOf(cfg, sources), doc)
    ensures Reaches(Fresh1(doc), BeforeClear(doc, cfg, sources, cfg', sources'), {2})
  {
    var a := InWindow7(doc, cfg, sources);
    var b, end := Configured(a, 3, cfg', sources'), BeforeClear(doc, cfg, sources, cfg', sources');
    InWindow7Reaches(doc, cfg, sources);
    PutReaches(a, 3, cfg', sources', {2});
    assert Next(b, Run(2, ANY)) == end;
    ReachesStep(b, Run(2, ANY), {2});
    ReachesOn(Fresh1(doc), a, b, {2});
    ReachesOn(Fresh1(doc), b, end, {2});
  }

  /** The last step is the clear_dirty of a run that read sel, and leaves the flag down over a tape that is not
      current. */
  ghost predicate LosesWrite(ws: seq<World>, ls: seq<Label>, sel: Selection) {
    && ls != [] && |ws| == |ls| + 1 && ls[|ls| - 1].Run? && ls[|ls| - 1].pid in ws[|ls| - 1].procs
    && (var proc := ws[|ls| - 1].procs[ls[|ls| - 1].pid]; proc.GenClear? && proc.job == Job(true, sel))
    && !ws[|ls|].dirty && !TapeIsCurrent(ws[|ls|])
  }

  /** Every narrowing write can be lost: whichever source and date the new config drops, there is an interleaving with
      one worker and one PUT of it in the window of a full run that has read the old config, after which the flag is
      down and the tape shows a document of that source and date. */
  lemma NarrowingWriteIsLost(doc: Document, cfg: Config, sources: set<int>, cfg': Config, sources': set<int>)
    requires 1 <= cfg.pageSize <= 200 && 1 <= cfg'.pageSize <= 200
    requires Selected(SelectionOf(cfg, sources), doc) && !Selected(SelectionOf(cfg', sources'), doc)
    ensures exists ws: seq<World>, ls: seq<Label> ::
              && Behaviour(ws, ls) && (forall k :: 0 <= k < |ws| ==> OneWorker(ws[k]))
              && LosesWrite(ws, ls, SelectionOf(cfg, sources))
              && ws[|ls|].config == Some(cfg') && ws[|ls|].sources == sources'
  {
    var v, u := Fresh1(doc), BeforeClear(doc, cfg, sources, cfg', sources');
    var w := Next(u, Run(2, ANY));
    BeforeClearReaches(doc, cfg, sources, cfg', sources');
    InWindow7Reaches(doc, cfg, sources);
    var ws, ls :| Links(ws, ls, v, u, {2});
    PathsJoin(ws, ls, [u, w], [Run(2, ANY)]);
    var ws', ls' := ws + [u, w][1..], ls + [Run(2, ANY)];
    assert 7 in w.tape && w.docs[7] == doc;
    assert Among(u, {2}) && Among(w, {2});
    forall k | 0 <= k < |ws'| ensures OneWorker(ws'[k]) {
      SoloIsOneWorker(ws'[k], 2);
    }
    assert LosesWrite(ws', ls', SelectionOf(cfg, sources));
  }

  lemma SoloIsOneWorker(w: World, p: int)
    requires Among(w, {p})
    ensures OneWorker(w)
  {
  }

  /** Such runs exist: a first run that has its answer and has added nothing yet ... */
  lemma SomeRunHasDocumentLeft() returns (ws: seq<World>, ls: seq<Label>)
    ensures Behaviour(ws, ls) && HasDocumentLeft(ws[|ws| - 1], 2)
  {
    var start := Fresh1(Document(1, 0));
    var v := Configured(start, 1, CFG, {1});
    var w := Filled(v, 2, Choice(100, [7], false), CFG, 0);
    PutReaches(start, 1, CFG, {1}, {2});
    FullRunReaches(v, 2, Choice(100, [7], false), CFG, 0, {2});
    ReachesOn(start, v, w, {2});
    ws, ls :| Links(ws, ls, start, w, {2});
  }

  /** ... so positions do not stay distinct in every interleaving. */
  lemma PositionsCanTie()
    ensures exists ws: seq<World>, ls: seq<Label> :: Behaviour(ws, ls) && !DistinctPositions(ws[|ws| - 1].tape)
  {
    var ws, ls := SomeRunHasDocumentLeft();
    AnyRunCanTie(ws, ls, 2);
    var ws', ls' :| GoesOnToTie(ws, ls, ws', ls');
  }
}
