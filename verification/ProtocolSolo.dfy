/** The interleaving machine and the sequential methods describe the same programs. A generator process that nobody
    disturbs, failing wherever one run may fail and taking whatever time it takes, can leave the shared state just as
    Worker.After says; so can the API processes and the listener leave it as TapeApi says. */
module ProtocolSolo {
  import opened Prelude
  import opened SortedSet
  import opened Candidates
  import opened Paging
  import opened Store
  import opened Database
  import opened Protocol
  import Lock
  import Generator
  import Worker
  import TapeApi

  // --- one process alone -------------------------------------------------------------------

  /** A step of process p, or the passing of time. */
  predicate Own(l: Label, p: int) {
    match l
    case Run(pid, _) => pid == p
    case Fail(pid) => pid == p
    case Crash(pid) => pid == p
    case Pass(_) => true
    case _ => false
  }

  ghost predicate SoloPath(ws: seq<World>, ls: seq<Label>, v: World, w: World, p: int) {
    Path(ws, ls) && ws[0] == v && ws[|ws| - 1] == w && forall i :: 0 <= i < |ls| ==> Own(ls[i], p)
  }

  /** Process p alone can take v to w. */
  ghost predicate Solo(v: World, w: World, p: int) {
    exists ws: seq<World>, ls: seq<Label> :: SoloPath(ws, ls, v, w, p)
  }

  lemma SoloSelf(v: World, p: int)
    ensures Solo(v, v, p)
  {
    assert SoloPath([v], [], v, v, p);
  }

  lemma SoloStep(v: World, l: Label, p: int)
    requires Enabled(v, l) && Own(l, p)
    ensures Solo(v, Next(v, l), p)
  {
    assert SoloPath([v, Next(v, l)], [l], v, Next(v, l), p);
  }

  /** Two paths that meet, as one. */
  lemma PathsJoin(ws: seq<World>, ls: seq<Label>, ws': seq<World>, ls': seq<Label>)
    requires Path(ws, ls) && Path(ws', ls') && ws'[0] == ws[|ws| - 1]
    ensures Path(ws + ws'[1..], ls + ls')
  {
    var all, labels := ws + ws'[1..], ls + ls';
    forall i | 0 <= i < |labels| ensures Enabled(all[i], labels[i]) && all[i + 1] == Next(all[i], labels[i]) {
      if i < |ls| {
        assert all[i] == ws[i] && all[i + 1] == ws[i + 1] && labels[i] == ls[i];
      } else {
        var k := i - |ls|;
        assert all[i] == ws'[k] && all[i + 1] == ws'[k + 1] && labels[i] == ls'[k];
      }
    }
  }

  lemma SoloOn(u: World, v: World, w: World, p: int)
    requires Solo(u, v, p) && Solo(v, w, p)
    ensures Solo(u, w, p)
  {
    var ws, ls :| SoloPath(ws, ls, u, v, p);
    var ws', ls' :| SoloPath(ws', ls', v, w, p);
    PathsJoin(ws, ls, ws', ls');
    assert SoloPath(ws + ws'[1..], ls + ls', u, w, p);
  }

  lemma ToTwice(v: World, p: int, a: Proc, b: Proc)
    ensures To(To(v, p, a), p, b) == To(v, p, b)
  {
  }

  /** A command does not look at the process table: neither in what it does ... */
  lemma SameEffect(v: World, p: int, proc: Proc, choice: Choice)
    ensures Effect(To(v, p, proc), proc, choice) == To(Effect(v, proc, choice), p, proc)
  {
  }

  /** ... nor in where it leads. */
  lemma SameContinuation(v: World, p: int, proc: Proc, choice: Choice)
    ensures GeneratorContinues(To(v, p, proc), proc, choice) == GeneratorContinues(v, proc, choice)
  {
  }

  lemma SameApiContinuation(v: World, p: int, proc: Proc, choice: Choice)
    ensures ApiContinues(To(v, p, proc), proc, choice) == ApiContinues(v, proc, choice)
  {
  }

  /** One step of a generator process, with the rest of its world as it was. */
  lemma GeneratorStep(v: World, p: int, proc: Proc, choice: Choice)
    requires IsGenerator(proc)
    requires proc.GenTakeLock? ==> choice.token !in v.used
    requires proc.GenQuery? ==> IsAnswer(v.docs, v.scored, proc.job.sel, choice.rows)
    ensures Solo(To(v, p, proc), To(Effect(v, proc, choice), p, GeneratorContinues(v, proc, choice)), p)
  {
    SoloStep(To(v, p, proc), Run(p, choice), p);
    SameEffect(v, p, proc, choice);
    SameContinuation(v, p, proc, choice);
    ToTwice(Effect(v, proc, choice), p, proc, GeneratorContinues(v, proc, choice));
  }

  /** One step of an API process. */
  lemma ApiStep(v: World, p: int, proc: Proc, choice: Choice)
    requires !IsGenerator(proc) && !proc.GetDone? && !proc.Finished?
    requires proc.PostInsert? && choice.duplicate ==> proc.doc in v.scored
    ensures Solo(To(v, p, proc), To(Effect(v, proc, choice), p, ApiContinues(v, proc, choice)), p)
  {
    SoloStep(To(v, p, proc), Run(p, choice), p);
    SameEffect(v, p, proc, choice);
    SameApiContinuation(v, p, proc, choice);
    ToTwice(Effect(v, proc, choice), p, proc, ApiContinues(v, proc, choice));
  }

  lemma FailStep(v: World, p: int, proc: Proc)
    requires !proc.GetDone?
    ensures Solo(To(v, p, proc), To(v, p, AfterFailure(proc)), p)
  {
    SoloStep(To(v, p, proc), Fail(p), p);
    ToTwice(v, p, proc, AfterFailure(proc));
  }

  lemma CrashStep(v: World, p: int, proc: Proc)
    requires !proc.GetDone?
    ensures Solo(To(v, p, proc), To(v, p, Finished), p)
  {
    SoloStep(To(v, p, proc), Crash(p), p);
    ToTwice(v, p, proc, Finished);
  }

  lemma WaitStep(v: World, p: int, proc: Proc, time: nat)
    ensures Solo(To(v, p, proc), To(v.(now := v.now + time), p, proc), p)
  {
    SoloStep(To(v, p, proc), Pass(time), p);
  }

  // --- the phases of a generator run -----------------------------------------------------------

  /** A run that has appended the first k of docs to the tape of v. */
  function Appending(v: World, p: int, job: Job, hold: Lock.Hold, start: int, docs: seq<int>, k: nat): World
    requires k <= |docs|
  {
    To(v.(tape := AddAll(v.tape, docs[..k], start)), p, GenAppend(job, hold, start, docs, k))
  }

  const ANY := Choice(0, [], false)

  lemma SoloAppend(v: World, p: int, job: Job, hold: Lock.Hold, start: int, docs: seq<int>, k: nat)
    requires k < |docs|
    ensures Solo(Appending(v, p, job, hold, start, docs, k), Appending(v, p, job, hold, start, docs, k + 1), p)
  {
    AddAllLast(v.tape, docs, k, start);
    GeneratorStep(v.(tape := AddAll(v.tape, docs[..k], start)), p, GenAppend(job, hold, start, docs, k), ANY);
  }

  lemma {:induction false} SoloAppends(v: World, p: int, job: Job, hold: Lock.Hold, start: int, docs: seq<int>, k: nat)
    requires k <= |docs|
    ensures Solo(Appending(v, p, job, hold, start, docs, 0), Appending(v, p, job, hold, start, docs, k), p)
  {
    var none := Appending(v, p, job, hold, start, docs, 0);
    if k == 0 {
      SoloSelf(none, p);
    } else {
      SoloAppends(v, p, job, hold, start, docs, k - 1);
      SoloAppend(v, p, job, hold, start, docs, k - 1);
      SoloOn(none, Appending(v, p, job, hold, start, docs, k - 1), Appending(v, p, job, hold, start, docs, k), p);
    }
  }

  /** Where a process stands before its query, after what it has read. */
  function Prepared(t: Tape, job: Job, hold: Lock.Hold): Proc {
    GenQuery(job, hold, Generator.Start(t, job.dirty), Generator.Existing(t, job.dirty))
  }

  lemma SoloReads(v: World, p: int, job: Job, hold: Lock.Hold)
    requires !job.dirty
    ensures Solo(To(v, p, GenBegin(job, hold)), To(v, p, Prepared(v.tape, job, hold)), p)
  {
    var page := GenReadPage(job, hold, MaxPosition(v.tape) + 1);
    GeneratorStep(v, p, GenBegin(job, hold), ANY);
    GeneratorStep(v, p, page, ANY);
    SoloOn(To(v, p, GenBegin(job, hold)), To(v, p, page), To(v, p, Prepared(v.tape, job, hold)), p);
  }

  /** Reads and deletion. */
  lemma SoloPrepares(v: World, p: int, job: Job, hold: Lock.Hold)
    ensures Solo(To(v, p, GenBegin(job, hold)),
                 To(v.(tape := Generator.Base(v.tape, job.dirty)), p, Prepared(v.tape, job, hold)), p)
  {
    if job.dirty {
      GeneratorStep(v, p, GenBegin(job, hold), ANY);
    } else {
      SoloReads(v, p, job, hold);
      assert v.(tape := v.tape) == v;
    }
  }

  /** Query, then the first k ZADDs. */
  lemma SoloAnswers(v: World, p: int, choice: Choice, job: Job, hold: Lock.Hold, start: int, existing: set<int>, k: nat)
    requires IsAnswer(v.docs, v.scored, job.sel, choice.rows) && k <= |CandidatesFor(choice.rows, existing)|
    ensures Solo(To(v, p, GenQuery(job, hold, start, existing)),
                 Appending(v, p, job, hold, start, CandidatesFor(choice.rows, existing), k), p)
  {
    var query, docs := GenQuery(job, hold, start, existing), CandidatesFor(choice.rows, existing);
    GeneratorStep(v, p, query, choice);
    assert v.(tape := AddAll(v.tape, docs[..0], start)) == v;
    SoloAppends(v, p, job, hold, start, docs, k);
    SoloOn(To(v, p, query), Appending(v, p, job, hold, start, docs, 0), Appending(v, p, job, hold, start, docs, k), p);
  }

  // --- the locked region under a fault -----------------------------------------------------------

  /** A command, then an exception. */
  lemma StepThenFail(v: World, p: int, proc: Proc, choice: Choice)
    requires IsGenerator(proc) && !proc.GenTakeLock? && !proc.GenQuery?
    ensures Solo(To(v, p, proc), To(Effect(v, proc, choice), p, AfterFailure(GeneratorContinues(v, proc, choice))), p)
  {
    var v', next := Effect(v, proc, choice), GeneratorContinues(v, proc, choice);
    GeneratorStep(v, p, proc, choice);
    FailStep(v', p, next);
    SoloOn(To(v, p, proc), To(v', p, next), To(v', p, AfterFailure(next)), p);
  }

  lemma SoloStopsReading(v: World, p: int, job: Job, hold: Lock.Hold, fault: Generator.Fault)
    requires Generator.StopsReading(fault, job.dirty)
    ensures Solo(To(v, p, GenBegin(job, hold)),
                 To(v.(tape := Generator.PreparedTape(v.tape, job.dirty, fault)), p, GenRelease(hold)), p)
  {
    assert v.(tape := v.tape) == v;
    if job.dirty && fault.served > 0 {
      StepThenFail(v, p, GenBegin(job, hold), ANY);
    } else {
      FailStep(v, p, GenBegin(job, hold));
    }
  }

  /** The tape after query and ZADDs, under a fault. */
  lemma SoloBreaksFilling(v: World, p: int, choice: Choice, job: Job, hold: Lock.Hold, start: int, existing: set<int>,
                          fault: Generator.Fault)
    requires IsAnswer(v.docs, v.scored, job.sel, choice.rows)
    requires Generator.Hits(fault, Generator.Query) || Generator.Hits(fault, Generator.Append)
    ensures Solo(To(v, p, GenQuery(job, hold, start, existing)),
                 To(v.(tape := Generator.FilledTape(v.tape, CandidatesFor(choice.rows, existing), start, fault)), p,
                    GenRelease(hold)), p)
  {
    var query, docs := GenQuery(job, hold, start, existing), CandidatesFor(choice.rows, existing);
    if Generator.Hits(fault, Generator.Query) {
      assert v.(tape := v.tape) == v;
      FailStep(v, p, query);
    } else {
      var k := |Take(docs, fault.served)|;
      assert docs[..k] == Take(docs, fault.served);
      var end := v.(tape := AddAll(v.tape, docs[..k], start));
      SoloAnswers(v, p, choice, job, hold, start, existing, k);
      FailStep(end, p, GenAppend(job, hold, start, docs, k));
      SoloOn(To(v, p, query), Appending(v, p, job, hold, start, docs, k), To(end, p, GenRelease(hold)), p);
    }
  }

  /** From the last ZADD on: the events, the flag. */
  lemma SoloSettles(v: World, p: int, job: Job, hold: Lock.Hold, start: int, docs: seq<int>, fault: Generator.Fault,
                    n: nat)
    ensures var cleared := job.dirty && !Generator.HitsAdded(fault, n) && Generator.Lands(fault, Generator.ClearFlag);
            Solo(To(v, p, GenAppend(job, hold, start, docs, |docs|)),
                 To(v.(dirty := v.dirty && !cleared), p, GenRelease(hold)), p)
  {
    var last := GenAppend(job, hold, start, docs, |docs|);
    assert v.(dirty := v.dirty) == v;
    if Generator.HitsAdded(fault, n) {
      FailStep(v, p, last);
    } else if !job.dirty {
      GeneratorStep(v, p, last, ANY);
    } else {
      var clear := GenClear(job, hold);
      GeneratorStep(v, p, last, ANY);
      if Generator.Lands(fault, Generator.ClearFlag) {
        GeneratorStep(v, p, clear, ANY);
        SoloOn(To(v, p, last), To(v, p, clear), To(v.(dirty := false), p, GenRelease(hold)), p);
      } else {
        FailStep(v, p, clear);
        SoloOn(To(v, p, last), To(v, p, clear), To(v, p, GenRelease(hold)), p);
      }
    }
  }

  /** What the locked region makes of the tape ... */
  function RegionTape(t: Tape, dirty: bool, rows: seq<int>, fault: Generator.Fault): Tape {
    if Worker.FailsOpening(fault) then t else Generator.TapeAfter(t, dirty, rows, fault)
  }

  /** ... and whether it clears the flag. */
  predicate RegionClears(t: Tape, dirty: bool, rows: seq<int>, fault: Generator.Fault) {
    !Worker.FailsOpening(fault) && Generator.FlagCleared(fault, dirty, |Generator.Gained(t, dirty, rows)|)
  }

  lemma SoloFills(v: World, p: int, choice: Choice, job: Job, hold: Lock.Hold, start: int, existing: set<int>,
                  fault: Generator.Fault, n: nat)
    requires IsAnswer(v.docs, v.scored, job.sel, choice.rows)
    requires !Generator.Hits(fault, Generator.Query) && !Generator.Hits(fault, Generator.Append)
    ensures var cleared := job.dirty && !Generator.HitsAdded(fault, n) && Generator.Lands(fault, Generator.ClearFlag);
            Solo(To(v, p, GenQuery(job, hold, start, existing)),
                 To(v.(tape := AddAll(v.tape, CandidatesFor(choice.rows, existing), start),
                       dirty := v.dirty && !cleared), p, GenRelease(hold)), p)
  {
    var query, docs := GenQuery(job, hold, start, existing), CandidatesFor(choice.rows, existing);
    var cleared := job.dirty && !Generator.HitsAdded(fault, n) && Generator.Lands(fault, Generator.ClearFlag);
    var filled := v.(tape := AddAll(v.tape, docs, start));
    assert docs[..|docs|] == docs;
    SoloAnswers(v, p, choice, job, hold, start, existing, |docs|);
    SoloSettles(filled, p, job, hold, start, docs, fault, n);
    SoloOn(To(v, p, query), Appending(v, p, job, hold, start, docs, |docs|),
           To(filled.(dirty := v.dirty && !cleared), p, GenRelease(hold)), p);
  }

  lemma SoloRegion(v: World, p: int, choice: Choice, job: Job, hold: Lock.Hold, fault: Generator.Fault)
    requires IsAnswer(v.docs, v.scored, job.sel, choice.rows)
    ensures Solo(To(v, p, GenBegin(job, hold)),
                 To(v.(tape := RegionTape(v.tape, job.dirty, choice.rows, fault),
                       dirty := v.dirty && !RegionClears(v.tape, job.dirty, choice.rows, fault)), p,
                    GenRelease(hold)), p)
  {
    var begin, t := To(v, p, GenBegin(job, hold)), v.tape;
    var based := v.(tape := Generator.Base(t, job.dirty));
    var start, existing := Generator.Start(t, job.dirty), Generator.Existing(t, job.dirty);
    var n := |Generator.Gained(t, job.dirty, choice.rows)|;
    var end := v.(tape := RegionTape(t, job.dirty, choice.rows, fault),
                  dirty := v.dirty && !RegionClears(t, job.dirty, choice.rows, fault));
    if Worker.FailsOpening(fault) {
      FailStep(v, p, GenBegin(job, hold));
      assert end == v;
    } else if Generator.StopsReading(fault, job.dirty) {
      SoloStopsReading(v, p, job, hold, fault);
    } else {
      SoloPrepares(v, p, job, hold);
      if Generator.Hits(fault, Generator.Query) || Generator.Hits(fault, Generator.Append) {
        SoloBreaksFilling(based, p, choice, job, hold, start, existing, fault);
      } else {
        SoloFills(based, p, choice, job, hold, start, existing, fault, n);
      }
      SoloOn(begin, To(based, p, Prepared(t, job, hold)), To(end, p, GenRelease(hold)), p);
    }
  }

  // --- a whole run ---------------------------------------------------------------------------------

  /** The machine's shared state and the sequential run's user state are the same state. */
  predicate Agrees(v: World, s: UserState) {
    && v.tape == s.tape && v.lock == s.cell && v.sources == s.sources
    && (v.config.Some? <==> s.hash.Some?)
    && (s.hash.Some? ==>
          && v.dirty == s.hash.value.dirty
          && var cfg := Decode(s.hash.value);
             v.config.value == Config(cfg.range, cfg.descending, cfg.pageSize))
  }

  function Locked(v: World, token: int): World {
    v.(lock := Lock.SetNxEx(v.lock, v.now, token, v.ttl), used := v.used + {token})
  }

  function JobFor(v: World, dirty: bool, cfg: Config): Job {
    Job(dirty, Selection(v.sources, cfg.range, cfg.descending))
  }

  /** What a run that gets the lock leaves. */
  function Ended(v: World, dirty: bool, rows: seq<int>, luck: Worker.Luck): World {
    Locked(v, luck.token).(
      tape := RegionTape(v.tape, dirty, rows, luck.fault),
      dirty := v.dirty && !RegionClears(v.tape, dirty, rows, luck.fault),
      now := v.now + luck.elapsed,
      lock := Lock.CompareAndDelete(Locked(v, luck.token).lock, v.now + luck.elapsed, luck.token))
  }

  lemma SoloReleases(v: World, p: int, hold: Lock.Hold, time: nat)
    ensures Solo(To(v, p, GenRelease(hold)),
                 To(v.(now := v.now + time, lock := Lock.CompareAndDelete(v.lock, v.now + time, hold.token)), p,
                    Finished), p)
  {
    var later := v.(now := v.now + time);
    WaitStep(v, p, GenRelease(hold), time);
    GeneratorStep(later, p, GenRelease(hold), ANY);
    SoloOn(To(v, p, GenRelease(hold)), To(later, p, GenRelease(hold)),
           To(later.(lock := Lock.CompareAndDelete(v.lock, v.now + time, hold.token)), p, Finished), p);
  }

  lemma SoloLocked(v: World, p: int, choice: Choice, dirty: bool, cfg: Config, luck: Worker.Luck)
    requires !Lock.Live(v.lock, v.now) && choice.token == luck.token && luck.token !in v.used
    requires IsAnswer(v.docs, v.scored, JobFor(v, dirty, cfg).sel, choice.rows)
    ensures Solo(To(v, p, GenTakeLock(JobFor(v, dirty, cfg))), To(Ended(v, dirty, choice.rows, luck), p, Finished), p)
  {
    var job, hold, locked := JobFor(v, dirty, cfg), Lock.Hold(luck.token, v.now + v.ttl), Locked(v, luck.token);
    var worked := locked.(tape := RegionTape(v.tape, dirty, choice.rows, luck.fault),
                          dirty := v.dirty && !RegionClears(v.tape, dirty, choice.rows, luck.fault));
    GeneratorStep(v, p, GenTakeLock(job), choice);
    SoloRegion(locked, p, choice, job, hold, luck.fault);
    SoloReleases(worked, p, hold, luck.elapsed);
    SoloOn(To(v, p, GenTakeLock(job)), To(locked, p, GenBegin(job, hold)), To(worked, p, GenRelease(hold)), p);
    SoloOn(To(v, p, GenTakeLock(job)), To(worked, p, GenRelease(hold)),
           To(Ended(v, dirty, choice.rows, luck), p, Finished), p);
  }

  /** What a run that comes to its lock, but does not get it, leaves. */
  function Refused(v: World, luck: Worker.Luck): World {
    if Generator.Lands(luck.fault, Generator.SetLock) && !Lock.Live(v.lock, v.now) then Locked(v, luck.token) else v
  }

  lemma SoloRefused(v: World, p: int, dirty: bool, cfg: Config, luck: Worker.Luck)
    requires Lock.Live(v.lock, v.now) || Generator.Hits(luck.fault, Generator.SetLock)
    requires luck.token !in v.used
    ensures Solo(To(v, p, GenTakeLock(JobFor(v, dirty, cfg))), To(Refused(v, luck), p, Finished), p)
  {
    var job, hold, choice := JobFor(v, dirty, cfg), Lock.Hold(luck.token, v.now + v.ttl), Choice(luck.token, [], false);
    if !Generator.Lands(luck.fault, Generator.SetLock) {
      FailStep(v, p, GenTakeLock(job));
    } else {
      GeneratorStep(v, p, GenTakeLock(job), choice);
      if !Lock.Live(v.lock, v.now) {
        CrashStep(Locked(v, luck.token), p, GenBegin(job, hold));
        SoloOn(To(v, p, GenTakeLock(job)), To(Locked(v, luck.token), p, GenBegin(job, hold)),
               To(Locked(v, luck.token), p, Finished), p);
      }
    }
  }

  /** What a dirty run without sources leaves. */
  function Dropped(v: World, fault: Generator.Fault): World {
    var emptied := if Generator.Lands(fault, Generator.DropTape) then v.(tape := map[]) else v;
    if !Generator.Hits(fault, Generator.DropTape) && Generator.Lands(fault, Generator.DropFlag)
    then emptied.(dirty := false) else emptied
  }

  lemma SoloDrops(v: World, p: int, fault: Generator.Fault)
    ensures Solo(To(v, p, GenDropTape), To(Dropped(v, fault), p, Finished), p)
  {
    var emptied := v.(tape := map[]);
    if Generator.Hits(fault, Generator.DropTape) && fault.served == 0 {
      FailStep(v, p, GenDropTape);
    } else {
      GeneratorStep(v, p, GenDropTape, ANY);
      if !Generator.Hits(fault, Generator.DropTape) && Generator.Lands(fault, Generator.DropFlag) {
        GeneratorStep(emptied, p, GenDropFlag, ANY);
      } else {
        FailStep(emptied, p, GenDropFlag);
      }
      SoloOn(To(v, p, GenDropTape), To(emptied, p, GenDropFlag), To(Dropped(v, fault), p, Finished), p);
    }
  }

  /** What a run leaves, whatever happens to it. */
  function RunEnd(v: World, dirty: bool, rows: seq<int>, luck: Worker.Luck): World {
    if Generator.Hits(luck.fault, Generator.ReadConfig) || v.config.None? then v
    else if Generator.Hits(luck.fault, Generator.ReadSources) then v
    else if v.sources == {} then (if dirty then Dropped(v, luck.fault) else v)
    else if Lock.Live(v.lock, v.now) || Generator.Hits(luck.fault, Generator.SetLock) then Refused(v, luck)
    else Ended(v, dirty, rows, luck)
  }

  /** A run that has read its config and its sources. */
  lemma SoloAsks(v: World, p: int, choice: Choice, dirty: bool, cfg: Config, luck: Worker.Luck)
    requires v.config == Some(cfg) && choice.token == luck.token && luck.token !in v.used
    requires IsAnswer(v.docs, v.scored, JobFor(v, dirty, cfg).sel, choice.rows)
    requires !Generator.Hits(luck.fault, Generator.ReadConfig) && !Generator.Hits(luck.fault, Generator.ReadSources)
    ensures Solo(To(v, p, GenReadSources(dirty, cfg)), To(RunEnd(v, dirty, choice.rows, luck), p, Finished), p)
  {
    var read, job, end := GenReadSources(dirty, cfg), JobFor(v, dirty, cfg), RunEnd(v, dirty, choice.rows, luck);
    GeneratorStep(v, p, read, choice);
    if v.sources != {} {
      if Lock.Live(v.lock, v.now) || Generator.Hits(luck.fault, Generator.SetLock) {
        SoloRefused(v, p, dirty, cfg, luck);
      } else {
        SoloLocked(v, p, choice, dirty, cfg, luck);
      }
      SoloOn(To(v, p, read), To(v, p, GenTakeLock(job)), To(end, p, Finished), p);
    } else if dirty {
      SoloDrops(v, p, luck.fault);
      SoloOn(To(v, p, read), To(v, p, GenDropTape), To(end, p, Finished), p);
    }
  }

  lemma SoloRuns(v: World, p: int, choice: Choice, dirty: bool, luck: Worker.Luck)
    requires choice.token == luck.token && luck.token !in v.used
    requires v.config.Some? ==> IsAnswer(v.docs, v.scored, JobFor(v, dirty, v.config.value).sel, choice.rows)
    ensures Solo(To(v, p, GenReadConfig(dirty)), To(RunEnd(v, dirty, choice.rows, luck), p, Finished), p)
  {
    var start, end := GenReadConfig(dirty), To(RunEnd(v, dirty, choice.rows, luck), p, Finished);
    if Generator.Hits(luck.fault, Generator.ReadConfig) {
      FailStep(v, p, start);
    } else {
      GeneratorStep(v, p, start, choice);
      if v.config.Some? {
        var read := GenReadSources(dirty, v.config.value);
        if Generator.Hits(luck.fault, Generator.ReadSources) {
          FailStep(v, p, read);
        } else {
          SoloAsks(v, p, choice, dirty, v.config.value, luck);
        }
        SoloOn(To(v, p, start), To(v, p, read), end, p);
      }
    }
  }

  lemma EndedAgrees(v: World, dirty: bool, rows: seq<int>, luck: Worker.Luck, s: UserState, run: nat, sent: seq<Event>)
    requires Agrees(v, s) && Worker.Engages(s, v.now, luck.fault)
    ensures Agrees(Ended(v, dirty, rows, luck), Worker.After(s, v.now, dirty, rows, v.ttl, run, luck, sent))
  {
  }

  /** Every run of generate_for_user as specified, with any failure and taking any time, is a run of the machine: its
      process, alone, can finish in a world that agrees with what After says. */
  lemma RunsAreMachineRuns(v: World, p: int, choice: Choice, dirty: bool, luck: Worker.Luck, s: UserState, run: nat,
                           sent: seq<Event>)
    requires Agrees(v, s) && choice.token == luck.token && luck.token !in v.used
    requires s.hash.Some? ==> IsAnswer(v.docs, v.scored, Worker.SelectionOf(s), choice.rows)
    ensures Solo(To(v, p, GenReadConfig(dirty)), To(RunEnd(v, dirty, choice.rows, luck), p, Finished), p)
    ensures Agrees(RunEnd(v, dirty, choice.rows, luck),
                   Worker.After(s, v.now, dirty, choice.rows, v.ttl, run, luck, sent))
  {
    SoloRuns(v, p, choice, dirty, luck);
    if Worker.Engages(s, v.now, luck.fault) {
      EndedAgrees(v, dirty, choice.rows, luck, s, run, sent);
    } else {
      UnendedAgrees(v, dirty, choice.rows, luck, s, run, sent);
    }
  }

  lemma UnendedAgrees(v: World, dirty: bool, rows: seq<int>, luck: Worker.Luck, s: UserState, run: nat,
                      sent: seq<Event>)
    requires Agrees(v, s) && !Worker.Engages(s, v.now, luck.fault)
    ensures Agrees(RunEnd(v, dirty, rows, luck), Worker.After(s, v.now, dirty, rows, v.ttl, run, luck, sent))
  {
  }

  // --- API processes -------------------------------------------------------------------------------

  /** POST /score: a repeated score, or a new one. */
  lemma PostIsMachineRun(v: World, p: int, doc: int, duplicate: bool, s: UserState)
    requires Agrees(v, s) && (duplicate ==> doc in v.scored)
    ensures var v' := if duplicate then v else v.(scored := v.scored + {doc}, tape := ZRem(v.tape, doc));
            && Solo(To(v, p, PostInsert(doc)), To(v', p, Finished), p)
            && Agrees(v', if duplicate then s else TapeApi.ScorePosted(s, doc))
  {
    var choice, scored := Choice(0, [], duplicate), v.(scored := v.scored + {doc});
    ApiStep(v, p, PostInsert(doc), choice);
    if duplicate {
      assert scored == v;
    } else {
      ApiStep(scored, p, PostRemove(doc), choice);
      SoloOn(To(v, p, PostInsert(doc)), To(scored, p, PostRemove(doc)),
             To(scored.(tape := ZRem(v.tape, doc)), p, Finished), p);
    }
  }

  /** The listener's handler. */
  lemma HandleIsMachineRun(v: World, p: int, doc: int, s: UserState)
    requires Agrees(v, s)
    ensures Solo(To(v, p, Listen(doc)), To(v.(tape := ZRem(v.tape, doc)), p, Finished), p)
    ensures Agrees(v.(tape := ZRem(v.tape, doc)), TapeApi.Handled(s, doc))
  {
    ApiStep(v, p, Listen(doc), ANY);
    assert doc !in s.tape ==> ZRem(s.tape, doc) == s.tape;
  }

  /** An accepted PUT /config. */
  lemma PutIsMachineRun(v: World, p: int, descending: bool, detailed: bool, pageSize: int, range: DateRange,
                        sources: set<int>, s: UserState)
    requires Agrees(v, s)
    ensures var cfg := Config(range, descending, pageSize);
            var v' := v.(config := Some(cfg), sources := sources, dirty := true);
            && Solo(To(v, p, PutHash(cfg, sources)), To(v', p, Finished), p)
            && Agrees(v', TapeApi.ConfigWritten(s, descending, detailed, pageSize, range, sources))
  {
    var cfg := Config(range, descending, pageSize);
    var half := v.(config := Some(cfg), dirty := true);
    ApiStep(v, p, PutHash(cfg, sources), ANY);
    ApiStep(half, p, PutSources(sources), ANY);
    SoloOn(To(v, p, PutHash(cfg, sources)), To(half, p, PutSources(sources)),
           To(half.(sources := sources), p, Finished), p);
  }

  // --- GET /tape -------------------------------------------------------------------------------------

  /** A reader that has dealt with the first i of its rows. */
  function Walking(v: World, p: int, rows: seq<Row>, next: Option<int>, known: set<int>, hidden: set<int>,
                   i: nat): World
    requires i <= |rows|
  {
    To(v.(tape := v.tape - RowDocs(rows[..i]) * hidden), p,
       GetWalk(rows, next, known, hidden, i, Items(rows[..i], known, hidden)))
  }

  lemma SoloWalk(v: World, p: int, rows: seq<Row>, next: Option<int>, known: set<int>, hidden: set<int>, i: nat)
    requires i < |rows|
    ensures Solo(Walking(v, p, rows, next, known, hidden, i), Walking(v, p, rows, next, known, hidden, i + 1), p)
  {
    var here := v.(tape := v.tape - RowDocs(rows[..i]) * hidden);
    ApiStep(here, p, GetWalk(rows, next, known, hidden, i, Items(rows[..i], known, hidden)), ANY);
    TapeApi.ItemsNext(rows, i, known, hidden);
    assert Items(rows[..i], known, hidden) + [] == Items(rows[..i], known, hidden);
    TapeApi.OneMoreOut(v.tape, rows, i, hidden);
  }

  lemma {:induction false} SoloWalks(v: World, p: int, rows: seq<Row>, next: Option<int>, known: set<int>,
                                     hidden: set<int>, i: nat)
    requires i <= |rows|
    ensures Solo(Walking(v, p, rows, next, known, hidden, 0), Walking(v, p, rows, next, known, hidden, i), p)
  {
    var start := Walking(v, p, rows, next, known, hidden, 0);
    if i == 0 {
      SoloSelf(start, p);
    } else {
      SoloWalks(v, p, rows, next, known, hidden, i - 1);
      SoloWalk(v, p, rows, next, known, hidden, i - 1);
      SoloOn(start, Walking(v, p, rows, next, known, hidden, i - 1), Walking(v, p, rows, next, known, hidden, i), p);
    }
  }

  /** The items of these rows, as the world is now. */
  function ItemsIn(v: World, rows: seq<Row>): seq<Row> {
    Items(rows, RowDocs(rows) * v.docs.Keys, RowDocs(rows) * v.scored)
  }

  /** Their scored documents taken out of the tape. */
  function Cleaned(v: World, rows: seq<Row>): World { v.(tape := v.tape - RowDocs(rows) * v.scored) }

  lemma HiddenTwice(rows: seq<Row>, scored: set<int>)
    ensures RowDocs(rows) * (RowDocs(rows) * scored) == RowDocs(rows) * scored
  {
  }

  lemma SoloFetches(v: World, p: int, rows: seq<Row>, next: Option<int>)
    ensures Solo(To(v, p, GetFetch(rows, next)),
                 Walking(v, p, rows, next, RowDocs(rows) * v.docs.Keys, RowDocs(rows) * v.scored, 0), p)
  {
    var known, hidden := RowDocs(rows) * v.docs.Keys, RowDocs(rows) * v.scored;
    ApiStep(v, p, GetFetch(rows, next), ANY);
    ApiStep(v, p, GetFilter(rows, next, known), ANY);
    NothingDealt(v, rows, hidden);
    SoloOn(To(v, p, GetFetch(rows, next)), To(v, p, GetFilter(rows, next, known)),
           Walking(v, p, rows, next, known, hidden, 0), p);
  }

  lemma NothingDealt(v: World, rows: seq<Row>, hidden: set<int>)
    ensures v.(tape := v.tape - RowDocs(rows[..0]) * hidden) == v
  {
    assert RowDocs(rows[..0]) * hidden == {} && v.tape - {} == v.tape;
  }

  lemma SoloAnswersRequest(v: World, p: int, rows: seq<Row>, next: Option<int>)
    ensures Solo(Walking(v, p, rows, next, RowDocs(rows) * v.docs.Keys, RowDocs(rows) * v.scored, |rows|),
                 To(Cleaned(v, rows), p, GetDone(ItemsIn(v, rows), next)), p)
  {
    var known, hidden := RowDocs(rows) * v.docs.Keys, RowDocs(rows) * v.scored;
    assert rows[..|rows|] == rows;
    HiddenTwice(rows, v.scored);
    ApiStep(Cleaned(v, rows), p, GetWalk(rows, next, known, hidden, |rows|, ItemsIn(v, rows)), ANY);
  }

  /** A reader with its rows: it fetches, filters, walks and answers. */
  lemma SoloServes(v: World, p: int, rows: seq<Row>, next: Option<int>)
    ensures Solo(To(v, p, GetFetch(rows, next)), To(Cleaned(v, rows), p, GetDone(ItemsIn(v, rows), next)), p)
  {
    var known, hidden := RowDocs(rows) * v.docs.Keys, RowDocs(rows) * v.scored;
    var start, end := Walking(v, p, rows, next, known, hidden, 0), Walking(v, p, rows, next, known, hidden, |rows|);
    SoloFetches(v, p, rows, next);
    SoloWalks(v, p, rows, next, known, hidden, |rows|);
    SoloAnswersRequest(v, p, rows, next);
    SoloOn(To(v, p, GetFetch(rows, next)), start, end, p);
    SoloOn(To(v, p, GetFetch(rows, next)), end, To(Cleaned(v, rows), p, GetDone(ItemsIn(v, rows), next)), p);
  }

  lemma NothingToServe(v: World, limit: int)
    ensures ItemsIn(v, []) == [] && NextPosition([], limit) == None && Cleaned(v, []) == v
  {
    NothingDealt(v, [], v.scored);
  }

  lemma SoloReadsPage(v: World, p: int, after: Option<int>, limit: int)
    ensures var rows := Page(v.tape, after, limit);
            Solo(To(v, p, GetReadRows(after, limit)),
                 To(Cleaned(v, rows), p, GetDone(ItemsIn(v, rows), NextPosition(rows, limit))), p)
  {
    ReadsRows(v, p, after, limit);
    SoloServesPage(v, p, GetReadRows(after, limit), Page(v.tape, after, limit), limit);
  }

  lemma RowsContinue(v: World, after: Option<int>, limit: int)
    ensures ApiContinues(v, GetReadRows(after, limit), ANY) == WithRows(Page(v.tape, after, limit), limit)
  {
  }

  lemma RowsTouchNothing(v: World, after: Option<int>, limit: int)
    ensures Effect(v, GetReadRows(after, limit), ANY) == v
  {
  }

  lemma ApiStepTo(v: World, p: int, proc: Proc, next: Proc)
    requires !IsGenerator(proc) && !proc.GetDone? && !proc.Finished? && !proc.PostInsert?
    requires Effect(v, proc, ANY) == v && ApiContinues(v, proc, ANY) == next
    ensures Solo(To(v, p, proc), To(v, p, next), p)
  {
    ApiStep(v, p, proc, ANY);
  }

  lemma ReadsRows(v: World, p: int, after: Option<int>, limit: int)
    ensures Solo(To(v, p, GetReadRows(after, limit)), To(v, p, WithRows(Page(v.tape, after, limit), limit)), p)
  {
    RowsContinue(v, after, limit);
    RowsTouchNothing(v, after, limit);
    ApiStepTo(v, p, GetReadRows(after, limit), WithRows(Page(v.tape, after, limit), limit));
  }

  lemma SoloServesPage(v: World, p: int, proc: Proc, rows: seq<Row>, limit: int)
    requires Solo(To(v, p, proc), To(v, p, WithRows(rows, limit)), p)
    ensures Solo(To(v, p, proc), To(Cleaned(v, rows), p, GetDone(ItemsIn(v, rows), NextPosition(rows, limit))), p)
  {
    if rows == [] {
      NothingToServe(v, limit);
    } else {
      var next := NextPosition(rows, limit);
      SoloServes(v, p, rows, next);
      SoloOn(To(v, p, proc), To(v, p, GetFetch(rows, next)), To(Cleaned(v, rows), p, GetDone(ItemsIn(v, rows), next)),
             p);
    }
  }

  /** What a GET /tape answers; nothing if the tape is locked. */
  function GetAnswer(v: World, after: Option<int>): Proc {
    if Lock.Live(v.lock, v.now) then Finished
    else if v.config.None? then GetDone([], None)
    else
      var limit := v.config.value.pageSize;
      GetDone(ItemsIn(v, Page(v.tape, after, limit)), NextPosition(Page(v.tape, after, limit), limit))
  }

  /** ... and what it leaves. */
  function GetEnd(v: World, after: Option<int>): World {
    if Lock.Live(v.lock, v.now) || v.config.None? then v else Cleaned(v, Page(v.tape, after, v.config.value.pageSize))
  }

  lemma SoloGets(v: World, p: int, after: Option<int>)
    ensures Solo(To(v, p, GetReadConfig(after)),
                 To(if v.config.None? then v else Cleaned(v, Page(v.tape, after, v.config.value.pageSize)), p,
                    if v.config.None? then GetDone([], None)
                    else var limit := v.config.value.pageSize;
                         GetDone(ItemsIn(v, Page(v.tape, after, limit)),
                                 NextPosition(Page(v.tape, after, limit), limit))), p)
  {
    ApiStep(v, p, GetReadConfig(after), ANY);
    if v.config.Some? {
      var limit := v.config.value.pageSize;
      var rows := Page(v.tape, after, limit);
      SoloReadsPage(v, p, after, limit);
      SoloOn(To(v, p, GetReadConfig(after)), To(v, p, GetReadRows(after, limit)),
             To(Cleaned(v, rows), p, GetDone(ItemsIn(v, rows), NextPosition(rows, limit))), p);
    }
  }

  /** GET /tape. */
  lemma GetIsMachineRun(v: World, p: int, after: Option<int>)
    ensures Solo(To(v, p, GetCheckLock(after)), To(GetEnd(v, after), p, GetAnswer(v, after)), p)
  {
    ApiStep(v, p, GetCheckLock(after), ANY);
    if !Lock.Live(v.lock, v.now) {
      SoloGets(v, p, after);
      SoloOn(To(v, p, GetCheckLock(after)), To(v, p, GetReadConfig(after)),
             To(GetEnd(v, after), p, GetAnswer(v, after)), p);
    }
  }

  /** The machine sees this user's side of the database: its documents, and what some role of the user has scored. */
  ghost predicate Sees(v: World, db: Snapshot, user: int) {
    v.docs == db.docs && forall d :: d in v.scored <==> exists role :: Score(user, role, d) in db.scores
  }

  lemma SeenScores(v: World, db: Snapshot, user: int)
    requires Sees(v, db, user)
    ensures v.scored == ScoredBy(db, user)
  {
    forall d ensures d in v.scored <==> d in ScoredBy(db, user) { ScoredByExact(db, user, d); }
  }

  /** The sequential query's answer is one the machine's query may give. */
  lemma SelectIsMachineAnswer(v: World, db: Snapshot, user: int, sel: Selection)
    requires Sees(v, db, user) && Lays(db.docs, db.physical)
    ensures IsAnswer(v.docs, v.scored, sel, Select(db, user, sel))
  {
    SeenScores(v, db, user);
    AnswerIsCorrect(db.docs, ScoredBy(db, user), sel, db.physical);
  }

  /** A stored score is seen by its own user's machine as one more scored document, and by no one else's. */
  lemma SaveIsSeen(v: World, db: Snapshot, user: int, score: Score)
    requires Sees(v, db, user)
    ensures Sees(if score.user == user then v.(scored := v.scored + {score.doc}) else v,
                 db.(scores := db.scores + {score}), user)
  {
    var db' := db.(scores := db.scores + {score});
    var v' := if score.user == user then v.(scored := v.scored + {score.doc}) else v;
    ScoreCountsForItsUser(db, score, user, Selection({}, DateRange(None, None), true));
    SeenScores(v, db, user);
    forall d ensures d in v'.scored <==> exists role :: Score(user, role, d) in db'.scores {
      ScoredByExact(db', user, d);
    }
  }

  /** What TapeApi.ReadTape replies is what the machine's request answers: no page while the tape is locked, and
      otherwise the same items and the same next position. */
  lemma ReplyIsMachines(v: World, after: Option<int>, s: UserState, db: Snapshot, user: int)
    requires Agrees(v, s) && Sees(v, db, user)
    ensures var reply := TapeApi.ReadReply(s, v.now, db, user, after);
            && (reply.Err? ==> reply.error == TapeApi.TapeLocked && GetAnswer(v, after) == Finished)
            && (reply.Ok? ==> GetAnswer(v, after) == GetDone(reply.value.items, reply.value.next))
  {
    SeenScores(v, db, user);
  }

  /** What it leaves is what the machine's request leaves. */
  lemma GetAgrees(v: World, after: Option<int>, s: UserState, db: Snapshot, user: int)
    requires Agrees(v, s) && Sees(v, db, user)
    ensures Agrees(GetEnd(v, after), TapeApi.ReadState(s, v.now, db, user, after))
  {
    SeenScores(v, db, user);
    if s.hash.Some? && !Lock.Live(s.cell, v.now) {
      CleanedAgrees(v, s, Page(s.tape, after, Decode(s.hash.value).pageSize));
    }
  }

  lemma CleanedAgrees(v: World, s: UserState, rows: seq<Row>)
    requires Agrees(v, s)
    ensures Agrees(Cleaned(v, rows), TapeApi.Repaired(s, rows, RowDocs(rows) * v.scored))
  {
    HiddenTwice(rows, v.scored);
  }
}
