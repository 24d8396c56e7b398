/** One user's tape as a shared object: every process that touches it, one atomic Redis or Postgres command at a
    time, in any interleaving. Processes of different users share no key (Keys.KeysNeverCollide). */
module Protocol {
  import opened Prelude
  import opened SortedSet
  import opened Candidates
  import opened Paging
  import opened Lock

  datatype Config = Config(range: DateRange, descending: bool, pageSize: int)
  datatype Job = Job(dirty: bool, sel: Selection)

  /** Where a process stands; the arguments are its local variables. */
  datatype Proc =
    // generate_for_user, `dirty` as the scan of tick saw it
    | GenReadConfig(dirty: bool)
    | GenReadSources(dirty: bool, cfg: Config)
    | GenDropTape                                                // no sources, dirty: delete_all_entries, no lock taken
    | GenDropFlag                                                // ... then clear_dirty
    | GenTakeLock(job: Job)
    | GenBegin(job: Job, hold: Hold)                             // delete_all_entries or max_position
    | GenReadPage(job: Job, hold: Hold, start: int)
    | GenQuery(job: Job, hold: Hold, start: int, existing: set<int>)
    | GenAppend(job: Job, hold: Hold, start: int, docs: seq<int>, i: nat)
    | GenClear(job: Job, hold: Hold)
    | GenRelease(hold: Hold)
    // POST /score, and the listener's _handle
    | PostInsert(doc: int)
    | PostRemove(doc: int)
    | Listen(doc: int)
    // GET /tape
    | GetCheckLock(after: Option<int>)
    | GetReadConfig(after: Option<int>)
    | GetReadRows(after: Option<int>, limit: int)
    | GetFetch(rows: seq<Row>, next: Option<int>)
    | GetFilter(rows: seq<Row>, next: Option<int>, known: set<int>)
    | GetWalk(rows: seq<Row>, next: Option<int>, known: set<int>, hidden: set<int>, at: nat, items: seq<Row>)
    | GetDone(items: seq<Row>, next: Option<int>)
    // PUT /config
    | PutHash(cfg: Config, sources: set<int>)
    | PutSources(sources: set<int>)
    | Finished

  datatype World = World(
    now: int, ttl: nat,
    tape: Tape, config: Option<Config>, dirty: bool, sources: set<int>,
    lock: Option<Hold>, used: set<int>,
    docs: map<int, Document>, scored: set<int>,
    procs: map<int, Proc>)

  /** What the outside decides at a step: a fresh token, Postgres's answer, whether the insert hit the unique key. */
  datatype Choice = Choice(token: int, rows: seq<int>, duplicate: bool)

  datatype Label =
    | Run(pid: int, choice: Choice)
    | Fail(pid: int)                         // an exception instead of the next command
    | Crash(pid: int)                        // the process is killed
    | Spawn(pid: int, proc: Proc)
    | Pass(time: nat)
    | Upstream(docs: map<int, Document>)     // the platform changes documents
    | ScoreElsewhere(doc: int)               // a score that does not come through POST /score

  predicate Starts(w: World, proc: Proc) {
    match proc
    case GenReadConfig(_) => true
    case PostInsert(_) => true
    case Listen(doc) => doc in w.scored
    case GetCheckLock(_) => true
    case PutHash(cfg, _) => 1 <= cfg.pageSize <= 200
    case _ => false
  }

  ghost predicate Enabled(w: World, l: Label) {
    match l
    case Run(pid, choice) =>
      pid in w.procs &&
      (match w.procs[pid]
       case GenTakeLock(_) => choice.token !in w.used
       case GenQuery(job, _, _, _) => IsAnswer(w.docs, w.scored, job.sel, choice.rows)
       case PostInsert(doc) => choice.duplicate ==> doc in w.scored
       case GetDone(_, _) => false
       case Finished => false
       case _ => true)
    case Fail(pid) => pid in w.procs && !w.procs[pid].GetDone?
    case Crash(pid) => pid in w.procs && !w.procs[pid].GetDone?
    case Spawn(pid, proc) => pid !in w.procs && Starts(w, proc)
    case Pass(_) => true
    case Upstream(_) => true
    case ScoreElsewhere(_) => true
  }

  function HoldOf(proc: Proc): Option<Hold> {
    match proc
    case GenBegin(_, hold) => Some(hold)
    case GenReadPage(_, hold, _) => Some(hold)
    case GenQuery(_, hold, _, _) => Some(hold)
    case GenAppend(_, hold, _, _, _) => Some(hold)
    case GenClear(_, hold) => Some(hold)
    case GenRelease(hold) => Some(hold)
    case _ => None
  }

  predicate IsGenerator(proc: Proc) {
    match proc
    case GenReadConfig(_) => true
    case GenReadSources(_, _) => true
    case GenDropTape => true
    case GenDropFlag => true
    case GenTakeLock(_) => true
    case _ => HoldOf(proc).Some?
  }

  /** What the next command of proc does to the shared state. */
  function Effect(w: World, proc: Proc, choice: Choice): (w': World)
    ensures w'.now == w.now && w'.ttl == w.ttl && w'.docs == w.docs && w'.procs == w.procs
  {
    match proc
    case GenDropTape => w.(tape := map[])
    case GenDropFlag => w.(dirty := false)
    case GenTakeLock(_) =>
      if Live(w.lock, w.now) then w
      else w.(lock := SetNxEx(w.lock, w.now, choice.token, w.ttl), used := w.used + {choice.token})
    case GenBegin(job, _) => if job.dirty then w.(tape := map[]) else w
    case GenAppend(_, _, start, docs, i) =>
      if i < |docs| then w.(tape := ZAddNx(w.tape, docs[i], start + i)) else w
    case GenClear(_, _) => w.(dirty := false)
    case GenRelease(hold) => w.(lock := CompareAndDelete(w.lock, w.now, hold.token))
    case PostInsert(doc) => w.(scored := w.scored + {doc})
    case PostRemove(doc) => w.(tape := ZRem(w.tape, doc))
    case Listen(doc) => w.(tape := ZRem(w.tape, doc))
    case GetWalk(rows, _, _, hidden, i, _) =>
      if i < |rows| && rows[i].doc in hidden then w.(tape := ZRem(w.tape, rows[i].doc)) else w
    case PutHash(cfg, _) => w.(config := Some(cfg), dirty := true)
    case PutSources(sources) => w.(sources := sources, dirty := true)
    case _ => w
  }

  /** Where a generator run continues after its next command, run in world w. */
  function GeneratorContinues(w: World, proc: Proc, choice: Choice): Proc {
    match proc
    case GenReadConfig(dirty) =>
      if w.config.None? then Finished else GenReadSources(dirty, w.config.value)
    case GenReadSources(dirty, cfg) =>
      if w.sources != {} then GenTakeLock(Job(dirty, Selection(w.sources, cfg.range, cfg.descending)))
      else if dirty then GenDropTape
      else Finished
    case GenDropTape => GenDropFlag
    case GenTakeLock(job) =>
      if Live(w.lock, w.now) then Finished else GenBegin(job, Hold(choice.token, w.now + w.ttl))
    case GenBegin(job, hold) =>
      if job.dirty then GenQuery(job, hold, 0, {}) else GenReadPage(job, hold, MaxPosition(w.tape) + 1)
    case GenReadPage(job, hold, start) =>
      GenQuery(job, hold, start, RowDocs(Page(w.tape, None, EXISTING_LIMIT)))
    case GenQuery(job, hold, start, existing) =>
      GenAppend(job, hold, start, CandidatesFor(choice.rows, existing), 0)
    case GenAppend(job, hold, start, docs, i) =>
      if i < |docs| then GenAppend(job, hold, start, docs, i + 1)
      else if job.dirty then GenClear(job, hold)
      else GenRelease(hold)
    case GenClear(_, hold) => GenRelease(hold)
    case _ => Finished
  }

  /** Where GET /tape goes on with its rows. */
  function WithRows(rows: seq<Row>, limit: int): (next: Proc)
    ensures !IsGenerator(next)
  {
    if rows == [] then GetDone([], None) else GetFetch(rows, NextPosition(rows, limit))
  }

  /** Where an API call or the listener continues. */
  function ApiContinues(w: World, proc: Proc, choice: Choice): (next: Proc)
    ensures !IsGenerator(next)
  {
    match proc
    case PostInsert(doc) => if choice.duplicate then Finished else PostRemove(doc)
    case GetCheckLock(after) => if Live(w.lock, w.now) then Finished else GetReadConfig(after)
    case GetReadConfig(after) =>
      if w.config.None? then GetDone([], None) else GetReadRows(after, w.config.value.pageSize)
    case GetReadRows(after, limit) => WithRows(Page(w.tape, after, limit), limit)
    case GetFetch(rows, next) => GetFilter(rows, next, RowDocs(rows) * w.docs.Keys)
    case GetFilter(rows, next, known) => GetWalk(rows, next, known, RowDocs(rows) * w.scored, 0, [])
    case GetWalk(rows, next, known, hidden, i, items) =>
      if i >= |rows| then GetDone(items, next)
      else
        var shown := Shown(rows[i], known, hidden);
        GetWalk(rows, next, known, hidden, i + 1, if shown then items + [rows[i]] else items)
    case PutHash(_, sources) => PutSources(sources)
    case _ => Finished
  }

  function To(w: World, pid: int, proc: Proc): World { w.(procs := w.procs[pid := proc]) }

  /** After an exception: inside the locked region the context manager still releases; elsewhere nothing is left. */
  function AfterFailure(proc: Proc): Proc {
    match HoldOf(proc)
    case Some(hold) => if proc.GenRelease? then Finished else GenRelease(hold)
    case None => Finished
  }

  function Next(w: World, l: Label): World {
    match l
    case Run(pid, choice) =>
      if pid !in w.procs then w
      else
        var proc := w.procs[pid];
        To(Effect(w, proc, choice), pid,
           if IsGenerator(proc) then GeneratorContinues(w, proc, choice) else ApiContinues(w, proc, choice))
    case Fail(pid) => if pid in w.procs then To(w, pid, AfterFailure(w.procs[pid])) else w
    case Crash(pid) => To(w, pid, Finished)
    case Spawn(pid, proc) => To(w, pid, proc)
    case Pass(time) => w.(now := w.now + time)
    case Upstream(docs) => w.(docs := docs)
    case ScoreElsewhere(doc) => w.(scored := w.scored + {doc})
  }

  ghost predicate Initial(w: World) {
    w.tape == map[] && w.config.None? && !w.dirty && w.sources == {} && w.lock.None? && w.procs == map[]
  }

  /** ws are the worlds an interleaving ls passes through. */
  ghost predicate Path(ws: seq<World>, ls: seq<Label>) {
    |ws| == |ls| + 1 && forall i :: 0 <= i < |ls| ==> Enabled(ws[i], ls[i]) && ws[i + 1] == Next(ws[i], ls[i])
  }

  ghost predicate Behaviour(ws: seq<World>, ls: seq<Label>) {
    Path(ws, ls) && Initial(ws[0])
  }

  /** The machine forbids nothing the outside can do: at any moment any process can start under a new pid (the listener
      with a score that exists), time can pass, documents can change, and a score can come from elsewhere ... */
  lemma OutsideIsFree(w: World, pid: int, proc: Proc, doc: int, docs: map<int, Document>, time: nat)
    ensures pid !in w.procs && (proc.GenReadConfig? || proc.PostInsert? || proc.GetCheckLock?) ==>
              Enabled(w, Spawn(pid, proc)) && Next(w, Spawn(pid, proc)) == w.(procs := w.procs[pid := proc])
    ensures pid !in w.procs && proc == Listen(doc) && doc in w.scored ==>
              Enabled(w, Spawn(pid, proc)) && Next(w, Spawn(pid, proc)) == w.(procs := w.procs[pid := proc])
    ensures pid !in w.procs && proc.PutHash? && 1 <= proc.cfg.pageSize <= 200 ==>
              Enabled(w, Spawn(pid, proc)) && Next(w, Spawn(pid, proc)) == w.(procs := w.procs[pid := proc])
    ensures Enabled(w, Pass(time)) && Next(w, Pass(time)) == w.(now := w.now + time)
    ensures Enabled(w, Upstream(docs)) && Next(w, Upstream(docs)) == w.(docs := docs)
    ensures Enabled(w, ScoreElsewhere(doc)) && Next(w, ScoreElsewhere(doc)) == w.(scored := w.scored + {doc})
  {
  }

  /** ... and whoever has not finished can go on, fail or be killed: its own step waits only for a fresh token, or for
      an answer of the query, and a query always has one (Candidates.AnswerIsCorrect). */
  lemma ProcessesAreFree(w: World, pid: int, choice: Choice)
    requires pid in w.procs && !w.procs[pid].GetDone? && !w.procs[pid].Finished?
    ensures Enabled(w, Fail(pid)) && Enabled(w, Crash(pid))
    ensures w.procs[pid].GenTakeLock? && choice.token !in w.used ==> Enabled(w, Run(pid, choice))
    ensures w.procs[pid].GenQuery? && IsAnswer(w.docs, w.scored, w.procs[pid].job.sel, choice.rows) ==>
              Enabled(w, Run(pid, choice))
    ensures !w.procs[pid].GenTakeLock? && !w.procs[pid].GenQuery? && !choice.duplicate ==> Enabled(w, Run(pid, choice))
  {
  }

  lemma PathStep(ws: seq<World>, ls: seq<Label>, k: nat)
    requires Path(ws, ls) && k < |ls|
    ensures Enabled(ws[k], ls[k]) && ws[k + 1] == Next(ws[k], ls[k])
  {
  }
}
