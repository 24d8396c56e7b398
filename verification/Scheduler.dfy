/** The task scheduler of docs/sql/02-ddl.sql. A call is one transaction; `now` is its now(). A function that raises
    leaves the tables as they were. */
module Scheduler {
  import opened Prelude

  /** Bare: in plugins.plugin only, so not in plugins.complete. */
  datatype PluginKind = Source | Ml | Bare
  datatype Plugin = Plugin(kind: PluginKind, timer: Option<int>)
  datatype Task = Task(status: int, plugin: int)
  datatype Row = Row(start: int, task: int)
  datatype Session = Session(start: int, stop: Option<int>, task: int)
  datatype Failure = Failure(at: int, comment: string, task: int)

  /** codes are the rows of tasks.status. */
  datatype Tables = Tables(codes: set<int>, tasks: map<int, Task>, schedule: map<int, Row>,
                           sessions: map<int, Session>, errors: seq<Failure>)

  datatype Result<T> = Ok(value: T) | Raised

  /** The codes the functions use themselves. */
  const CODES := {0, 10, 20, 50, 60, 80}

  // --- what the functions compute ---------------------------------------------------------------

  /** set_status. */
  function WithStatus(db: Tables, task: int, status: int): Tables {
    if task in db.tasks then db.(tasks := db.tasks[task := db.tasks[task].(status := status)]) else db
  }

  function Scheduled(db: Tables, id: int, task: int, start: int): Tables {
    WithStatus(db.(schedule := db.schedule[id := Row(start, task)]), task, 10)
  }

  function Unscheduled(db: Tables, id: int, status: Option<int>): Tables {
    var marked := if status.Some? && id in db.schedule then WithStatus(db, db.schedule[id].task, status.value) else db;
    marked.(schedule := marked.schedule - {id})
  }

  function HandedOut(db: Tables, id: int, session: int, now: int): Tables
    requires id in db.schedule
  {
    var task := db.schedule[id].task;
    Unscheduled(WithStatus(db, task, 20), id, None).(sessions := db.sessions[session := Session(now, None, task)])
  }

  function Stopped(db: Tables, session: int, now: int, status: int): Tables {
    if session in db.sessions
    then WithStatus(db.(sessions := db.sessions[session := db.sessions[session].(stop := Some(now))]),
                    db.sessions[session].task, status)
    else db
  }

  /** The rows of one task. */
  function RowsOf(db: Tables, task: int): set<int> { set r | r in db.schedule && db.schedule[r].task == task }

  /** These rows of a task unscheduled with status 80. */
  function TakenOff(db: Tables, task: int, rows: set<int>): Tables {
    (if rows == {} then db else WithStatus(db, task, 80)).(schedule := db.schedule - rows)
  }

  function Deactivated(db: Tables, task: int): Tables { TakenOff(db, task, RowsOf(db, task)) }

  /** The row is due, and a node of these types can run it. */
  predicate IsDue(db: Tables, plugins: map<int, Plugin>, kinds: set<PluginKind>, now: int, r: int) {
    && r in db.schedule && db.schedule[r].start < now
    && db.schedule[r].task in db.tasks && db.tasks[db.schedule[r].task].plugin in plugins
    && var kind := plugins[db.tasks[db.schedule[r].task].plugin].kind;
       kind != Bare && kind in kinds
  }

  /** ... and none such starts earlier. */
  predicate IsNext(db: Tables, plugins: map<int, Plugin>, kinds: set<PluginKind>, now: int, r: int) {
    && IsDue(db, plugins, kinds, now, r)
    && forall s | s in db.schedule :: IsDue(db, plugins, kinds, now, s) ==> db.schedule[r].start <= db.schedule[s].start
  }

  function DueRows(db: Tables, plugins: map<int, Plugin>, kinds: set<PluginKind>, now: int): set<int> {
    set r | r in db.schedule && IsDue(db, plugins, kinds, now, r)
  }

  lemma Inhabited(s: set<int>)
    ensures s == {} || exists x :: x in s
  {
    if !exists x :: x in s { assert s == {}; }
  }

  predicate IsLeast(schedule: map<int, Row>, ids: set<int>, r: int)
    requires ids <= schedule.Keys
  {
    r in ids && forall s | s in ids :: schedule[r].start <= schedule[s].start
  }

  lemma {:induction false} LeastStart(schedule: map<int, Row>, ids: set<int>) returns (least: int)
    requires ids != {} && ids <= schedule.Keys
    ensures IsLeast(schedule, ids, least)
  {
    Inhabited(ids);
    least :| least in ids;
    var rest := ids - {least};
    if rest != {} {
      var q := LeastStart(schedule, rest);
      if schedule[q].start < schedule[least].start { least := q; }
    }
  }

  lemma NextExists(db: Tables, plugins: map<int, Plugin>, kinds: set<PluginKind>, now: int)
    requires DueRows(db, plugins, kinds, now) != {}
    ensures exists r :: r in db.schedule && IsNext(db, plugins, kinds, now, r)
  {
    var r := LeastStart(db.schedule, DueRows(db, plugins, kinds, now));
    assert IsNext(db, plugins, kinds, now, r);
  }

  function TaskOf(db: Tables, session: int): Option<int> {
    if session in db.sessions then Some(db.sessions[session].task) else None
  }

  /** plugins.timer of the plugin plugins.complete shows for the session's task. */
  function TimerOf(db: Tables, plugins: map<int, Plugin>, session: int): Option<int> {
    if session !in db.sessions || db.sessions[session].task !in db.tasks then None
    else
      var id := db.tasks[db.sessions[session].task].plugin;
      if id !in plugins || plugins[id].kind == Bare then None else plugins[id].timer
  }

  /** The tables after each function, table by table. */
  lemma ScheduledExact(db: Tables, id: int, task: int, start: int)
    ensures Scheduled(db, id, task, start) ==
              Tables(db.codes, if task in db.tasks then db.tasks[task := Task(10, db.tasks[task].plugin)] else db.tasks,
                     db.schedule[id := Row(start, task)], db.sessions, db.errors)
  {
  }

  lemma UnscheduledExact(db: Tables, id: int, status: Option<int>)
    ensures var db' := Unscheduled(db, id, status);
            && db'.schedule == db.schedule - {id} && db'.sessions == db.sessions && db'.errors == db.errors
            && db'.codes == db.codes && db'.tasks.Keys == db.tasks.Keys
            && forall t :: t in db.tasks ==>
                 db'.tasks[t] == if status.Some? && id in db.schedule && db.schedule[id].task == t
                                 then Task(status.value, db.tasks[t].plugin) else db.tasks[t]
  {
  }

  lemma HandedOutExact(db: Tables, id: int, session: int, now: int)
    requires id in db.schedule && db.schedule[id].task in db.tasks
    ensures var task := db.schedule[id].task;
            HandedOut(db, id, session, now) ==
              Tables(db.codes, db.tasks[task := Task(20, db.tasks[task].plugin)], db.schedule - {id},
                     db.sessions[session := Session(now, None, task)], db.errors)
  {
  }

  lemma StoppedExact(db: Tables, session: int, now: int, status: int)
    requires session in db.sessions && db.sessions[session].task in db.tasks
    ensures var start, task := db.sessions[session].start, db.sessions[session].task;
            Stopped(db, session, now, status) ==
              Tables(db.codes, db.tasks[task := Task(status, db.tasks[task].plugin)], db.schedule,
                     db.sessions[session := Session(start, Some(now), task)], db.errors)
  {
  }

  /** Deactivation takes off the task's rows, all of them and no other, and sets its status to 80 if it had any. */
  lemma DeactivatedExact(db: Tables, task: int)
    ensures var db', had := Deactivated(db, task), exists r :: r in db.schedule && db.schedule[r].task == task;
            && (forall r :: r in db'.schedule <==> r in db.schedule && db.schedule[r].task != task)
            && (forall r :: r in db'.schedule ==> db'.schedule[r] == db.schedule[r])
            && db'.sessions == db.sessions && db'.errors == db.errors && db'.tasks.Keys == db.tasks.Keys
            && forall t :: t in db.tasks ==>
                 db'.tasks[t] == if t == task && had then Task(80, db.tasks[t].plugin) else db.tasks[t]
  {
    Inhabited(RowsOf(db, task));
    if r :| r in db.schedule && db.schedule[r].task == task { assert r in RowsOf(db, task); }
  }

  /** A row is due when its start lies strictly in the past and its task is that of a source or model plugin, of a kind
      the node runs; relevant takes one whose start is least among these. */
  lemma DueExact(db: Tables, plugins: map<int, Plugin>, kinds: set<PluginKind>, now: int, r: int)
    requires Sound(db, plugins)
    ensures r in DueRows(db, plugins, kinds, now) <==>
              && r in db.schedule && db.schedule[r].start < now && db.schedule[r].task in db.tasks
              && var kind := plugins[db.tasks[db.schedule[r].task].plugin].kind;
                 (kind == Source || kind == Ml) && kind in kinds
    ensures IsNext(db, plugins, kinds, now, r) <==>
              && r in DueRows(db, plugins, kinds, now)
              && forall s :: s in DueRows(db, plugins, kinds, now) ==> db.schedule[r].start <= db.schedule[s].start
  {
    if IsNext(db, plugins, kinds, now, r) {
      forall s | s in DueRows(db, plugins, kinds, now) ensures db.schedule[r].start <= db.schedule[s].start {
        assert IsDue(db, plugins, kinds, now, s);
      }
    }
  }

  // --- invariants -------------------------------------------------------------------------------

  /** A task with status 10 has a pending row. */
  ghost predicate TensPend(db: Tables) {
    forall t :: t in db.tasks && db.tasks[t].status == 10 ==> exists r :: r in db.schedule && db.schedule[r].task == t
  }

  /** Foreign keys and the unique plugin of a task. */
  ghost predicate Sound(db: Tables, plugins: map<int, Plugin>) {
    && CODES <= db.codes
    && (forall t :: t in db.tasks ==> db.tasks[t].plugin in plugins && db.tasks[t].status in db.codes)
    && (forall s :: s in db.sessions ==> db.sessions[s].task in db.tasks)
    && (forall t, u :: t in db.tasks && u in db.tasks && db.tasks[t].plugin == db.tasks[u].plugin ==> t == u)
  }

  /** What became of every schedule row ever created: who got it, or that it was unscheduled. */
  datatype Ledger = Ledger(created: map<int, Row>, handed: map<int, int>, dropped: set<int>)

  /** Every row created is pending, or went to exactly one session, or was unscheduled, and never two of these; no
      session got two rows, and every session got one, with the row's task. */
  ghost predicate Accounts(db: Tables, ledger: Ledger) {
    && ledger.created.Keys == db.schedule.Keys + ledger.handed.Keys + ledger.dropped
    && db.schedule.Keys !! ledger.handed.Keys && db.schedule.Keys !! ledger.dropped
    && ledger.handed.Keys !! ledger.dropped
    && (forall r :: r in db.schedule ==> ledger.created[r] == db.schedule[r])
    && (forall r :: r in ledger.handed ==>
          ledger.handed[r] in db.sessions && db.sessions[ledger.handed[r]].task == ledger.created[r].task)
    && (forall r, q :: r in ledger.handed && q in ledger.handed && ledger.handed[r] == ledger.handed[q] ==> r == q)
    && AllServed(db.sessions.Keys, ledger.handed)
  }

  /** One new row, id, is pending, and nothing else became of any row. */
  ghost predicate Creates(before: Tables, ledger: Ledger, after: Tables, ledger': Ledger, id: int, task: int,
                          start: int) {
    && id !in ledger.created && after == Scheduled(before, id, task, start)
    && ledger' == ledger.(created := ledger.created[id := Row(start, task)])
  }

  /** What finish makes of the tables. */
  ghost predicate Finishes(before: Tables, plugins: map<int, Plugin>, ledger: Ledger, session: int, now: int,
                           after: Tables, ledger': Ledger, res: Result<Option<int>>, row: int) {
    var stopped, timer := Stopped(before, session, now, 50), TimerOf(before, plugins, session);
    if timer.None? then after == stopped && ledger' == ledger && res == Ok(TaskOf(before, session))
    else if timer.value < 0 then res == Raised && after == before && ledger' == ledger
    else && res == Ok(TaskOf(before, session))
         && Creates(stopped, ledger, after, ledger', row, before.sessions[session].task, now + timer.value)
  }

  /** Over the tables: finish stops the session; the task of a source or model plugin with a timer that is not negative
      gets exactly one new row, the timer's interval from now, and status 10; any other task gets no row and status 50.
      A negative timer undoes everything. A session that is not there changes nothing. */
  lemma FinishExact(before: Tables, plugins: map<int, Plugin>, ledger: Ledger, session: int, now: int, after: Tables,
                    ledger': Ledger, res: Result<Option<int>>, row: int)
    requires Finishes(before, plugins, ledger, session, now, after, ledger', res, row)
    requires Sound(before, plugins)
    ensures session !in before.sessions ==> after == before && ledger' == ledger && res == Ok(None)
    ensures session in before.sessions ==>
              var task, start := before.sessions[session].task, before.sessions[session].start;
              var id := before.tasks[task].plugin;
              var stopped := before.sessions[session := Session(start, Some(now), task)];
              if plugins[id].kind in {Source, Ml} && plugins[id].timer.Some? && plugins[id].timer.value < 0
              then res == Raised && after == before && ledger' == ledger
              else && res == Ok(Some(task)) && after.sessions == stopped && after.errors == before.errors
                   && if plugins[id].kind in {Source, Ml} && plugins[id].timer.Some?
                      then && row !in ledger.created
                           && after.schedule == before.schedule[row := Row(now + plugins[id].timer.value, task)]
                           && after.tasks == before.tasks[task := Task(10, id)]
                      else && after.schedule == before.schedule && ledger' == ledger
                           && after.tasks == before.tasks[task := Task(50, id)]
  {
  }

  lemma RowsAreConserved(db: Tables, ledger: Ledger)
    requires Accounts(db, ledger)
    ensures |ledger.created| == |db.schedule| + |ledger.handed| + |ledger.dropped|
    ensures |ledger.handed| == |db.sessions|
  {
    assert |ledger.created.Keys| == |db.schedule.Keys| + |ledger.handed.Keys| + |ledger.dropped|;
    SameSize(ledger.handed, db.sessions.Keys);
  }

  lemma {:induction false} SameSize(m: map<int, int>, image: set<int>)
    requires forall r :: r in m ==> m[r] in image
    requires forall r, q :: r in m && q in m && m[r] == m[q] ==> r == q
    requires forall s :: s in image ==> exists r :: r in m && m[r] == s
    ensures |m| == |image|
    decreases image
  {
    if image == {} {
      Inhabited(m.Keys);
      assert forall r :: r in m.Keys ==> m[r] in image;
    } else {
      Inhabited(image);
      var s :| s in image;
      assert exists r :: r in m && m[r] == s;
      var r :| r in m && m[r] == s;
      var rest := m - {r};
      assert m.Keys == rest.Keys + {r};
      forall s' | s' in image - {s} ensures exists q :: q in rest && rest[q] == s' {
        var q :| q in m && m[q] == s';
        assert q in rest;
      }
      SameSize(rest, image - {s});
    }
  }

  // --- what each function keeps ---------------------------------------------------------------

  lemma TensAfterStatus(db: Tables, task: int, status: int)
    requires TensPend(db) && status != 10
    ensures TensPend(WithStatus(db, task, status))
  {
  }

  lemma TensAfterScheduled(db: Tables, id: int, task: int, start: int)
    requires TensPend(db) && id !in db.schedule
    ensures TensPend(Scheduled(db, id, task, start))
  {
    var db' := Scheduled(db, id, task, start);
    forall t | t in db'.tasks && db'.tasks[t].status == 10
      ensures exists r :: r in db'.schedule && db'.schedule[r].task == t
    {
      if t == task {
        assert db'.schedule[id].task == t;
      } else {
        var r :| r in db.schedule && db.schedule[r].task == t;
        assert db'.schedule[r].task == t;
      }
    }
  }

  /** The status is none of tasks.status, and there is a task to give it to. */
  predicate IsRefused(db: Tables, id: int, status: Option<int>) {
    status.Some? && status.value !in db.codes && id in db.schedule && db.schedule[id].task in db.tasks
  }

  /** The status the row's task would have once the row is unscheduled with `status`. */
  function LeftAt(db: Tables, id: int, status: Option<int>): int
    requires id in db.schedule && db.schedule[id].task in db.tasks
  {
    if status.Some? then status.value else db.tasks[db.schedule[id].task].status
  }

  /** Unscheduling this row does not leave its task at status 10 without a row. */
  predicate MayUnschedule(db: Tables, id: int, status: Option<int>) {
    id in db.schedule && db.schedule[id].task in db.tasks && LeftAt(db, id, status) == 10 ==>
      exists r | r in db.schedule :: r != id && db.schedule[r].task == db.schedule[id].task
  }

  /** unschedule keeps "status 10 has a pending row" exactly when the task ends up at another status or has another
      row: with a null status (or 10) and a task's only row it does not. */
  lemma UnscheduleKeepsTensIff(db: Tables, id: int, status: Option<int>)
    requires TensPend(db)
    ensures TensPend(Unscheduled(db, id, status)) <==> MayUnschedule(db, id, status)
  {
    var db' := Unscheduled(db, id, status);
    if MayUnschedule(db, id, status) {
      forall t | t in db'.tasks && db'.tasks[t].status == 10
        ensures exists r :: r in db'.schedule && db'.schedule[r].task == t
      {
        if id in db.schedule && t == db.schedule[id].task {
          var r :| r in db.schedule && r != id && db.schedule[r].task == t;
          assert db'.schedule[r].task == t;
        } else {
          var r :| r in db.schedule && db.schedule[r].task == t;
          assert db'.schedule[r].task == t;
        }
      }
    } else {
      var t := db.schedule[id].task;
      assert db'.tasks[t].status == 10;
      forall r | r in db'.schedule ensures db'.schedule[r].task != t {
        assert db.schedule[r].task == db'.schedule[r].task;
      }
    }
  }

  /** So it is not kept by every call: a task with one row, unscheduled with a null status. */
  lemma UnscheduleCanBreakTens()
    ensures var db := Tables(CODES, map[1 := Task(10, 7)], map[3 := Row(0, 1)], map[], []);
            TensPend(db) && !TensPend(Unscheduled(db, 3, None))
  {
    var db := Tables(CODES, map[1 := Task(10, 7)], map[3 := Row(0, 1)], map[], []);
    assert db.schedule[3].task == 1;
    UnscheduleKeepsTensIff(db, 3, None);
  }

  lemma TensAfterDeactivated(db: Tables, task: int)
    requires TensPend(db)
    ensures TensPend(Deactivated(db, task))
  {
    var db' := Deactivated(db, task);
    forall t | t in db'.tasks && db'.tasks[t].status == 10
      ensures exists r :: r in db'.schedule && db'.schedule[r].task == t
    {
      var r :| r in db.schedule && db.schedule[r].task == t;
      assert t == task ==> r in RowsOf(db, task);
      assert db'.schedule[r].task == t;
    }
  }

  lemma TakeOffNext(db: Tables, task: int, rows: set<int>, r: int)
    requires r in db.schedule && db.schedule[r].task == task && r !in rows
    ensures Unscheduled(TakenOff(db, task, rows), r, Some(80)) == TakenOff(db, task, rows + {r})
  {
    assert (db.schedule - rows) - {r} == db.schedule - (rows + {r});
  }

  lemma AccountsCreated(db: Tables, ledger: Ledger, id: int, row: Row)
    requires Accounts(db, ledger) && id !in ledger.created
    ensures Accounts(db.(schedule := db.schedule[id := row]), ledger.(created := ledger.created[id := row]))
  {
  }

  lemma AccountsDropped(db: Tables, ledger: Ledger, rows: set<int>)
    requires Accounts(db, ledger) && rows <= db.schedule.Keys
    ensures Accounts(db.(schedule := db.schedule - rows), ledger.(dropped := ledger.dropped + rows))
  {
    assert (db.schedule - rows).Keys == db.schedule.Keys - rows;
    assert ledger.created.Keys == (db.schedule.Keys - rows) + ledger.handed.Keys + (ledger.dropped + rows);
  }

  /** Every session got a row. */
  ghost predicate AllServed(sessions: set<int>, handed: map<int, int>) {
    forall s :: s in sessions ==> exists r :: r in handed && handed[r] == s
  }

  lemma OneMoreServed(sessions: set<int>, handed: map<int, int>, id: int, session: int)
    requires AllServed(sessions, handed) && id !in handed
    ensures AllServed(sessions + {session}, handed[id := session])
  {
    var more := handed[id := session];
    forall s | s in sessions + {session} ensures exists r :: r in more && more[r] == s {
      if s == session {
        assert more[id] == s;
      } else {
        var r :| r in handed && handed[r] == s;
        assert more[r] == s;
      }
    }
  }

  lemma AccountsHanded(db: Tables, ledger: Ledger, id: int, session: int, now: int)
    requires Accounts(db, ledger) && id in db.schedule && session !in db.sessions
    ensures Accounts(HandedOut(db, id, session, now), ledger.(handed := ledger.handed[id := session]))
  {
    var db', handed := HandedOut(db, id, session, now), ledger.handed[id := session];
    assert db'.schedule == db.schedule - {id};
    assert db'.sessions == db.sessions[session := Session(now, None, db.schedule[id].task)];
    assert handed.Keys == ledger.handed.Keys + {id} && db.schedule.Keys == db'.schedule.Keys + {id};
    OneMoreServed(db.sessions.Keys, ledger.handed, id, session);
    assert db'.sessions.Keys == db.sessions.Keys + {session};
  }

  /** Only the schedule and the tasks of the sessions matter to the accounts. */
  lemma AccountsKept(db: Tables, db': Tables, ledger: Ledger)
    requires Accounts(db, ledger) && db'.schedule == db.schedule && db'.sessions.Keys == db.sessions.Keys
    requires forall s :: s in db.sessions ==> db'.sessions[s].task == db.sessions[s].task
    ensures Accounts(db', ledger)
  {
    forall s | s in db'.sessions.Keys ensures exists r :: r in ledger.handed && ledger.handed[r] == s {
      assert s in db.sessions.Keys;
    }
  }

  lemma SoundStatus(db: Tables, plugins: map<int, Plugin>, task: int, status: int)
    requires Sound(db, plugins) && status in db.codes
    ensures Sound(WithStatus(db, task, status), plugins)
  {
  }

  lemma SoundHanded(db: Tables, plugins: map<int, Plugin>, id: int, session: int, now: int)
    requires Sound(db, plugins) && id in db.schedule && db.schedule[id].task in db.tasks
    ensures Sound(HandedOut(db, id, session, now), plugins)
  {
  }

  lemma TensAfterHandedOut(db: Tables, id: int, session: int, now: int)
    requires TensPend(db) && id in db.schedule
    ensures TensPend(HandedOut(db, id, session, now))
  {
    var marked := WithStatus(db, db.schedule[id].task, 20);
    TensAfterStatus(db, db.schedule[id].task, 20);
    UnscheduleKeepsTensIff(marked, id, None);
  }

  /** What holds of the tables, their history and the flag `clean` between any two calls. */
  ghost predicate Kept(db: Tables, plugins: map<int, Plugin>, ledger: Ledger, clean: bool) {
    Sound(db, plugins) && Accounts(db, ledger) && (clean ==> TensPend(db))
  }

  lemma ScheduleKeeps(db: Tables, plugins: map<int, Plugin>, ledger: Ledger, clean: bool, id: int, task: int,
                      start: int)
    requires Kept(db, plugins, ledger, clean) && id !in ledger.created
    ensures Kept(Scheduled(db, id, task, start), plugins, ledger.(created := ledger.created[id := Row(start, task)]),
                 clean)
  {
    var row := Row(start, task);
    var inserted, created := db.(schedule := db.schedule[id := row]), ledger.created[id := row];
    AccountsCreated(db, ledger, id, Row(start, task));
    AccountsKept(inserted, Scheduled(db, id, task, start), ledger.(created := created));
    SoundStatus(inserted, plugins, task, 10);
    if clean { TensAfterScheduled(db, id, task, start); }
  }

  lemma UnscheduleKeeps(db: Tables, plugins: map<int, Plugin>, ledger: Ledger, clean: bool, id: int,
                        status: Option<int>)
    requires Kept(db, plugins, ledger, clean)
    requires !IsRefused(db, id, status)
    ensures Kept(Unscheduled(db, id, status), plugins, ledger.(dropped := ledger.dropped + ({id} * db.schedule.Keys)),
                 clean && MayUnschedule(db, id, status))
  {
    var rows := {id} * db.schedule.Keys;
    assert db.schedule - {id} == db.schedule - rows;
    AccountsDropped(db, ledger, rows);
    AccountsKept(db.(schedule := db.schedule - rows), Unscheduled(db, id, status),
                 ledger.(dropped := ledger.dropped + rows));
    UnscheduleIsSound(db, plugins, id, status);
    if clean { UnscheduleKeepsTensIff(db, id, status); }
  }

  lemma UnscheduleIsSound(db: Tables, plugins: map<int, Plugin>, id: int, status: Option<int>)
    requires Sound(db, plugins)
    requires !IsRefused(db, id, status)
    ensures Sound(Unscheduled(db, id, status), plugins)
  {
  }

  lemma HandingOutKeeps(db: Tables, plugins: map<int, Plugin>, ledger: Ledger, clean: bool, id: int, session: int,
                        now: int)
    requires Kept(db, plugins, ledger, clean) && id in db.schedule && session !in db.sessions
    requires db.schedule[id].task in db.tasks
    ensures Kept(HandedOut(db, id, session, now), plugins, ledger.(handed := ledger.handed[id := session]), clean)
  {
    SoundHanded(db, plugins, id, session, now);
    AccountsHanded(db, ledger, id, session, now);
    if clean { TensAfterHandedOut(db, id, session, now); }
  }

  lemma StoppingKeeps(db: Tables, plugins: map<int, Plugin>, ledger: Ledger, clean: bool, session: int, now: int,
                      status: int)
    requires Kept(db, plugins, ledger, clean) && status in CODES && status != 10
    ensures Kept(Stopped(db, session, now, status), plugins, ledger, clean)
  {
    if session in db.sessions {
      var db' := db.(sessions := db.sessions[session := db.sessions[session].(stop := Some(now))]);
      AccountsKept(db, db', ledger);
      AccountsKept(db', Stopped(db, session, now, status), ledger);
      SoundStatus(db', plugins, db.sessions[session].task, status);
      if clean { TensAfterStatus(db', db.sessions[session].task, status); }
    }
  }

  lemma AddingKeeps(db: Tables, plugins: map<int, Plugin>, ledger: Ledger, clean: bool, id: int, plugin: int)
    requires Kept(db, plugins, ledger, clean) && id !in db.tasks && plugin in plugins
    requires forall t :: t in db.tasks ==> db.tasks[t].plugin != plugin
    ensures Kept(db.(tasks := db.tasks[id := Task(0, plugin)]), plugins, ledger, clean)
  {
    AccountsKept(db, db.(tasks := db.tasks[id := Task(0, plugin)]), ledger);
  }

  lemma DeactivatingKeeps(db: Tables, plugins: map<int, Plugin>, ledger: Ledger, clean: bool, task: int)
    requires Kept(db, plugins, ledger, clean)
    ensures Kept(Deactivated(db, task), plugins, ledger.(dropped := ledger.dropped + RowsOf(db, task)), clean)
  {
    var rows := RowsOf(db, task);
    AccountsDropped(db, ledger, rows);
    AccountsKept(db.(schedule := db.schedule - rows), Deactivated(db, task), ledger.(dropped := ledger.dropped + rows));
    SoundStatus(db, plugins, task, 80);
    if clean { TensAfterDeactivated(db, task); }
  }

  lemma PluginKeeps(db: Tables, plugins: map<int, Plugin>, ledger: Ledger, clean: bool, id: int, plugin: Plugin)
    requires Kept(db, plugins, ledger, clean)
    ensures Kept(db, plugins[id := plugin], ledger, clean)
  {
  }

  lemma RecordingKeeps(db: Tables, plugins: map<int, Plugin>, ledger: Ledger, clean: bool, errors: seq<Failure>)
    requires Kept(db, plugins, ledger, clean)
    ensures Kept(db.(errors := errors), plugins, ledger, clean)
  {
    AccountsKept(db, db.(errors := errors), ledger);
  }

  // --- the functions ----------------------------------------------------------------------------

  class Platform {
    var db: Tables
    var plugins: map<int, Plugin>
    var nextTask: nat
    var nextRow: nat
    var nextSession: nat
    ghost var ledger: Ledger
    ghost var clean: bool          // no direct unschedule has left a task at status 10 without a row

    /** Holds between any two calls, whatever calls were made before. */
    ghost predicate Valid()
      reads this
    {
      && Kept(db, plugins, ledger, clean)
      && (forall t :: t in db.tasks ==> t < nextTask)
      && (forall r :: r in ledger.created ==> r < nextRow)
      && (forall s :: s in db.sessions ==> s < nextSession)
    }

    constructor (codes: set<int>, plugins: map<int, Plugin>)
      requires CODES <= codes
      ensures Valid() && clean && this.plugins == plugins && db == Tables(codes, map[], map[], map[], [])
    {
      db := Tables(codes, map[], map[], map[], []);
      this.plugins := plugins;
      nextTask, nextRow, nextSession := 0, 0, 0;
      ledger := Ledger(map[], map[], {});
      clean := true;
    }

    method SetStatus(task: int, status: int)
      modifies this`db
      ensures db == WithStatus(old(db), task, status)
    {
      if task in db.tasks {
        db := db.(tasks := db.tasks[task := db.tasks[task].(status := status)]);
      }
    }

    /** The two statements of unschedule. */
    method TakeOff(id: int, status: Option<int>)
      modifies this`db
      ensures db == Unscheduled(old(db), id, status)
    {
      if status.Some? && id in db.schedule {
        SetStatus(db.schedule[id].task, status.value);
      }
      db := db.(schedule := db.schedule - {id});
    }

    method Schedule(task: int, start: Option<int>, now: int) returns (res: Result<int>)
      requires Valid()
      modifies this`db, this`nextRow, this`ledger
      ensures Valid()
      ensures var at := if start.Some? then start.value else now;
              if at < now then res == Raised && db == old(db) && ledger == old(ledger)
              else res.Ok? && Creates(old(db), old(ledger), db, ledger, res.value, task, at)
    {
      var at := if start.Some? then start.value else now;
      if at < now { return Raised; }
      var id := nextRow;
      ghost var before := db;
      nextRow := nextRow + 1;
      db := db.(schedule := db.schedule[id := Row(at, task)]);
      ledger := ledger.(created := ledger.created[id := Row(at, task)]);
      SetStatus(task, 10);
      ScheduleKeeps(before, plugins, old(ledger), clean, id, task, at);
      return Ok(id);
    }

    method Unschedule(id: int, status: Option<int>) returns (res: Result<int>)
      requires Valid()
      modifies this`db, this`ledger, this`clean
      ensures Valid()
      ensures if status.Some? && id in old(db).schedule && old(db).schedule[id].task in old(db).tasks
                 && status.value !in old(db).codes
              then res == Raised && db == old(db) && ledger == old(ledger) && clean == old(clean)
              else && res == Ok(id) && db == Unscheduled(old(db), id, status)
                   && ledger == old(ledger).(dropped := old(ledger).dropped + ({id} * old(db).schedule.Keys))
                   && clean == (old(clean) && MayUnschedule(old(db), id, status))
    {
      if IsRefused(db, id, status) { return Raised; }
      ghost var before := db;
      TakeOff(id, status);
      ledger := ledger.(dropped := ledger.dropped + ({id} * before.schedule.Keys));
      UnscheduleKeeps(before, plugins, old(ledger), clean, id, status);
      clean := clean && MayUnschedule(before, id, status);
      return Ok(id);
    }

    /** add_task, with the checks of the insert: the plugin exists and has no task yet. */
    method AddTask(plugin: int, createSchedule: bool, now: int) returns (res: Result<int>, ghost row: int)
      requires Valid()
      modifies this`db, this`nextTask, this`nextRow, this`ledger
      ensures Valid()
      ensures if plugin !in plugins || exists t :: t in old(db).tasks && old(db).tasks[t].plugin == plugin
              then res == Raised && db == old(db) && ledger == old(ledger)
              else && res.Ok? && res.value !in old(db).tasks
                   && var added := old(db).(tasks := old(db).tasks[res.value := Task(0, plugin)]);
                      if createSchedule then Creates(added, old(ledger), db, ledger, row, res.value, now)
                      else db == added && ledger == old(ledger)
    {
      if plugin !in plugins || exists t | t in db.tasks :: db.tasks[t].plugin == plugin { return Raised, 0; }
      var tid := nextTask;
      ghost var before := db;
      nextTask := nextTask + 1;
      db := db.(tasks := db.tasks[tid := Task(0, plugin)]);
      AddingKeeps(before, plugins, ledger, clean, tid, plugin);
      row := 0;
      if createSchedule {
        var scheduled := Schedule(tid, None, now);
        row := scheduled.value;
      }
      return Ok(tid), row;
    }

    /** Inserting a plugin, and on_addition_plugin, which gives it a task. The trigger of plugins.plugin itself runs
        once for the statement and has no new row to look at, so that add_task refuses and the insert is undone. */
    method AddPlugin(id: int, plugin: Plugin, active: bool, now: int) returns (res: Result<int>, ghost row: int)
      requires Valid()
      modifies this`plugins, this`db, this`nextTask, this`nextRow, this`ledger
      ensures Valid()
      ensures if plugin.kind == Bare || id in old(plugins)
              then res == Raised && plugins == old(plugins) && db == old(db) && ledger == old(ledger)
              else && plugins == old(plugins)[id := plugin] && res.Ok? && res.value !in old(db).tasks
                   && var added := old(db).(tasks := old(db).tasks[res.value := Task(0, id)]);
                      if active then Creates(added, old(ledger), db, ledger, row, res.value, now)
                      else db == added && ledger == old(ledger)
    {
      if plugin.kind == Bare || id in plugins { return Raised, 0; }
      PluginKeeps(db, plugins, ledger, clean, id, plugin);
      plugins := plugins[id := plugin];
      res, row := AddTask(id, active, now);
    }

    /** An update of a plugin's config, which may change its timer. */
    method SetTimer(id: int, timer: Option<int>)
      requires Valid()
      modifies this`plugins
      ensures Valid()
      ensures plugins == if id in old(plugins) then old(plugins)[id := old(plugins)[id].(timer := timer)]
                         else old(plugins)
    {
      if id in plugins {
        PluginKeeps(db, plugins, ledger, clean, id, plugins[id].(timer := timer));
        plugins := plugins[id := plugins[id].(timer := timer)];
      }
    }

    /** relevant: takes a due row of a supported type with the least start, and gives it to a new session. */
    method Relevant(kinds: set<PluginKind>, now: int) returns (res: Option<(int, int)>, ghost row: int)
      requires Valid()
      modifies this`db, this`nextSession, this`ledger
      ensures Valid()
      ensures if DueRows(old(db), plugins, kinds, now) == {} then res == None && db == old(db) && ledger == old(ledger)
              else && res.Some? && res.value.0 !in old(db).sessions && IsNext(old(db), plugins, kinds, now, row)
                   && res.value.1 == old(db).schedule[row].task
                   && db == HandedOut(old(db), row, res.value.0, now)
                   && ledger == old(ledger).(handed := old(ledger).handed[row := res.value.0])
    {
      row := 0;
      if DueRows(db, plugins, kinds, now) == {} { return None, row; }
      NextExists(db, plugins, kinds, now);
      var id :| id in db.schedule && IsNext(db, plugins, kinds, now, id);
      row := id;
      var task := db.schedule[id].task;
      var session := HandOut(id, now);
      return Some((session, task)), row;
    }

    /** The statements of relevant once it has chosen a row. */
    method HandOut(id: int, now: int) returns (session: int)
      requires Valid() && id in db.schedule && db.schedule[id].task in db.tasks
      modifies this`db, this`nextSession, this`ledger
      ensures Valid() && session !in old(db).sessions && db == HandedOut(old(db), id, session, now)
      ensures ledger == old(ledger).(handed := old(ledger).handed[id := session])
    {
      session := nextSession;
      HandingOutKeeps(db, plugins, ledger, clean, id, session, now);
      var task := db.schedule[id].task;
      SetStatus(task, 20);
      TakeOff(id, None);
      nextSession := nextSession + 1;
      db := db.(sessions := db.sessions[session := Session(now, None, task)]);
      ledger := ledger.(handed := ledger.handed[id := session]);
    }

    /** The first two statements of finish and broke. */
    method Stop(session: int, now: int, status: int) returns (task: Option<int>)
      requires Valid() && status in CODES && status != 10
      modifies this`db
      ensures Valid() && db == Stopped(old(db), session, now, status)
      ensures task == if session in db.sessions then Some(old(db).sessions[session].task) else None
    {
      task := None;
      StoppingKeeps(db, plugins, ledger, clean, session, now, status);
      if session in db.sessions {
        task := Some(db.sessions[session].task);
        db := db.(sessions := db.sessions[session := db.sessions[session].(stop := Some(now))]);
        SetStatus(task.value, status);
      }
    }

    /** finish: a task whose plugin has a timer is scheduled again; a timer that lies in the past undoes everything. */
    method Finish(session: int, now: int) returns (res: Result<Option<int>>, ghost row: int)
      requires Valid()
      modifies this`db, this`nextRow, this`ledger
      ensures Valid()
      ensures Finishes(old(db), plugins, old(ledger), session, now, db, ledger, res, row)
    {
      row := 0;
      var saved := db;
      var task := Stop(session, now, 50);
      var timer := TimerOf(saved, plugins, session);
      if timer.Some? {
        var scheduled := Schedule(task.value, Some(now + timer.value), now);
        if scheduled.Raised? {
          db := saved;
          return Raised, row;
        }
        row := scheduled.value;
      }
      return Ok(task), row;
    }

    /** broke: without a session of that id, or without a comment, the error row is refused and everything undone. */
    method Broke(session: int, comment: Option<string>, now: int) returns (res: Result<int>)
      requires Valid()
      modifies this`db
      ensures Valid()
      ensures if session !in old(db).sessions || comment.None? then res == Raised && db == old(db)
              else var task := old(db).sessions[session].task;
                   && res == Ok(task)
                   && var errors := old(db).errors + [Failure(now, comment.value, task)];
                      db == Stopped(old(db), session, now, 60).(errors := errors)
    {
      var saved := db;
      var task := Stop(session, now, 60);
      if task.None? || comment.None? {
        db := saved;
        return Raised;
      }
      RecordingKeeps(db, plugins, ledger, clean, db.errors + [Failure(now, comment.value, task.value)]);
      db := db.(errors := db.errors + [Failure(now, comment.value, task.value)]);
      return Ok(task.value);
    }

    /** The trigger function plugin_update_active, whose update is undone when it raises. */
    method PluginUpdateActive(plugin: int, active: bool, now: int) returns (res: Result<()>, ghost row: int)
      requires Valid()
      modifies this`db, this`nextRow, this`ledger
      ensures Valid()
      ensures (forall t :: t in old(db).tasks ==> old(db).tasks[t].plugin != plugin) ==>
                db == old(db) && ledger == old(ledger) && res == if active then Raised else Ok(())
      ensures forall t :: t in old(db).tasks && old(db).tasks[t].plugin == plugin ==>
                && res == Ok(())
                && if active then Creates(old(db), old(ledger), db, ledger, row, t, now)
                   else && db == Deactivated(old(db), t)
                        && ledger == old(ledger).(dropped := old(ledger).dropped + RowsOf(old(db), t))
    {
      row := 0;
      if forall t | t in db.tasks :: db.tasks[t].plugin != plugin {
        return if active then Raised else Ok(()), row;
      }
      var tid :| tid in db.tasks && db.tasks[tid].plugin == plugin;
      if active {
        var scheduled := Schedule(tid, Some(now), now);
        row := scheduled.value;
      } else {
        Deactivate(tid);
      }
      return Ok(()), row;
    }

    /** Unschedules, with status 80, every row a task has when the statement starts. */
    method Deactivate(task: int)
      requires Valid()
      modifies this`db, this`ledger
      ensures Valid() && db == Deactivated(old(db), task)
      ensures ledger == old(ledger).(dropped := old(ledger).dropped + RowsOf(old(db), task))
    {
      DeactivatingKeeps(db, plugins, ledger, clean, task);
      ghost var rows := RowsOf(db, task);
      TakeAllOff(task);
      ledger := ledger.(dropped := ledger.dropped + rows);
    }

    method TakeAllOff(task: int)
      modifies this`db
      ensures db == Deactivated(old(db), task)
    {
      ghost var before := db;
      var rows := RowsOf(db, task);
      ghost var off: set<int> := {};
      assert db.schedule - {} == db.schedule;
      while rows != {}
        invariant off !! rows && off + rows == RowsOf(before, task)
        invariant db == TakenOff(before, task, off)
      {
        Inhabited(rows);
        var r :| r in rows;
        TakeOffNext(before, task, off, r);
        TakeOff(r, Some(80));
        rows, off := rows - {r}, off + {r};
      }
      assert off == RowsOf(before, task);
    }
  }
}
