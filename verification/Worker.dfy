/** worker/generator.py: generate_for_user around its inner try block (config reads, lock, run record, release),
    and tick. */
module Worker {
  import opened Candidates
  import opened Store
  import opened Database
  import opened Generator
  import Lock

  /** What the outside decides in one run: a fresh token, the time it spends under the lock, the call that fails. */
  datatype Luck = Luck(token: int, elapsed: nat, fault: Fault)

  // --- the state a run leaves ----------------------------------------------------------------

  /** The locked region raises before its inner try block. */
  predicate FailsOpening(fault: Fault) {
    Hits(fault, PubAcquired) || Hits(fault, Incr) || Hits(fault, XAddRunning) || Hits(fault, PubStarted)
  }

  /** lock.acquired and schedule.started, as far as the run comes. */
  function Preface(run: nat, kind: Kind, fault: Fault): seq<Event> {
    var acquired := if Lands(fault, PubAcquired) then [LockAcquired] else [];
    if !Hits(fault, PubAcquired) && !Hits(fault, Incr) && !Hits(fault, XAddRunning) && Lands(fault, PubStarted)
    then acquired + [ScheduleStarted(run, kind)] else acquired
  }

  /** create_run's record. */
  function Receipt(run: nat, kind: Kind, fault: Fault): seq<RunRecord> {
    if !Hits(fault, PubAcquired) && !Hits(fault, Incr) && Lands(fault, XAddRunning) then [Running(run, kind)] else []
  }

  function Opened(s: UserState, run: nat, kind: Kind, fault: Fault): UserState {
    s.(runs := s.runs + Receipt(run, kind, fault), events := s.events + Preface(run, kind, fault))
  }

  /** The locked region; sent is what its inner try block publishes. */
  function LockedState(s: UserState, dirty: bool, rows: seq<int>, run: nat, fault: Fault, sent: seq<Event>): UserState {
    var s1 := Opened(s, run, KindOf(dirty), fault);
    if FailsOpening(fault) then s1 else BodyState(s1, dirty, rows, run, fault, sent)
  }

  function LockedOutcome(s: UserState, dirty: bool, rows: seq<int>, fault: Fault): Outcome {
    var n := |Gained(s.tape, dirty, rows)|;
    if FailsOpening(fault) || Stops(fault, dirty, n) then Raised else Returned(KindOf(dirty), n)
  }

  /** A dirty user without sources: tape and flag are dropped without the lock. */
  function DroppedState(s: UserState, fault: Fault): UserState {
    var emptied := if Lands(fault, DropTape) then s.(tape := map[]) else s;
    if !Hits(fault, DropTape) && Lands(fault, DropFlag) then SetDirty(emptied, false) else emptied
  }

  /** The run comes to its lock. */
  predicate Asks(s: UserState, fault: Fault) {
    !Hits(fault, ReadConfig) && s.hash.Some? && !Hits(fault, ReadSources) && s.sources != {}
  }

  /** ... and gets it. */
  predicate Engages(s: UserState, now: int, fault: Fault) {
    Asks(s, fault) && !Hits(fault, SetLock) && !Lock.Live(s.cell, now)
  }

  function Asked(s: UserState, now: int, ttl: nat, luck: Luck): UserState {
    if Lands(luck.fault, SetLock) then s.(cell := Lock.SetNxEx(s.cell, now, luck.token, ttl)) else s
  }

  /** Release script, then lock.released. */
  function Left(s: UserState, now: int, token: int): UserState {
    s.(cell := Lock.CompareAndDelete(s.cell, now, token), events := s.events + [LockReleased])
  }

  function SelectionOf(s: UserState): Selection
    requires s.hash.Some?
  {
    var cfg := Decode(s.hash.value);
    Selection(s.sources, cfg.range, cfg.descending)
  }

  /** What the run's SELECT answers. */
  function RowsFor(db: Snapshot, user: int, s: UserState): seq<int> {
    if s.hash.Some? then Select(db, user, SelectionOf(s)) else []
  }

  /** The user's state after generate_for_user. */
  function After(s: UserState, now: int, dirty: bool, rows: seq<int>, ttl: nat, run: nat, luck: Luck,
                 sent: seq<Event>): UserState {
    if Engages(s, now, luck.fault) then
      var locked := LockedState(Asked(s, now, ttl, luck), dirty, rows, run, luck.fault, sent);
      Left(locked, now + luck.elapsed, luck.token)
    else if Asks(s, luck.fault) then Asked(s, now, ttl, luck)
    else if !Hits(luck.fault, ReadConfig) && s.hash.Some? && !Hits(luck.fault, ReadSources) && dirty then
      DroppedState(s, luck.fault)
    else s
  }

  function OutcomeOf(s: UserState, now: int, dirty: bool, rows: seq<int>, fault: Fault): Outcome {
    if Engages(s, now, fault) then LockedOutcome(s, dirty, rows, fault)
    else if Hits(fault, ReadConfig) then Raised
    else if s.hash.None? then Returned(Skipped, 0)
    else if Hits(fault, ReadSources) then Raised
    else if s.sources != {} then (if Hits(fault, SetLock) then Raised else Returned(Skipped, 0))
    else if dirty && (Hits(fault, DropTape) || Hits(fault, DropFlag)) then Raised
    else Returned(Skipped, 0)
  }

  // --- the run ---------------------------------------------------------------------------------

  method Open(r: Redis, user: int, kind: Kind, fault: Fault) returns (raised: bool, run: nat)
    modifies r`users, r`runCounter
    ensures raised == FailsOpening(fault)
    ensures r.users == old(r.users)[user := Opened(old(r.Of(user)), old(r.runCounter) + 1, kind, fault)]
    ensures !raised ==> run == old(r.runCounter) + 1 && r.runCounter == run
  {
    raised, run := true, 0;
    ghost var s := r.Of(user);
    assert s.runs + [] == s.runs && s.events + [] == s.events;
    ghost var started := ScheduleStarted(old(r.runCounter) + 1, kind);
    assert (s.events + [LockAcquired]) + [started] == s.events + ([LockAcquired] + [started]);
    r.Touch(user);
    if Lands(fault, PubAcquired) { r.Publish(user, LockAcquired); }
    if Hits(fault, PubAcquired) { return; }
    if Lands(fault, Incr) { r.runCounter := r.runCounter + 1; }
    if Hits(fault, Incr) { return; }
    run := r.runCounter;
    if Lands(fault, XAddRunning) { r.Record(user, Running(run, kind)); }
    if Hits(fault, XAddRunning) { return; }
    if Lands(fault, PubStarted) { r.Publish(user, ScheduleStarted(run, kind)); }
    raised := Hits(fault, PubStarted);
  }

  method Locked(r: Redis, user: int, dirty: bool, rows: seq<int>, fault: Fault)
    returns (res: Outcome, ghost sent: seq<Event>)
    modifies r`users, r`runCounter
    ensures res == LockedOutcome(old(r.Of(user)), dirty, rows, fault)
    ensures r.users == old(r.users)[
              user := LockedState(old(r.Of(user)), dirty, rows, old(r.runCounter) + 1, fault, sent)]
    ensures !FailsOpening(fault) ==> Announced(old(r.Of(user)).tape, dirty, rows, old(r.runCounter) + 1, fault, sent)
    ensures Plain(sent)
  {
    sent := [];
    var raised, run := Open(r, user, KindOf(dirty), fault);
    if raised { return Raised, sent; }
    res, sent := Body(r, user, dirty, rows, run, fault);
  }

  /** lock.released may be published only once the lock is let go. */
  method PublishReleased(r: Redis, user: int, token: int)
    requires var cell := r.Of(user).cell;
             cell.Some? && cell.value.token == token ==> cell.value.deadline <= r.now
    modifies r`users
    ensures r.users == old(r.users)[user := old(r.Of(user)).(events := old(r.Of(user)).events + [LockReleased])]
  {
    r.Publish(user, LockReleased);
  }

  /** The body of the with statement, its exit, and the finally clause. */
  method Within(r: Redis, user: int, dirty: bool, rows: seq<int>, luck: Luck)
    returns (res: Outcome, ghost sent: seq<Event>)
    modifies r
    ensures res == LockedOutcome(old(r.Of(user)), dirty, rows, luck.fault)
    ensures var locked := LockedState(old(r.Of(user)), dirty, rows, old(r.runCounter) + 1, luck.fault, sent);
            r.users == old(r.users)[user := Left(locked, old(r.now) + luck.elapsed, luck.token)]
    ensures !FailsOpening(luck.fault) ==>
              Announced(old(r.Of(user)).tape, dirty, rows, old(r.runCounter) + 1, luck.fault, sent)
    ensures Plain(sent)
  {
    res, sent := Locked(r, user, dirty, rows, luck.fault);
    r.now := r.now + luck.elapsed;
    r.Release(user, luck.token);
    PublishReleased(r, user, luck.token);
  }

  /** The with statement and the finally clause around it. */
  method UnderLock(r: Redis, user: int, dirty: bool, rows: seq<int>, ttl: nat, luck: Luck)
    returns (res: Outcome, ghost sent: seq<Event>)
    requires Asks(r.Of(user), luck.fault)
    modifies r
    ensures res == OutcomeOf(old(r.Of(user)), old(r.now), dirty, rows, luck.fault)
    ensures r.users == old(r.users)[
              user := After(old(r.Of(user)), old(r.now), dirty, rows, ttl, old(r.runCounter) + 1, luck, sent)]
    ensures Engages(old(r.Of(user)), old(r.now), luck.fault) && !FailsOpening(luck.fault) ==>
              Announced(old(r.Of(user)).tape, dirty, rows, old(r.runCounter) + 1, luck.fault, sent)
    ensures Plain(sent)
  {
    sent := [];
    var got := false;
    r.Touch(user);
    if Lands(luck.fault, SetLock) { got := r.TryLock(user, luck.token, ttl); }
    if Hits(luck.fault, SetLock) { return Raised, sent; }
    if !got { return Returned(Skipped, 0), sent; }
    res, sent := Within(r, user, dirty, rows, luck);
  }

  method DropAll(r: Redis, user: int, fault: Fault) returns (raised: bool)
    modifies r`users
    ensures raised == (Hits(fault, DropTape) || Hits(fault, DropFlag))
    ensures r.users == old(r.users)[user := DroppedState(old(r.Of(user)), fault)]
  {
    r.Touch(user);
    if Lands(fault, DropTape) { var _ := r.DeleteAllEntries(user); }
    if Hits(fault, DropTape) { return true; }
    if Lands(fault, DropFlag) { r.ClearDirty(user); }
    return Hits(fault, DropFlag);
  }

  /** generate_for_user. No other user's state changes; this user's becomes After(...). */
  method Generate(r: Redis, pg: Postgres, user: int, dirty: bool, ttl: nat, luck: Luck)
    returns (res: Outcome, ghost sent: seq<Event>)
    modifies r
    ensures var s, rows := old(r.Of(user)), RowsFor(pg.Now(), user, old(r.Of(user)));
            && res == OutcomeOf(s, old(r.now), dirty, rows, luck.fault)
            && r.users == old(r.users)[
                 user := After(s, old(r.now), dirty, rows, ttl, old(r.runCounter) + 1, luck, sent)]
            && (Engages(s, old(r.now), luck.fault) && !FailsOpening(luck.fault) ==>
                Announced(s.tape, dirty, rows, old(r.runCounter) + 1, luck.fault, sent))
    ensures Plain(sent)
  {
    sent := [];
    if !Asks(r.Of(user), luck.fault) {
      r.Touch(user);
      if Hits(luck.fault, ReadConfig) { return Raised, sent; }
      if r.Of(user).hash.None? { return Returned(Skipped, 0), sent; }
      if Hits(luck.fault, ReadSources) { return Raised, sent; }
      if dirty {
        var raised := DropAll(r, user, luck.fault);
        if raised { return Raised, sent; }
      }
      return Returned(Skipped, 0), sent;
    }
    res, sent := UnderLock(r, user, dirty, Select(pg.Now(), user, SelectionOf(r.Of(user))), ttl, luck);
  }

  // --- tick --------------------------------------------------------------------------------------

  /** How one run began, and what its inner try block published. */
  datatype Begun = Begun(now: int, run: nat, sent: seq<Event>)

  predicate Lists(listed: seq<(int, bool)>, user: int) { exists k :: 0 <= k < |listed| && listed[k].0 == user }

  /** The i-th entry of the list is the only one of its user. */
  ghost predicate ListedOnce(listed: seq<(int, bool)>, i: nat) {
    i < |listed| && forall k :: 0 <= k < |listed| && listed[k].0 == listed[i].0 ==> k == i
  }

  /** final and res are what a run makes of a user's state s. */
  ghost predicate RanAlone(s: UserState, dirty: bool, rows: seq<int>, ttl: nat, luck: Luck, begun: Begun,
                           final: UserState, res: Outcome) {
    && final == After(s, begun.now, dirty, rows, ttl, begun.run, luck, begun.sent)
    && res == OutcomeOf(s, begun.now, dirty, rows, luck.fault)
  }

  /** What a tick does, entry by entry: the states before each turn and after the last, the outcomes, the beginnings. */
  datatype Account = Account(states: seq<map<int, UserState>>, tried: seq<Outcome>, begun: seq<Begun>)

  /** The i-th turn is a run of the i-th user with the flag listed for it, on the state the turns before have left it
      in, whether those raised or not; and it changes no other user's state. */
  ghost predicate TurnOf(a: Account, db: Snapshot, listed: seq<(int, bool)>, i: nat, ttl: nat, luck: nat -> Luck)
    requires |a.states| == |a.tried| + 1 == |a.begun| + 1 && i < |a.tried| <= |listed|
  {
    var (user, dirty) := listed[i];
    && a.states[i + 1] == a.states[i][user := StateIn(a.states[i + 1], user)]
    && RanAlone(StateIn(a.states[i], user), dirty, RowsFor(db, user, StateIn(a.states[i], user)), ttl, luck(i),
                a.begun[i], StateIn(a.states[i + 1], user), a.tried[i])
  }

  /** a tells the first n turns, from before on. */
  ghost predicate Ticked(a: Account, before: map<int, UserState>, db: Snapshot, listed: seq<(int, bool)>, n: nat,
                         ttl: nat, luck: nat -> Luck) {
    && |a.states| == |a.tried| + 1 == |a.begun| + 1 == n + 1 && n <= |listed| && a.states[0] == before
    && forall i: nat :: i < n ==> TurnOf(a, db, listed, i, ttl, luck)
  }

  function OneMoreTurn(a: Account, users: map<int, UserState>, res: Outcome, begun: Begun): Account {
    Account(a.states + [users], a.tried + [res], a.begun + [begun])
  }

  lemma EarlierTurn(a: Account, users: map<int, UserState>, res: Outcome, begun: Begun, db: Snapshot,
                    listed: seq<(int, bool)>, i: nat, ttl: nat, luck: nat -> Luck)
    requires |a.states| == |a.tried| + 1 == |a.begun| + 1 && i < |a.tried| < |listed|
    requires TurnOf(a, db, listed, i, ttl, luck)
    ensures TurnOf(OneMoreTurn(a, users, res, begun), db, listed, i, ttl, luck)
  {
    var a' := OneMoreTurn(a, users, res, begun);
    assert a'.states[i] == a.states[i] && a'.states[i + 1] == a.states[i + 1];
    assert a'.tried[i] == a.tried[i] && a'.begun[i] == a.begun[i];
  }

  lemma TickedNext(a: Account, before: map<int, UserState>, db: Snapshot, listed: seq<(int, bool)>, n: nat, ttl: nat,
                   luck: nat -> Luck, final: UserState, res: Outcome, begun: Begun)
    requires Ticked(a, before, db, listed, n, ttl, luck) && n < |listed|
    requires var (user, dirty) := listed[n];
             var s := StateIn(a.states[n], user);
             RanAlone(s, dirty, RowsFor(db, user, s), ttl, luck(n), begun, final, res)
    ensures Ticked(OneMoreTurn(a, a.states[n][listed[n].0 := final], res, begun), before, db, listed, n + 1, ttl, luck)
  {
    var users := a.states[n][listed[n].0 := final];
    var a' := OneMoreTurn(a, users, res, begun);
    assert a'.states[n] == a.states[n] && a'.states[n + 1] == users && a'.tried[n] == res && a'.begun[n] == begun;
    forall i: nat | i < n + 1 ensures TurnOf(a', db, listed, i, ttl, luck) {
      if i < n { EarlierTurn(a, users, res, begun, db, listed, i, ttl, luck); }
    }
  }

  /** A user that no turn between i and j is about keeps its state. */
  lemma {:induction false} Untouched(a: Account, before: map<int, UserState>, db: Snapshot, listed: seq<(int, bool)>,
                                     n: nat, ttl: nat, luck: nat -> Luck, i: nat, j: nat, user: int)
    requires Ticked(a, before, db, listed, n, ttl, luck) && i <= j <= n
    requires forall k :: i <= k < j ==> listed[k].0 != user
    ensures StateIn(a.states[j], user) == StateIn(a.states[i], user)
  {
    if i < j {
      Untouched(a, before, db, listed, n, ttl, luck, i, j - 1, user);
      assert TurnOf(a, db, listed, j - 1, ttl, luck);
    }
  }

  /** So users outside the list keep their state, and a user listed once ends as by a run of its own. */
  lemma TickIsolates(a: Account, before: map<int, UserState>, db: Snapshot, listed: seq<(int, bool)>, ttl: nat,
                     luck: nat -> Luck)
    requires Ticked(a, before, db, listed, |listed|, ttl, luck)
    ensures forall u :: !Lists(listed, u) ==> StateIn(a.states[|listed|], u) == StateIn(before, u)
    ensures forall i: nat :: ListedOnce(listed, i) ==>
              var (user, dirty) := listed[i];
              var s, begun := StateIn(before, user), a.begun[i];
              && StateIn(a.states[|listed|], user) ==
                   After(s, begun.now, dirty, RowsFor(db, user, s), ttl, begun.run, luck(i), begun.sent)
              && a.tried[i] == OutcomeOf(s, begun.now, dirty, RowsFor(db, user, s), luck(i).fault)
  {
    var n := |listed|;
    forall u | !Lists(listed, u) ensures StateIn(a.states[n], u) == StateIn(before, u) {
      Untouched(a, before, db, listed, n, ttl, luck, 0, n, u);
    }
    forall i: nat | ListedOnce(listed, i)
      ensures var (user, dirty) := listed[i];
              var s := StateIn(before, user);
              RanAlone(s, dirty, RowsFor(db, user, s), ttl, luck(i), a.begun[i], StateIn(a.states[n], user), a.tried[i])
    {
      Untouched(a, before, db, listed, n, ttl, luck, 0, i, listed[i].0);
      assert TurnOf(a, db, listed, i, ttl, luck);
      Untouched(a, before, db, listed, n, ttl, luck, i + 1, n, listed[i].0);
    }
  }

  /** One turn of the loop, whose except clause takes whatever the run raises. */
  method Turn(r: Redis, pg: Postgres, listed: seq<(int, bool)>, n: nat, ttl: nat, luck: nat -> Luck,
              ghost before: map<int, UserState>, ghost a: Account) returns (res: Outcome, ghost a': Account)
    requires Ticked(a, before, pg.Now(), listed, n, ttl, luck) && n < |listed| && a.states[n] == r.users
    modifies r
    ensures Ticked(a', before, pg.Now(), listed, n + 1, ttl, luck) && a'.states[n + 1] == r.users
    ensures a'.tried == a.tried + [res]
  {
    var (user, dirty) := listed[n];
    ghost var begun := Begun(r.now, r.runCounter + 1, []);
    ghost var sent;
    res, sent := Generate(r, pg, user, dirty, ttl, luck(n));
    begun := begun.(sent := sent);
    TickedNext(a, before, pg.Now(), listed, n, ttl, luck, r.Of(user), res, begun);
    a' := OneMoreTurn(a, r.users, res, begun);
  }

  /** tick: lists the users of the keys SCAN yields, and gives every one of them a run. */
  method Tick(r: Redis, pg: Postgres, scan: seq<string>, ttl: nat, luck: nat -> Luck)
    returns (tried: seq<Outcome>, ghost a: Account)
    modifies r
    ensures var listed := Listing(old(r.users), scan);
            && |tried| == |listed| && a.tried == tried && Ticked(a, old(r.users), pg.Now(), listed, |listed|, ttl, luck)
            && a.states[|listed|] == r.users
  {
    var listed := r.ListUsersWithConfig(scan);
    tried, a := [], Account([r.users], [], []);
    for n := 0 to |listed|
      invariant Ticked(a, old(r.users), pg.Now(), listed, n, ttl, luck)
      invariant a.tried == tried && a.states[n] == r.users
    {
      var res;
      res, a := Turn(r, pg, listed, n, ttl, luck, old(r.users), a);
      tried := tried + [res];
    }
  }

  lemma ListedWithFlag(listed: seq<(int, bool)>, user: int, present: bool, flag: bool)
    requires forall f :: (user, f) in listed <==> present && f == flag
    ensures Lists(listed, user) <==> present
    ensures forall i :: 0 <= i < |listed| && listed[i].0 == user ==> present && listed[i].1 == flag
  {
    forall i | 0 <= i < |listed| && listed[i].0 == user ensures present && listed[i].1 == flag {
      var f := listed[i].1;
      assert listed[i] == (user, f);
      assert (user, f) in listed;
    }
    if present {
      assert (user, flag) in listed;
      var i :| 0 <= i < |listed| && listed[i] == (user, flag);
      assert listed[i].0 == user;
    }
  }

  /** Every user with a config gets a turn, always with its own flag; nobody else does. */
  lemma TickReachesEveryone(users: map<int, UserState>, scan: seq<string>, u: int)
    requires Scans(users, scan)
    ensures var listed, hash := Listing(users, scan), StateIn(users, u).hash;
            && (Lists(listed, u) <==> hash.Some?)
            && forall i :: 0 <= i < |listed| && listed[i].0 == u ==> hash.Some? && listed[i].1 == hash.value.dirty
  {
    var listed, hash := Listing(users, scan), StateIn(users, u).hash;
    var flag := hash.Some? && hash.value.dirty;
    forall f ensures (u, f) in listed <==> hash.Some? && f == flag {
      ScanListsUsers(users, scan, u, f);
    }
    ListedWithFlag(listed, u, hash.Some?, flag);
  }
}
