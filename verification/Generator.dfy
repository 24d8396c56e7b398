/** worker/generator.py: one run of generate_for_user, with a failure at any call, and tick over the scanned users. */
module Generator {
  import opened Prelude
  import opened SortedSet
  import opened Candidates
  import opened Store

  /** The calls a run makes, in order. */
  datatype Site =
    | ReadConfig | ReadSources | DropTape | DropFlag | SetLock
    | PubAcquired | Incr | XAddRunning | PubStarted
    | DeleteAll | ReadMax | ReadPage | Query | Append | PubAdded(i: nat) | ClearFlag
    | FinishOk | PubRegenerated | PubCompleted

  /** The call that raises, and how many of the commands it sent had taken effect by then. */
  datatype Fault = Fault(site: Option<Site>, served: nat)

  predicate Hits(fault: Fault, site: Site) { fault.site == Some(site) }

  /** One of the n entry_added events. */
  predicate HitsAdded(fault: Fault, n: nat) {
    fault.site.Some? && fault.site.value.PubAdded? && fault.site.value.i < n
  }

  /** The call at this site reaches Redis, whether or not it then raises. */
  predicate Lands(fault: Fault, site: Site) { Hits(fault, site) ==> fault.served > 0 }

  datatype Outcome = Returned(kind: Kind, added: nat) | Raised

  // --- what a run computes ----------------------------------------------------------------

  function KindOf(dirty: bool): Kind { if dirty then Full else Incremental }
  function Base(t: Tape, dirty: bool): Tape { if dirty then map[] else t }
  function Start(t: Tape, dirty: bool): int { if dirty then 0 else MaxPosition(t) + 1 }
  function Existing(t: Tape, dirty: bool): set<int> { if dirty then {} else RowDocs(Page(t, None, EXISTING_LIMIT)) }
  function Removed(t: Tape, dirty: bool): nat { if dirty then |t| else 0 }

  /** The documents a run over tape t submits when the SELECT answers rows. */
  function Submitted(t: Tape, dirty: bool, rows: seq<int>): seq<int> { CandidatesFor(rows, Existing(t, dirty)) }

  function Generated(t: Tape, dirty: bool, rows: seq<int>): Tape {
    AddAll(Base(t, dirty), Submitted(t, dirty, rows), Start(t, dirty))
  }

  function Gained(t: Tape, dirty: bool, rows: seq<int>): seq<Row> {
    Added(Base(t, dirty), Submitted(t, dirty, rows), Start(t, dirty))
  }

  function Adds(rows: seq<Row>): seq<Event> {
    seq(|rows|, i requires 0 <= i < |rows| => EntryAdded(rows[i].pos, rows[i].doc))
  }

  function Closing(run: nat, kind: Kind, added: nat, removed: nat, ok: bool): seq<Event> {
    [Regenerated(kind, added, removed), ScheduleCompleted(run, ok)]
  }

  lemma AddsLast(rows: seq<Row>, n: nat)
    requires n < |rows|
    ensures Adds(rows[..n + 1]) == Adds(rows[..n]) + [EntryAdded(rows[n].pos, rows[n].doc)]
    ensures Adds(rows[..n + 1]) <= Adds(rows)
  {
  }

  // --- where a failing run stops -----------------------------------------------------------

  /** The run raises before it comes to its flag and its record; n is the number of entry_added events due. */
  predicate StopsEarly(fault: Fault, dirty: bool, n: nat) {
    StopsReading(fault, dirty) || Hits(fault, Query) || Hits(fault, Append) || HitsAdded(fault, n)
  }

  predicate StopsReading(fault: Fault, dirty: bool) {
    if dirty then Hits(fault, DeleteAll) else Hits(fault, ReadMax) || Hits(fault, ReadPage)
  }

  /** clear_dirty took effect. */
  predicate FlagCleared(fault: Fault, dirty: bool, n: nat) {
    dirty && !StopsEarly(fault, dirty, n) && Lands(fault, ClearFlag)
  }

  /** The "ok" finish_run took effect. */
  predicate OkRecorded(fault: Fault, dirty: bool, n: nat) {
    !StopsEarly(fault, dirty, n) && !(dirty && Hits(fault, ClearFlag)) && Lands(fault, FinishOk)
  }

  /** The inner try block raises. */
  predicate Stops(fault: Fault, dirty: bool, n: nat) {
    || StopsEarly(fault, dirty, n) || (dirty && Hits(fault, ClearFlag))
    || Hits(fault, FinishOk) || Hits(fault, PubRegenerated) || Hits(fault, PubCompleted)
  }

  /** The tape after the run's reads and deletion. */
  function PreparedTape(t: Tape, dirty: bool, fault: Fault): Tape {
    if dirty && Lands(fault, DeleteAll) then map[] else t
  }

  /** The tape after appending docs to t. */
  function FilledTape(t: Tape, docs: seq<int>, start: int, fault: Fault): Tape {
    if Hits(fault, Query) then t
    else if Hits(fault, Append) then AddAll(t, Take(docs, fault.served), start)
    else AddAll(t, docs, start)
  }

  /** The tape the run leaves. */
  function TapeAfter(t: Tape, dirty: bool, rows: seq<int>, fault: Fault): Tape {
    if StopsReading(fault, dirty) then PreparedTape(t, dirty, fault)
    else FilledTape(Base(t, dirty), Submitted(t, dirty, rows), Start(t, dirty), fault)
  }

  /** What the run reports as removed. */
  function Reported(t: Tape, dirty: bool, fault: Fault): nat {
    if StopsReading(fault, dirty) then 0 else Removed(t, dirty)
  }

  function OkRecord(run: nat, added: nat, removed: nat, fault: Fault, dirty: bool): seq<RunRecord> {
    if OkRecorded(fault, dirty, added) then [Terminal(run, true, added, removed)] else []
  }

  function ErrorRecord(run: nat, removed: nat, fault: Fault, dirty: bool, n: nat): seq<RunRecord> {
    if Stops(fault, dirty, n) then [Terminal(run, false, 0, removed)] else []
  }

  /** The state after the run's commit phase, started in s, submitted docs. */
  function CommitState(s: UserState, dirty: bool, docs: seq<int>, start: int, run: nat, removed: nat, fault: Fault,
                       sent: seq<Event>): UserState {
    var n := |Added(s.tape, docs, start)|;
    (if FlagCleared(fault, dirty, n) then SetDirty(s, false) else s).(
      tape := FilledTape(s.tape, docs, start, fault),
      runs := s.runs + OkRecord(run, n, removed, fault, dirty),
      events := s.events + sent)
  }

  /** The state after the except handler. */
  function HandledState(s: UserState, dirty: bool, run: nat, removed: nat): UserState {
    s.(runs := s.runs + [Terminal(run, false, 0, removed)],
       events := s.events + Closing(run, KindOf(dirty), 0, removed, false))
  }

  /** What the inner try block and its handler leave of the user's state s, when they publish `sent`. */
  function BodyState(s: UserState, dirty: bool, rows: seq<int>, run: nat, fault: Fault, sent: seq<Event>): UserState {
    var n := |Gained(s.tape, dirty, rows)|;
    (if FlagCleared(fault, dirty, n) then SetDirty(s, false) else s).(
      tape := TapeAfter(s.tape, dirty, rows, fault),
      runs := s.runs + OkRecord(run, n, Removed(s.tape, dirty), fault, dirty)
                     + ErrorRecord(run, Reported(s.tape, dirty, fault), fault, dirty, n),
      events := s.events + sent)
  }

  /** No lock.released among the events. */
  predicate Plain(events: seq<Event>) { LockReleased !in events }

  function Announcement(t: Tape, dirty: bool, rows: seq<int>, run: nat): seq<Event> {
    Adds(Gained(t, dirty, rows)) + Closing(run, KindOf(dirty), |Gained(t, dirty, rows)|, Removed(t, dirty), true)
  }

  /** What the inner try block publishes: the whole announcement, or a part of it and then the two error events. */
  predicate Announced(t: Tape, dirty: bool, rows: seq<int>, run: nat, fault: Fault, sent: seq<Event>) {
    var all := Announcement(t, dirty, rows, run);
    var failed := Closing(run, KindOf(dirty), 0, Reported(t, dirty, fault), false);
    if Stops(fault, dirty, |Gained(t, dirty, rows)|)
    then |sent| >= 2 && sent[..|sent| - 2] <= all && sent[|sent| - 2..] == failed
    else sent == all
  }

  // --- the inner try block ------------------------------------------------------------------

  method Prepare(r: Redis, user: int, dirty: bool, fault: Fault)
    returns (raised: bool, removed: nat, start: int, existing: set<int>)
    modifies r`users
    ensures raised == StopsReading(fault, dirty)
    ensures r.users == old(r.users)[user := old(r.Of(user)).(tape := PreparedTape(old(r.Of(user)).tape, dirty, fault))]
    ensures removed == Reported(old(r.Of(user)).tape, dirty, fault)
    ensures !raised ==> start == Start(old(r.Of(user)).tape, dirty) && existing == Existing(old(r.Of(user)).tape, dirty)
  {
    raised, removed, start, existing := false, 0, 0, {};
    r.Touch(user);
    if dirty {
      var n := 0;
      if Lands(fault, DeleteAll) { n := r.DeleteAllEntries(user); }
      if Hits(fault, DeleteAll) { raised := true; return; }
      removed := n;
    } else {
      if Hits(fault, ReadMax) { raised := true; return; }
      start := MaxPosition(r.Of(user).tape) + 1;
      if Hits(fault, ReadPage) { raised := true; return; }
      existing := RowDocs(Page(r.Of(user).tape, None, EXISTING_LIMIT));
    }
  }

  method PublishAdded(r: Redis, user: int, appended: seq<Row>, fault: Fault)
    returns (raised: bool, ghost sent: seq<Event>)
    modifies r`users
    ensures raised <==> HitsAdded(fault, |appended|)
    ensures if raised then sent <= Adds(appended) else sent == Adds(appended)
    ensures r.users == old(r.users)[user := old(r.Of(user)).(events := old(r.Of(user)).events + sent)] && Plain(sent)
  {
    raised, sent := false, [];
    ghost var s := r.Of(user);
    r.Touch(user);
    assert s.events + [] == s.events;
    for k := 0 to |appended|
      invariant sent == Adds(appended[..k]) && Plain(sent)
      invariant r.users == old(r.users)[user := s.(events := s.events + sent)]
      invariant fault.site.Some? && fault.site.value.PubAdded? ==> fault.site.value.i >= k
    {
      AddsLast(appended, k);
      var event := EntryAdded(appended[k].pos, appended[k].doc);
      if Lands(fault, PubAdded(k)) {
        r.Publish(user, event);
        assert (s.events + sent) + [event] == s.events + (sent + [event]);
        sent := sent + [event];
      }
      if Hits(fault, PubAdded(k)) { raised := true; return; }
    }
    assert appended[..|appended|] == appended;
  }

  /** Query (answering docs), append, entry_added events. */
  method Fill(r: Redis, user: int, docs: seq<int>, start: int, fault: Fault)
    returns (raised: bool, appended: seq<Row>, ghost sent: seq<Event>)
    modifies r`users
    ensures var gained := Added(old(r.Of(user)).tape, docs, start);
            && (raised <==> Hits(fault, Query) || Hits(fault, Append) || HitsAdded(fault, |gained|))
            && (if raised then sent <= Adds(gained) else appended == gained && sent == Adds(gained))
    ensures Plain(sent)
    ensures r.users == old(r.users)[user := old(r.Of(user)).(
              tape := FilledTape(old(r.Of(user)).tape, docs, start, fault), events := old(r.Of(user)).events + sent)]
  {
    raised, appended, sent := false, [], [];
    assert r.Of(user).events + [] == r.Of(user).events;
    if Hits(fault, Query) { r.Touch(user); raised := true; return; }
    var broken := if Hits(fault, Append) then Some(fault.served) else None;
    var reply := r.AppendEntries(user, docs, start, broken);
    if reply.None? { raised := true; return; }
    appended := reply.value;
    raised, sent := PublishAdded(r, user, appended, fault);
  }

  /** clear_dirty and finish_run ok. */
  method Settle(r: Redis, user: int, dirty: bool, run: nat, added: nat, removed: nat, fault: Fault)
    returns (raised: bool)
    modifies r`users
    ensures raised <==> (dirty && Hits(fault, ClearFlag)) || Hits(fault, FinishOk)
    ensures r.users == old(r.users)[user :=
              (if dirty && Lands(fault, ClearFlag) then SetDirty(old(r.Of(user)), false) else old(r.Of(user))).(
                runs := old(r.Of(user)).runs +
                        (if !(dirty && Hits(fault, ClearFlag)) && Lands(fault, FinishOk)
                         then [Terminal(run, true, added, removed)]
                         else []))]
  {
    r.Touch(user);
    assert r.Of(user).runs + [] == r.Of(user).runs;
    if dirty {
      if Lands(fault, ClearFlag) { r.ClearDirty(user); }
      if Hits(fault, ClearFlag) { return true; }
    }
    if Lands(fault, FinishOk) { r.Record(user, Terminal(run, true, added, removed)); }
    return Hits(fault, FinishOk);
  }

  /** The two closing events; without a fault in the error handler, whose own calls succeed. */
  method Announce(r: Redis, user: int, first: Event, second: Event, fault: Fault)
    returns (raised: bool, ghost sent: seq<Event>)
    requires Plain([first, second])
    modifies r`users
    ensures raised <==> Hits(fault, PubRegenerated) || Hits(fault, PubCompleted)
    ensures if raised then sent <= [first, second] else sent == [first, second]
    ensures r.users == old(r.users)[user := old(r.Of(user)).(events := old(r.Of(user)).events + sent)] && Plain(sent)
  {
    ghost var s := r.Of(user);
    raised, sent := false, [];
    r.Touch(user);
    assert s.events + [] == s.events;
    if Lands(fault, PubRegenerated) {
      r.Publish(user, first);
      sent := [first];
    }
    if Hits(fault, PubRegenerated) { raised := true; return; }
    if Lands(fault, PubCompleted) {
      r.Publish(user, second);
      assert (s.events + sent) + [second] == s.events + (sent + [second]);
      sent := sent + [second];
    }
    raised := Hits(fault, PubCompleted);
  }

  /** Everything after the reads: query, append, flag, record, events. */
  method Commit(r: Redis, user: int, dirty: bool, docs: seq<int>, run: nat, removed: nat, start: int, fault: Fault)
    returns (raised: bool, added: nat, ghost sent: seq<Event>)
    requires !StopsReading(fault, dirty)
    modifies r`users
    ensures raised == Stops(fault, dirty, |Added(old(r.Of(user)).tape, docs, start)|)
    ensures r.users == old(r.users)[user := CommitState(old(r.Of(user)), dirty, docs, start, run, removed, fault, sent)]
    ensures var gained := Added(old(r.Of(user)).tape, docs, start);
            var all := Adds(gained) + Closing(run, KindOf(dirty), |gained|, removed, true);
            if raised then sent <= all else added == |gained| && sent == all
    ensures Plain(sent)
  {
    added := 0;
    ghost var s := r.Of(user);
    assert s.runs + [] == s.runs;
    var appended;
    raised, appended, sent := Fill(r, user, docs, start, fault);
    if raised { return; }
    added := |appended|;
    raised := Settle(r, user, dirty, run, added, removed, fault);
    if raised { return; }
    ghost var more;
    raised, more := Announce(r, user, Regenerated(KindOf(dirty), added, removed), ScheduleCompleted(run, true), fault);
    assert (s.events + sent) + more == s.events + (sent + more);
    sent := sent + more;
  }

  /** The except handler. */
  method Handle(r: Redis, user: int, dirty: bool, run: nat, removed: nat) returns (ghost sent: seq<Event>)
    modifies r`users
    ensures sent == Closing(run, KindOf(dirty), 0, removed, false) && Plain(sent)
    ensures r.users == old(r.users)[user := HandledState(old(r.Of(user)), dirty, run, removed)]
  {
    r.Record(user, Terminal(run, false, 0, removed));
    var raised;
    raised, sent := Announce(r, user, Regenerated(KindOf(dirty), 0, removed), ScheduleCompleted(run, false),
                             Fault(None, 0));
  }

  /** The try block and its except handler (whose own calls succeed); rows is what the SELECT answers. */
  method Body(r: Redis, user: int, dirty: bool, rows: seq<int>, run: nat, fault: Fault)
    returns (res: Outcome, ghost sent: seq<Event>)
    modifies r`users
    ensures var n := |Gained(old(r.Of(user)).tape, dirty, rows)|;
            res == (if Stops(fault, dirty, n) then Raised else Returned(KindOf(dirty), n))
    ensures r.users == old(r.users)[user := BodyState(old(r.Of(user)), dirty, rows, run, fault, sent)]
    ensures Announced(old(r.Of(user)).tape, dirty, rows, run, fault, sent) && Plain(sent)
  {
    sent := [];
    ghost var s := r.Of(user);
    var raised, removed, start, existing := Prepare(r, user, dirty, fault);
    var added := 0;
    if raised {
      sent := Handle(r, user, dirty, run, removed);
      StoppedReading(s, dirty, rows, run, fault);
      return Raised, sent;
    }
    raised, added, sent := Commit(r, user, dirty, CandidatesFor(rows, existing), run, removed, start, fault);
    if raised {
      ghost var more := Handle(r, user, dirty, run, removed);
      StoppedCommitting(s, dirty, rows, run, fault, sent);
      return Raised, sent + more;
    }
    Completed(s, dirty, rows, run, fault, sent);
    return Returned(KindOf(dirty), added), sent;
  }

  lemma StoppedReading(s: UserState, dirty: bool, rows: seq<int>, run: nat, fault: Fault)
    requires StopsReading(fault, dirty)
    ensures HandledState(s.(tape := PreparedTape(s.tape, dirty, fault)), dirty, run, 0) ==
            BodyState(s, dirty, rows, run, fault, Closing(run, KindOf(dirty), 0, 0, false))
  {
    assert s.runs + [] == s.runs;
  }

  lemma StoppedCommitting(s: UserState, dirty: bool, rows: seq<int>, run: nat, fault: Fault, sent: seq<Event>)
    requires !StopsReading(fault, dirty) && Stops(fault, dirty, |Gained(s.tape, dirty, rows)|)
    ensures var removed := Removed(s.tape, dirty);
            var committed := CommitState(s.(tape := Base(s.tape, dirty)), dirty, Submitted(s.tape, dirty, rows),
                                         Start(s.tape, dirty), run, removed, fault, sent);
            HandledState(committed, dirty, run, removed) ==
            BodyState(s, dirty, rows, run, fault, sent + Closing(run, KindOf(dirty), 0, removed, false))
  {
    assert (s.events + sent) + Closing(run, KindOf(dirty), 0, Removed(s.tape, dirty), false) ==
           s.events + (sent + Closing(run, KindOf(dirty), 0, Removed(s.tape, dirty), false));
  }

  lemma Completed(s: UserState, dirty: bool, rows: seq<int>, run: nat, fault: Fault, sent: seq<Event>)
    requires !StopsReading(fault, dirty) && !Stops(fault, dirty, |Gained(s.tape, dirty, rows)|)
    ensures CommitState(s.(tape := Base(s.tape, dirty)), dirty, Submitted(s.tape, dirty, rows), Start(s.tape, dirty),
                        run, Removed(s.tape, dirty), fault, sent) ==
            BodyState(s, dirty, rows, run, fault, sent)
  {
    var n := |Gained(s.tape, dirty, rows)|;
    var runs := s.runs + OkRecord(run, n, Removed(s.tape, dirty), fault, dirty);
    assert runs + [] == runs;
  }
}
