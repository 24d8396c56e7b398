/** The requests of api/tape.py and api/config.py and the listener's handler (worker/listener.py), each run alone. */
module TapeApi {
  import opened Prelude
  import opened SortedSet
  import opened Candidates
  import opened Paging
  import opened Store
  import opened Database
  import Lock

  /** Unhandled: an exception the request does not turn into an error of its own. */
  datatype Error = TapeLocked | AlreadyScored | Forbidden(bad: set<int>) | Unhandled
  datatype Reply<T> = Ok(value: T) | Err(error: Error)

  datatype PageStatus = Shows | Empty | Preparing
  datatype TapePage = TapePage(items: seq<Row>, next: Option<int>, status: PageStatus, detailed: bool)

  /** The events of removing the hidden ones among rows. */
  function Removals(rows: seq<Row>, hidden: set<int>): seq<Event>
    decreases |rows|
  {
    if rows == [] then []
    else
      var init, last := rows[..|rows| - 1], rows[|rows| - 1];
      Removals(init, hidden) + if last.doc in hidden then [EntryRemoved(last.doc)] else []
  }

  lemma RemovalsNext(rows: seq<Row>, i: nat, hidden: set<int>)
    requires i < |rows|
    ensures Removals(rows[..i + 1], hidden) ==
              Removals(rows[..i], hidden) + if rows[i].doc in hidden then [EntryRemoved(rows[i].doc)] else []
  {
    assert rows[..i + 1][..i] == rows[..i];
  }

  lemma ItemsNext(rows: seq<Row>, i: nat, known: set<int>, hidden: set<int>)
    requires i < |rows|
    ensures Items(rows[..i + 1], known, hidden) ==
              Items(rows[..i], known, hidden) + if Shown(rows[i], known, hidden) then [rows[i]] else []
  {
    assert rows[..i + 1][..i] == rows[..i];
  }

  /** s with the hidden rows taken out of its tape, and told so. */
  function Repaired(s: UserState, rows: seq<Row>, hidden: set<int>): UserState {
    s.(tape := s.tape - RowDocs(rows) * hidden, events := s.events + Removals(rows, hidden))
  }

  /** Taking one more row out of what is left. */
  lemma OneMoreOut(t: Tape, rows: seq<Row>, i: nat, hidden: set<int>)
    requires i < |rows|
    ensures t - RowDocs(rows[..i + 1]) * hidden ==
            if rows[i].doc in hidden then ZRem(t - RowDocs(rows[..i]) * hidden, rows[i].doc)
            else t - RowDocs(rows[..i]) * hidden
  {
    assert rows[..i + 1] == rows[..i] + [rows[i]];
    assert RowDocs(rows[..i + 1]) == RowDocs(rows[..i]) + {rows[i].doc};
    if rows[i].doc in hidden {
      assert RowDocs(rows[..i + 1]) * hidden == RowDocs(rows[..i]) * hidden + {rows[i].doc};
    } else {
      assert RowDocs(rows[..i + 1]) * hidden == RowDocs(rows[..i]) * hidden;
    }
  }

  lemma RepairedNext(s: UserState, rows: seq<Row>, i: nat, hidden: set<int>)
    requires i < |rows|
    ensures Repaired(s, rows[..i + 1], hidden) ==
            var s' := Repaired(s, rows[..i], hidden);
            if rows[i].doc in hidden
            then s'.(tape := ZRem(s'.tape, rows[i].doc), events := s'.events + [EntryRemoved(rows[i].doc)])
            else s'
  {
    RemovalsNext(rows, i, hidden);
    OneMoreOut(s.tape, rows, i, hidden);
    var told := Removals(rows[..i], hidden);
    assert (s.events + told) + [EntryRemoved(rows[i].doc)] == s.events + (told + [EntryRemoved(rows[i].doc)]);
    assert told + [] == told;
  }

  /** rows are entries of the tape, no document twice. */
  ghost predicate RowsOf(t: Tape, rows: seq<Row>) {
    && (forall r :: r in rows ==> r.doc in t)
    && (forall i, j :: 0 <= i < j < |rows| ==> rows[i].doc != rows[j].doc)
  }

  lemma PageIsOfTape(t: Tape, after: Option<int>, limit: int)
    ensures RowsOf(t, Page(t, after, limit))
  {
    RowsListTape(t);
    var all, page := Rows(t), Page(t, after, limit);
    forall i, j | 0 <= i < j < |all| ensures all[i].doc != all[j].doc {
      assert all[i] in all && all[j] in all;
      assert Before(all[i], all[j]);
      BeforeTrichotomy(all[i], all[j]);
    }
    assert forall r :: r in page ==> r in all;
  }

  /** The loop of read_tape: items, and the repair of the tape. */
  method WalkRows(r: Redis, user: int, rows: seq<Row>, known: set<int>, hidden: set<int>) returns (items: seq<Row>)
    requires RowsOf(r.Of(user).tape, rows)
    modifies r`users
    ensures items == Items(rows, known, hidden)
    ensures r.users == old(r.users)[user := Repaired(old(r.Of(user)), rows, hidden)]
  {
    items := [];
    ghost var s := r.Of(user);
    r.Touch(user);
    assert s.events + [] == s.events && s.tape - {} == s.tape && RowDocs(rows[..0]) * hidden == {};
    assert Repaired(s, rows[..0], hidden) == s;
    for i := 0 to |rows|
      invariant items == Items(rows[..i], known, hidden)
      invariant r.users == old(r.users)[user := Repaired(s, rows[..i], hidden)]
    {
      ItemsNext(rows, i, known, hidden);
      RepairedNext(s, rows, i, hidden);
      StillThere(s, rows, i, hidden);
      if rows[i].doc in hidden {
        var removed := r.RemoveEntry(user, rows[i].doc);
        if removed > 0 {
          r.Publish(user, EntryRemoved(rows[i].doc));
        }
        continue;
      }
      if rows[i].doc !in known {
        continue;
      }
      items := items + [rows[i]];
    }
    assert rows[..|rows|] == rows;
  }

  lemma StillThere(s: UserState, rows: seq<Row>, i: nat, hidden: set<int>)
    requires RowsOf(s.tape, rows) && i < |rows|
    ensures rows[i].doc in Repaired(s, rows[..i], hidden).tape
  {
    assert rows[i] in rows;
  }

  /** The answer for these rows of the tape t. */
  function PageReply(t: Tape, rows: seq<Row>, db: Snapshot, user: int, cfg: TapeConfig): TapePage {
    var items := Items(rows, RowDocs(rows) * db.docs.Keys, RowDocs(rows) * ScoredBy(db, user));
    var status := if items != [] then Shows else if rows == [] && t == map[] && cfg.dirty then Preparing else Empty;
    TapePage(items, NextPosition(rows, cfg.pageSize), status, cfg.detailed)
  }

  /** What GET /tape answers to a user in state s: the unscored, existing documents of the page, in order, and where the
      next page starts; while the tape is locked only that it is. */
  function ReadReply(s: UserState, now: int, db: Snapshot, user: int, after: Option<int>): Reply<TapePage> {
    if Lock.Live(s.cell, now) then Err(TapeLocked)
    else if s.hash.None? then Ok(TapePage([], None, Empty, false))
    else
      var cfg := Decode(s.hash.value);
      Ok(PageReply(s.tape, Page(s.tape, after, cfg.pageSize), db, user, cfg))
  }

  /** ... and what it leaves: the page's scored documents are out of the tape. */
  function ReadState(s: UserState, now: int, db: Snapshot, user: int, after: Option<int>): UserState {
    if Lock.Live(s.cell, now) || s.hash.None? then s
    else
      var rows := Page(s.tape, after, Decode(s.hash.value).pageSize);
      Repaired(s, rows, RowDocs(rows) * ScoredBy(db, user))
  }

  /** The request once it has its rows. */
  method ServeRows(r: Redis, pg: Postgres, user: int, rows: seq<Row>, cfg: TapeConfig) returns (page: TapePage)
    requires RowsOf(r.Of(user).tape, rows)
    modifies r`users
    ensures page == PageReply(old(r.Of(user)).tape, rows, pg.Now(), user, cfg)
    ensures r.users == old(r.users)[
              user := Repaired(old(r.Of(user)), rows, RowDocs(rows) * ScoredBy(pg.Now(), user))]
  {
    if rows == [] {
      NothingToRepair(r.Of(user), RowDocs(rows) * ScoredBy(pg.Now(), user));
      r.Touch(user);
      var total := |r.Of(user).tape|;
      return TapePage([], None, if total == 0 && cfg.dirty then Preparing else Empty, cfg.detailed);
    }
    var known, hidden := RowDocs(rows) * pg.docs.Keys, RowDocs(rows) * ScoredBy(pg.Now(), user);
    var items := WalkRows(r, user, rows, known, hidden);
    var next := if |rows| == cfg.pageSize then Some(rows[|rows| - 1].pos) else None;
    return TapePage(items, next, if items != [] then Shows else Empty, cfg.detailed);
  }

  method ReadPage(r: Redis, pg: Postgres, user: int, after: Option<int>, cfg: TapeConfig) returns (page: TapePage)
    modifies r`users
    ensures var rows := Page(old(r.Of(user)).tape, after, cfg.pageSize);
            && page == PageReply(old(r.Of(user)).tape, rows, pg.Now(), user, cfg)
            && r.users == old(r.users)[
                 user := Repaired(old(r.Of(user)), rows, RowDocs(rows) * ScoredBy(pg.Now(), user))]
  {
    var rows := Page(r.Of(user).tape, after, cfg.pageSize);
    PageIsOfTape(r.Of(user).tape, after, cfg.pageSize);
    page := ServeRows(r, pg, user, rows, cfg);
  }

  /** GET /tape. */
  method ReadTape(r: Redis, pg: Postgres, user: int, after: Option<int>) returns (reply: Reply<TapePage>)
    modifies r`users
    ensures reply == ReadReply(old(r.Of(user)), r.now, pg.Now(), user, after)
    ensures r.users == old(r.users)[user := ReadState(old(r.Of(user)), r.now, pg.Now(), user, after)]
  {
    if Lock.Live(r.Of(user).cell, r.now) {
      r.Touch(user);
      return Err(TapeLocked);
    }
    if r.Of(user).hash.None? {
      r.Touch(user);
      return Ok(TapePage([], None, Empty, false));
    }
    var page := ReadPage(r, pg, user, after, Decode(r.Of(user).hash.value));
    return Ok(page);
  }

  lemma NothingToRepair(s: UserState, hidden: set<int>)
    ensures Repaired(s, [], hidden) == s
  {
    assert RowDocs([]) * hidden == {} && s.tape - {} == s.tape && s.events + [] == s.events;
  }

  /** The reply shows exactly the entries of its page that exist and that no role of this user has scored; it is in the
      stored display mode, compact if none is stored. */
  lemma ReplyShows(s: UserState, now: int, db: Snapshot, user: int, after: Option<int>, r: Row)
    requires !Lock.Live(s.cell, now) && s.hash.Some?
    ensures var reply := ReadReply(s, now, db, user, after);
            && reply.Ok? && reply.value.detailed == (s.hash.value.detailed == Some(true))
            && (r in reply.value.items <==>
                  && r in Page(s.tape, after, Decode(s.hash.value).pageSize) && r.doc in db.docs
                  && forall role :: Score(user, role, r.doc) !in db.scores)
  {
    var rows := Page(s.tape, after, Decode(s.hash.value).pageSize);
    ItemsExact(rows, RowDocs(rows) * db.docs.Keys, RowDocs(rows) * ScoredBy(db, user));
    ScoredByExact(db, user, r.doc);
    DecodeExact(s.hash.value);
    if r in rows { assert r.doc in RowDocs(rows); }
  }

  /** A page without rows has no items and starts no next page: a client that follows next_position stops there. */
  lemma EmptyPageEnds(s: UserState, now: int, db: Snapshot, user: int, after: Option<int>)
    requires ReadReply(s, now, db, user, after).Ok?
    requires s.hash.Some? ==> Page(s.tape, after, Decode(s.hash.value).pageSize) == []
    ensures ReadReply(s, now, db, user, after).value.items == []
    ensures ReadReply(s, now, db, user, after).value.next == None
  {
  }

  /** The tape is said to be in preparation exactly when it is empty and the flag is up. */
  lemma PreparingExactly(s: UserState, now: int, db: Snapshot, user: int, after: Option<int>)
    requires ReadReply(s, now, db, user, after).Ok?
    ensures ReadReply(s, now, db, user, after).value.status == Preparing <==>
              s.hash.Some? && s.hash.value.dirty && s.tape == map[]
    ensures ReadReply(s, now, db, user, after).value.status == Shows <==>
              ReadReply(s, now, db, user, after).value.items != []
  {
    if s.hash.Some? && s.tape == map[] {
      EmptyTapeEmptyPage(after, Decode(s.hash.value).pageSize);
    }
  }

  /** A user of whom nothing is stored yet, like one without a config, reads an empty page in the compact mode. */
  lemma NewcomerReadsNothing(users: map<int, UserState>, user: int, now: int, db: Snapshot, after: Option<int>)
    requires user !in users
    ensures ReadReply(StateIn(users, user), now, db, user, after) == Ok(TapePage([], None, Empty, false))
    ensures StateIn(users, user) == UserState(map[], None, {}, None, [], [])
  {
  }

  lemma EmptyTapeEmptyPage(after: Option<int>, limit: int)
    ensures Page(map[], after, limit) == []
  {
    assert Rows(map[]) == [];
  }

  /** Another user's score changes neither what is answered nor what is left. */
  lemma OthersScoresDoNotShow(s: UserState, now: int, db: Snapshot, user: int, after: Option<int>, score: Score)
    requires score.user != user
    ensures var db' := db.(scores := db.scores + {score});
            && ReadReply(s, now, db', user, after) == ReadReply(s, now, db, user, after)
            && ReadState(s, now, db', user, after) == ReadState(s, now, db, user, after)
  {
    ScoreCountsForItsUser(db, score, user, Selection({}, DateRange(None, None), true));
  }

  /** One event for every row taken out, in page order. */
  lemma {:induction false} RemovalsExact(rows: seq<Row>, hidden: set<int>)
    ensures forall e :: e in Removals(rows, hidden) <==> e.EntryRemoved? && e.doc in RowDocs(rows) * hidden
    ensures (forall i, j :: 0 <= i < j < |rows| ==> rows[i].doc != rows[j].doc) ==> NoDuplicates(Removals(rows, hidden))
    decreases |rows|
  {
    if rows != [] {
      var init, last := rows[..|rows| - 1], rows[|rows| - 1];
      assert rows == init + [last];
      assert RowDocs(rows) == RowDocs(init) + {last.doc};
      RemovalsExact(init, hidden);
      if forall i, j :: 0 <= i < j < |rows| ==> rows[i].doc != rows[j].doc {
        assert forall i :: 0 <= i < |init| ==> init[i] == rows[i];
        assert EntryRemoved(last.doc) !in Removals(init, hidden);
      }
    }
  }

  function ScorePosted(s: UserState, doc: int): UserState {
    s.(tape := ZRem(s.tape, doc), events := s.events + [EntryRemoved(doc)])
  }

  function Handled(s: UserState, doc: int): UserState {
    if doc in s.tape then s.(tape := ZRem(s.tape, doc), events := s.events + [EntryRemoved(doc)]) else s
  }

  function ConfigWritten(s: UserState, descending: bool, detailed: bool, pageSize: int, range: DateRange,
                         sources: set<int>): UserState {
    s.(hash := Some(ConfigHash(Some(descending), Some(detailed), Some(pageSize), range, true)), sources := sources,
       events := s.events + [ScheduleQueued])
  }

  /** POST /score. */
  method SubmitScore(r: Redis, pg: Postgres, user: int, role: int, doc: int) returns (reply: Reply<()>)
    modifies r`users, pg`scores
    ensures
      var score := Score(user, role, doc);
      if score in old(pg.scores)
      then reply == Err(AlreadyScored) && r.users == old(r.users) && pg.scores == old(pg.scores)
      else if user !in pg.people || role !in pg.roles || doc !in pg.docs
      then reply == Err(Unhandled) && r.users == old(r.users) && pg.scores == old(pg.scores)
      else && reply == Ok(()) && pg.scores == old(pg.scores) + {score}
           && r.users == old(r.users)[user := ScorePosted(old(r.Of(user)), doc)]
  {
    var saved := pg.Save(user, role, doc);
    if saved.Duplicate? { return Err(AlreadyScored); }
    if saved.Dangling? { return Err(Unhandled); }
    var _ := r.RemoveEntry(user, doc);
    r.Publish(user, EntryRemoved(doc));
    return Ok(());
  }

  /** The listener's _handle; None stands for a payload it cannot read. */
  method Handle(r: Redis, payload: Option<(int, int)>)
    modifies r`users
    ensures match payload
            case None => r.users == old(r.users)
            case Some((user, doc)) => r.users == old(r.users)[user := Handled(old(r.Of(user)), doc)]
  {
    if payload.None? { return; }
    var (user, doc) := payload.value;
    assert doc !in r.Of(user).tape ==> ZRem(r.Of(user).tape, doc) == r.Of(user).tape;
    var removed := r.RemoveEntry(user, doc);
    if removed > 0 {
      r.Publish(user, EntryRemoved(doc));
    }
  }

  /** PUT /config, for a user who may use the sources `allowed`. A refused request changes nothing; an accepted one
      stores exactly what it was given, marked dirty. */
  method WriteConfig(r: Redis, user: int, allowed: set<int>, requested: seq<int>, descending: bool, detailed: bool,
                     pageSize: int, range: DateRange)
    returns (reply: Reply<()>)
    modifies r`users
    ensures
      var sources := set x | x in requested;
      if sources <= allowed
      then && reply == Ok(())
           && r.users == old(r.users)[
                user := ConfigWritten(old(r.Of(user)), descending, detailed, pageSize, range, sources)]
      else reply == Err(Forbidden(sources - allowed)) && r.users == old(r.users)
  {
    var sources := set x | x in requested;
    var bad := sources - allowed;
    if bad != {} { return Err(Forbidden(bad)); }
    assert sources <= allowed by { assert forall x :: x in sources ==> x !in bad; }
    r.UpsertConfig(user, descending, detailed, pageSize, range);
    r.SetConfigSources(user, sources);
    r.Publish(user, ScheduleQueued);
    return Ok(());
  }

  /** What is stored is what the next read of the config finds: every field, the display mode among them, and the flag
      up. */
  lemma WrittenConfigReadsBack(s: UserState, descending: bool, detailed: bool, pageSize: int, range: DateRange,
                               sources: set<int>)
    ensures var s' := ConfigWritten(s, descending, detailed, pageSize, range, sources);
            && s'.hash.Some? && Decode(s'.hash.value) == TapeConfig(descending, detailed, pageSize, range, true)
            && s'.sources == sources && s'.tape == s.tape && s'.cell == s.cell && s'.runs == s.runs
            && s'.events == s.events + [ScheduleQueued]
  {
  }
}
