/** The Redis state of the service and the operations store/tape.py, store/lock.py and store/events.py make on it.
    Every key belongs to one user and one kind (Keys.KeysNeverCollide), so the keyspace is kept user by user. */
module Store {
  import opened Prelude
  import opened Keys
  import opened SortedSet
  import opened Candidates
  import Lock

  datatype Kind = Full | Incremental | Skipped

  datatype Event =
    | LockAcquired | LockReleased | ScheduleQueued
    | ScheduleStarted(run: nat, kind: Kind)
    | ScheduleCompleted(run: nat, ok: bool)
    | EntryAdded(pos: int, doc: int)
    | EntryRemoved(doc: int)
    | Regenerated(kind: Kind, added: nat, removed: nat)

  datatype RunRecord =
    | Running(run: nat, kind: Kind)
    | Terminal(run: nat, ok: bool, added: nat, removed: nat)

  /** A config hash; None where HGET finds no such field. */
  datatype ConfigHash = ConfigHash(
    descending: Option<bool>, detailed: Option<bool>, pageSize: Option<int>, range: DateRange, dirty: bool)

  datatype TapeConfig = TapeConfig(descending: bool, detailed: bool, pageSize: int, range: DateRange, dirty: bool)

  /** The hash a lone `HSET dirty` creates. */
  const BARE_HASH := ConfigHash(None, None, None, DateRange(None, None), false)

  function GetOr<T>(o: Option<T>, default: T): T { if o.Some? then o.value else default }

  function Decode(h: ConfigHash): TapeConfig {
    TapeConfig(GetOr(h.descending, true), GetOr(h.detailed, false), GetOr(h.pageSize, 20), h.range, h.dirty)
  }

  /** A field that is not there reads as newest first, compact, twenty to a page; one that is there reads as stored. */
  lemma DecodeExact(h: ConfigHash)
    ensures Decode(h).descending == (h.descending == None || h.descending == Some(true))
    ensures Decode(h).detailed == (h.detailed == Some(true))
    ensures h.pageSize.None? ==> Decode(h).pageSize == 20
    ensures h.pageSize.Some? ==> h.pageSize == Some(Decode(h).pageSize)
    ensures Decode(h).range == h.range && Decode(h).dirty == h.dirty
  {
  }

  /** What lies under one user's keys: tape:entries, tape:cfg, tape:cfg:src, tape:lock, tape:runs, and the events
      published on the user's channel. An absent sorted set, set or stream is an empty one. */
  datatype UserState = UserState(
    tape: Tape, hash: Option<ConfigHash>, sources: set<int>, cell: Option<Lock.Hold>,
    runs: seq<RunRecord>, events: seq<Event>)

  const NOTHING := UserState(map[], None, {}, None, [], [])

  /** HSET dirty on the config hash, which creates it if need be. */
  function SetDirty(s: UserState, dirty: bool): UserState {
    s.(hash := Some(GetOr(s.hash, BARE_HASH).(dirty := dirty)))
  }

  /** It sets the flag and nothing else; a hash it creates selects nothing by date and holds no other field. */
  lemma SetDirtyExact(s: UserState, dirty: bool)
    ensures var s' := SetDirty(s, dirty);
            && s'.hash.Some? && s'.hash.value.dirty == dirty && s' == s.(hash := s'.hash)
            && (s.hash.Some? ==> s' == s.(hash := Some(s.hash.value.(dirty := dirty))))
            && (s.hash.None? ==> s'.hash == Some(ConfigHash(None, None, None, DateRange(None, None), dirty)))
  {
  }

  function StateIn(users: map<int, UserState>, user: int): UserState {
    if user in users then users[user] else NOTHING
  }

  /** HGET key dirty. */
  function DirtyIn(users: map<int, UserState>, key: string): bool {
    match UserOfKey(key)
    case None => false
    case Some(u) => key == CfgKey(u) && StateIn(users, u).hash.Some? && StateIn(users, u).hash.value.dirty
  }

  /** What list_users_with_config makes of the scanned keys. */
  function Listing(users: map<int, UserState>, scan: seq<string>): seq<(int, bool)>
    decreases |scan|
  {
    if scan == [] then []
    else
      var key := scan[|scan| - 1];
      Listing(users, scan[..|scan| - 1]) +
      (match UserOfKey(key) case None => [] case Some(u) => [(u, DirtyIn(users, key))])
  }

  lemma ListingNext(users: map<int, UserState>, scan: seq<string>, i: nat)
    requires i < |scan|
    ensures Listing(users, scan[..i + 1]) == Listing(users, scan[..i]) +
              (match UserOfKey(scan[i]) case None => [] case Some(u) => [(u, DirtyIn(users, scan[i]))])
  {
    assert scan[..i + 1][..i] == scan[..i];
  }

  lemma {:induction false} ListingExact(users: map<int, UserState>, scan: seq<string>, u: int, flag: bool)
    ensures (u, flag) in Listing(users, scan) <==>
              exists k :: k in scan && UserOfKey(k) == Some(u) && flag == DirtyIn(users, k)
    decreases |scan|
  {
    if scan != [] {
      var init, key := scan[..|scan| - 1], scan[|scan| - 1];
      assert scan == init + [key];
      ListingExact(users, init, u, flag);
      if k :| k in scan && UserOfKey(k) == Some(u) && flag == DirtyIn(users, k) {
        assert k in init || k == key;
      }
      if (u, flag) in Listing(users, init) {
        var k :| k in init && UserOfKey(k) == Some(u) && flag == DirtyIn(users, k);
        assert k in scan;
      }
      assert key in scan;
    }
  }

  /** SCAN of `tape:cfg:*` yields every config hash, and nothing but config hashes and source sets. */
  ghost predicate Scans(users: map<int, UserState>, scan: seq<string>) {
    && (forall u :: CfgKey(u) in scan <==> StateIn(users, u).hash.Some?)
    && (forall k :: k in scan ==> exists v :: k == CfgKey(v) || k == CfgSourcesKey(v))
  }

  /** The scan lists exactly the users who have a config, each with its flag, and takes no sources key for a user. */
  lemma {:induction false} ScanListsUsers(users: map<int, UserState>, scan: seq<string>, u: int, flag: bool)
    requires Scans(users, scan)
    ensures (u, flag) in Listing(users, scan) <==>
              StateIn(users, u).hash.Some? && StateIn(users, u).hash.value.dirty == flag
  {
    ListingExact(users, scan, u, flag);
    DirtyOfUser(users, u);
    if k :| k in scan && UserOfKey(k) == Some(u) && flag == DirtyIn(users, k) {
      KeyOfUser(k, u);
    }
  }

  lemma DirtyOfUser(users: map<int, UserState>, u: int)
    ensures UserOfKey(CfgKey(u)) == Some(u)
    ensures StateIn(users, u).hash.Some? ==> DirtyIn(users, CfgKey(u)) == StateIn(users, u).hash.value.dirty
  {
    UserOfKeyInverts(u);
  }

  lemma KeyOfUser(k: string, u: int)
    requires (exists v :: k == CfgKey(v) || k == CfgSourcesKey(v)) && UserOfKey(k) == Some(u)
    ensures k == CfgKey(u)
  {
    var v :| k == CfgKey(v) || k == CfgSourcesKey(v);
    UserOfKeyInverts(v);
  }

  class Redis {
    var users: map<int, UserState>
    var runCounter: nat
    var now: int

    function Of(user: int): UserState
      reads this`users
    {
      StateIn(users, user)
    }

    /** Nothing under this token keeps the user locked. */
    predicate TokenGone(user: int, token: int)
      reads this`users, this`now
    {
      Lock.Live(Of(user).cell, now) ==> Of(user).cell.value.token != token
    }

    method Put(user: int, s: UserState)
      modifies this`users
      ensures users == old(users)[user := s]
    {
      users := users[user := s];
    }

    /** Changes nothing: it only makes a state that was implicitly empty explicit. */
    method Touch(user: int)
      modifies this`users
      ensures users == old(users)[user := old(Of(user))]
    {
      Put(user, Of(user));
    }

    // --- config ---

    method UpsertConfig(user: int, descending: bool, detailed: bool, pageSize: int, range: DateRange)
      modifies this`users
      ensures var hash := ConfigHash(Some(descending), Some(detailed), Some(pageSize), range, true);
              users == old(users)[user := old(Of(user)).(hash := Some(hash))]
    {
      Put(user, Of(user).(hash := Some(ConfigHash(Some(descending), Some(detailed), Some(pageSize), range, true))));
    }

    method SetConfigSources(user: int, sources: set<int>)
      modifies this`users
      ensures users == old(users)[user := SetDirty(old(Of(user)), true).(sources := sources)]
    {
      Put(user, SetDirty(Of(user), true).(sources := sources));
    }

    method ClearDirty(user: int)
      modifies this`users
      ensures users == old(users)[user := SetDirty(old(Of(user)), false)]
    {
      Put(user, SetDirty(Of(user), false));
    }

    /** list_users_with_config over the keys SCAN yields, in any order and perhaps some twice. */
    method ListUsersWithConfig(scan: seq<string>) returns (listed: seq<(int, bool)>)
      ensures listed == Listing(users, scan)
    {
      listed := [];
      for i := 0 to |scan|
        invariant listed == Listing(users, scan[..i])
      {
        ListingNext(users, scan, i);
        var key := scan[i];
        if SRC_PREFIX <= key || !(CFG_PREFIX <= key) {
          continue;
        }
        var uid := ParseInt(key[|CFG_PREFIX|..]);
        if uid.None? {
          continue;
        }
        var dirty := DirtyIn(users, key);
        listed := listed + [(uid.value, dirty)];
      }
      assert scan[..|scan|] == scan;
    }

    // --- entries ---

    /** One ZADD NX; the reply is 1 for a member that was not there yet. */
    method ZAdd(user: int, doc: int, pos: int) returns (reply: int)
      modifies this`users
      ensures users == old(users)[user := old(Of(user)).(tape := ZAddNx(old(Of(user)).tape, doc, pos))]
      ensures reply == if doc in old(Of(user)).tape then 0 else 1
    {
      reply := if doc in Of(user).tape then 0 else 1;
      Put(user, Of(user).(tape := ZAddNx(Of(user).tape, doc, pos)));
    }

    /** The pipeline is not a transaction: whatever stops it, the commands served so far have taken effect. */
    method ZAddPipeline(user: int, docs: seq<int>, start: int) returns (results: seq<int>)
      modifies this`users
      ensures users == old(users)[user := old(Of(user)).(tape := AddAll(old(Of(user)).tape, docs, start))]
      ensures results == ZAddReplies(old(Of(user)).tape, docs, start)
    {
      results := [];
      ghost var s := Of(user);
      Touch(user);
      for i := 0 to |docs|
        invariant users == old(users)[user := s.(tape := AddAll(s.tape, docs[..i], start))]
        invariant results == ZAddReplies(s.tape, docs[..i], start)
      {
        AddAllLast(s.tape, docs, i, start);
        var reply := ZAdd(user, docs[i], start + i);
        results := results + [reply];
      }
      assert docs[..|docs|] == docs;
    }

    /** append_entries; broken = Some(n): the connection breaks after n commands have been served. */
    method AppendEntries(user: int, docs: seq<int>, start: int, broken: Option<nat>)
      returns (appended: Option<seq<Row>>)
      modifies this`users
      ensures broken.None? ==> appended == Some(Added(old(Of(user)).tape, docs, start))
      ensures broken.Some? ==> appended == None
      ensures var s := old(Of(user));
              users == old(users)[user := s.(tape := AddAll(s.tape, Served(docs, broken), start))]
    {
      ghost var t := Of(user).tape;
      var results := ZAddPipeline(user, Served(docs, broken), start);
      if broken.Some? {
        return None;
      }
      var pairs := Reported(t, docs, start, results);
      return Some(pairs);
    }

    static method Reported(ghost t: Tape, docs: seq<int>, start: int, results: seq<int>) returns (pairs: seq<Row>)
      requires results == ZAddReplies(t, docs, start)
      ensures pairs == Added(t, docs, start)
    {
      pairs := [];
      RepliesLength(t, docs, start);
      for i := 0 to |results|
        invariant pairs == Added(t, docs[..i], start)
      {
        AddedNext(t, docs, i, start);
        ReplyAt(t, docs, start, i);
        if results[i] == 1 {
          pairs := pairs + [Row(start + i, docs[i])];
        }
      }
      assert docs[..|docs|] == docs;
    }

    method RemoveEntry(user: int, doc: int) returns (n: nat)
      modifies this`users
      ensures users == old(users)[user := old(Of(user)).(tape := ZRem(old(Of(user)).tape, doc))]
      ensures n == (if doc in old(Of(user)).tape then 1 else 0)
    {
      n := if doc in Of(user).tape then 1 else 0;
      Put(user, Of(user).(tape := ZRem(Of(user).tape, doc)));
    }

    method DeleteAllEntries(user: int) returns (n: nat)
      modifies this`users
      ensures users == old(users)[user := old(Of(user)).(tape := map[])]
      ensures n == |old(Of(user)).tape|
    {
      n := |Of(user).tape|;
      Put(user, Of(user).(tape := map[]));
    }

    // --- runs, events, lock ---

    method Record(user: int, entry: RunRecord)
      modifies this`users
      ensures users == old(users)[user := old(Of(user)).(runs := old(Of(user)).runs + [entry])]
    {
      Put(user, Of(user).(runs := Of(user).runs + [entry]));
    }

    method Publish(user: int, event: Event)
      modifies this`users
      ensures users == old(users)[user := old(Of(user)).(events := old(Of(user)).events + [event])]
    {
      Put(user, Of(user).(events := Of(user).events + [event]));
    }

    method TryLock(user: int, token: int, ttl: nat) returns (got: bool)
      modifies this`users
      ensures got == !Lock.Live(old(Of(user)).cell, now)
      ensures users == old(users)[user := old(Of(user)).(cell := Lock.SetNxEx(old(Of(user)).cell, now, token, ttl))]
    {
      got := !Lock.Live(Of(user).cell, now);
      Put(user, Of(user).(cell := Lock.SetNxEx(Of(user).cell, now, token, ttl)));
    }

    /** The release script: deletes the key only while it is alive under the caller's token. */
    method Release(user: int, token: int)
      modifies this`users
      ensures TokenGone(user, token)
      ensures users == old(users)[user := old(Of(user)).(cell := Lock.CompareAndDelete(old(Of(user)).cell, now, token))]
    {
      Put(user, Of(user).(cell := Lock.CompareAndDelete(Of(user).cell, now, token)));
    }
  }

  /** The commands of a pipeline that Redis has served. */
  function Served(docs: seq<int>, broken: Option<nat>): (r: seq<int>)
    ensures r <= docs
  {
    if broken.None? then docs else Take(docs, broken.value)
  }

  /** The replies of append_entries' ZADD NX commands. */
  function ZAddReplies(t: Tape, docs: seq<int>, start: int): seq<int>
    decreases |docs|
  {
    if docs == [] then []
    else
      var init, last := docs[..|docs| - 1], docs[|docs| - 1];
      ZAddReplies(t, init, start) + [if last in AddAll(t, init, start) then 0 else 1]
  }

  lemma {:induction false} ReplyAt(t: Tape, docs: seq<int>, start: int, j: nat)
    requires j < |docs|
    ensures |ZAddReplies(t, docs, start)| == |docs|
    ensures ZAddReplies(t, docs, start)[j] == 1 <==> docs[j] !in AddAll(t, docs[..j], start)
    decreases |docs|
  {
    var init := docs[..|docs| - 1];
    RepliesLength(t, init, start);
    if j < |init| {
      assert docs[..j] == init[..j];
      ReplyAt(t, init, start, j);
    }
  }

  lemma {:induction false} RepliesLength(t: Tape, docs: seq<int>, start: int)
    ensures |ZAddReplies(t, docs, start)| == |docs|
    decreases |docs|
  {
    if docs != [] { RepliesLength(t, docs[..|docs| - 1], start); }
  }

  lemma AddAllLast(t: Tape, docs: seq<int>, i: nat, start: int)
    requires i < |docs|
    ensures AddAll(t, docs[..i + 1], start) == ZAddNx(AddAll(t, docs[..i], start), docs[i], start + i)
    ensures ZAddReplies(t, docs[..i + 1], start) ==
              ZAddReplies(t, docs[..i], start) + [if docs[i] in AddAll(t, docs[..i], start) then 0 else 1]
  {
    assert docs[..i + 1][..i] == docs[..i];
  }

  lemma AddedNext(t: Tape, docs: seq<int>, i: nat, start: int)
    requires i < |docs|
    ensures Added(t, docs[..i + 1], start) == Added(t, docs[..i], start) +
              (if docs[i] in AddAll(t, docs[..i], start) then [] else [Row(start + i, docs[i])])
  {
    assert docs[..i + 1][..i] == docs[..i];
  }
}
