/** What a run of the generator achieves: laws about the state Worker.After it leaves. */
module RunLaws {
  import opened Prelude
  import opened SortedSet
  import opened Candidates
  import opened Paging
  import opened Store
  import opened Database
  import opened Generator
  import opened Worker
  import opened TapeApi
  import Lock

  // --- the tape of a run that is not stopped ----------------------------------------------------

  lemma StartIsAbove(t: Tape, dirty: bool)
    ensures Above(Base(t, dirty), Start(t, dirty))
    ensures Existing(t, dirty) <= Base(t, dirty).Keys
  {
    MaxPositionExact(t);
    PageDocsAreEntries(t, EXISTING_LIMIT);
  }

  /** What a run lists: what it kept, then what it reports as added; so its counts add up. */
  lemma {:induction false} SizesAddUp(t: Tape, dirty: bool, rows: seq<int>)
    requires NoDuplicates(rows)
    ensures Rows(Generated(t, dirty, rows)) == Rows(Base(t, dirty)) + Gained(t, dirty, rows)
    ensures |Generated(t, dirty, rows)| == |t| - Removed(t, dirty) + |Gained(t, dirty, rows)|
  {
    StartIsAbove(t, dirty);
    WithoutKeepsDistinct(rows, Existing(t, dirty));
    AppendExtendsListing(Base(t, dirty), Submitted(t, dirty, rows), Start(t, dirty));
  }

  lemma GainedDocs(t: Tape, dirty: bool, rows: seq<int>)
    requires NoDuplicates(rows)
    ensures DocsOf(Gained(t, dirty, rows)) == Without(rows, Base(t, dirty).Keys)
  {
    StartIsAbove(t, dirty);
    ExcludeIsOnlyAnOptimisation(Base(t, dirty), rows, Existing(t, dirty), Start(t, dirty));
  }

  /** A top-up keeps every old entry at its position, puts the new ones strictly behind them, in query order, and
      leaves no queried candidate out. */
  lemma IncrementalCovers(t: Tape, rows: seq<int>)
    requires NoDuplicates(rows)
    ensures forall d :: d in t ==> d in Generated(t, false, rows) && Generated(t, false, rows)[d] == t[d]
    ensures forall d :: d in rows ==> d in Generated(t, false, rows)
    ensures forall d :: d in Generated(t, false, rows) ==> d in t || d in rows
    ensures forall d, e :: d in t && e in Generated(t, false, rows) && e !in t ==> t[d] < Generated(t, false, rows)[e]
    ensures DocsOf(Rows(Generated(t, false, rows))) == DocsOf(Rows(t)) + Without(rows, t.Keys)
    ensures DistinctPositions(t) ==> DistinctPositions(Generated(t, false, rows))
  {
    var docs, start, t' := Submitted(t, false, rows), Start(t, false), Generated(t, false, rows);
    StartIsAbove(t, false);
    WithoutKeepsDistinct(rows, Existing(t, false));
    WithoutExact(rows, Existing(t, false));
    AddAllExact(t, docs, start);
    SizesAddUp(t, false, rows);
    GainedDocs(t, false, rows);
    DocsOfAppend(Rows(t), Gained(t, false, rows));
    if DistinctPositions(t) { AppendKeepsDistinct(t, docs, start); }
    forall e | e in t' && e !in t ensures start <= t'[e] {
      var i :| 0 <= i < |docs| && docs[i] == e;
    }
  }

  /** A second run over unchanged data adds nothing and moves nothing. */
  lemma SecondRunAddsNothing(t: Tape, dirty: bool, rows: seq<int>)
    requires NoDuplicates(rows)
    ensures Gained(Generated(t, dirty, rows), false, rows) == []
    ensures Generated(Generated(t, dirty, rows), false, rows) == Generated(t, dirty, rows)
  {
    var t' := Generated(t, dirty, rows);
    StartIsAbove(t, dirty);
    WithoutKeepsDistinct(rows, Existing(t, dirty));
    WithoutExact(rows, Existing(t, dirty));
    AddAllExact(Base(t, dirty), Submitted(t, dirty, rows), Start(t, dirty));
    forall d | d in rows ensures d in t' { }
    GainedDocs(t', false, rows);
    WithoutExact(rows, t'.Keys);
    SomebodyIn(Without(rows, t'.Keys));
    NothingNew(t', Submitted(t', false, rows), Start(t', false));
  }

  lemma SomebodyIn(s: seq<int>)
    ensures s == [] || exists x :: x in s
  {
    if s != [] {
      var x := s[0];
      assert x in s;
    }
  }

  lemma {:induction false} NothingNew(t: Tape, docs: seq<int>, start: int)
    requires Added(t, docs, start) == []
    ensures AddAll(t, docs, start) == t
    decreases |docs|
  {
    if docs != [] { NothingNew(t, docs[..|docs| - 1], start); }
  }

  /** The rows of a tape that holds docs at positions 0, 1, 2, ... */
  function Numbered(docs: seq<int>): (rows: seq<Row>)
    ensures |rows| == |docs| && forall i :: 0 <= i < |docs| ==> rows[i] == Row(i, docs[i])
  {
    seq(|docs|, i requires 0 <= i < |docs| => Row(i, docs[i]))
  }

  lemma {:induction false} AllAreNew(docs: seq<int>)
    requires NoDuplicates(docs)
    ensures Added(map[], docs, 0) == Numbered(docs)
    decreases |docs|
  {
    if docs != [] {
      var init, last := docs[..|docs| - 1], docs[|docs| - 1];
      assert docs == init + [last] && last !in init;
      AllAreNew(init);
      AddedLast(map[], init, last, 0);
    }
  }

  /** A rebuild lists exactly the answer, at positions 0 to n - 1. */
  lemma RebuildLists(t: Tape, rows: seq<int>)
    requires NoDuplicates(rows)
    ensures Rows(Generated(t, true, rows)) == Numbered(rows)
    ensures DistinctPositions(Generated(t, true, rows))
  {
    SizesAddUp(t, true, rows);
    WithoutNothing(rows);
    AllAreNew(rows);
    AppendKeepsDistinct(map[], rows, 0);
  }

  lemma RebuildWalks(t: Tape, rows: seq<int>, limit: nat, n: nat)
    requires NoDuplicates(rows) && limit >= 1 && n > |rows|
    ensures Walk(Visits(Generated(t, true, rows), limit, n), None) == Numbered(rows)
    ensures Reached(Visits(Generated(t, true, rows), limit, n), None) == Ended
  {
    RebuildLists(t, rows);
    StillWalk(Visits(Generated(t, true, rows), limit, n), Generated(t, true, rows), None);
  }

  // --- a whole run ------------------------------------------------------------------------------

  /** generate_for_user returned after a full or incremental run. */
  predicate Succeeds(s: UserState, now: int, dirty: bool, rows: seq<int>, fault: Fault) {
    var res := OutcomeOf(s, now, dirty, rows, fault);
    res.Returned? && !res.kind.Skipped?
  }

  /** The events a run adds to its user's channel. */
  function News(s: UserState, s': UserState): seq<Event> {
    if s.events <= s'.events then s'.events[|s.events|..] else []
  }

  lemma TapeOfSuccess(s: UserState, now: int, dirty: bool, rows: seq<int>, ttl: nat, run: nat, luck: Luck,
                      sent: seq<Event>)
    requires Succeeds(s, now, dirty, rows, luck.fault)
    ensures After(s, now, dirty, rows, ttl, run, luck, sent).tape == Generated(s.tape, dirty, rows)
  {
  }

  /** Cache agrees with query. After a successful full run, walking the tape with any page size reads exactly the
      answer of the query, in its order, at positions 0 to n - 1, and the walk ends; the answer is the unscored
      documents of the configured sources and dates, each once, sorted by publication as configured. */
  lemma {:induction false} CacheAgreesWithQuery(s: UserState, now: int, db: Snapshot, user: int, ttl: nat, run: nat,
                                                luck: Luck, sent: seq<Event>, limit: nat, n: nat)
    requires Lays(db.docs, db.physical) && Succeeds(s, now, true, RowsFor(db, user, s), luck.fault)
    requires limit >= 1 && n > |RowsFor(db, user, s)|
    ensures var t, rows := After(s, now, true, RowsFor(db, user, s), ttl, run, luck, sent).tape, RowsFor(db, user, s);
            && IsAnswer(db.docs, ScoredBy(db, user), SelectionOf(s), rows)
            && Walk(Visits(t, limit, n), None) == Numbered(rows)
            && Reached(Visits(t, limit, n), None) == Ended
  {
    var rows := RowsFor(db, user, s);
    AnswerIsCorrect(db.docs, ScoredBy(db, user), SelectionOf(s), db.physical);
    TapeOfSuccess(s, now, true, rows, ttl, run, luck, sent);
    RebuildWalks(s.tape, rows, limit, n);
  }

  /** What a successful run leaves in the tape, in terms of the tables: a rebuild exactly, and a top-up beside what was
      there, the documents that lie in the user's sources, from dateFrom to dateTo inclusive, and that no role of this
      user has scored. */
  lemma {:induction false} TapeHoldsTheUnscored(s: UserState, now: int, dirty: bool, db: Snapshot, user: int, ttl: nat,
                                                run: nat, luck: Luck, sent: seq<Event>, d: int)
    requires Lays(db.docs, db.physical) && Succeeds(s, now, dirty, RowsFor(db, user, s), luck.fault)
    ensures var t := After(s, now, dirty, RowsFor(db, user, s), ttl, run, luck, sent).tape;
            var range := s.hash.value.range;
            d in t <==>
              || (!dirty && d in s.tape)
              || (&& d in db.docs && db.docs[d].source in s.sources
                  && (range.dateFrom.Some? ==> range.dateFrom.value <= db.docs[d].published)
                  && (range.dateTo.Some? ==> db.docs[d].published <= range.dateTo.value)
                  && forall role :: Score(user, role, d) !in db.scores)
  {
    var rows := RowsFor(db, user, s);
    SelectAnswers(db, user, SelectionOf(s), d);
    TapeOfSuccess(s, now, dirty, rows, ttl, run, luck, sent);
    GeneratedHolds(s.tape, dirty, rows, d);
    DecodeExact(s.hash.value);
  }

  lemma GeneratedHolds(t: Tape, dirty: bool, rows: seq<int>, d: int)
    requires NoDuplicates(rows)
    ensures d in Generated(t, dirty, rows) <==> (!dirty && d in t) || d in rows
  {
    StartIsAbove(t, dirty);
    WithoutKeepsDistinct(rows, Existing(t, dirty));
    WithoutExact(rows, Existing(t, dirty));
    AddAllExact(Base(t, dirty), Submitted(t, dirty, rows), Start(t, dirty));
  }

  /** And a rebuild numbers them from 0 by publication, the oldest first if the config says so, else the newest. */
  lemma {:induction false} RebuildSorts(s: UserState, now: int, db: Snapshot, user: int, ttl: nat, run: nat, luck: Luck,
                                        sent: seq<Event>, d: int, e: int)
    requires Lays(db.docs, db.physical) && Succeeds(s, now, true, RowsFor(db, user, s), luck.fault)
    ensures var t := After(s, now, true, RowsFor(db, user, s), ttl, run, luck, sent).tape;
            && (d in t ==> d in db.docs && 0 <= t[d] < |t|)
            && (d in t && e in t && t[d] < t[e] ==>
                  && d in db.docs && e in db.docs
                  && if s.hash.value.descending == Some(false) then db.docs[d].published <= db.docs[e].published
                     else db.docs[d].published >= db.docs[e].published)
  {
    var rows := RowsFor(db, user, s);
    var t := Generated(s.tape, true, rows);
    AnswerIsCorrect(db.docs, ScoredBy(db, user), SelectionOf(s), db.physical);
    TapeOfSuccess(s, now, true, rows, ttl, run, luck, sent);
    DecodeExact(s.hash.value);
    RankInRebuild(s.tape, rows, d);
    RankInRebuild(s.tape, rows, e);
    if d in t && e in t && t[d] < t[e] { SelectSorts(db, user, SelectionOf(s), t[d], t[e]); }
  }

  lemma RankInRebuild(t: Tape, rows: seq<int>, d: int)
    requires NoDuplicates(rows)
    ensures |Generated(t, true, rows)| == |rows|
    ensures d in Generated(t, true, rows) ==>
              0 <= Generated(t, true, rows)[d] < |rows| && rows[Generated(t, true, rows)[d]] == d
  {
    var t' := Generated(t, true, rows);
    RebuildLists(t, rows);
    RowsListTape(t');
    if d in t' {
      assert Row(t'[d], d) in Numbered(rows);
    }
  }

  /** What another user scores is no matter to a run. */
  lemma OthersScoresDoNotMatter(s: UserState, db: Snapshot, user: int, score: Score)
    requires score.user != user
    ensures RowsFor(db.(scores := db.scores + {score}), user, s) == RowsFor(db, user, s)
  {
    if s.hash.Some? { ScoreCountsForItsUser(db, score, user, SelectionOf(s)); }
  }

  /** The exclude page is the first ten thousand entries: a tape that is no longer is excluded whole ... */
  lemma ExcludesShortTape(t: Tape)
    requires |t| <= 10_000
    ensures Existing(t, false) == t.Keys
  {
    RowsListTape(t);
    assert Page(t, None, EXISTING_LIMIT) == Rows(t);
    forall d | d in t ensures d in RowDocs(Rows(t)) {
      assert Row(t[d], d) in Rows(t) && Row(t[d], d).doc == d;
    }
    PageDocsAreEntries(t, EXISTING_LIMIT);
  }

  /** ... and of a longer one the first ten thousand. */
  lemma ExcludesTenThousand(t: Tape)
    requires |t| > 10_000
    ensures Existing(t, false) == RowDocs(Rows(t)[..10_000])
  {
  }

  // --- events -----------------------------------------------------------------------------------

  function Replay1(t: Tape, e: Event): Tape {
    match e
    case ScheduleStarted(_, kind) => if kind.Full? then map[] else t
    case EntryAdded(pos, doc) => t[doc := pos]
    case EntryRemoved(doc) => t - {doc}
    case _ => t
  }

  /** What a client that folds the events over the tape it has ends up with. */
  function Replay(t: Tape, events: seq<Event>): Tape
    decreases |events|
  {
    if events == [] then t else Replay1(Replay(t, events[..|events| - 1]), events[|events| - 1])
  }

  lemma ReplayLast(t: Tape, events: seq<Event>, e: Event)
    ensures Replay(t, events + [e]) == Replay1(Replay(t, events), e)
  {
    assert (events + [e])[..|events|] == events;
  }

  lemma {:induction false} ReplayTwoParts(t: Tape, a: seq<Event>, b: seq<Event>)
    ensures Replay(t, a + b) == Replay(Replay(t, a), b)
    decreases |b|
  {
    if b == [] {
      assert a + b == a;
    } else {
      var init, last := b[..|b| - 1], b[|b| - 1];
      assert a + b == (a + init) + [last] && b == init + [last];
      ReplayTwoParts(t, a, init);
      ReplayLast(t, a + init, last);
    }
  }

  lemma {:induction false} ReplayAdds(t: Tape, docs: seq<int>, start: int)
    ensures Replay(t, Adds(Added(t, docs, start))) == AddAll(t, docs, start)
    decreases |docs|
  {
    if docs != [] {
      var n := |docs| - 1;
      var rows := Added(t, docs[..n], start);
      ReplayAdds(t, docs[..n], start);
      if docs[n] !in AddAll(t, docs[..n], start) {
        assert Adds(rows + [Row(start + n, docs[n])]) == Adds(rows) + [EntryAdded(start + n, docs[n])];
        ReplayLast(t, Adds(rows), EntryAdded(start + n, docs[n]));
      } else {
        assert rows + [] == rows;
      }
    }
  }

  /** All the locked region publishes. */
  function Told(run: nat, kind: Kind, fault: Fault, sent: seq<Event>): seq<Event> {
    Preface(run, kind, fault) + if FailsOpening(fault) then [] else sent
  }

  lemma LockedTells(s: UserState, dirty: bool, rows: seq<int>, run: nat, fault: Fault, sent: seq<Event>)
    ensures LockedState(s, dirty, rows, run, fault, sent).events == s.events + Told(run, KindOf(dirty), fault, sent)
  {
    var preface := Preface(run, KindOf(dirty), fault);
    assert (s.events + preface) + sent == s.events + (preface + sent);
    assert preface + [] == preface;
  }

  lemma RunTells(s: UserState, now: int, dirty: bool, rows: seq<int>, ttl: nat, run: nat, luck: Luck, sent: seq<Event>)
    requires Engages(s, now, luck.fault)
    ensures var s' := After(s, now, dirty, rows, ttl, run, luck, sent);
            && s'.events == s.events + (Told(run, KindOf(dirty), luck.fault, sent) + [LockReleased])
            && News(s, s') == Told(run, KindOf(dirty), luck.fault, sent) + [LockReleased]
  {
    LockedTells(Asked(s, now, ttl, luck), dirty, rows, run, luck.fault, sent);
    var told := Told(run, KindOf(dirty), luck.fault, sent);
    assert (s.events + told) + [LockReleased] == s.events + (told + [LockReleased]);
  }

  /** What a successful run tells, from lock.acquired to lock.released, all under one run id. */
  function Story(t: Tape, dirty: bool, rows: seq<int>, run: nat): seq<Event> {
    [LockAcquired] + [ScheduleStarted(run, KindOf(dirty))] + Announcement(t, dirty, rows, run) + [LockReleased]
  }

  lemma {:induction false} SuccessTellsItsStory(s: UserState, now: int, dirty: bool, rows: seq<int>, ttl: nat,
                                                run: nat, luck: Luck, sent: seq<Event>)
    requires Succeeds(s, now, dirty, rows, luck.fault) && Announced(s.tape, dirty, rows, run, luck.fault, sent)
    ensures News(s, After(s, now, dirty, rows, ttl, run, luck, sent)) == Story(s.tape, dirty, rows, run)
  {
    RunTells(s, now, dirty, rows, ttl, run, luck, sent);
  }

  /** Folding a successful run's events over the old tape gives the new tape, and its counts are true. */
  lemma EventsReplayTheRun(s: UserState, now: int, dirty: bool, rows: seq<int>, ttl: nat, run: nat, luck: Luck,
                           sent: seq<Event>)
    requires NoDuplicates(rows)
    requires Succeeds(s, now, dirty, rows, luck.fault) && Announced(s.tape, dirty, rows, run, luck.fault, sent)
    ensures var s' := After(s, now, dirty, rows, ttl, run, luck, sent);
            && Replay(s.tape, News(s, s')) == s'.tape
            && |s'.tape| == |s.tape| - Removed(s.tape, dirty) + |Gained(s.tape, dirty, rows)|
  {
    SuccessTellsItsStory(s, now, dirty, rows, ttl, run, luck, sent);
    TapeOfSuccess(s, now, dirty, rows, ttl, run, luck, sent);
    SizesAddUp(s.tape, dirty, rows);
    StoryReplays(s.tape, dirty, rows, run);
  }

  /** The story in full: its length, its ends, and its counts are those of the tape. */
  lemma {:induction false} SuccessInFull(s: UserState, now: int, dirty: bool, rows: seq<int>, ttl: nat, run: nat,
                                         luck: Luck, sent: seq<Event>)
    requires NoDuplicates(rows)
    requires Succeeds(s, now, dirty, rows, luck.fault) && Announced(s.tape, dirty, rows, run, luck.fault, sent)
    ensures var s' := After(s, now, dirty, rows, ttl, run, luck, sent);
            var news, kind := News(s, s'), if dirty then Full else Incremental;
            var added, removed := |s'.tape| - (if dirty then 0 else |s.tape|), if dirty then |s.tape| else 0;
            && added >= 0 && |news| == added + 5
            && news[0] == LockAcquired && news[1] == ScheduleStarted(run, kind)
            && news[added + 2] == Regenerated(kind, added, removed)
            && news[added + 3] == ScheduleCompleted(run, true) && news[added + 4] == LockReleased
  {
    SuccessTellsItsStory(s, now, dirty, rows, ttl, run, luck, sent);
    TapeOfSuccess(s, now, dirty, rows, ttl, run, luck, sent);
    SizesAddUp(s.tape, dirty, rows);
    StoryEntries(s.tape, dirty, rows, run);
  }

  /** Between them stands one event for every entry the run made new, at the entry's position, in position order. */
  lemma {:induction false} SuccessTellsEveryEntry(s: UserState, now: int, dirty: bool, rows: seq<int>, ttl: nat,
                                                  run: nat, luck: Luck, sent: seq<Event>)
    requires NoDuplicates(rows)
    requires Succeeds(s, now, dirty, rows, luck.fault) && Announced(s.tape, dirty, rows, run, luck.fault, sent)
    ensures var s' := After(s, now, dirty, rows, ttl, run, luck, sent);
            var news, t, t' := News(s, s'), s.tape, s'.tape;
            && (forall p, d :: EntryAdded(p, d) in news <==> d in t' && t'[d] == p && (dirty || d !in t))
            && (forall i, j :: 0 <= i < j < |news| && news[i].EntryAdded? && news[j].EntryAdded? ==>
                  news[i].pos < news[j].pos)
  {
    SuccessTellsItsStory(s, now, dirty, rows, ttl, run, luck, sent);
    TapeOfSuccess(s, now, dirty, rows, ttl, run, luck, sent);
    StoryEntries(s.tape, dirty, rows, run);
    GainedIsNew(s.tape, dirty, rows);
    EntriesOf(Story(s.tape, dirty, rows, run), Gained(s.tape, dirty, rows));
    forall p, d
      ensures Row(p, d) in Gained(s.tape, dirty, rows) <==>
                d in Generated(s.tape, dirty, rows) && Generated(s.tape, dirty, rows)[d] == p && (dirty || d !in s.tape)
    {
      assert Row(p, d).doc == d && Row(p, d).pos == p;
    }
  }

  lemma GainedIsNew(t: Tape, dirty: bool, rows: seq<int>)
    requires NoDuplicates(rows)
    ensures var t' := Generated(t, dirty, rows);
            forall r :: r in Gained(t, dirty, rows) <==> r.doc in t' && t'[r.doc] == r.pos && (dirty || r.doc !in t)
    ensures Increasing(Gained(t, dirty, rows))
  {
    WithoutKeepsDistinct(rows, Existing(t, dirty));
    AppendedRowsAreListed(Base(t, dirty), Submitted(t, dirty, rows), Start(t, dirty));
    AddedPositions(Base(t, dirty), Submitted(t, dirty, rows), Start(t, dirty));
  }

  /** A story has two opening events, those of the rows gained, in their order, and three closing events. */
  lemma StoryEntries(t: Tape, dirty: bool, rows: seq<int>, run: nat)
    ensures var story, gained := Story(t, dirty, rows, run), Gained(t, dirty, rows);
            && |story| == |gained| + 5
            && (forall i :: 0 <= i < |gained| ==> story[i + 2] == EntryAdded(gained[i].pos, gained[i].doc))
            && story[0] == LockAcquired && story[1] == ScheduleStarted(run, if dirty then Full else Incremental)
            && story[|gained| + 2] ==
                 Regenerated(if dirty then Full else Incremental, |gained|, if dirty then |t| else 0)
            && story[|gained| + 3] == ScheduleCompleted(run, true) && story[|gained| + 4] == LockReleased
  {
    var gained := Gained(t, dirty, rows);
    var opening := [LockAcquired] + [ScheduleStarted(run, KindOf(dirty))];
    var closing := Closing(run, KindOf(dirty), |gained|, Removed(t, dirty), true) + [LockReleased];
    assert Story(t, dirty, rows, run) == opening + Adds(gained) + closing;
  }

  lemma EntriesOf(story: seq<Event>, gained: seq<Row>)
    requires |story| == |gained| + 5 && Increasing(gained)
    requires forall i :: 0 <= i < |gained| ==> story[i + 2] == EntryAdded(gained[i].pos, gained[i].doc)
    requires forall i :: i in {0, 1, |gained| + 2, |gained| + 3, |gained| + 4} ==> !story[i].EntryAdded?
    ensures forall p, d :: EntryAdded(p, d) in story <==> Row(p, d) in gained
    ensures forall i, j :: 0 <= i < j < |story| && story[i].EntryAdded? && story[j].EntryAdded? ==>
              story[i].pos < story[j].pos
  {
    assert forall i :: 0 <= i < |story| && story[i].EntryAdded? ==>
        2 <= i < |gained| + 2 && story[i] == EntryAdded(gained[i - 2].pos, gained[i - 2].doc);
    forall p, d | EntryAdded(p, d) in story ensures Row(p, d) in gained {
      var i :| 0 <= i < |story| && story[i] == EntryAdded(p, d);
      assert gained[i - 2] == Row(p, d);
    }
    forall p, d | Row(p, d) in gained ensures EntryAdded(p, d) in story {
      var i :| 0 <= i < |gained| && gained[i] == Row(p, d);
      assert story[i + 2] == EntryAdded(p, d);
    }
  }

  lemma StoryReplays(t: Tape, dirty: bool, rows: seq<int>, run: nat)
    ensures Replay(t, Story(t, dirty, rows, run)) == Generated(t, dirty, rows)
  {
    var opening := [LockAcquired] + [ScheduleStarted(run, KindOf(dirty))];
    var gained := Gained(t, dirty, rows);
    var closing := Closing(run, KindOf(dirty), |gained|, Removed(t, dirty), true) + [LockReleased];
    assert Story(t, dirty, rows, run) == (opening + Adds(gained)) + closing;
    ReplayTwoParts(t, opening + Adds(gained), closing);
    ReplayTwoParts(t, opening, Adds(gained));
    OpeningClears(t, dirty, run);
    ReplayAdds(Base(t, dirty), Submitted(t, dirty, rows), Start(t, dirty));
    ReplaySilent(Generated(t, dirty, rows), closing);
  }

  lemma OpeningClears(t: Tape, dirty: bool, run: nat)
    ensures Replay(t, [LockAcquired] + [ScheduleStarted(run, KindOf(dirty))]) == Base(t, dirty)
  {
    ReplayLast(t, [LockAcquired], ScheduleStarted(run, KindOf(dirty)));
    ReplayLast(t, [], LockAcquired);
    assert [] + [LockAcquired] == [LockAcquired];
  }

  lemma {:induction false} ReplaySilent(t: Tape, events: seq<Event>)
    requires forall e :: e in events ==> !e.ScheduleStarted? && !e.EntryAdded? && !e.EntryRemoved?
    ensures Replay(t, events) == t
    decreases |events|
  {
    if events != [] {
      assert events[|events| - 1] in events;
      ReplaySilent(t, events[..|events| - 1]);
    }
  }

  lemma ReplayLastRemoval(t: Tape, events: seq<Event>, last: Row, hidden: set<int>)
    ensures Replay(t, events + if last.doc in hidden then [EntryRemoved(last.doc)] else []) ==
            if last.doc in hidden then Replay(t, events) - {last.doc} else Replay(t, events)
  {
    if last.doc in hidden { ReplayLast(t, events, EntryRemoved(last.doc)); } else { assert events + [] == events; }
  }

  /** So do the events of GET /tape for the entries it takes out. */
  lemma {:induction false} RemovalsReplay(t: Tape, rows: seq<Row>, hidden: set<int>)
    ensures Replay(t, Removals(rows, hidden)) == t - RowDocs(rows) * hidden
    decreases |rows|
  {
    if rows == [] {
      assert RowDocs(rows) * hidden == {};
    } else {
      var init, last := rows[..|rows| - 1], rows[|rows| - 1];
      assert rows == init + [last];
      RemovalsReplay(t, init, hidden);
      OneMoreOut(t, rows, |init|, hidden);
      ReplayLastRemoval(t, Removals(init, hidden), last, hidden);
    }
  }

  /** So does the one event of POST /score, and of the listener when it has removed something. */
  lemma RemoversTell(s: UserState, doc: int)
    ensures News(s, ScorePosted(s, doc)) == [EntryRemoved(doc)]
    ensures Replay(s.tape, [EntryRemoved(doc)]) == ScorePosted(s, doc).tape
    ensures News(s, Handled(s, doc)) == if doc in s.tape then [EntryRemoved(doc)] else []
    ensures Handled(s, doc).tape == ScorePosted(s, doc).tape
  {
    ReplayLast(s.tape, [], EntryRemoved(doc));
    assert [] + [EntryRemoved(doc)] == [EntryRemoved(doc)];
    assert doc !in s.tape ==> s.tape - {doc} == s.tape;
  }

  // --- runs that fail ---------------------------------------------------------------------------

  /** Whatever fails: lock.released is published exactly once, as the run's last event, if the lock was got, and not
      at all otherwise. */
  lemma {:induction false} ReleasedExactlyOnce(s: UserState, now: int, dirty: bool, rows: seq<int>, ttl: nat, run: nat,
                                               luck: Luck, sent: seq<Event>)
    requires Plain(sent)
    ensures var s' := After(s, now, dirty, rows, ttl, run, luck, sent);
            var news := News(s, s');
            && s'.events == s.events + news
            && (Engages(s, now, luck.fault) ==>
                news != [] && news[|news| - 1] == LockReleased && LockReleased !in news[..|news| - 1])
            && (!Engages(s, now, luck.fault) ==> news == [])
  {
    if Engages(s, now, luck.fault) {
      RunTells(s, now, dirty, rows, ttl, run, luck, sent);
      OnceAndLast(Told(run, KindOf(dirty), luck.fault, sent));
    } else {
      assert s.events + [] == s.events;
    }
  }

  lemma OnceAndLast(told: seq<Event>)
    requires Plain(told)
    ensures var news := told + [LockReleased];
            news != [] && news[|news| - 1] == LockReleased && LockReleased !in news[..|news| - 1]
  {
    assert (told + [LockReleased])[..|told|] == told;
  }

  /** And when it is published, the run's key is gone if the run stayed within its TTL; else the key has expired, and is
      left for the next run to take. */
  lemma TokenIsGone(s: UserState, now: int, dirty: bool, rows: seq<int>, ttl: nat, run: nat, luck: Luck,
                    sent: seq<Event>)
    requires Engages(s, now, luck.fault)
    ensures var cell := After(s, now, dirty, rows, ttl, run, luck, sent).cell;
            && cell == (if luck.elapsed < ttl then None else Some(Lock.Hold(luck.token, now + ttl)))
            && !Lock.Live(cell, now + luck.elapsed)
  {
  }

  function Records(t: Tape, dirty: bool, rows: seq<int>, run: nat, fault: Fault): seq<RunRecord> {
    var n := |Gained(t, dirty, rows)|;
    if FailsOpening(fault) then []
    else
      OkRecord(run, n, Removed(t, dirty), fault, dirty) + ErrorRecord(run, Reported(t, dirty, fault), fault, dirty, n)
  }

  lemma RecordsUnderLock(s: UserState, dirty: bool, rows: seq<int>, run: nat, fault: Fault, sent: seq<Event>)
    ensures LockedState(s, dirty, rows, run, fault, sent).runs ==
            s.runs + (Receipt(run, KindOf(dirty), fault) + Records(s.tape, dirty, rows, run, fault))
  {
    var receipt, n := Receipt(run, KindOf(dirty), fault), |Gained(s.tape, dirty, rows)|;
    var ok := OkRecord(run, n, Removed(s.tape, dirty), fault, dirty);
    var error := ErrorRecord(run, Reported(s.tape, dirty, fault), fault, dirty, n);
    Regroup(s.runs, receipt, ok);
    Regroup(s.runs, receipt + ok, error);
    Regroup(receipt, ok, error);
    assert receipt + [] == receipt;
  }

  lemma OkByCall(fault: Fault, dirty: bool, n: nat)
    requires !FailsOpening(fault)
    ensures OkRecorded(fault, dirty, n) <==>
              match fault.site
              case None => true
              case Some(site) =>
                match site
                case DeleteAll => !dirty
                case ReadMax => dirty
                case ReadPage => dirty
                case Query => false
                case Append => false
                case PubAdded(i) => i >= n
                case ClearFlag => !dirty
                case FinishOk => fault.served > 0
                case _ => true
  {
  }

  lemma StopsByCall(fault: Fault, dirty: bool, n: nat)
    ensures FailsOpening(fault) || Stops(fault, dirty, n) <==>
              match fault.site
              case None => false
              case Some(site) =>
                match site
                case PubAcquired => true
                case Incr => true
                case XAddRunning => true
                case PubStarted => true
                case DeleteAll => dirty
                case ReadMax => !dirty
                case ReadPage => !dirty
                case Query => true
                case Append => true
                case PubAdded(i) => i < n
                case ClearFlag => dirty
                case FinishOk => true
                case PubRegenerated => true
                case PubCompleted => true
                case _ => false
  {
  }

  lemma ReceiptByCall(run: nat, dirty: bool, fault: Fault)
    ensures var begun := [Running(run, if dirty then Full else Incremental)];
            Receipt(run, KindOf(dirty), fault) ==
              match fault.site
              case None => begun
              case Some(site) =>
                match site
                case PubAcquired => []
                case Incr => []
                case XAddRunning => if fault.served > 0 then begun else []
                case _ => begun
  {
  }

  lemma TerminalsByCall(t: Tape, dirty: bool, rows: seq<int>, run: nat, fault: Fault)
    requires !FailsOpening(fault)
    ensures var n, removed := |Gained(t, dirty, rows)|, if dirty then |t| else 0;
            var ok, failed := [Terminal(run, true, n, removed)], [Terminal(run, false, 0, removed)];
            Records(t, dirty, rows, run, fault) ==
              match fault.site
              case None => ok
              case Some(site) =>
                match site
                case DeleteAll => if dirty then [Terminal(run, false, 0, 0)] else ok
                case ReadMax => if dirty then ok else failed
                case ReadPage => if dirty then ok else failed
                case Query => failed
                case Append => failed
                case PubAdded(i) => if i < n then failed else ok
                case ClearFlag => if dirty then failed else ok
                case FinishOk => if fault.served > 0 then ok + failed else failed
                case PubRegenerated => ok + failed
                case PubCompleted => ok + failed
                case _ => ok
  {
    StopsByCall(fault, dirty, |Gained(t, dirty, rows)|);
    OkByCall(fault, dirty, |Gained(t, dirty, rows)|);
  }

  lemma RecordsByCall(t: Tape, dirty: bool, rows: seq<int>, run: nat, fault: Fault)
    ensures var n, removed := |Gained(t, dirty, rows)|, if dirty then |t| else 0;
            var begun := [Running(run, if dirty then Full else Incremental)];
            var ok, failed := begun + [Terminal(run, true, n, removed)], begun + [Terminal(run, false, 0, removed)];
            Receipt(run, KindOf(dirty), fault) + Records(t, dirty, rows, run, fault) ==
              match fault.site
              case None => ok
              case Some(site) =>
                match site
                case PubAcquired => []
                case Incr => []
                case XAddRunning => if fault.served > 0 then begun else []
                case PubStarted => begun
                case DeleteAll => if dirty then begun + [Terminal(run, false, 0, 0)] else ok
                case ReadMax => if dirty then ok else failed
                case ReadPage => if dirty then ok else failed
                case Query => failed
                case Append => failed
                case PubAdded(i) => if i < n then failed else ok
                case ClearFlag => if dirty then failed else ok
                case FinishOk => if fault.served > 0 then ok + [Terminal(run, false, 0, removed)] else failed
                case PubRegenerated => ok + [Terminal(run, false, 0, removed)]
                case PubCompleted => ok + [Terminal(run, false, 0, removed)]
                case _ => ok
  {
    ReceiptByCall(run, dirty, fault);
    if !FailsOpening(fault) { TerminalsByCall(t, dirty, rows, run, fault); }
  }

  /** A run that got the lock raises exactly when the failing call is one it makes; else it returns its kind and the
      number of entries it made new. */
  lemma RaisesByCall(s: UserState, now: int, dirty: bool, rows: seq<int>, fault: Fault)
    requires Engages(s, now, fault)
    ensures OutcomeOf(s, now, dirty, rows, fault) in
              {Raised, Returned(if dirty then Full else Incremental, |Gained(s.tape, dirty, rows)|)}
    ensures OutcomeOf(s, now, dirty, rows, fault) == Raised <==>
              match fault.site
              case None => false
              case Some(site) =>
                match site
                case PubAcquired => true
                case Incr => true
                case XAddRunning => true
                case PubStarted => true
                case DeleteAll => dirty
                case ReadMax => !dirty
                case ReadPage => !dirty
                case Query => true
                case Append => true
                case PubAdded(i) => i < |Gained(s.tape, dirty, rows)|
                case ClearFlag => dirty
                case FinishOk => true
                case PubRegenerated => true
                case PubCompleted => true
                case _ => false
  {
    StopsByCall(fault, dirty, |Gained(s.tape, dirty, rows)|);
  }

  /** One that does not get so far is skipped, without a config, without sources or while another holds the lock, unless
      the call that would tell fails, or one of the two that drop the tape and the flag. */
  lemma SkipsOrRaises(s: UserState, now: int, dirty: bool, rows: seq<int>, fault: Fault)
    requires !Engages(s, now, fault)
    ensures OutcomeOf(s, now, dirty, rows, fault) in {Raised, Returned(Skipped, 0)}
    ensures OutcomeOf(s, now, dirty, rows, fault) == Raised <==>
              match fault.site
              case None => false
              case Some(site) =>
                match site
                case ReadConfig => true
                case ReadSources => s.hash.Some?
                case SetLock => s.hash.Some? && s.sources != {}
                case DropTape => s.hash.Some? && s.sources == {} && dirty
                case DropFlag => s.hash.Some? && s.sources == {} && dirty
                case _ => false
  {
  }

  /** The end of a run that raises under the lock, by the failing call: before the inner try block it says no more than
      it had come to; later it ends with no entries added, the number it had deleted, and `error`. */
  lemma {:induction false} FailureInFull(s: UserState, now: int, dirty: bool, rows: seq<int>, ttl: nat, run: nat,
                                         luck: Luck, sent: seq<Event>)
    requires Engages(s, now, luck.fault) && OutcomeOf(s, now, dirty, rows, luck.fault) == Raised
    requires !FailsOpening(luck.fault) ==> Announced(s.tape, dirty, rows, run, luck.fault, sent)
    ensures var news := News(s, After(s, now, dirty, rows, ttl, run, luck, sent));
            var kind, site := if dirty then Full else Incremental, luck.fault.site;
            var removed := if dirty && site != Some(DeleteAll) then |s.tape| else 0;
            if site == Some(PubAcquired) then
              news == (if luck.fault.served > 0 then [LockAcquired] else []) + [LockReleased]
            else if site == Some(Incr) || site == Some(XAddRunning) then news == [LockAcquired, LockReleased]
            else if site == Some(PubStarted) then
              var started := if luck.fault.served > 0 then [ScheduleStarted(run, kind)] else [];
              news == [LockAcquired] + started + [LockReleased]
            else
              && |news| >= 5 && news[0] == LockAcquired && news[1] == ScheduleStarted(run, kind)
              && news[|news| - 3] == Regenerated(kind, 0, removed)
              && news[|news| - 2] == ScheduleCompleted(run, false) && news[|news| - 1] == LockReleased
  {
    RunTells(s, now, dirty, rows, ttl, run, luck, sent);
    FailureTold(s.tape, dirty, rows, run, luck.fault, sent);
  }

  lemma FailureTold(t: Tape, dirty: bool, rows: seq<int>, run: nat, fault: Fault, sent: seq<Event>)
    requires FailsOpening(fault) || Stops(fault, dirty, |Gained(t, dirty, rows)|)
    requires !FailsOpening(fault) ==> Announced(t, dirty, rows, run, fault, sent)
    ensures var told, site := Told(run, KindOf(dirty), fault, sent), fault.site;
            var kind := if dirty then Full else Incremental;
            var removed := if dirty && site != Some(DeleteAll) then |t| else 0;
            if site == Some(PubAcquired) then told == if fault.served > 0 then [LockAcquired] else []
            else if site == Some(Incr) || site == Some(XAddRunning) then told == [LockAcquired]
            else if site == Some(PubStarted) then
              told == [LockAcquired] + if fault.served > 0 then [ScheduleStarted(run, kind)] else []
            else
              && |told| >= 4 && told[0] == LockAcquired && told[1] == ScheduleStarted(run, kind)
              && told[|told| - 2] == Regenerated(kind, 0, removed) && told[|told| - 1] == ScheduleCompleted(run, false)
  {
  }

  /** The run records by the failing call, where there is one: none before XADD; one `running`; then one `ok`, or one
      `error`, or, when a call after a served finish_run fails, both. */
  lemma {:induction false} RecordsOfRun(s: UserState, now: int, dirty: bool, rows: seq<int>, ttl: nat, run: nat,
                                        luck: Luck, sent: seq<Event>)
    requires Engages(s, now, luck.fault)
    ensures var s', n := After(s, now, dirty, rows, ttl, run, luck, sent), |Gained(s.tape, dirty, rows)|;
            var removed := if dirty then |s.tape| else 0;
            var begun := [Running(run, if dirty then Full else Incremental)];
            var ok, failed := begun + [Terminal(run, true, n, removed)], begun + [Terminal(run, false, 0, removed)];
            && s.runs <= s'.runs
            && s'.runs[|s.runs|..] ==
                 match luck.fault.site
                 case None => ok
                 case Some(site) =>
                   match site
                   case PubAcquired => []
                   case Incr => []
                   case XAddRunning => if luck.fault.served > 0 then begun else []
                   case PubStarted => begun
                   case DeleteAll => if dirty then begun + [Terminal(run, false, 0, 0)] else ok
                   case ReadMax => if dirty then ok else failed
                   case ReadPage => if dirty then ok else failed
                   case Query => failed
                   case Append => failed
                   case PubAdded(i) => if i < n then failed else ok
                   case ClearFlag => if dirty then failed else ok
                   case FinishOk =>
                     if luck.fault.served > 0 then ok + [Terminal(run, false, 0, removed)] else failed
                   case PubRegenerated => ok + [Terminal(run, false, 0, removed)]
                   case PubCompleted => ok + [Terminal(run, false, 0, removed)]
                   case _ => ok
  {
    RecordsUnderLock(Asked(s, now, ttl, luck), dirty, rows, run, luck.fault, sent);
    RecordsByCall(s.tape, dirty, rows, run, luck.fault);
  }

  lemma {:induction false} WithoutAllOfThem(s: seq<int>, out: set<int>)
    requires forall x :: x in s ==> x in out
    ensures Without(s, out) == []
  {
    if s != [] {
      var first := s[0];
      assert first in s && forall x :: x in s[1..] ==> x in s;
      WithoutAllOfThem(s[1..], out);
    }
  }

  lemma {:induction false} WithoutAlike(s: seq<int>, out: set<int>, more: set<int>)
    requires forall x :: x in s ==> (x in out <==> x in more)
    ensures Without(s, out) == Without(s, more)
  {
    if s != [] {
      var first := s[0];
      assert first in s && forall x :: x in s[1..] ==> x in s;
      WithoutAlike(s[1..], out, more);
    }
  }

  lemma RestUntouched(docs: seq<int>, k: nat, had: set<int>, have: set<int>)
    requires NoDuplicates(docs) && k <= |docs| && forall x :: x in have <==> x in had || x in docs[..k]
    ensures forall x :: x in docs[k..] ==> (x in had <==> x in have)
  {
    forall x | x in docs[k..] ensures x !in docs[..k] {
      var i :| k <= i < |docs| && docs[i] == x;
      assert forall j :: 0 <= j < k ==> docs[j] != docs[i];
    }
  }

  /** What is missing after the first k of docs went in is the rest. */
  lemma RestIsMissing(docs: seq<int>, k: nat, had: set<int>, have: set<int>)
    requires NoDuplicates(docs) && k <= |docs|
    requires forall x :: x in have <==> x in had || x in docs[..k]
    ensures Without(docs[..k], had) + Without(docs, have) == Without(docs, had)
  {
    var done, rest := docs[..k], docs[k..];
    assert docs == done + rest;
    WithoutAppend(done, rest, had);
    WithoutAppend(done, rest, have);
    WithoutAllOfThem(done, have);
    RestUntouched(docs, k, had, have);
    WithoutAlike(rest, had, have);
  }

  /** A top-up that breaks off after k ZADDs. */
  lemma BrokenTopUp(t: Tape, rows: seq<int>, k: nat)
    requires NoDuplicates(rows) && k <= |Submitted(t, false, rows)|
    ensures var done := Submitted(t, false, rows)[..k];
            var t' := AddAll(t, done, Start(t, false));
            && DocsOf(Rows(t')) == DocsOf(Rows(t)) + Without(done, t.Keys)
            && forall d :: d in t' <==> d in t || d in done
  {
    var done, start := Submitted(t, false, rows)[..k], Start(t, false);
    StartIsAbove(t, false);
    WithoutKeepsDistinct(rows, Existing(t, false));
    AddAllExact(t, done, start);
    AppendLists(t, done, start);
  }

  lemma TopUpLists(t: Tape, rows: seq<int>)
    requires NoDuplicates(rows)
    ensures DocsOf(Rows(Generated(t, false, rows))) == DocsOf(Rows(t)) + Without(rows, t.Keys)
  {
    IncrementalCovers(t, rows);
  }

  /** A top-up that breaks off after any number of ZADDs, then a whole one. */
  lemma BrokenTopUpCompletes(t: Tape, rows: seq<int>, k: nat)
    requires NoDuplicates(rows) && k <= |Submitted(t, false, rows)|
    ensures var t' := AddAll(t, Submitted(t, false, rows)[..k], Start(t, false));
            DocsOf(Rows(Generated(t', false, rows))) == DocsOf(Rows(Generated(t, false, rows)))
  {
    var docs := Submitted(t, false, rows);
    var done, t' := docs[..k], AddAll(t, docs[..k], Start(t, false));
    BrokenTopUp(t, rows, k);
    TopUpLists(t, rows);
    TopUpLists(t', rows);
    StartIsAbove(t, false);
    WithoutKeepsDistinct(rows, Existing(t, false));
    WithoutTwice(rows, Existing(t, false), t.Keys);
    assert forall d | d in t :: d in t';
    WithoutTwice(rows, Existing(t, false), t'.Keys);
    RestIsMissing(docs, k, t.Keys, t'.Keys);
    Regroup(DocsOf(Rows(t)), Without(done, t.Keys), Without(rows, t'.Keys));
  }

  /** Failure is harmless to the tape: wherever a run fails, a later run of the same kind over the same data lists the
      same documents in the same order as if there had been no failure. */
  lemma RetryCompletes(t: Tape, dirty: bool, rows: seq<int>, fault: Fault)
    requires NoDuplicates(rows)
    ensures DocsOf(Rows(Generated(TapeAfter(t, dirty, rows, fault), dirty, rows))) ==
        DocsOf(Rows(Generated(t, dirty, rows)))
  {
    var t', docs := TapeAfter(t, dirty, rows, fault), Submitted(t, dirty, rows);
    if dirty {
      RebuildLists(t, rows);
      RebuildLists(t', rows);
    } else if !StopsReading(fault, dirty) && !Hits(fault, Query) {
      var k := if Hits(fault, Append) then |Take(docs, fault.served)| else |docs|;
      assert docs[..k] == if Hits(fault, Append) then Take(docs, fault.served) else docs;
      BrokenTopUpCompletes(t, rows, k);
    }
  }

  /** The failing call is one that comes before clear_dirty has taken effect; n is the number of documents gained. */
  predicate FailsBeforeClear(fault: Fault, n: nat) {
    match fault.site
    case None => false
    case Some(site) =>
      match site
      case PubAcquired => true
      case Incr => true
      case XAddRunning => true
      case PubStarted => true
      case DeleteAll => true
      case Query => true
      case Append => true
      case PubAdded(i) => i < n
      case ClearFlag => fault.served == 0
      case _ => false
  }

  lemma ClearsUnlessItFails(fault: Fault, n: nat)
    ensures FailsBeforeClear(fault, n) <==> FailsOpening(fault) || !FlagCleared(fault, true, n)
  {
  }

  /** The flag of a full run that got the lock stays up if and only if the failing call is one of these; nothing else of
      the config changes. A top-up never touches it. */
  lemma {:induction false} FlagStaysUpIff(s: UserState, now: int, rows: seq<int>, ttl: nat, run: nat, luck: Luck,
                                          sent: seq<Event>)
    requires Engages(s, now, luck.fault)
    ensures After(s, now, false, rows, ttl, run, luck, sent).hash == s.hash
    ensures s.hash.value.dirty ==>
              After(s, now, true, rows, ttl, run, luck, sent).hash ==
              Some(s.hash.value.(dirty := FailsBeforeClear(luck.fault, |Gained(s.tape, true, rows)|)))
  {
    ClearsUnlessItFails(luck.fault, |Gained(s.tape, true, rows)|);
  }
}
