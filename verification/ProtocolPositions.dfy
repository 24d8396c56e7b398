/** Lock exclusion, distinct positions, and what follows for readers: invariants of every interleaving. */
module ProtocolPositions {
  import opened Prelude
  import opened SortedSet
  import opened Candidates
  import opened Lock
  import opened Protocol

  // --- the lock --------------------------------------------------------------------------

  predicate Holds(w: World, pid: int) { pid in w.procs && HoldOf(w.procs[pid]).Some? }

  function HoldIn(w: World, pid: int): Hold
    requires Holds(w, pid)
  {
    HoldOf(w.procs[pid]).value
  }

  /** pid is inside its locked region and its lock has not expired. */
  predicate InTime(w: World, pid: int) { Holds(w, pid) && w.now < HoldIn(w, pid).deadline }

  ghost predicate LockInv(w: World) {
    && (w.lock.Some? ==> w.lock.value.token in w.used)
    && (forall p :: Holds(w, p) ==> HoldIn(w, p).token in w.used)
    && (forall p, q :: Holds(w, p) && Holds(w, q) && HoldIn(w, p).token == HoldIn(w, q).token ==> p == q)
    && (forall p :: InTime(w, p) ==> w.lock == Some(HoldIn(w, p)))
    && (forall p :: Holds(w, p) && w.lock.Some? && w.lock.value.token == HoldIn(w, p).token ==>
          w.lock == Some(HoldIn(w, p)))
  }

  /** Does this step take the lock? */
  predicate Takes(w: World, l: Label) {
    l.Run? && l.pid in w.procs && w.procs[l.pid].GenTakeLock? && !Live(w.lock, w.now)
  }

  lemma HoldsAfter(w: World, l: Label, q: int)
    requires Enabled(w, l) && Holds(Next(w, l), q)
    ensures if Takes(w, l) && l.pid == q
            then HoldIn(Next(w, l), q) == Hold(l.choice.token, w.now + w.ttl) && l.choice.token !in w.used
            else Holds(w, q) && HoldIn(Next(w, l), q) == HoldIn(w, q)
  {
  }

  lemma LockAfter(w: World, l: Label)
    requires Enabled(w, l)
    ensures Next(w, l).now >= w.now
    ensures if Takes(w, l) then
              && Next(w, l).lock == Some(Hold(l.choice.token, w.now + w.ttl))
              && Next(w, l).used == w.used + {l.choice.token}
            else
              && Next(w, l).used == w.used
              && (Next(w, l).lock == w.lock
                  || (l.Run? && l.pid in w.procs && w.procs[l.pid].GenRelease? && !Holds(Next(w, l), l.pid)
                      && Next(w, l).lock == None && Live(w.lock, w.now)
                      && w.lock.value.token == HoldIn(w, l.pid).token))
  {
    if l.Run? {
      match w.procs[l.pid]
      case GenTakeLock(_) =>
      case GenRelease(_) =>
      case GenReadSources(_, _) =>
      case _ =>
    }
  }

  lemma StepKeepsLockInv(w: World, l: Label)
    requires LockInv(w) && Enabled(w, l)
    ensures LockInv(Next(w, l))
  {
    var w' := Next(w, l);
    LockAfter(w, l);
    forall p | Holds(w', p)
      ensures HoldIn(w', p).token in w'.used
      ensures if Takes(w, l) && l.pid == p then HoldIn(w', p) == Hold(l.choice.token, w.now + w.ttl)
              else Holds(w, p) && HoldIn(w', p) == HoldIn(w, p) && HoldIn(w, p).token in w.used
    {
      HoldsAfter(w, l, p);
    }
  }

  lemma {:induction false} LockInvHolds(ws: seq<World>, ls: seq<Label>, k: nat)
    requires Behaviour(ws, ls) && k < |ws|
    ensures LockInv(ws[k])
  {
    if k > 0 {
      LockInvHolds(ws, ls, k - 1);
      StepKeepsLockInv(ws[k - 1], ls[k - 1]);
    }
  }

  /** A run within its TTL keeps the key: is_locked answers true and no other run is within its own TTL. */
  lemma LockExcludes(ws: seq<World>, ls: seq<Label>, k: nat, p: int)
    requires Behaviour(ws, ls) && k < |ws| && InTime(ws[k], p)
    ensures Live(ws[k].lock, ws[k].now)
    ensures forall q :: InTime(ws[k], q) ==> q == p
  {
    LockInvHolds(ws, ls, k);
  }

  /** The cell changes only when a process takes it free or expired, or deletes its own live token:
      a release that comes late, after another run took over, changes nothing. */
  lemma OnlyOwnerReleases(ws: seq<World>, ls: seq<Label>, k: nat)
    requires Behaviour(ws, ls) && k < |ls| && ws[k + 1].lock != ws[k].lock
    ensures ls[k].Run? && ls[k].pid in ws[k].procs
    ensures ws[k].procs[ls[k].pid].GenTakeLock? || ws[k].procs[ls[k].pid].GenRelease?
    ensures ws[k].procs[ls[k].pid].GenTakeLock? ==> !Live(ws[k].lock, ws[k].now)
    ensures ws[k].procs[ls[k].pid].GenRelease? ==> ws[k].lock == Some(HoldIn(ws[k], ls[k].pid))
  {
    var w, l := ws[k], ls[k];
    assert Enabled(w, l) && ws[k + 1] == Next(w, l);
    LockInvHolds(ws, ls, k);
    LockAfter(w, l);
  }

  // --- positions -------------------------------------------------------------------------

  predicate Adds(w: World, l: Label) {
    l.Run? && l.pid in w.procs && w.procs[l.pid].GenAppend? && w.procs[l.pid].i < |w.procs[l.pid].docs|
  }

  /** pid is inside its locked region and nobody has taken the lock since it did; its TTL may have run out. */
  predicate Owns(w: World, pid: int) { Holds(w, pid) && w.lock == Some(HoldIn(w, pid)) }

  /** The step is not a ZADD of a run whose lock another run has taken. */
  predicate FencedStep(w: World, l: Label) { Adds(w, l) ==> Owns(w, l.pid) }

  ghost predicate Fenced(ws: seq<World>, ls: seq<Label>) {
    |ws| == |ls| + 1 && forall i :: 0 <= i < |ls| ==> FencedStep(ws[i], ls[i])
  }

  /** Critical sections are shorter than the TTL: every ZADD falls within its own run's. */
  ghost predicate Prompt(ws: seq<World>, ls: seq<Label>) {
    |ws| == |ls| + 1 && forall i :: 0 <= i < |ls| ==> Adds(ws[i], ls[i]) ==> InTime(ws[i], ls[i].pid)
  }

  lemma PromptIsFenced(ws: seq<World>, ls: seq<Label>)
    requires Behaviour(ws, ls) && Prompt(ws, ls)
    ensures Fenced(ws, ls)
  {
    forall i | 0 <= i < |ls| ensures FencedStep(ws[i], ls[i]) {
      LockInvHolds(ws, ls, i);
    }
  }

  /** One worker: one generator run at a time (max_instances=1, and tick runs users one after another). */
  ghost predicate OneWorker(w: World) {
    forall p, q :: p in w.procs && q in w.procs && IsGenerator(w.procs[p]) && IsGenerator(w.procs[q]) ==> p == q
  }

  ghost predicate HoldersOwn(w: World) { forall p :: Holds(w, p) ==> Owns(w, p) }

  lemma StepKeepsHoldersOwn(w: World, l: Label)
    requires LockInv(w) && OneWorker(w) && HoldersOwn(w) && Enabled(w, l)
    ensures HoldersOwn(Next(w, l))
  {
    var w' := Next(w, l);
    LockAfter(w, l);
    forall p | Holds(w', p) ensures Owns(w', p) {
      HoldsAfter(w, l, p);
    }
  }

  lemma {:induction false} HoldersOwnHolds(ws: seq<World>, ls: seq<Label>, k: nat)
    requires Behaviour(ws, ls) && k < |ws| && forall i :: 0 <= i < |ws| ==> OneWorker(ws[i])
    ensures HoldersOwn(ws[k])
  {
    if k > 0 {
      HoldersOwnHolds(ws, ls, k - 1);
      LockInvHolds(ws, ls, k - 1);
      StepKeepsHoldersOwn(ws[k - 1], ls[k - 1]);
    }
  }

  /** With one worker no run is ever superseded, however long it takes. */
  lemma OneWorkerIsFenced(ws: seq<World>, ls: seq<Label>)
    requires Behaviour(ws, ls) && forall i :: 0 <= i < |ws| ==> OneWorker(ws[i])
    ensures Fenced(ws, ls)
  {
    forall i | 0 <= i < |ls| ensures FencedStep(ws[i], ls[i]) {
      HoldersOwnHolds(ws, ls, i);
    }
  }

  /** The lowest position a filling run may still use. */
  function NextFree(proc: Proc): Option<int> {
    match proc
    case GenReadPage(_, _, start) => Some(start)
    case GenQuery(_, _, start, _) => Some(start)
    case GenAppend(_, _, start, _, i) => Some(start + i)
    case _ => None
  }

  predicate Clears(w: World, pid: int) {
    Owns(w, pid) && NextFree(w.procs[pid]).Some? ==> Above(w.tape, NextFree(w.procs[pid]).value)
  }

  ghost predicate PositionInv(w: World) {
    && DistinctPositions(w.tape)
    && forall p :: p in w.procs ==> Clears(w, p)
  }

  /** t' holds no more than t, and that in place. */
  ghost predicate Shrinks(t: Tape, t': Tape) { forall d :: d in t' ==> d in t && t'[d] == t[d] }

  /** A step takes entries out, or is one ZADD NX of a filling run. */
  lemma TapeAfter(w: World, l: Label)
    requires Enabled(w, l)
    ensures if Adds(w, l) then
              var proc := w.procs[l.pid];
              Next(w, l).tape == ZAddNx(w.tape, proc.docs[proc.i], proc.start + proc.i)
            else Shrinks(w.tape, Next(w, l).tape)
  {
  }

  lemma OthersStay(w: World, l: Label, q: int)
    requires Enabled(w, l) && q in Next(w, l).procs
    ensures (q in w.procs && Next(w, l).procs[q] == w.procs[q])
            || (l.Run? && l.pid == q && q in w.procs)
            || NextFree(Next(w, l).procs[q]).None?
  {
    match l
    case Run(pid, choice) => if q == pid { } else { assert q in w.procs; }
    case Spawn(pid, proc) => if q == pid { assert NextFree(proc).None?; } else { assert q in w.procs; }
    case Fail(pid) => if q != pid { assert q in w.procs; }
    case Crash(pid) => if q != pid { assert q in w.procs; }
    case _ => assert q in w.procs;
  }

  /** A step of its own within its region does not make a run the owner of the lock. */
  lemma OwnsBefore(w: World, l: Label)
    requires l.Run? && Enabled(w, l) && Owns(Next(w, l), l.pid) && Holds(w, l.pid)
    ensures Owns(w, l.pid)
  {
    LockAfter(w, l);
    HoldsAfter(w, l, l.pid);
  }

  lemma OwnStepClears(w: World, l: Label)
    requires l.Run? && Enabled(w, l) && Clears(w, l.pid)
    ensures Clears(Next(w, l), l.pid)
  {
    var w' := Next(w, l);
    if Owns(w', l.pid) && NextFree(w'.procs[l.pid]).Some? {
      ComesFromRegion(w, l);
      OwnsBefore(w, l);
      MaxPositionExact(w.tape);
    }
  }

  /** A run that fills was in its locked region one step earlier. */
  lemma ComesFromRegion(w: World, l: Label)
    requires l.Run? && Enabled(w, l) && NextFree(Next(w, l).procs[l.pid]).Some?
    ensures Holds(w, l.pid)
    ensures var proc := w.procs[l.pid];
            proc.GenBegin? || proc.GenReadPage? || proc.GenQuery? || proc.GenAppend?
  {
  }

  /** While one run owns the lock, no other adds. */
  lemma OnlyHolderAdds(w: World, l: Label, q: int)
    requires LockInv(w) && FencedStep(w, l) && Owns(w, q) && !(l.Run? && l.pid == q)
    ensures !Adds(w, l)
  {
  }

  lemma StepKeepsPositions(w: World, l: Label)
    requires LockInv(w) && PositionInv(w) && Enabled(w, l) && FencedStep(w, l)
    ensures PositionInv(Next(w, l))
  {
    var w' := Next(w, l);
    TapeAfter(w, l);
    LockAfter(w, l);
    forall q | q in w'.procs ensures Clears(w', q) {
      OthersStay(w, l, q);
      if l.Run? && l.pid == q {
        OwnStepClears(w, l);
      } else if Owns(w', q) && NextFree(w'.procs[q]).Some? {
        assert Clears(w, q);
        OnlyHolderAdds(w, l, q);
      }
    }
    if Adds(w, l) { assert Clears(w, l.pid); }
  }

  lemma {:induction false} PositionInvHolds(ws: seq<World>, ls: seq<Label>, k: nat)
    requires Behaviour(ws, ls) && Fenced(ws, ls) && k < |ws|
    ensures LockInv(ws[k]) && PositionInv(ws[k])
  {
    LockInvHolds(ws, ls, k);
    if k > 0 {
      PositionInvHolds(ws, ls, k - 1);
      StepKeepsPositions(ws[k - 1], ls[k - 1]);
    }
  }

  /** In every interleaving in which no run appends after another has taken its lock, positions are pairwise distinct
      at every moment: also when entries are removed between the reading of the maximum and each single ZADD. */
  lemma PositionsStayDistinct(ws: seq<World>, ls: seq<Label>, k: nat)
    requires Behaviour(ws, ls) && Fenced(ws, ls) && k < |ws|
    ensures DistinctPositions(ws[k].tape)
  {
    PositionInvHolds(ws, ls, k);
  }

  /** One worker needs no hypothesis on time. */
  lemma OneWorkerStaysDistinct(ws: seq<World>, ls: seq<Label>, k: nat)
    requires Behaviour(ws, ls) && (forall i :: 0 <= i < |ws| ==> OneWorker(ws[i])) && k < |ws|
    ensures DistinctPositions(ws[k].tape)
  {
    OneWorkerIsFenced(ws, ls);
    PositionsStayDistinct(ws, ls, k);
  }

  /** The step is a ZADD NX of a new document at a position some entry has. */
  ghost predicate Ties(w: World, l: Label) {
    Adds(w, l) &&
    var proc := w.procs[l.pid];
    proc.docs[proc.i] !in w.tape && exists e :: e in w.tape && w.tape[e] == proc.start + proc.i
  }

  /** Step by step, this is the only way in which positions can cease to be distinct. */
  lemma StepKeepsDistinctIff(w: World, l: Label)
    requires Enabled(w, l) && DistinctPositions(w.tape)
    ensures DistinctPositions(Next(w, l).tape) <==> !Ties(w, l)
  {
    TapeAfter(w, l);
    if Ties(w, l) {
      var proc, t' := w.procs[l.pid], Next(w, l).tape;
      var e :| e in w.tape && w.tape[e] == proc.start + proc.i;
      assert e in t' && proc.docs[proc.i] in t' && t'[e] == t'[proc.docs[proc.i]];
    }
  }

  /** A document that enters the tape enters behind every entry there is. */
  lemma NewcomersGoLast(ws: seq<World>, ls: seq<Label>, k: nat, d: int)
    requires Behaviour(ws, ls) && Fenced(ws, ls) && k < |ls|
    requires d !in ws[k].tape && d in ws[k + 1].tape
    ensures forall e :: e in ws[k].tape ==> e in ws[k + 1].tape && ws[k].tape[e] < ws[k + 1].tape[d]
  {
    PositionInvHolds(ws, ls, k);
    var w, l := ws[k], ls[k];
    assert Enabled(w, l) && ws[k + 1] == Next(w, l) && FencedStep(w, l);
    TapeAfter(w, l);
    assert Adds(w, l) && Clears(w, l.pid);
  }

  /** While a document stays in, its position does not change: no hypothesis on time or on who holds the lock. */
  lemma {:induction false} PositionNeverMoves(ws: seq<World>, ls: seq<Label>, i: nat, j: nat, d: int)
    requires Path(ws, ls) && i <= j < |ws|
    requires forall k :: i <= k <= j ==> d in ws[k].tape
    ensures ws[j].tape[d] == ws[i].tape[d]
  {
    if i < j {
      PositionNeverMoves(ws, ls, i, j - 1, d);
      assert Enabled(ws[j - 1], ls[j - 1]) && ws[j] == Next(ws[j - 1], ls[j - 1]);
      TapeAfter(ws[j - 1], ls[j - 1]);
    }
  }

  /** Positions are never negative, and no run will use a negative one. */
  ghost predicate NaturalPositions(w: World) {
    && (forall d :: d in w.tape ==> w.tape[d] >= 0)
    && (forall p :: p in w.procs && NextFree(w.procs[p]).Some? ==> NextFree(w.procs[p]).value >= 0)
  }

  lemma OwnStepNatural(w: World, l: Label)
    requires l.Run? && Enabled(w, l) && NaturalPositions(w)
    ensures NextFree(Next(w, l).procs[l.pid]).Some? ==> NextFree(Next(w, l).procs[l.pid]).value >= 0
  {
    MaxPositionExact(w.tape);
  }

  lemma StepKeepsNatural(w: World, l: Label)
    requires Enabled(w, l) && NaturalPositions(w)
    ensures NaturalPositions(Next(w, l))
  {
    var w' := Next(w, l);
    TapeAfter(w, l);
    if Adds(w, l) { assert NextFree(w.procs[l.pid]).value >= 0; }
    forall p | p in w'.procs && NextFree(w'.procs[p]).Some? ensures NextFree(w'.procs[p]).value >= 0 {
      OthersStay(w, l, p);
      if l.Run? && l.pid == p { OwnStepNatural(w, l); }
    }
  }

  lemma {:induction false} NaturalHolds(ws: seq<World>, ls: seq<Label>, k: nat)
    requires Behaviour(ws, ls) && k < |ws|
    ensures NaturalPositions(ws[k])
  {
    if k > 0 {
      NaturalHolds(ws, ls, k - 1);
      PathStep(ws, ls, k - 1);
      StepKeepsNatural(ws[k - 1], ls[k - 1]);
    }
  }

  // --- a full rebuild under interference -------------------------------------------------

  /** Every entry of t is one of the first n documents of docs, at its rank. */
  ghost predicate Ranked(t: Tape, docs: seq<int>, n: nat) {
    forall d :: d in t ==> exists k :: 0 <= k < n && k < |docs| && docs[k] == d && t[d] == k
  }

  ghost predicate Mirrors(w: World, p: int) {
    p in w.procs && Owns(w, p) ==>
      match w.procs[p]
      case GenReadPage(job, _, _) => !job.dirty
      case GenQuery(job, _, start, existing) => job.dirty ==> start == 0 && existing == {} && w.tape == map[]
      case GenAppend(job, _, start, docs, i) => job.dirty ==> start == 0 && i <= |docs| && Ranked(w.tape, docs, i)
      case _ => true
  }

  lemma RankedGrows(t: Tape, docs: seq<int>, i: nat)
    requires Ranked(t, docs, i) && i < |docs|
    ensures Ranked(ZAddNx(t, docs[i], i), docs, i + 1)
  {
    var t' := ZAddNx(t, docs[i], i);
    forall d | d in t' ensures exists k :: 0 <= k < i + 1 && k < |docs| && docs[k] == d && t'[d] == k {
      if d !in t { assert docs[i] == d; }
    }
  }

  lemma OwnStepMirrors(w: World, l: Label)
    requires l.Run? && Enabled(w, l) && Mirrors(w, l.pid)
    ensures Mirrors(Next(w, l), l.pid)
  {
    var proc, w' := w.procs[l.pid], Next(w, l);
    if Owns(w', l.pid) && NextFree(w'.procs[l.pid]).Some? {
      ComesFromRegion(w, l);
      OwnsBefore(w, l);
      if proc.GenAppend? && proc.job.dirty && proc.i < |proc.docs| { RankedGrows(w.tape, proc.docs, proc.i); }
    }
  }

  lemma StepKeepsMirror(w: World, l: Label, p: int)
    requires LockInv(w) && Enabled(w, l) && FencedStep(w, l)
    requires Mirrors(w, p)
    ensures Mirrors(Next(w, l), p)
  {
    var w' := Next(w, l);
    if l.Run? && l.pid == p {
      OwnStepMirrors(w, l);
    } else if p in w'.procs && Owns(w', p) {
      OthersStay(w, l, p);
      LockAfter(w, l);
      TapeAfter(w, l);
      if NextFree(w'.procs[p]).Some? {
        assert Owns(w, p);
        assert !(Adds(w, l) && Owns(w, l.pid));
      }
    }
  }

  lemma {:induction false} MirrorHolds(ws: seq<World>, ls: seq<Label>, k: nat, p: int)
    requires Behaviour(ws, ls) && Fenced(ws, ls) && k < |ws|
    ensures Mirrors(ws[k], p)
  {
    if k > 0 {
      MirrorHolds(ws, ls, k - 1, p);
      LockInvHolds(ws, ls, k - 1);
      StepKeepsMirror(ws[k - 1], ls[k - 1], p);
    }
  }

  /** At every step of a full run that nobody superseded the tape holds nothing but documents of that run's answer,
      each at its rank in the answer, whatever removals, page reads and config writes interleave. */
  lemma RebuildMirrorsAnswer(ws: seq<World>, ls: seq<Label>, k: nat, p: int)
    requires Behaviour(ws, ls) && Fenced(ws, ls) && k < |ws| && Owns(ws[k], p)
    requires ws[k].procs[p].GenAppend? && ws[k].procs[p].job.dirty
    ensures Ranked(ws[k].tape, ws[k].procs[p].docs, ws[k].procs[p].i)
  {
    MirrorHolds(ws, ls, k, p);
  }

  // --- coverage of a run under interference ----------------------------------------------

  /** d was taken out of the tape by some step between worlds i and j. */
  ghost predicate Left(ws: seq<World>, i: nat, j: nat, d: int)
    requires j < |ws|
  {
    exists k :: i <= k < j && d in ws[k].tape && d !in ws[k + 1].tape
  }

  lemma {:induction false} InOrLeft(ws: seq<World>, i: nat, j: nat, d: int)
    requires i <= j < |ws| && d in ws[i].tape
    ensures d in ws[j].tape || Left(ws, i, j, d)
  {
    if i < j {
      InOrLeft(ws, i, j - 1, d);
    }
  }

  /** proc is the run that got docs from its query, adding or past adding. */
  predicate FillsWith(proc: Proc, docs: seq<int>) {
    (proc.GenAppend? && proc.docs == docs) || proc.GenClear? || proc.GenRelease? || proc.Finished?
  }

  lemma FillContinues(w: World, l: Label, p: int, docs: seq<int>)
    requires Enabled(w, l) && p in w.procs && FillsWith(w.procs[p], docs)
    ensures p in Next(w, l).procs && FillsWith(Next(w, l).procs[p], docs)
    ensures Next(w, l).procs[p].GenAppend? ==>
              && w.procs[p].GenAppend?
              && (Next(w, l).procs[p] == w.procs[p]
                  || (w.procs[p].i < |docs| && docs[w.procs[p].i] in Next(w, l).tape
                      && Next(w, l).procs[p] == w.procs[p].(i := w.procs[p].i + 1)))
  {
  }

  /** The first i documents are in the tape of world j, or some step since q took them out. */
  ghost predicate InUpTo(ws: seq<World>, q: nat, j: nat, docs: seq<int>, i: nat)
    requires j < |ws|
  {
    forall x :: 0 <= x < i && x < |docs| ==> docs[x] in ws[j].tape || Left(ws, q, j, docs[x])
  }

  lemma InUpToNext(ws: seq<World>, q: nat, j: nat, docs: seq<int>, i: nat, i': nat)
    requires q < j < |ws| && InUpTo(ws, q, j - 1, docs, i)
    requires i' <= i || (i' == i + 1 && i < |docs| && docs[i] in ws[j].tape)
    ensures InUpTo(ws, q, j, docs, i')
  {
    forall x | 0 <= x < i' && x < |docs| ensures docs[x] in ws[j].tape || Left(ws, q, j, docs[x]) {
      if x < i && docs[x] in ws[j - 1].tape && docs[x] !in ws[j].tape {
        assert Left(ws, q, j, docs[x]);
      }
    }
  }

  /** Process p, which begins to add at world q, at world j: it is adding for the same job or past adding, and what it
      has added is in the tape or was taken out. */
  ghost predicate FillsAt(ws: seq<World>, q: nat, j: nat, p: int)
    requires q <= j < |ws| && p in ws[q].procs && ws[q].procs[p].GenAppend?
  {
    var docs := ws[q].procs[p].docs;
    && p in ws[j].procs && FillsWith(ws[j].procs[p], docs)
    && (ws[j].procs[p].GenAppend? ==>
          ws[j].procs[p].job == ws[q].procs[p].job && InUpTo(ws, q, j, docs, ws[j].procs[p].i))
  }

  lemma FillsNext(ws: seq<World>, ls: seq<Label>, q: nat, j: nat, p: int)
    requires Path(ws, ls) && q < j < |ws| && p in ws[q].procs && ws[q].procs[p].GenAppend? && FillsAt(ws, q, j - 1, p)
    ensures FillsAt(ws, q, j, p)
  {
    var docs := ws[q].procs[p].docs;
    PathStep(ws, ls, j - 1);
    FillContinues(ws[j - 1], ls[j - 1], p, docs);
    if ws[j].procs[p].GenAppend? {
      InUpToNext(ws, q, j, docs, ws[j - 1].procs[p].i, ws[j].procs[p].i);
    }
  }

  lemma {:induction false} FillCovers(ws: seq<World>, ls: seq<Label>, q: nat, j: nat, p: int)
    requires Path(ws, ls) && q <= j < |ws| && p in ws[q].procs && ws[q].procs[p].GenAppend? && ws[q].procs[p].i == 0
    ensures FillsAt(ws, q, j, p)
  {
    if q < j {
      FillCovers(ws, ls, q, j - 1, p);
      FillsNext(ws, ls, q, j, p);
    } else {
      FillsAtStart(ws, q, p);
    }
  }

  lemma FillsAtStart(ws: seq<World>, q: nat, p: int)
    requires q < |ws| && p in ws[q].procs && ws[q].procs[p].GenAppend? && ws[q].procs[p].i == 0
    ensures FillsAt(ws, q, q, p)
  {
  }

  /** An incremental run that reads its exclude page at step r, gets its answer at step q and has issued its last ZADD
      by world e: every document of the answer is in the tape then, unless some step removed it after r. */
  lemma RunCoversAnswer(ws: seq<World>, ls: seq<Label>, r: nat, q: nat, e: nat, p: int, d: int)
    requires Path(ws, ls) && r < q < e < |ws|
    requires p in ws[r].procs && ws[r].procs[p].GenReadPage? && ls[r].Run? && ls[r].pid == p
    requires p in ws[q].procs && ws[q].procs[p] == ws[r + 1].procs[p] && ls[q].Run? && ls[q].pid == p
    requires p in ws[e].procs && ws[e].procs[p].GenAppend? && ws[e].procs[p].i >= |ws[e].procs[p].docs|
    requires d in ls[q].choice.rows
    ensures d in ws[e].tape || Left(ws, r, e, d)
  {
    assert Enabled(ws[r], ls[r]) && ws[r + 1] == Next(ws[r], ls[r]);
    assert Enabled(ws[q], ls[q]) && ws[q + 1] == Next(ws[q], ls[q]);
    PageDocsAreEntries(ws[r].tape, EXISTING_LIMIT);
    if d in ws[q].procs[p].existing {
      InOrLeft(ws, r, e, d);
    } else {
      var docs := ws[q + 1].procs[p].docs;
      CandidatesExact(ls[q].choice.rows, ws[q].procs[p].existing);
      assert d in docs;
      var x :| 0 <= x < |docs| && docs[x] == d;
      FillCovers(ws, ls, q + 1, e, p);
      assert InUpTo(ws, q + 1, e, docs, ws[e].procs[p].i);
    }
  }

  // --- coverage of a full run ------------------------------------------------------------

  /** A full run excludes nothing and starts at 0. */
  predicate StartsAfresh(proc: Proc) {
    match proc
    case GenReadPage(job, _, _) => !job.dirty
    case GenQuery(job, _, start, existing) => job.dirty ==> start == 0 && existing == {}
    case _ => true
  }

  lemma {:induction false} StartsAfreshHolds(ws: seq<World>, ls: seq<Label>, k: nat, p: int)
    requires Behaviour(ws, ls) && k < |ws| && p in ws[k].procs
    ensures StartsAfresh(ws[k].procs[p])
  {
    if k > 0 {
      assert Enabled(ws[k - 1], ls[k - 1]) && ws[k] == Next(ws[k - 1], ls[k - 1]);
      if p in ws[k - 1].procs { StartsAfreshHolds(ws, ls, k - 1, p); }
      StepStartsAfresh(ws[k - 1], ls[k - 1], p);
    }
  }

  lemma StepStartsAfresh(w: World, l: Label, p: int)
    requires Enabled(w, l) && p in Next(w, l).procs && (p in w.procs ==> StartsAfresh(w.procs[p]))
    ensures StartsAfresh(Next(w, l).procs[p])
  {
    OthersStay(w, l, p);
  }

  /** A full run that gets its answer at step q, has issued its last ZADD by world e and is not superseded: then the
      tape holds documents of the answer only, each at its rank, and all of them but those some step has removed. */
  lemma RebuildIsExact(ws: seq<World>, ls: seq<Label>, q: nat, e: nat, p: int, d: int)
    requires Behaviour(ws, ls) && Fenced(ws, ls) && q < e < |ws|
    requires p in ws[q].procs && ws[q].procs[p].GenQuery? && ws[q].procs[p].job.dirty && ls[q].Run? && ls[q].pid == p
    requires Owns(ws[e], p) && ws[e].procs[p].GenAppend? && ws[e].procs[p].i >= |ws[e].procs[p].docs|
    ensures Ranked(ws[e].tape, ls[q].choice.rows, |ls[q].choice.rows|)
    ensures d in ls[q].choice.rows ==> d in ws[e].tape || Left(ws, q + 1, e, d)
  {
    var rows := ls[q].choice.rows;
    assert Enabled(ws[q], ls[q]) && ws[q + 1] == Next(ws[q], ls[q]);
    StartsAfreshHolds(ws, ls, q, p);
    WithoutNothing(rows);
    FillCovers(ws, ls, q + 1, e, p);
    RebuildMirrorsAnswer(ws, ls, e, p);
    if d in rows {
      var x :| 0 <= x < |rows| && rows[x] == d;
      assert InUpTo(ws, q + 1, e, rows, ws[e].procs[p].i);
    }
  }
}
