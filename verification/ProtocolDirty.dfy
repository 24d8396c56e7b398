/** The dirty flag: when it is down, the tape shows only documents of the current selection. */
module ProtocolDirty {
  import opened Prelude
  import opened SortedSet
  import opened Candidates
  import opened Protocol
  import opened ProtocolPositions

  function JobOf(proc: Proc): Option<Job> {
    match proc
    case GenTakeLock(job) => Some(job)
    case GenBegin(job, _) => Some(job)
    case GenReadPage(job, _, _) => Some(job)
    case GenQuery(job, _, _, _) => Some(job)
    case GenAppend(job, _, _, _, _) => Some(job)
    case GenClear(job, _) => Some(job)
    case _ => None
  }

  /** sel is what the stored config and sources select now. */
  predicate Current(w: World, sel: Selection) {
    w.config.Some? && sel == Selection(w.sources, w.config.value.range, w.config.value.descending)
  }

  /** Every source and date that sel selects is selected now. */
  ghost predicate Covers(w: World, sel: Selection) {
    && w.config.Some?
    && var now := Selection(w.sources, w.config.value.range, w.config.value.descending);
       forall doc :: Selected(sel, doc) ==> Selected(now, doc)
  }

  /** The documents whose source and date matter: those in the tape, and those a run is about to add. */
  ghost predicate Concerns(w: World, d: int) {
    d in w.tape || exists p :: p in w.procs && w.procs[p].GenAppend? && d in w.procs[p].docs
  }

  /** A selection that matters: the stored one, or that of a run. */
  ghost predicate InUse(w: World, sel: Selection) {
    Current(w, sel) || exists p :: p in w.procs && JobOf(w.procs[p]).Some? && JobOf(w.procs[p]).value.sel == sel
  }

  /** Upstream may edit, add and delete documents, but takes none that matters out of a selection that matters. */
  ghost predicate HarmlessEdit(w: World, docs: map<int, Document>) {
    forall d, sel :: Concerns(w, d) && InUse(w, sel) && d in w.docs && Selected(sel, w.docs[d]) ==>
      d in docs && Selected(sel, docs[d])
  }

  /** clear_dirty finds that all the run's own config reads selected is still selected; and no edit does harm. */
  ghost predicate QuietStep(w: World, l: Label) {
    && (l.Run? && l.pid in w.procs && w.procs[l.pid].GenClear? ==> Covers(w, w.procs[l.pid].job.sel))
    && (l.Upstream? ==> HarmlessEdit(w, l.docs))
  }

  ghost predicate Quiet(ws: seq<World>, ls: seq<Label>) {
    && |ws| == |ls| + 1
    && (forall i :: 0 <= i < |ws| ==> OneWorker(ws[i]))
    && (forall i :: 0 <= i < |ls| ==> QuietStep(ws[i], ls[i]))
  }

  ghost predicate Within(t: Tape, docs: map<int, Document>, sel: Selection) {
    forall d :: d in t ==> d in docs && Selected(sel, docs[d])
  }

  ghost predicate TapeIsCurrent(w: World) {
    forall d :: d in w.tape ==>
      && w.config.Some?
      && d in w.docs
      && Selected(Selection(w.sources, w.config.value.range, w.config.value.descending), w.docs[d])
  }

  /** What a generator run knows: its config reads are current while the flag is down, and a full run's tape lies
      within what it read. */
  ghost predicate Informed(w: World, proc: Proc) {
    && (proc.GenReadSources? && !w.dirty ==> w.config == Some(proc.cfg))
    && (proc.GenDropFlag? ==> w.tape == map[])
    && (JobOf(proc).Some? && !w.dirty ==> Current(w, JobOf(proc).value.sel))
    && (proc.GenQuery? && proc.job.dirty ==> w.tape == map[])
    && (proc.GenAppend? ==>
          forall x :: 0 <= x < |proc.docs| ==> proc.docs[x] in w.docs && Selected(proc.job.sel, w.docs[proc.docs[x]]))
    && (proc.GenAppend? && proc.job.dirty ==> Within(w.tape, w.docs, proc.job.sel))
    && (proc.GenReadPage? ==> !proc.job.dirty)
    && (proc.GenClear? ==> proc.job.dirty && Within(w.tape, w.docs, proc.job.sel))
  }

  ghost predicate FreshInv(w: World) {
    && (!w.dirty ==> TapeIsCurrent(w))
    && (forall p :: p in w.procs ==> Informed(w, w.procs[p]))
  }

  lemma QueryInforms(w: World, l: Label)
    requires l.Run? && Enabled(w, l) && FreshInv(w) && w.procs[l.pid].GenQuery?
    ensures Informed(Next(w, l), Next(w, l).procs[l.pid])
  {
    var w', job := Next(w, l), w.procs[l.pid].job;
    assert Informed(w, w.procs[l.pid]);
    var docs := w'.procs[l.pid].docs;
    CandidatesExact(l.choice.rows, w.procs[l.pid].existing);
    assert docs == CandidatesFor(l.choice.rows, w.procs[l.pid].existing);
    forall x | 0 <= x < |docs| ensures docs[x] in w.docs && Selected(job.sel, w.docs[docs[x]]) {
      assert docs[x] in l.choice.rows;
      assert Wanted(w.docs, w.scored, job.sel, docs[x]);
    }
  }

  lemma AppendInforms(w: World, l: Label)
    requires l.Run? && Enabled(w, l) && FreshInv(w) && w.procs[l.pid].GenAppend?
    ensures Informed(Next(w, l), Next(w, l).procs[l.pid])
  {
    assert Informed(w, w.procs[l.pid]);
  }

  /** The same for the config reads and the lock ... */
  lemma ReadInforms(w: World, proc: Proc, choice: Choice)
    requires Informed(w, proc) && (proc.GenReadConfig? || proc.GenReadSources? || proc.GenTakeLock?)
    ensures Informed(Effect(w, proc, choice), GeneratorContinues(w, proc, choice))
  {
  }

  /** ... for what comes before the query ... */
  lemma BeginInforms(w: World, proc: Proc, choice: Choice)
    requires Informed(w, proc) && (proc.GenBegin? || proc.GenReadPage?)
    ensures Informed(Effect(w, proc, choice), GeneratorContinues(w, proc, choice))
  {
  }

  /** ... and for the end of a run. */
  lemma EndInforms(w: World, proc: Proc, choice: Choice)
    requires Informed(w, proc) && (proc.GenDropTape? || proc.GenDropFlag? || proc.GenClear? || proc.GenRelease?)
    ensures Informed(Effect(w, proc, choice), GeneratorContinues(w, proc, choice))
  {
  }

  lemma ApiInforms(w: World, proc: Proc)
    requires !IsGenerator(proc)
    ensures Informed(w, proc)
  {
  }

  lemma OwnStepInforms(w: World, l: Label)
    requires l.Run? && Enabled(w, l) && FreshInv(w)
    ensures Informed(Next(w, l), Next(w, l).procs[l.pid])
  {
    var proc, w' := w.procs[l.pid], Next(w, l);
    assert Informed(w, proc);
    if proc.GenQuery? {
      QueryInforms(w, l);
    } else if proc.GenAppend? {
      AppendInforms(w, l);
    } else if proc.GenBegin? || proc.GenReadPage? {
      BeginInforms(w, proc, l.choice);
    } else if proc.GenReadConfig? || proc.GenReadSources? || proc.GenTakeLock? {
      ReadInforms(w, proc, l.choice);
    } else if IsGenerator(proc) {
      EndInforms(w, proc, l.choice);
    } else {
      ApiInforms(w', w'.procs[l.pid]);
    }
  }

  lemma EditStaysInformed(w: World, docs: map<int, Document>, p: int)
    requires FreshInv(w) && HarmlessEdit(w, docs) && p in w.procs
    ensures Informed(w.(docs := docs), w.procs[p])
  {
    var proc := w.procs[p];
    assert Informed(w, proc);
    if JobOf(proc).Some? {
      assert InUse(w, JobOf(proc).value.sel);
    }
    if proc.GenAppend? {
      forall x | 0 <= x < |proc.docs| ensures proc.docs[x] in docs && Selected(proc.job.sel, docs[proc.docs[x]]) {
        assert Concerns(w, proc.docs[x]);
      }
    }
    if (proc.GenAppend? && proc.job.dirty) || proc.GenClear? {
      forall d | d in w.tape ensures d in docs && Selected(proc.job.sel, docs[d]) { assert Concerns(w, d); }
    }
  }

  lemma OthersStayInformed(w: World, l: Label, p: int)
    requires Enabled(w, l) && FreshInv(w) && OneWorker(w) && QuietStep(w, l)
    requires p in w.procs && IsGenerator(w.procs[p]) && !(l.Run? && l.pid == p)
    requires Next(w, l).procs[p] == w.procs[p]
    ensures Informed(Next(w, l), w.procs[p])
  {
    TapeAfter(w, l);
    var w' := Next(w, l);
    assert Informed(w, w.procs[p]);
    if l.Run? {
      assert !IsGenerator(w.procs[l.pid]);
    } else if l.Upstream? {
      EditStaysInformed(w, l.docs, p);
    }
  }

  lemma EditKeepsTruth(w: World, docs: map<int, Document>)
    requires TapeIsCurrent(w) && HarmlessEdit(w, docs)
    ensures TapeIsCurrent(w.(docs := docs))
  {
    forall d | d in w.tape
      ensures d in docs && Selected(Selection(w.sources, w.config.value.range, w.config.value.descending), docs[d])
    {
      assert Concerns(w, d) && InUse(w, Selection(w.sources, w.config.value.range, w.config.value.descending));
    }
  }

  /** Steps that leave config, sources and flag alone and add nothing. */
  lemma ShrinkingKeepsTruth(w: World, w': World)
    requires !w.dirty ==> TapeIsCurrent(w)
    requires Shrinks(w.tape, w'.tape) && w'.docs == w.docs
    requires w'.config == w.config && w'.sources == w.sources && w'.dirty == w.dirty
    ensures !w'.dirty ==> TapeIsCurrent(w')
  {
  }

  lemma RunKeepsTruth(w: World, l: Label)
    requires l.Run? && Enabled(w, l) && FreshInv(w) && QuietStep(w, l)
    ensures !Next(w, l).dirty ==> TapeIsCurrent(Next(w, l))
  {
    TapeAfter(w, l);
    var proc, w' := w.procs[l.pid], Next(w, l);
    assert Informed(w, proc);
    if !(proc.GenAppend? || proc.GenClear? || proc.GenDropFlag? || proc.PutHash? || proc.PutSources?) {
      ShrinkingKeepsTruth(w, w');
    }
  }

  lemma StepKeepsTruth(w: World, l: Label)
    requires Enabled(w, l) && FreshInv(w) && QuietStep(w, l)
    ensures !Next(w, l).dirty ==> TapeIsCurrent(Next(w, l))
  {
    if l.Run? {
      RunKeepsTruth(w, l);
    } else if l.Upstream? {
      if !w.dirty { EditKeepsTruth(w, l.docs); }
    } else {
      ShrinkingKeepsTruth(w, Next(w, l));
    }
  }

  lemma StepKeepsFreshInv(w: World, l: Label)
    requires Enabled(w, l) && FreshInv(w) && OneWorker(w) && QuietStep(w, l)
    ensures FreshInv(Next(w, l))
  {
    var w' := Next(w, l);
    StepKeepsTruth(w, l);
    forall p | p in w'.procs ensures Informed(w', w'.procs[p]) {
      if l.Run? && l.pid == p {
        OwnStepInforms(w, l);
      } else if p in w.procs && w'.procs[p] == w.procs[p] && IsGenerator(w.procs[p]) {
        OthersStayInformed(w, l, p);
      } else {
        UninformedIsFine(w, l, p);
      }
    }
  }

  lemma UninformedIsFine(w: World, l: Label, p: int)
    requires Enabled(w, l) && p in Next(w, l).procs && !(l.Run? && l.pid == p)
    requires !(p in w.procs && Next(w, l).procs[p] == w.procs[p] && IsGenerator(w.procs[p]))
    ensures Informed(Next(w, l), Next(w, l).procs[p])
  {
    match l
    case Spawn(_, proc) => assert p in w.procs || Starts(w, Next(w, l).procs[p]);
    case _ =>
  }

  lemma {:induction false} FreshInvHolds(ws: seq<World>, ls: seq<Label>, k: nat)
    requires Behaviour(ws, ls) && Quiet(ws, ls) && k < |ws|
    ensures FreshInv(ws[k])
  {
    if k > 0 {
      FreshInvHolds(ws, ls, k - 1);
      StepKeepsFreshInv(ws[k - 1], ls[k - 1]);
    }
  }

  /** With one worker, no harmful edit upstream, and every clear_dirty finding its run's reads still selected: whenever
      the flag is down, every document in the tape lies in the current sources and dates. */
  lemma DirtyFlagIsTruthful(ws: seq<World>, ls: seq<Label>, k: nat)
    requires Behaviour(ws, ls) && Quiet(ws, ls) && k < |ws| && !ws[k].dirty
    ensures TapeIsCurrent(ws[k])
  {
    FreshInvHolds(ws, ls, k);
  }

  // --- when that is so -------------------------------------------------------------------

  /** A full run between its first config read and its clear_dirty. */
  predicate InWindow(proc: Proc) {
    (proc.GenReadSources? && proc.dirty) || (JobOf(proc).Some? && JobOf(proc).value.dirty)
  }

  ghost predicate RangeWidens(range: DateRange, wider: DateRange) {
    forall at :: InRange(range, at) ==> InRange(wider, at)
  }

  /** Nothing that was selected by source or by date ceases to be. */
  ghost predicate Widens(w: World, w': World) {
    && w.sources <= w'.sources
    && (w.config.Some? ==> w'.config.Some? && RangeWidens(w.config.value.range, w'.config.value.range))
  }

  /** A config write inside a full run's window narrows neither the sources nor the dates; what it does to order, page
      size and display does not matter. */
  ghost predicate WidensInWindow(w: World, l: Label) {
    l.Run? && l.pid in w.procs && (w.procs[l.pid].PutHash? || w.procs[l.pid].PutSources?) ==>
      (exists p :: p in w.procs && InWindow(w.procs[p])) ==> Widens(w, Next(w, l))
  }

  /** What a full run has read so far is still selected. */
  ghost predicate StillSelected(w: World, proc: Proc) {
    && (proc.GenReadSources? && proc.dirty ==> w.config.Some? && RangeWidens(proc.cfg.range, w.config.value.range))
    && (JobOf(proc).Some? && JobOf(proc).value.dirty ==>
          && JobOf(proc).value.sel.sources <= w.sources
          && w.config.Some? && RangeWidens(JobOf(proc).value.sel.range, w.config.value.range))
  }

  lemma OthersStillSelected(w: World, l: Label, p: int)
    requires Enabled(w, l) && WidensInWindow(w, l) && p in w.procs && StillSelected(w, w.procs[p])
    ensures StillSelected(Next(w, l), w.procs[p])
  {
    if InWindow(w.procs[p]) {
      if l.Run? && (w.procs[l.pid].PutHash? || w.procs[l.pid].PutSources?) {
        assert Widens(w, Next(w, l));
      } else {
        assert Next(w, l).config == w.config && Next(w, l).sources == w.sources;
      }
    }
  }

  lemma StepStillSelected(w: World, l: Label, p: int)
    requires Enabled(w, l) && WidensInWindow(w, l) && p in Next(w, l).procs
    requires p in w.procs ==> StillSelected(w, w.procs[p])
    ensures StillSelected(Next(w, l), Next(w, l).procs[p])
  {
    if l.Run? && l.pid == p {
      OthersStillSelected(w, l, p);
      assert w.procs[p].GenReadConfig? || w.procs[p].GenReadSources? ==>
          Next(w, l).config == w.config && Next(w, l).sources == w.sources;
    } else if p in w.procs {
      OthersStillSelected(w, l, p);
    }
  }

  lemma {:induction false} StillSelectedHolds(ws: seq<World>, ls: seq<Label>, k: nat, p: int)
    requires Behaviour(ws, ls) && k < |ws| && p in ws[k].procs
    requires forall i :: 0 <= i < |ls| ==> WidensInWindow(ws[i], ls[i])
    ensures StillSelected(ws[k], ws[k].procs[p])
  {
    if k > 0 {
      PathStep(ws, ls, k - 1);
      if p in ws[k - 1].procs { StillSelectedHolds(ws, ls, k - 1, p); }
      StepStillSelected(ws[k - 1], ls[k - 1], p);
    }
  }

  /** Writes that do not narrow the selection, and writes outside full runs' windows, keep the flag truthful. */
  lemma WideningIsQuiet(ws: seq<World>, ls: seq<Label>)
    requires Behaviour(ws, ls) && forall i :: 0 <= i < |ws| ==> OneWorker(ws[i])
    requires forall i :: 0 <= i < |ls| ==> WidensInWindow(ws[i], ls[i])
    requires forall i :: 0 <= i < |ls| && ls[i].Upstream? ==> HarmlessEdit(ws[i], ls[i].docs)
    ensures Quiet(ws, ls)
  {
    forall i | 0 <= i < |ls| ensures QuietStep(ws[i], ls[i]) {
      if ls[i].Run? && ls[i].pid in ws[i].procs && ws[i].procs[ls[i].pid].GenClear? {
        FullRunsClear(ws, ls, i, ls[i].pid);
        StillSelectedHolds(ws, ls, i, ls[i].pid);
      }
    }
  }

  /** Only full runs come to clear_dirty. */
  lemma {:induction false} FullRunsClear(ws: seq<World>, ls: seq<Label>, k: nat, p: int)
    requires Behaviour(ws, ls) && k < |ws| && p in ws[k].procs
    ensures ws[k].procs[p].GenClear? ==> ws[k].procs[p].job.dirty
  {
    if k > 0 {
      PathStep(ws, ls, k - 1);
      if p in ws[k - 1].procs { FullRunsClear(ws, ls, k - 1, p); }
      StepOfFullRun(ws[k - 1], ls[k - 1], p);
    }
  }

  lemma StepOfFullRun(w: World, l: Label, p: int)
    requires Enabled(w, l) && p in Next(w, l).procs
    requires p in w.procs && w.procs[p].GenClear? ==> w.procs[p].job.dirty
    ensures Next(w, l).procs[p].GenClear? ==> Next(w, l).procs[p].job.dirty
  {
    OthersStay(w, l, p);
  }

  // --- who lowers the flag -----------------------------------------------------------------

  /** All that is left to the process is to let its lock go. */
  predicate IsOver(w: World, p: int) { p in w.procs && (w.procs[p].GenRelease? || w.procs[p].Finished?) }

  lemma FailureEnds(w: World, l: Label, p: int)
    requires Enabled(w, l) && l in {Fail(p), Crash(p)}
    ensures IsOver(Next(w, l), p)
  {
  }

  lemma StepAfterFailure(w: World, l: Label, p: int)
    requires Enabled(w, l) && IsOver(w, p)
    ensures IsOver(Next(w, l), p)
  {
  }

  lemma OverNext(ws: seq<World>, ls: seq<Label>, j: nat, p: int)
    requires Path(ws, ls) && 0 < j < |ws| && IsOver(ws[j - 1], p)
    ensures IsOver(ws[j], p)
  {
    PathStep(ws, ls, j - 1);
    StepAfterFailure(ws[j - 1], ls[j - 1], p);
  }

  lemma {:induction false} OverAfterFailure(ws: seq<World>, ls: seq<Label>, i: nat, j: nat, p: int)
    requires Path(ws, ls) && i < j < |ws| && ls[i] in {Fail(p), Crash(p)}
    ensures IsOver(ws[j], p)
  {
    if i + 1 < j {
      OverAfterFailure(ws, ls, i, j - 1, p);
      OverNext(ws, ls, j, p);
    } else {
      PathStep(ws, ls, i);
      FailureEnds(ws[i], ls[i], p);
    }
  }

  /** A run that fails or is killed lowers the flag neither then nor ever after. */
  lemma FailedRunKeepsFlag(ws: seq<World>, ls: seq<Label>, i: nat, j: nat, p: int)
    requires Path(ws, ls) && i <= j < |ls| && ls[i] in {Fail(p), Crash(p)}
    requires j == i || (ls[j].Run? && ls[j].pid == p)
    ensures ws[j + 1].dirty == ws[j].dirty
  {
    PathStep(ws, ls, j);
    if i < j { OverAfterFailure(ws, ls, i, j, p); }
  }

  /** A process that started from a scan that saw the flag down. */
  predicate StartedClean(proc: Proc) {
    match proc
    case GenReadConfig(dirty) => !dirty
    case GenReadSources(dirty, _) => !dirty
    case GenDropTape => false
    case GenDropFlag => false
    case GenClear(_, _) => false
    case GenRelease(_) => true
    case Finished => true
    case _ => JobOf(proc).Some? && !JobOf(proc).value.dirty
  }

  ghost predicate CleanIn(w: World, p: int) { p in w.procs && StartedClean(w.procs[p]) }

  lemma OwnStepClean(w: World, proc: Proc, choice: Choice)
    requires StartedClean(proc) && !proc.Finished?
    ensures StartedClean(GeneratorContinues(w, proc, choice))
  {
  }

  lemma CleanStep(w: World, l: Label, p: int)
    requires Enabled(w, l) && CleanIn(w, p)
    ensures CleanIn(Next(w, l), p)
  {
    if l.Run? && l.pid == p { OwnStepClean(w, w.procs[p], l.choice); }
  }

  lemma CleanNext(ws: seq<World>, ls: seq<Label>, j: nat, p: int)
    requires Path(ws, ls) && 0 < j < |ws| && CleanIn(ws[j - 1], p)
    ensures CleanIn(ws[j], p)
  {
    PathStep(ws, ls, j - 1);
    CleanStep(ws[j - 1], ls[j - 1], p);
  }

  lemma CleanStaysClean(ws: seq<World>, ls: seq<Label>, i: nat, j: nat, p: int)
    requires Path(ws, ls) && i <= j < |ws| && CleanIn(ws[i], p)
    ensures CleanIn(ws[j], p)
  {
    var inv := (k: int) => 0 <= k < |ws| && CleanIn(ws[k], p);
    forall k | i <= k < j && inv(k) ensures inv(k + 1) { CleanNext(ws, ls, k + 1, p); }
    Handed(i, j, inv);
  }

  /** A run started with dirty=False, stale or not, neither clears the flag nor empties the tape: at no step. */
  lemma StaleFalseNeverClears(ws: seq<World>, ls: seq<Label>, i: nat, j: nat, p: int)
    requires Path(ws, ls) && i <= j < |ls| && p in ws[i].procs && ws[i].procs[p] == GenReadConfig(false)
    requires ls[j].Run? && ls[j].pid == p
    ensures ws[j + 1].dirty == ws[j].dirty
    ensures forall d :: d in ws[j].tape ==> d in ws[j + 1].tape
  {
    CleanStaysClean(ws, ls, i, j, p);
    assert Enabled(ws[j], ls[j]) && ws[j + 1] == Next(ws[j], ls[j]);
  }
}
