/** store/sessions.py: issue, validate and revoke under one clock. Redis keeps one record per session and forgets it
    after the idle time; what that means for a whole history of calls is stated without any record. */
module Sessions {
  import opened Prelude

  datatype Session = Session(user: int, created: int, expires: int, lastSeen: int)
  /** Malformed: not JSON, or not its three dates. Zoneless: an expiry without a time zone, which Python refuses to
      compare with now. Ownerless: good dates, but no user id that int() takes. */
  datatype Blob = Record(session: Session) | Ownerless(expires: int) | Zoneless | Malformed

  /** What validate does: returns the session, returns None, or raises. */
  datatype Answer = Granted(session: Session) | Refused | Raised

  /** A stored value and the instant Redis drops it. */
  datatype Cell = Cell(blob: Blob, deadline: int)
  type Cells = map<int, Cell>

  function Get(cells: Cells, key: int, now: int): Option<Blob> {
    if key in cells && now < cells[key].deadline then Some(cells[key].blob) else None
  }

  datatype Limits = Limits(idle: int, absolute: int)

  /** Garble: another program writes something that is no session under the session's key. */
  datatype Op = Issue(raw: int, user: int) | Validate(raw: int) | Revoke(raw: int) | Garble(raw: int)

  /** All calls so far, none overlapping another. */
  datatype History = Start | Then(before: History, op: Op, at: int)

  predicate UpTo(h: History, now: int) { h.Start? || h.at <= now }

  predicate Ordered(h: History) { h.Start? || (Ordered(h.before) && UpTo(h.before, h.at)) }

  class SessionStore {
    const limits: Limits
    const hash: int -> int
    var cells: Cells
    ghost var log: History

    ghost predicate Valid()
      reads this
    {
      Injective(hash) && AllReflect(cells, hash, log, limits)
    }

    constructor (limits: Limits, hash: int -> int)
      requires Injective(hash)
      ensures Valid() && log == Start && this.limits == limits && this.hash == hash
    {
      this.limits, this.hash := limits, hash;
      cells := map[];
      log := Start;
    }

    /** raw is the freshly minted id. */
    method Issue(user: int, raw: int, now: int)
      requires Valid() && UpTo(log, now)
      modifies this
      ensures Valid() && log == Then(old(log), Op.Issue(raw, user), now)
    {
      ghost var before := cells;
      cells := cells[hash(raw) := Cell(Record(Session(user, now, now + limits.absolute, now)), now + limits.idle)];
      OpReflects(before, cells, hash, log, Op.Issue(raw, user), now, limits);
      log := Then(log, Op.Issue(raw, user), now);
    }

    method Validate(raw: int, now: int) returns (answer: Answer)
      requires Valid() && UpTo(log, now)
      modifies this
      ensures Valid() && log == Then(old(log), Op.Validate(raw), now)
      ensures answer.Granted? <==> Accepts(old(log), raw, now, limits)
      ensures answer.Granted? ==> answer.session == SessionOf(old(log), raw, now, limits)
      ensures answer.Raised? ==> IsForeign(old(log), raw)
    {
      ghost var before, h := cells, log;
      AnswerIsRight(cells, hash(raw), log, raw, now, limits);
      ValidateReflects(cells, hash(raw), log, raw, now, limits);
      log := Then(log, Op.Validate(raw), now);
      var blob := Get(cells, hash(raw), now);
      if blob.None? {
        OpReflects(before, cells, hash, h, Op.Validate(raw), now, limits);
        return Refused;
      }
      if blob.value.Zoneless? {
        OpReflects(before, cells, hash, h, Op.Validate(raw), now, limits);
        return Raised;
      }
      if blob.value.Malformed? || ExpiryOf(blob.value) <= now {
        cells := cells - {hash(raw)};
        OpReflects(before, cells, hash, h, Op.Validate(raw), now, limits);
        return Refused;
      }
      cells := cells[hash(raw) := Cell(Seen(blob.value, now), now + limits.idle)];
      OpReflects(before, cells, hash, h, Op.Validate(raw), now, limits);
      if blob.value.Ownerless? {
        return Raised;
      }
      return Granted(blob.value.session.(lastSeen := now));
    }

    method Revoke(raw: int, now: int)
      requires Valid() && UpTo(log, now)
      modifies this
      ensures Valid() && log == Then(old(log), Op.Revoke(raw), now)
    {
      ghost var before := cells;
      cells := cells - {hash(raw)};
      OpReflects(before, cells, hash, log, Op.Revoke(raw), now, limits);
      log := Then(log, Op.Revoke(raw), now);
    }

    /** Not the service: a foreign write under the session's key. */
    method Garble(raw: int, blob: Blob, deadline: int, now: int)
      requires Valid() && UpTo(log, now) && !blob.Record?
      modifies this
      ensures Valid() && log == Then(old(log), Op.Garble(raw), now)
    {
      ghost var before := cells;
      cells := cells[hash(raw) := Cell(blob, deadline)];
      OpReflects(before, cells, hash, log, Op.Garble(raw), now, limits);
      log := Then(log, Op.Garble(raw), now);
    }
  }

  function ExpiryOf(blob: Blob): int
    requires blob.Record? || blob.Ownerless?
  {
    if blob.Record? then blob.session.expires else blob.expires
  }

  /** The value validate writes back. */
  function Seen(blob: Blob, now: int): Blob { if blob.Record? then Record(blob.session.(lastSeen := now)) else blob }

  // --- the meaning of a history ----------------------------------------------------------------

  /** When the session was issued and every attempt to use it since; empty if it was never issued, or revoked or
      overwritten since. */
  function Uses(h: History, raw: int): seq<int> {
    match h
    case Start => []
    case Then(before, op, at) =>
      if op.raw != raw then Uses(before, raw)
      else match op
        case Issue(_, _) => [at]
        case Validate(_) => if Uses(before, raw) == [] then [] else Uses(before, raw) + [at]
        case _ => []
  }

  function Owner(h: History, raw: int): int {
    match h
    case Start => 0
    case Then(before, op, _) => if op.Issue? && op.raw == raw then op.user else Owner(before, raw)
  }

  /** What lies under the session's key, if anything, was not written by the service. */
  predicate IsForeign(h: History, raw: int) {
    match h
    case Start => false
    case Then(before, op, _) => if op.raw != raw || op.Validate? then IsForeign(before, raw) else op.Garble?
  }

  ghost predicate GapsBelow(times: seq<int>, idle: int) {
    forall i :: 0 < i < |times| ==> times[i] - times[i - 1] < idle
  }

  /** The promise: issued and not revoked since, younger than the absolute limit, and never left unused for the idle
      time. */
  ghost predicate Accepts(h: History, raw: int, now: int, limits: Limits) {
    var uses := Uses(h, raw);
    uses != [] && now < uses[0] + limits.absolute && GapsBelow(uses + [now], limits.idle)
  }

  function SessionOf(h: History, raw: int, now: int, limits: Limits): Session
    requires Uses(h, raw) != []
  {
    Session(Owner(h, raw), Uses(h, raw)[0], Uses(h, raw)[0] + limits.absolute, now)
  }

  // --- the record reflects the history --------------------------------------------------------

  /** Every attempt since the issue was accepted. */
  ghost predicate Alive(uses: seq<int>, limits: Limits) {
    uses != [] && GapsBelow(uses, limits.idle) && (|uses| > 1 ==> uses[|uses| - 1] < uses[0] + limits.absolute)
  }

  ghost predicate Reflects(cells: Cells, key: int, h: History, raw: int, limits: Limits) {
    var uses := Uses(h, raw);
    && Ordered(h)
    && (Alive(uses, limits) ==>
          && key in cells
          && var last := uses[|uses| - 1];
             cells[key] == Cell(Record(SessionOf(h, raw, last, limits)), last + limits.idle))
    && (!Alive(uses, limits) ==>
          key !in cells || !cells[key].blob.Record? || (h.Then? && cells[key].deadline <= h.at))
    && (key in cells && !cells[key].blob.Record? ==> IsForeign(h, raw))
  }

  ghost predicate Injective(hash: int -> int) { forall a, b :: hash(a) == hash(b) ==> a == b }

  ghost predicate AllReflect(cells: Cells, hash: int -> int, h: History, limits: Limits) {
    forall raw :: Reflects(cells, hash(raw), h, raw, limits)
  }

  ghost predicate SameElsewhere(cells: Cells, cells': Cells, key: int) {
    forall k :: k != key ==> (k in cells <==> k in cells') && (k in cells ==> cells[k] == cells'[k])
  }

  /** A call touches only its own session's record, so it is enough that this record reflects the new history. */
  lemma OpReflects(cells: Cells, cells': Cells, hash: int -> int, h: History, op: Op, at: int, limits: Limits)
    requires Injective(hash) && AllReflect(cells, hash, h, limits) && UpTo(h, at)
    requires SameElsewhere(cells, cells', hash(op.raw))
    requires Reflects(cells', hash(op.raw), Then(h, op, at), op.raw, limits)
    ensures AllReflect(cells', hash, Then(h, op, at), limits)
  {
    forall raw ensures Reflects(cells', hash(raw), Then(h, op, at), raw, limits) {
      assert Reflects(cells, hash(raw), h, raw, limits);
      assert raw != op.raw ==> hash(raw) != hash(op.raw);
    }
  }

  /** What validate leaves under the session's key reflects the attempt. */
  lemma ValidateReflects(cells: Cells, key: int, h: History, raw: int, now: int, limits: Limits)
    requires Reflects(cells, key, h, raw, limits) && UpTo(h, now)
    ensures var blob := Get(cells, key, now);
            var h' := Then(h, Op.Validate(raw), now);
            if blob.None? || blob.value.Zoneless? then Reflects(cells, key, h', raw, limits)
            else if blob.value.Malformed? || ExpiryOf(blob.value) <= now
            then Reflects(cells - {key}, key, h', raw, limits)
            else Reflects(cells[key := Cell(Seen(blob.value, now), now + limits.idle)], key, h', raw, limits)
  {
    if Uses(h, raw) != [] { AcceptsNext(h, raw, now, limits); }
  }

  lemma {:induction false} UsesAscend(h: History, raw: int)
    requires Ordered(h)
    ensures forall i :: 0 < i < |Uses(h, raw)| ==> Uses(h, raw)[i - 1] <= Uses(h, raw)[i]
    ensures Uses(h, raw) != [] ==> h.Then? && Uses(h, raw)[|Uses(h, raw)| - 1] <= h.at
  {
    if h.Then? { UsesAscend(h.before, raw); }
  }

  lemma GapsAppend(times: seq<int>, at: int, idle: int)
    requires times != []
    ensures GapsBelow(times + [at], idle) <==> GapsBelow(times, idle) && at - times[|times| - 1] < idle
  {
    var all := times + [at];
    if GapsBelow(all, idle) {
      assert all[|times|] - all[|times| - 1] < idle;
      forall i | 0 < i < |times| ensures times[i] - times[i - 1] < idle { assert all[i] - all[i - 1] < idle; }
    }
  }

  /** One more attempt is accepted exactly when the session was alive and neither limit has run out. */
  lemma AcceptsNext(h: History, raw: int, now: int, limits: Limits)
    requires Ordered(h) && UpTo(h, now) && Uses(h, raw) != []
    ensures var uses := Uses(h, raw);
            && (Accepts(h, raw, now, limits) <==> Alive(uses + [now], limits))
            && (Accepts(h, raw, now, limits) <==>
                Alive(uses, limits) && now - uses[|uses| - 1] < limits.idle && now < uses[0] + limits.absolute)
  {
    UsesAscend(h, raw);
    GapsAppend(Uses(h, raw), now, limits.idle);
  }

  /** What Redis answers for the session's key decides as the promise does. */
  lemma AnswerIsRight(cells: Cells, key: int, h: History, raw: int, now: int, limits: Limits)
    requires Reflects(cells, key, h, raw, limits) && UpTo(h, now)
    ensures var blob := Get(cells, key, now);
            Accepts(h, raw, now, limits) <==> blob.Some? && blob.value.Record? && now < blob.value.session.expires
  {
    if Uses(h, raw) != [] { AcceptsNext(h, raw, now, limits); }
  }

  // --- what it promises ------------------------------------------------------------------------

  /** When the session was issued and every successful validate since. */
  ghost function Successes(h: History, raw: int, limits: Limits): seq<int> {
    match h
    case Start => []
    case Then(before, op, at) =>
      if op.raw != raw then Successes(before, raw, limits)
      else match op
        case Issue(_, _) => [at]
        case Validate(_) =>
          if Accepts(before, raw, at, limits) then Successes(before, raw, limits) + [at]
          else Successes(before, raw, limits)
        case _ => []
  }

  lemma {:induction false} SuccessesWhileAlive(h: History, raw: int, limits: Limits)
    requires Ordered(h)
    ensures var uses, s := Uses(h, raw), Successes(h, raw, limits);
            && (uses == [] <==> s == [])
            && (uses != [] ==> s[0] == uses[0])
            && (Alive(uses, limits) ==> s == uses)
            && (uses != [] && !Alive(uses, limits) ==>
                  h.at - s[|s| - 1] >= limits.idle || h.at >= s[0] + limits.absolute)
  {
    if h.Then? {
      SuccessesWhileAlive(h.before, raw, limits);
      if h.op == Op.Validate(raw) && Uses(h.before, raw) != [] {
        AcceptsNext(h.before, raw, h.at, limits);
      }
    }
  }

  /** Counting every attempt or only the successful ones is the same: validate succeeds exactly when the session was
      issued and not revoked since, now is before issue plus the absolute limit, and the last success is less than the
      idle time ago. */
  lemma AcceptsExactly(h: History, raw: int, now: int, limits: Limits)
    requires Ordered(h) && UpTo(h, now)
    ensures var s := Successes(h, raw, limits);
            Accepts(h, raw, now, limits) <==> s != [] && now < s[0] + limits.absolute && now - s[|s| - 1] < limits.idle
  {
    SuccessesWhileAlive(h, raw, limits);
    if Uses(h, raw) != [] { AcceptsNext(h, raw, now, limits); }
  }

  /** h' continues h without issuing raw again. */
  predicate Later(h: History, h': History, raw: int) {
    h' == h || (h'.Then? && !(h'.op.Issue? && h'.op.raw == raw) && Later(h, h'.before, raw))
  }

  lemma {:induction false} UsesGrow(h: History, h': History, raw: int)
    requires Later(h, h', raw)
    ensures Uses(h', raw) == [] || Uses(h, raw) <= Uses(h', raw)
    ensures Uses(h, raw) == [] ==> Uses(h', raw) == []
    ensures Owner(h', raw) == Owner(h, raw)
  {
    if h' != h { UsesGrow(h, h'.before, raw); }
  }

  /** A session that validate refused, or that was revoked, is over: no later call accepts it. */
  lemma RefusedIsOver(h: History, h': History, raw: int, at: int, now: int, limits: Limits)
    requires Ordered(h') && UpTo(h', now)
    requires || (Later(Then(h, Op.Validate(raw), at), h', raw) && !Accepts(h, raw, at, limits))
             || Later(Then(h, Op.Revoke(raw), at), h', raw)
    ensures !Accepts(h', raw, now, limits)
  {
    if Later(Then(h, Op.Revoke(raw), at), h', raw) {
      UsesGrow(Then(h, Op.Revoke(raw), at), h', raw);
    } else {
      var first := Then(h, Op.Validate(raw), at);
      UsesGrow(first, h', raw);
      LaterIsOrdered(first, h', raw);
      if Uses(first, raw) != [] && Accepts(h', raw, now, limits) {
        AcceptsNext(h', raw, now, limits);
        AcceptsNext(h, raw, at, limits);
        PrefixAlive(Uses(first, raw), Uses(h', raw), limits, h', raw);
      }
    }
  }

  lemma {:induction false} LaterIsOrdered(h: History, h': History, raw: int)
    requires Later(h, h', raw) && Ordered(h')
    ensures Ordered(h)
  {
    if h' != h { LaterIsOrdered(h, h'.before, raw); }
  }

  lemma PrefixAlive(part: seq<int>, uses: seq<int>, limits: Limits, h: History, raw: int)
    requires Ordered(h) && uses == Uses(h, raw) && part <= uses && part != [] && Alive(uses, limits)
    ensures Alive(part, limits)
  {
    UsesAscend(h, raw);
    AscendingEnds(uses, |part| - 1);
  }

  lemma {:induction false} AscendingEnds(times: seq<int>, k: nat)
    requires k < |times| && forall i :: 0 < i < |times| ==> times[i - 1] <= times[i]
    ensures times[k] <= times[|times| - 1]
    decreases |times|
  {
    if k < |times| - 1 { AscendingEnds(times[..|times| - 1], k); }
  }

  /** However often it is used, a session keeps its owner, its creation time and its expiry. */
  lemma {:induction false} ExpiryNeverMoves(h: History, h': History, raw: int, now: int, now': int, limits: Limits)
    requires Later(h, h', raw) && Uses(h', raw) != []
    ensures Uses(h, raw) != []
    ensures SessionOf(h', raw, now', limits) == SessionOf(h, raw, now, limits).(lastSeen := now')
  {
    UsesGrow(h, h', raw);
  }

  function OwnCalls(h: History, raw: int): History {
    match h
    case Start => Start
    case Then(before, op, at) => if op.raw == raw then Then(OwnCalls(before, raw), op, at) else OwnCalls(before, raw)
  }

  /** Sessions do not affect each other. */
  lemma {:induction false} SessionsAreIndependent(h: History, raw: int, now: int, limits: Limits)
    ensures Uses(OwnCalls(h, raw), raw) == Uses(h, raw)
    ensures Accepts(OwnCalls(h, raw), raw, now, limits) <==> Accepts(h, raw, now, limits)
  {
    if h.Then? { SessionsAreIndependent(h.before, raw, now, limits); }
  }

  /** A session is the issued user's: whatever happens after the issue, what validate grants names the user and the time
      of the issue, and ends with the absolute limit from then on. */
  lemma GrantsWhatWasIssued(h: History, h': History, raw: int, user: int, at: int, now: int, limits: Limits)
    requires Later(Then(h, Op.Issue(raw, user), at), h', raw) && Uses(h', raw) != []
    ensures SessionOf(h', raw, now, limits) == Session(user, at, at + limits.absolute, now)
  {
    UsesGrow(Then(h, Op.Issue(raw, user), at), h', raw);
  }

  /** The first use after the issue. */
  lemma FirstUse(h: History, raw: int, user: int, at: int, now: int, limits: Limits)
    ensures Accepts(Then(h, Op.Issue(raw, user), at), raw, now, limits) <==>
              now - at < limits.idle && now < at + limits.absolute
  {
    GapsAppend([at], now, limits.idle);
  }

  ghost predicate NeverGarbled(h: History, raw: int) {
    h.Start? || (h.op != Op.Garble(raw) && NeverGarbled(h.before, raw))
  }

  /** Validate raises only where another program has written. */
  lemma {:induction false} OwnRecordsAreNotForeign(h: History, raw: int)
    requires NeverGarbled(h, raw)
    ensures !IsForeign(h, raw)
  {
    if h.Then? { OwnRecordsAreNotForeign(h.before, raw); }
  }
}
