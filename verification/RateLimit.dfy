/** auth/rate_limit.py: the limiter keeps a queue per key; what it means is a statement about all calls so far. */
module RateLimit {
  import opened Prelude

  datatype Call = Call(key: string, at: real)

  /** All calls, in the order in which they took the mutex. A call reads the clock before that. */
  datatype History = Start | Then(before: History, call: Call)

  /** The constructor's arguments. */
  datatype Limits = Limits(capacity: int, window: real)

  type Queues = map<string, seq<real>>

  function QueueOf(qs: Queues, key: string): seq<real> { if key in qs then qs[key] else [] }

  /** popleft while the head is older than the cutoff. */
  function Drop(q: seq<real>, cutoff: real): seq<real> {
    if q != [] && q[0] < cutoff then Drop(q[1..], cutoff) else q
  }

  class TokenBucket {
    const limits: Limits
    var events: Queues
    ghost var calls: History

    ghost predicate Valid()
      reads this
    {
      forall key :: QueueOf(events, key) == Queue(calls, key, limits)
    }

    constructor (limits: Limits)
      ensures Valid() && calls == Start && this.limits == limits
    {
      this.limits := limits;
      events := map[];
      calls := Start;
    }

    method Allow(key: string, now: real) returns (ok: bool)
      requires Valid()
      modifies this
      ensures Valid() && calls == Then(old(calls), Call(key, now))
      ensures ok == Allows(old(calls), Call(key, now), limits)
    {
      var cutoff := now - limits.window;
      var q := QueueOf(events, key);
      while q != [] && q[0] < cutoff
        invariant Drop(q, cutoff) == Drop(QueueOf(events, key), cutoff)
        decreases |q|
      {
        q := q[1..];
      }
      ok := |q| < limits.capacity;
      if ok {
        q := q + [now];
      }
      events := events[key := q];
      calls := Then(calls, Call(key, now));
    }
  }

  // --- the state as a function of the history -----------------------------------------------

  /** The queue of a key. */
  function Queue(h: History, key: string, limits: Limits): seq<real> {
    match h
    case Start => []
    case Then(before, c) =>
      if c.key != key then Queue(before, key, limits)
      else
        var q := Drop(Queue(before, key, limits), c.at - limits.window);
        if |q| < limits.capacity then q + [c.at] else q
  }

  /** The answer to call c after h. */
  function Allows(h: History, c: Call, limits: Limits): bool {
    |Drop(Queue(h, c.key, limits), c.at - limits.window)| < limits.capacity
  }

  // --- what it means ------------------------------------------------------------------------

  /** When the calls of this key that were let through were made: the whole history, nothing dropped. */
  function Passed(h: History, key: string, limits: Limits): seq<real> {
    match h
    case Start => []
    case Then(before, c) =>
      if c.key == key && Allows(before, c, limits) then Passed(before, key, limits) + [c.at]
      else Passed(before, key, limits)
  }

  /** How many of these instants lie in [lo, hi]. */
  function Between(times: seq<real>, lo: real, hi: real): nat
    decreases |times|
  {
    if times == [] then 0
    else Between(times[..|times| - 1], lo, hi) + if lo <= times[|times| - 1] <= hi then 1 else 0
  }

  /** No call was made after `at`. */
  predicate UpTo(h: History, at: real) { h.Start? || h.call.at <= at }

  /** The calls took the mutex in the order of their clock readings. */
  predicate InClockOrder(h: History) { h.Start? || (InClockOrder(h.before) && UpTo(h.before, h.call.at)) }

  ghost predicate Ascending(q: seq<real>) { forall i, j :: 0 <= i < j < |q| ==> q[i] <= q[j] }
  ghost predicate AllBelow(times: seq<real>, bound: real) { forall i :: 0 <= i < |times| ==> times[i] < bound }
  ghost predicate AllUpTo(times: seq<real>, bound: real) { forall i :: 0 <= i < |times| ==> times[i] <= bound }

  // --- counting ------------------------------------------------------------------------------

  /** Between counts: both ends of the interval belong to it. */
  lemma {:induction false} BetweenCounts(times: seq<real>, lo: real, hi: real)
    ensures Between(times, lo, hi) == |set i | 0 <= i < |times| && lo <= times[i] <= hi|
  {
    if times != [] {
      var n := |times| - 1;
      var init := times[..n];
      BetweenCounts(init, lo, hi);
      var before, after := set i | 0 <= i < n && lo <= init[i] <= hi, set i | 0 <= i < |times| && lo <= times[i] <= hi;
      assert after == before + if lo <= times[n] <= hi then {n} else {};
    }
  }

  lemma {:induction false} BetweenAppend(a: seq<real>, b: seq<real>, lo: real, hi: real)
    ensures Between(a + b, lo, hi) == Between(a, lo, hi) + Between(b, lo, hi)
    decreases |b|
  {
    if b == [] {
      assert a + b == a;
    } else {
      BetweenAppend(a, b[..|b| - 1], lo, hi);
      assert (a + b)[..|a + b| - 1] == a + b[..|b| - 1];
    }
  }

  lemma {:induction false} BetweenNone(times: seq<real>, lo: real, hi: real)
    requires AllBelow(times, lo)
    ensures Between(times, lo, hi) == 0
  {
    if times != [] { BetweenNone(times[..|times| - 1], lo, hi); }
  }

  lemma {:induction false} BetweenAll(times: seq<real>, lo: real, hi: real)
    requires forall i :: 0 <= i < |times| ==> lo <= times[i] <= hi
    ensures Between(times, lo, hi) == |times|
  {
    if times != [] { BetweenAll(times[..|times| - 1], lo, hi); }
  }

  lemma {:induction false} BetweenWider(times: seq<real>, lo: real, hi: real, lo': real, hi': real)
    requires forall i :: 0 <= i < |times| && lo <= times[i] <= hi ==> lo' <= times[i] <= hi'
    ensures Between(times, lo, hi) <= Between(times, lo', hi')
  {
    if times != [] { BetweenWider(times[..|times| - 1], lo, hi, lo', hi'); }
  }

  // --- the queue is the recent part of the history -------------------------------------------

  lemma {:induction false} DropExact(q: seq<real>, cutoff: real) returns (gone: seq<real>)
    ensures q == gone + Drop(q, cutoff) && AllBelow(gone, cutoff)
    ensures Drop(q, cutoff) != [] ==> Drop(q, cutoff)[0] >= cutoff
  {
    gone := [];
    if q != [] && q[0] < cutoff {
      var rest := DropExact(q[1..], cutoff);
      gone := [q[0]] + rest;
      assert q == [q[0]] + q[1..];
    }
  }

  /** The times let through are gone + q, where q is the queue: what is gone is older than the window of the latest
      call. */
  ghost predicate Keeps(gone: seq<real>, q: seq<real>, latest: real, window: real) {
    AllBelow(gone, latest - window) && AllUpTo(q, latest) && Ascending(q)
  }

  lemma SuffixAscends(out: seq<real>, left: seq<real>, at: real)
    requires Ascending(out + left) && AllUpTo(out + left, at)
    ensures Ascending(left) && AllUpTo(left, at)
  {
    assert forall i :: 0 <= i < |left| ==> left[i] == (out + left)[|out| + i];
  }

  /** A queue that loses its head `out` to a later call. */
  lemma KeepsSplit(gone: seq<real>, out: seq<real>, left: seq<real>, latest: real, at: real, window: real)
    requires AllBelow(gone, latest - window) && AllBelow(out, at - window) && latest <= at
    requires Ascending(out + left) && AllUpTo(out + left, latest)
    ensures Keeps(gone + out, left, at, window)
  {
    SuffixAscends(out, left, latest);
  }

  lemma KeepsDropped(gone: seq<real>, q: seq<real>, latest: real, at: real, window: real) returns (gone': seq<real>)
    requires Keeps(gone, q, latest, window) && latest <= at
    ensures gone + q == gone' + Drop(q, at - window) && Keeps(gone', Drop(q, at - window), at, window)
    ensures Drop(q, at - window) != [] ==> Drop(q, at - window)[0] >= at - window
  {
    var cutoff := at - window;
    var out := DropExact(q, cutoff);
    KeepsSplit(gone, out, Drop(q, cutoff), latest, at, window);
    gone' := gone + out;
    Regroup(gone, out, Drop(q, cutoff));
  }

  lemma KeptAreTheRecent(gone: seq<real>, q: seq<real>, at: real, window: real)
    requires Keeps(gone, q, at, window) && (q != [] ==> q[0] >= at - window)
    ensures Between(gone + q, at - window, at) == |q|
  {
    BetweenAppend(gone, q, at - window, at);
    BetweenNone(gone, at - window, at);
    BetweenAll(q, at - window, at);
  }

  /** Of the windows an instant lies in, the one that ends with it holds most of what came before. */
  lemma LatestWindowIsFullest(passed: seq<real>, gone: seq<real>, q: seq<real>, at: real, window: real, lo: real)
    requires passed == gone + q && Keeps(gone, q, at, window) && lo <= at <= lo + window
    ensures Between(passed, lo, lo + window) <= Between(passed, at - window, at)
  {
    assert forall i :: 0 <= i < |gone| ==> passed[i] == gone[i];
    assert forall i :: |gone| <= i < |passed| ==> passed[i] == q[i - |gone|];
    BetweenWider(passed, lo, lo + window, at - window, at);
  }

  lemma {:induction false} QueueRemembers(h: History, key: string, latest: real, limits: Limits)
    returns (gone: seq<real>)
    requires InClockOrder(h) && UpTo(h, latest)
    ensures Passed(h, key, limits) == gone + Queue(h, key, limits)
    ensures Keeps(gone, Queue(h, key, limits), latest, limits.window)
  {
    gone := [];
    if h.Then? {
      var c, q := h.call, Queue(h.before, key, limits);
      gone := QueueRemembers(h.before, key, c.at, limits);
      if c.key == key {
        gone := KeepsDropped(gone, q, c.at, c.at, limits.window);
        assert (gone + Drop(q, c.at - limits.window)) + [c.at] == gone + (Drop(q, c.at - limits.window) + [c.at]);
      }
    }
  }

  /** The calls of one key. */
  function OfKey(h: History, key: string): History {
    match h
    case Start => Start
    case Then(before, c) => if c.key == key then Then(OfKey(before, key), c) else OfKey(before, key)
  }

  /** The calls of one key took the mutex in the order of their clock readings; other keys' calls may not have. */
  predicate KeyInOrder(h: History, key: string) { InClockOrder(OfKey(h, key)) }

  lemma {:induction false} OwnCallsDecide(h: History, key: string, limits: Limits)
    ensures Queue(h, key, limits) == Queue(OfKey(h, key), key, limits)
    ensures Passed(h, key, limits) == Passed(OfKey(h, key), key, limits)
  {
    if h.Then? { OwnCallsDecide(h.before, key, limits); }
  }

  /** Keys do not affect each other. */
  lemma KeysAreIndependent(h: History, c: Call, limits: Limits)
    ensures Allows(h, c, limits) == Allows(OfKey(h, c.key), c, limits)
  {
    OwnCallsDecide(h, c.key, limits);
  }

  lemma AllowsExactlyInOrder(h: History, c: Call, limits: Limits)
    requires InClockOrder(Then(h, c))
    ensures Allows(h, c, limits) <==> PassedBefore(h, c, limits) < limits.capacity
  {
    var q := Queue(h, c.key, limits);
    var gone := QueueRemembers(h, c.key, c.at, limits);
    gone := KeepsDropped(gone, q, c.at, c.at, limits.window);
    KeptAreTheRecent(gone, Drop(q, c.at - limits.window), c.at, limits.window);
  }

  /** How many calls of c's key that were let through lie in the closed window before c. */
  function PassedBefore(h: History, c: Call, limits: Limits): nat {
    Between(Passed(h, c.key, limits), c.at - limits.window, c.at)
  }

  /** If the calls of its key took the mutex in clock order, a call is let through exactly when fewer than `capacity`
      calls of its key that were let through lie in the closed window before it. */
  lemma AllowsExactly(h: History, c: Call, limits: Limits)
    requires KeyInOrder(Then(h, c), c.key)
    ensures Allows(h, c, limits) <==> PassedBefore(h, c, limits) < limits.capacity
  {
    OwnCallsDecide(h, c.key, limits);
    AllowsExactlyInOrder(OfKey(h, c.key), c, limits);
  }

  // --- what it promises ------------------------------------------------------------------------

  function AtLeastZero(n: int): nat { if n < 0 then 0 else n }

  /** Before a call that is let through, no window around it was full. */
  lemma RoomForOneMore(h: History, c: Call, limits: Limits, lo: real)
    requires InClockOrder(Then(h, c)) && Allows(h, c, limits) && lo <= c.at <= lo + limits.window
    ensures Between(Passed(h, c.key, limits), lo, lo + limits.window) < limits.capacity
  {
    AllowsExactlyInOrder(h, c, limits);
    OwnWindowIsFullest(h, c, limits, lo);
  }

  lemma OwnWindowIsFullest(h: History, c: Call, limits: Limits, lo: real)
    requires InClockOrder(Then(h, c)) && lo <= c.at <= lo + limits.window
    ensures Between(Passed(h, c.key, limits), lo, lo + limits.window) <= PassedBefore(h, c, limits)
  {
    var gone := QueueRemembers(h, c.key, c.at, limits);
    LatestWindowIsFullest(Passed(h, c.key, limits), gone, Queue(h, c.key, limits), c.at, limits.window, lo);
  }

  lemma OneMore(times: seq<real>, at: real, lo: real, hi: real)
    ensures Between(times + [at], lo, hi) == Between(times, lo, hi) + if lo <= at <= hi then 1 else 0
  {
    BetweenAppend(times, [at], lo, hi);
  }

  /** The closed interval of window length from lo on holds at most `capacity` passed calls of this key. */
  predicate WindowHolds(h: History, key: string, limits: Limits, lo: real) {
    Between(Passed(h, key, limits), lo, lo + limits.window) <= AtLeastZero(limits.capacity)
  }

  lemma {:induction false} WindowHoldsInOrder(h: History, key: string, limits: Limits, lo: real)
    requires InClockOrder(h)
    ensures WindowHolds(h, key, limits, lo)
  {
    if h.Then? {
      WindowHoldsInOrder(h.before, key, limits, lo);
      OneMore(Passed(h.before, key, limits), h.call.at, lo, lo + limits.window);
      if h.call.key == key && Allows(h.before, h.call, limits) && lo <= h.call.at <= lo + limits.window {
        RoomForOneMore(h.before, h.call, limits, lo);
      }
    }
  }

  /** If a key's calls took the mutex in clock order, no closed interval of window length ever holds more than
      `capacity` of them that were let through. */
  lemma EveryWindowHolds(h: History, key: string, limits: Limits, lo: real)
    requires KeyInOrder(h, key)
    ensures WindowHolds(h, key, limits, lo)
  {
    OwnCallsDecide(h, key, limits);
    WindowHoldsInOrder(OfKey(h, key), key, limits, lo);
  }

  /** A queue never grows beyond the capacity, in whatever order the calls come. */
  lemma {:induction false} QueuesStaySmall(h: History, key: string, limits: Limits)
    ensures |Queue(h, key, limits)| <= AtLeastZero(limits.capacity)
  {
    if h.Then? {
      QueuesStaySmall(h.before, key, limits);
      var _ := DropExact(Queue(h.before, key, limits), h.call.at - limits.window);
    }
  }

  /** It ascends if the key's calls come in clock order. */
  lemma QueuesAscend(h: History, key: string, limits: Limits)
    requires KeyInOrder(h, key)
    ensures Ascending(Queue(h, key, limits))
  {
    OwnCallsDecide(h, key, limits);
    var own := OfKey(h, key);
    if own.Then? { var _ := QueueRemembers(own, key, own.call.at, limits); }
  }

  // --- what is left of it without the order ----------------------------------------------------

  /** h, then k times the call c. */
  function Repeat(h: History, c: Call, k: nat): History {
    if k == 0 then h else Then(Repeat(h, c, k - 1), c)
  }

  function Copies(at: real, k: nat): (times: seq<real>)
    ensures |times| == k && forall i :: 0 <= i < k ==> times[i] == at
  {
    seq(k, _ => at)
  }

  lemma CopiesNext(at: real, k: nat)
    ensures Copies(at, k) + [at] == Copies(at, k + 1)
  {
  }

  /** Calls that the head of the queue outlives are let through until the queue is full. */
  lemma {:induction false} RepeatPasses(h: History, c: Call, k: nat, limits: Limits)
    requires |Queue(h, c.key, limits)| + k <= limits.capacity
    requires Queue(h, c.key, limits) == [] ==> limits.window >= 0.0
    requires Queue(h, c.key, limits) != [] ==> Queue(h, c.key, limits)[0] >= c.at - limits.window
    ensures Queue(Repeat(h, c, k), c.key, limits) == Queue(h, c.key, limits) + Copies(c.at, k)
    ensures Passed(Repeat(h, c, k), c.key, limits) == Passed(h, c.key, limits) + Copies(c.at, k)
  {
    if k > 0 {
      RepeatPasses(h, c, k - 1, limits);
      CopiesNext(c.at, k - 1);
      var q, passed := Queue(h, c.key, limits), Passed(h, c.key, limits);
      assert (q + Copies(c.at, k - 1)) + [c.at] == q + Copies(c.at, k);
      assert (passed + Copies(c.at, k - 1)) + [c.at] == passed + Copies(c.at, k);
    }
  }

  /** One call at 0, then k made at `at`. */
  function OneThen(key: string, at: real, k: nat): History { Repeat(Then(Start, Call(key, 0.0)), Call(key, at), k) }

  lemma OneThenPasses(key: string, at: real, k: nat, limits: Limits)
    requires k < limits.capacity && 0.0 >= at - limits.window
    ensures Queue(OneThen(key, at, k), key, limits) == [0.0] + Copies(at, k)
    ensures Passed(OneThen(key, at, k), key, limits) == [0.0] + Copies(at, k)
  {
    var first := Then(Start, Call(key, 0.0));
    assert Queue(first, key, limits) == [0.0] && Passed(first, key, limits) == [0.0];
    RepeatPasses(first, Call(key, at), k, limits);
  }

  lemma OnlyTheLateCount(at: real, k: nat, lo: real)
    requires at < 0.0
    ensures Between([0.0] + Copies(at, k), lo, at) <= k
  {
    BetweenAppend([0.0], Copies(at, k), lo, at);
    BetweenAtMostAll(Copies(at, k), lo, at);
    assert Between([0.0], lo, at) == Between([], lo, at);
  }

  /** One call at 0, then calls of an earlier reading until the queue is full: the next such call is refused ... */
  lemma LateCallIsRefused(key: string, at: real, limits: Limits)
    requires limits.capacity >= 1 && 0.0 >= at - limits.window
    ensures !Allows(OneThen(key, at, limits.capacity - 1), Call(key, at), limits)
  {
    var k := limits.capacity - 1;
    OneThenPasses(key, at, k, limits);
    KeepsHead([0.0] + Copies(at, k), at - limits.window);
  }

  lemma KeepsHead(q: seq<real>, cutoff: real)
    requires q != [] && q[0] >= cutoff
    ensures Drop(q, cutoff) == q
  {
  }

  lemma CountBefore(h: History, c: Call, limits: Limits, times: seq<real>)
    requires Passed(h, c.key, limits) == times
    ensures PassedBefore(h, c, limits) == Between(times, c.at - limits.window, c.at)
  {
  }

  /** ... although its own window is not full. */
  lemma LateCallHasRoom(key: string, at: real, limits: Limits)
    requires limits.capacity >= 1 && 0.0 >= at - limits.window && at < 0.0
    ensures PassedBefore(OneThen(key, at, limits.capacity - 1), Call(key, at), limits) < limits.capacity
  {
    var k, lo := limits.capacity - 1, at - limits.window;
    OneThenPasses(key, at, k, limits);
    CountBefore(OneThen(key, at, k), Call(key, at), limits, [0.0] + Copies(at, k));
    OnlyTheLateCount(at, k, lo);
  }

  lemma {:induction false} BetweenAtMostAll(times: seq<real>, lo: real, hi: real)
    ensures Between(times, lo, hi) <= |times|
  {
    if times != [] { BetweenAtMostAll(times[..|times| - 1], lo, hi); }
  }

  /** A capacity of calls at 0, then one that drops them all. */
  function Overtaken(key: string, limits: Limits): History
    requires limits.capacity >= 0
  {
    Then(Repeat(Start, Call(key, 0.0), limits.capacity), Call(key, limits.window + 1.0))
  }

  lemma OvertakenState(key: string, limits: Limits)
    requires limits.capacity >= 2 && limits.window >= 0.0
    ensures Queue(Overtaken(key, limits), key, limits) == [limits.window + 1.0]
    ensures Passed(Overtaken(key, limits), key, limits) == Copies(0.0, limits.capacity) + [limits.window + 1.0]
  {
    var n := limits.capacity;
    RepeatPasses(Start, Call(key, 0.0), n, limits);
    assert [] + Copies(0.0, n) == Copies(0.0, n);
    DropAll(Copies(0.0, n), limits.window + 1.0 - limits.window);
  }

  /** A late call at 0 then is one too many in the window from 0 on. */
  lemma LateCallOverfills(key: string, limits: Limits)
    requires limits.capacity >= 2 && limits.window >= 0.0
    ensures !WindowHolds(Then(Overtaken(key, limits), Call(key, 0.0)), key, limits, 0.0)
  {
    var n, w, all := limits.capacity, limits.window, Copies(0.0, limits.capacity) + [limits.window + 1.0];
    OvertakenState(key, limits);
    KeepsHead([w + 1.0], 0.0 - w);
    OneMore(all, 0.0, 0.0, w);
    OneMore(Copies(0.0, n), w + 1.0, 0.0, w);
    BetweenAll(Copies(0.0, n), 0.0, w);
  }

  lemma {:induction false} DropAll(q: seq<real>, cutoff: real)
    requires AllBelow(q, cutoff)
    ensures Drop(q, cutoff) == []
  {
    if q != [] { DropAll(q[1..], cutoff); }
  }

  lemma {:induction false} BetweenNothing(times: seq<real>, lo: real, hi: real)
    requires hi < lo
    ensures Between(times, lo, hi) == 0
  {
    if times != [] { BetweenNothing(times[..|times| - 1], lo, hi); }
  }

  /** At capacity 1 the queue is the latest call let through, and it alone decides. */
  lemma {:induction false} SingleRemembers(h: History, key: string, limits: Limits)
    requires limits.capacity == 1 && limits.window >= 0.0
    ensures var passed, q := Passed(h, key, limits), Queue(h, key, limits);
            |q| <= 1 && (passed != [] ==> |q| == 1 && AllUpTo(passed, q[0]))
  {
    if h.Then? {
      SingleRemembers(h.before, key, limits);
      var _ := DropExact(Queue(h.before, key, limits), h.call.at - limits.window);
    }
  }

  lemma {:induction false} SingleHolds(h: History, key: string, limits: Limits, lo: real)
    requires limits.capacity == 1 && limits.window >= 0.0
    ensures WindowHolds(h, key, limits, lo)
  {
    if h.Then? {
      var passed, at := Passed(h.before, key, limits), h.call.at;
      SingleHolds(h.before, key, limits, lo);
      SingleRemembers(h.before, key, limits);
      OneMore(passed, at, lo, lo + limits.window);
      if h.call.key == key && Allows(h.before, h.call, limits) && lo <= at <= lo + limits.window {
        assert AllBelow(passed, at - limits.window);
        BetweenNone(passed, lo, lo + limits.window);
      }
    }
  }

  lemma {:induction false} NothingPasses(h: History, key: string, limits: Limits)
    requires limits.capacity <= 0
    ensures Passed(h, key, limits) == []
  {
    if h.Then? { NothingPasses(h.before, key, limits); }
  }

  /** Exactly when the bound needs no order at all: for at most one call a window, or an empty window. */
  lemma WindowsHoldInAnyOrderIff(limits: Limits)
    ensures (forall h, key, lo :: WindowHolds(h, key, limits, lo)) <==> limits.capacity <= 1 || limits.window < 0.0
  {
    if limits.capacity <= 1 || limits.window < 0.0 {
      forall h, key, lo ensures WindowHolds(h, key, limits, lo) {
        if limits.window < 0.0 { BetweenNothing(Passed(h, key, limits), lo, lo + limits.window); }
        else if limits.capacity == 1 { SingleHolds(h, key, limits, lo); }
        else { NothingPasses(h, key, limits); }
      }
    } else {
      LateCallOverfills("", limits);
    }
  }

  predicate AnswersExactly(h: History, c: Call, limits: Limits) {
    Allows(h, c, limits) <==> PassedBefore(h, c, limits) < limits.capacity
  }

  /** Exactly when the answers need no order: when there are none but refusals. */
  lemma AnswersExactInAnyOrderIff(limits: Limits)
    ensures (forall h, c :: AnswersExactly(h, c, limits)) <==> limits.capacity <= 0
  {
    if limits.capacity >= 1 {
      var at := if limits.window < 0.0 then limits.window - 1.0 else -1.0;
      LateCallIsRefused("", at, limits);
      LateCallHasRoom("", at, limits);
      assert !AnswersExactly(OneThen("", at, limits.capacity - 1), Call("", at), limits);
    }
  }
}
