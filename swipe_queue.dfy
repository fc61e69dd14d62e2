/** The offline swipe queue (src/app/services/swipe-queue.service.ts): a FIFO
    list of swipes not yet confirmed by the server, persisted in
    `localStorage`, delivered by a single-pass flush with capped exponential
    backoff and a guard flag against overlapping flushes. The server's
    answers are an argument `ok`: `ok(i)` says whether delivering the i-th
    item tried in that flush succeeds. Sleeping is replaced by the list of
    delays the flush waits. */
module SwipeQueue {
  import opened Common

  const BaseDelayMs := 500
  const MaxDelayMs := 15000

  /** One stored swipe. `enqueuedAt` is the enqueue time in milliseconds. */
  datatype QueuedSwipe = QueuedSwipe(symbol: string, liked: bool, attempts: nat, enqueuedAt: int)

  // ---------------------------------------------------------------------
  // Backoff

  function Pow2(n: nat): (p: nat)
    ensures p >= 1
  {
    if n == 0 then 1 else 2 * Pow2(n - 1)
  }

  lemma {:induction false} Pow2Monotone(m: nat, n: nat)
    requires m <= n
    ensures Pow2(m) <= Pow2(n)
    decreases n
  {
    if m < n {
      Pow2Monotone(m, n - 1);
    }
  }

  /** `Math.min(15000, 500 * Math.pow(2, attempts))`: never more than the
      cap, and at least a second once the item has failed before. */
  function BackoffDelay(attempts: nat): (d: nat)
    ensures BaseDelayMs <= d <= MaxDelayMs
    ensures attempts > 0 ==> 2 * BaseDelayMs <= d
  {
    var raw := BaseDelayMs * Pow2(attempts);
    if raw < MaxDelayMs then raw else MaxDelayMs
  }

  /** Each further failure doubles the delay until it reaches the cap. */
  lemma BackoffDoubles(attempts: nat)
    ensures BackoffDelay(attempts + 1) ==
            if 2 * BackoffDelay(attempts) < MaxDelayMs then 2 * BackoffDelay(attempts) else MaxDelayMs
  {
    assert Pow2(attempts + 1) == 2 * Pow2(attempts);
  }

  /** More failures never mean a shorter wait. */
  lemma BackoffMonotone(m: nat, n: nat)
    requires m <= n
    ensures BackoffDelay(m) <= BackoffDelay(n)
  {
    Pow2Monotone(m, n);
  }

  /** From the fifth failure on the delay is the 15 second cap. */
  lemma BackoffSaturates(attempts: nat)
    requires attempts >= 5
    ensures BackoffDelay(attempts) == MaxDelayMs
  {
    Pow2Monotone(5, attempts);
    assert Pow2(5) == 32 by {
      assert Pow2(1) == 2 && Pow2(2) == 4 && Pow2(3) == 8 && Pow2(4) == 16;
    }
  }

  // ---------------------------------------------------------------------
  // One flush, on values. Each function is defined on a prefix of the
  // queue read at the start of the flush, the way the loop builds it.

  /** An item after n more failed deliveries. */
  function Aged(item: QueuedSwipe, n: nat): QueuedSwipe
  {
    item.(attempts := item.attempts + n)
  }

  /** A failed item goes back with one more attempt recorded. */
  function Bumped(item: QueuedSwipe): QueuedSwipe
  {
    Aged(item, 1)
  }

  /** The `next` list of a flush with a device id: the items whose delivery
      failed, each with its attempts increased. */
  function Retained(q: seq<QueuedSwipe>, ok: nat -> bool): (r: seq<QueuedSwipe>)
    ensures |r| <= |q|
  {
    if q == [] then []
    else
      var i := |q| - 1;
      Retained(q[..i], ok) + (if ok(i) then [] else [Bumped(q[i])])
  }

  /** The items a flush with a device id delivers, in the order sent. */
  function Delivered(q: seq<QueuedSwipe>, ok: nat -> bool): (r: seq<QueuedSwipe>)
    ensures |r| <= |q|
  {
    if q == [] then []
    else
      var i := |q| - 1;
      Delivered(q[..i], ok) + (if ok(i) then [q[i]] else [])
  }

  /** The delays a flush sleeps while walking q: one backoff per item that
      has failed before, none for a first attempt. */
  function Waits(q: seq<QueuedSwipe>): (w: seq<nat>)
    ensures |w| <= |q|
    ensures forall k :: 0 <= k < |w| ==> 2 * BaseDelayMs <= w[k] <= MaxDelayMs
    ensures (forall i :: 0 <= i < |q| ==> q[i].attempts == 0) ==> w == []
  {
    if q == [] then []
    else
      var i := |q| - 1;
      Waits(q[..i]) + (if q[i].attempts > 0 then [BackoffDelay(q[i].attempts)] else [])
  }

  /** The positions j < n with ok(j) == want, in increasing order: a
      reference description of which items a flush keeps or delivers. */
  function Positions(n: nat, ok: nat -> bool, want: bool): seq<nat>
  {
    if n == 0 then []
    else Positions(n - 1, ok, want) + (if ok(n - 1) == want then [n - 1] else [])
  }

  lemma {:induction false} PositionsExact(n: nat, ok: nat -> bool, want: bool)
    ensures var p := Positions(n, ok, want);
            (forall k :: 0 <= k < |p| ==> p[k] < n && ok(p[k]) == want) &&
            (forall k, l :: 0 <= k < l < |p| ==> p[k] < p[l]) &&
            (forall j :: 0 <= j < n && ok(j) == want ==> j in p)
  {
    if n > 0 {
      PositionsExact(n - 1, ok, want);
    }
  }

  /** Which items a flush sleeps before: those that have failed before. */
  function HasFailed(q: seq<QueuedSwipe>): nat -> bool
  {
    (j: nat) => j < |q| && q[j].attempts > 0
  }

  lemma {:induction false} WaitsPrefix(q: seq<QueuedSwipe>, n: nat)
    requires n <= |q|
    ensures var p := Positions(n, HasFailed(q), true);
            |Waits(q[..n])| == |p| &&
            forall k :: 0 <= k < |p| ==> p[k] < n && Waits(q[..n])[k] == BackoffDelay(q[p[k]].attempts)
  {
    if n > 0 {
      WaitsPrefix(q, n - 1);
      assert q[..n][..n - 1] == q[..n - 1];
    }
  }

  /** The sleeps of a flush are exactly one backoff per item that has failed
      before, in queue order, each the delay for that item's attempts; the
      items on their first attempt cause none. */
  lemma WaitsAreTheBackoffs(q: seq<QueuedSwipe>)
    ensures var p := Positions(|q|, HasFailed(q), true);
            |Waits(q)| == |p| &&
            (forall k :: 0 <= k < |p| ==> p[k] < |q| && q[p[k]].attempts > 0 &&
                                          Waits(q)[k] == BackoffDelay(q[p[k]].attempts)) &&
            (forall j :: 0 <= j < |q| && q[j].attempts > 0 ==> j in p)
  {
    WaitsPrefix(q, |q|);
    assert q[..|q|] == q;
    PositionsExact(|q|, HasFailed(q), true);
  }

  lemma {:induction false} PositionsPartition(n: nat, ok: nat -> bool)
    ensures |Positions(n, ok, false)| + |Positions(n, ok, true)| == n
  {
    if n > 0 {
      PositionsPartition(n - 1, ok);
    }
  }

  /** The retained list is exactly the failed items, in their original
      relative order, each with one more attempt. */
  lemma {:induction false} RetainedAreTheFailures(q: seq<QueuedSwipe>, ok: nat -> bool)
    ensures var p := Positions(|q|, ok, false);
            |Retained(q, ok)| == |p| &&
            forall k :: 0 <= k < |p| ==> p[k] < |q| && Retained(q, ok)[k] == Bumped(q[p[k]])
  {
    PositionsExact(|q|, ok, false);
    if q != [] {
      var i := |q| - 1;
      RetainedAreTheFailures(q[..i], ok);
      assert |q[..i]| == i;
    }
  }

  /** The delivered list is exactly the succeeding items, in queue order. */
  lemma {:induction false} DeliveredAreTheSuccesses(q: seq<QueuedSwipe>, ok: nat -> bool)
    ensures var p := Positions(|q|, ok, true);
            |Delivered(q, ok)| == |p| &&
            forall k :: 0 <= k < |p| ==> p[k] < |q| && Delivered(q, ok)[k] == q[p[k]]
  {
    PositionsExact(|q|, ok, true);
    if q != [] {
      var i := |q| - 1;
      DeliveredAreTheSuccesses(q[..i], ok);
      assert |q[..i]| == i;
    }
  }

  /** Every item is tried exactly once: it is either delivered or retained. */
  lemma TriedOnce(q: seq<QueuedSwipe>, ok: nat -> bool)
    ensures |Retained(q, ok)| + |Delivered(q, ok)| == |q|
  {
    RetainedAreTheFailures(q, ok);
    DeliveredAreTheSuccesses(q, ok);
    PositionsPartition(|q|, ok);
  }

  /** What one flush does with the queue q it read: the list it writes back,
      the items it delivered and the delays it slept. */
  datatype FlushResult = FlushResult(next: seq<QueuedSwipe>, delivered: seq<QueuedSwipe>, waited: seq<nat>)

  /** The flush as written: without a device id the loop sleeps for the
      first item's backoff, breaks, and the empty `next` list is written. */
  function FlushOutcome(q: seq<QueuedSwipe>, deviceId: Option<string>, ok: nat -> bool): FlushResult
  {
    if Present(deviceId) then FlushResult(Retained(q, ok), Delivered(q, ok), Waits(q))
    else FlushResult([], [], if q != [] && q[0].attempts > 0 then [BackoffDelay(q[0].attempts)] else [])
  }

  /** As written, a flush without a device id loses every queued swipe:
      none is delivered and none is kept. */
  lemma FlushWithoutDeviceDropsQueue(q: seq<QueuedSwipe>, deviceId: Option<string>, ok: nat -> bool)
    requires !Present(deviceId) && q != []
    ensures FlushOutcome(q, deviceId, ok).next == []
    ensures |FlushOutcome(q, deviceId, ok).next| + |FlushOutcome(q, deviceId, ok).delivered| < |q|
  {
  }

  /** The flush as intended ("need device to proceed"): without a device id
      it leaves the queue as it is; with one it is the flush as written. */
  function FlushOutcomeFixed(q: seq<QueuedSwipe>, deviceId: Option<string>, ok: nat -> bool): FlushResult
  {
    if Present(deviceId) then FlushOutcome(q, deviceId, ok) else FlushResult(q, [], [])
  }

  /** The corrected flush never loses a swipe: every item read is either
      delivered or written back. */
  lemma FixedFlushLosesNothing(q: seq<QueuedSwipe>, deviceId: Option<string>, ok: nat -> bool)
    ensures var r := FlushOutcomeFixed(q, deviceId, ok);
            |r.next| + |r.delivered| == |q|
    ensures !Present(deviceId) ==> FlushOutcomeFixed(q, deviceId, ok).next == q
  {
    TriedOnce(q, ok);
  }

  // ---------------------------------------------------------------------
  // Several flushes in a row

  /** The answers of a flush in which every delivery fails / succeeds. */
  const AllFail: nat -> bool := (i: nat) => false
  const AllSucceed: nat -> bool := (i: nat) => true

  /** The queue after one flush per element of `answers`, all with the
      same device id. */
  function AfterFlushes(q: seq<QueuedSwipe>, deviceId: Option<string>, answers: seq<nat -> bool>): seq<QueuedSwipe>
    decreases |answers|
  {
    if answers == [] then q
    else
      var last := |answers| - 1;
      FlushOutcome(AfterFlushes(q, deviceId, answers[..last]), deviceId, answers[last]).next
  }

  /** Index map composition: position k of `kept` refers into `before`. */
  function Compose(before: seq<nat>, kept: seq<nat>): (s: seq<nat>)
    ensures |s| == |kept|
    ensures forall k :: 0 <= k < |kept| && kept[k] < |before| ==> s[k] == before[kept[k]]
  {
    seq(|kept|, k => if 0 <= k < |kept| && kept[k] < |before| then before[kept[k]] else 0)
  }

  /** Which original positions are still queued after the flushes. */
  function Survivors(q: seq<QueuedSwipe>, deviceId: Option<string>, answers: seq<nat -> bool>): seq<nat>
    decreases |answers|
  {
    if answers == [] then seq(|q|, j => j)
    else
      var last := |answers| - 1;
      Compose(Survivors(q, deviceId, answers[..last]),
              Positions(|AfterFlushes(q, deviceId, answers[..last])|, answers[last], false))
  }

  /** `before` says where each item of `cur` came from in q, and that it has
      failed n times since, in increasing order of origin. */
  ghost predicate Traced(q: seq<QueuedSwipe>, cur: seq<QueuedSwipe>, before: seq<nat>, n: nat)
  {
    |before| == |cur| &&
    (forall k :: 0 <= k < |before| ==> before[k] < |q| && cur[k] == Aged(q[before[k]], n)) &&
    (forall k, l :: 0 <= k < l < |before| ==> before[k] < before[l])
  }

  /** One more flush keeps the trace, with one more failure each. */
  lemma FlushKeepsTrace(q: seq<QueuedSwipe>, cur: seq<QueuedSwipe>, before: seq<nat>, n: nat, ok: nat -> bool)
    requires Traced(q, cur, before, n)
    ensures Traced(q, Retained(cur, ok), Compose(before, Positions(|cur|, ok, false)), n + 1)
  {
    var kept := Positions(|cur|, ok, false);
    var r := Retained(cur, ok);
    var s := Compose(before, kept);
    RetainedAreTheFailures(cur, ok);
    PositionsExact(|cur|, ok, false);
    forall k | 0 <= k < |s|
      ensures s[k] < |q| && r[k] == Aged(q[s[k]], n + 1)
    {
      assert s[k] == before[kept[k]];
      assert r[k] == Bumped(cur[kept[k]]);
    }
    forall k, l | 0 <= k < l < |s|
      ensures s[k] < s[l]
    {
      assert kept[k] < kept[l];
      assert s[k] == before[kept[k]] && s[l] == before[kept[l]];
    }
  }

  /** Across any number of flushes with a device id, the queue holds original
      items in their original order, and each one's attempts has grown by
      exactly the number of deliveries of it that failed (one per flush it
      stayed through). */
  lemma {:induction false} FlushesKeepOrderAndCountFailures(q: seq<QueuedSwipe>, deviceId: Option<string>, answers: seq<nat -> bool>)
    requires Present(deviceId)
    ensures Traced(q, AfterFlushes(q, deviceId, answers), Survivors(q, deviceId, answers), |answers|)
    decreases |answers|
  {
    if answers != [] {
      var last := |answers| - 1;
      FlushesKeepOrderAndCountFailures(q, deviceId, answers[..last]);
      FlushKeepsTrace(q, AfterFlushes(q, deviceId, answers[..last]), Survivors(q, deviceId, answers[..last]), last, answers[last]);
    }
  }

  /** A flush in which every delivery fails keeps every item, one attempt older. */
  lemma {:induction false} AllFailingFlush(q: seq<QueuedSwipe>, ok: nat -> bool)
    requires forall j :: !ok(j)
    ensures |Retained(q, ok)| == |q| && forall i :: 0 <= i < |q| ==> Retained(q, ok)[i] == Bumped(q[i])
    ensures Delivered(q, ok) == []
  {
    if q != [] {
      AllFailingFlush(q[..|q| - 1], ok);
    }
  }

  /** A flush in which every delivery succeeds delivers the whole queue in order. */
  lemma {:induction false} AllSucceedingFlush(q: seq<QueuedSwipe>, ok: nat -> bool)
    requires forall j :: ok(j)
    ensures Retained(q, ok) == [] && Delivered(q, ok) == q
  {
    if q != [] {
      AllSucceedingFlush(q[..|q| - 1], ok);
      assert q[..|q| - 1] + [q[|q| - 1]] == q;
    }
  }

  /** k failing flushes keep every swipe, in place, each k attempts older. */
  lemma {:induction false} AllFailKeepsEveryone(q: seq<QueuedSwipe>, deviceId: Option<string>, k: nat)
    requires Present(deviceId)
    ensures var r := AfterFlushes(q, deviceId, seq(k, i => AllFail));
            |r| == |q| && forall i :: 0 <= i < |q| ==> r[i] == Aged(q[i], k)
  {
    if k > 0 {
      var failing := seq(k, i => AllFail);
      assert failing[..k - 1] == seq(k - 1, i => AllFail);
      AllFailKeepsEveryone(q, deviceId, k - 1);
      AllFailingFlush(AfterFlushes(q, deviceId, failing[..k - 1]), AllFail);
    }
  }

  /** k flushes that all fail, then one that succeeds: every swipe is
      delivered exactly once, in the order enqueued, carrying k more attempts. */
  lemma RetriedUntilDelivered(q: seq<QueuedSwipe>, deviceId: Option<string>, k: nat)
    requires Present(deviceId)
    ensures var r := FlushOutcome(AfterFlushes(q, deviceId, seq(k, i => AllFail)), deviceId, AllSucceed);
            r.next == [] && |r.delivered| == |q| &&
            forall i :: 0 <= i < |q| ==> r.delivered[i] == Aged(q[i], k)
  {
    AllFailKeepsEveryone(q, deviceId, k);
    AllSucceedingFlush(AfterFlushes(q, deviceId, seq(k, i => AllFail)), AllSucceed);
  }

  // ---------------------------------------------------------------------
  // localStorage under 'stockswiper-swipe-queue', on values. A queue that
  // is absent or does not parse reads as [] (parsing is not modelled).

  /** `readQueue()`: a throwing `getItem` reads as the empty queue. */
  function ReadStored(b: Browser, stored: seq<QueuedSwipe>): seq<QueuedSwipe>
  {
    if b.canRead then stored else []
  }

  /** `writeQueue(q)`: a throwing `setItem` leaves the old value. */
  function WriteStored(b: Browser, stored: seq<QueuedSwipe>, q: seq<QueuedSwipe>): seq<QueuedSwipe>
  {
    if b.canWrite then q else stored
  }

  /** The stored queue after `enqueue`. */
  function AfterEnqueue(b: Browser, stored: seq<QueuedSwipe>, item: QueuedSwipe): (r: seq<QueuedSwipe>)
    // with working storage: exactly one item more, at the end
    ensures b.hasWindow && b.canRead && b.canWrite ==>
              |r| == |stored| + 1 && r[..|stored|] == stored && r[|stored|] == item
    // no window, or a throwing setItem: the swipe is lost
    ensures !b.hasWindow || !b.canWrite ==> r == stored
    // a throwing getItem with a working setItem overwrites what was stored
    ensures b.hasWindow && !b.canRead && b.canWrite ==> r == [item]
  {
    if b.hasWindow then WriteStored(b, stored, ReadStored(b, stored) + [item]) else stored
  }

  /** The service object: its `flushing` flag and the stored queue. */
  class SwipeQueueService {
    const browser: Browser
    var flushing: bool
    var stored: seq<QueuedSwipe>

    constructor (browser: Browser, stored: seq<QueuedSwipe>)
      ensures this.browser == browser && this.stored == stored && !flushing
    {
      this.browser := browser;
      this.stored := stored;
      flushing := false;
    }

    /** `readQueue()` on this object's storage: `ReadStored` applied to the
        field, so that contracts about the object can name it. */
    function ReadQueue(): seq<QueuedSwipe>
      reads this
    {
      ReadStored(browser, stored)
    }

    method WriteQueue(q: seq<QueuedSwipe>)
      modifies this
      ensures stored == WriteStored(browser, old(stored), q) && flushing == old(flushing)
    {
      if browser.canWrite {
        stored := q;
      }
    }

    /** `enqueue(symbol, liked)` at time `now`. */
    method Enqueue(symbol: string, liked: bool, now: int)
      modifies this
      ensures stored == AfterEnqueue(browser, old(stored), QueuedSwipe(symbol, liked, 0, now))
      ensures flushing == old(flushing)
    {
      if !browser.hasWindow {
        return;
      }
      var queue := ReadQueue();
      queue := queue + [QueuedSwipe(symbol, liked, 0, now)];
      WriteQueue(queue);
    }

    /** `flush(deviceId)` while the browser's online flag is `online`. */
    method Flush(deviceId: Option<string>, online: bool, ok: nat -> bool)
      returns (waited: seq<nat>, delivered: seq<QueuedSwipe>)
      modifies this
      // a flush already running, no window, or offline: nothing happens
      ensures !browser.hasWindow || old(flushing) || !online ==>
                stored == old(stored) && flushing == old(flushing) && waited == [] && delivered == []
      // otherwise the outcome is written back and the flag is cleared
      ensures browser.hasWindow && !old(flushing) && online ==>
                var r := FlushOutcome(old(ReadQueue()), deviceId, ok);
                !flushing && stored == WriteStored(browser, old(stored), r.next) &&
                waited == r.waited && delivered == r.delivered
    {
      waited, delivered := [], [];
      if !browser.hasWindow || flushing || !online {
        return;
      }
      flushing := true;
      var queue := ReadQueue();
      var next: seq<QueuedSwipe> := [];
      var i := 0;
      while i < |queue|
        invariant 0 <= i <= |queue|
        invariant flushing && queue == old(ReadQueue()) && stored == old(stored)
        invariant Present(deviceId) ==>
                    next == Retained(queue[..i], ok) && delivered == Delivered(queue[..i], ok) &&
                    waited == Waits(queue[..i])
        invariant !Present(deviceId) ==> i == 0 && next == [] && delivered == [] && waited == []
      {
        var item := queue[i];
        var delay := BackoffDelay(item.attempts);
        if item.attempts > 0 {
          waited := waited + [delay];
        }
        if !Present(deviceId) {
          break;
        }
        if ok(i) {
          delivered := delivered + [item];
        } else {
          next := next + [Bumped(item)];
        }
        assert queue[..i + 1][..i] == queue[..i];
        i := i + 1;
      }
      if Present(deviceId) {
        assert queue[..|queue|] == queue;
      }
      WriteQueue(next);
      flushing := false;
    }

    /** The corrected flush: a missing device id is a no-op, like a flush
        that is already running or a browser that is offline. */
    method FlushFixed(deviceId: Option<string>, online: bool, ok: nat -> bool)
      returns (waited: seq<nat>, delivered: seq<QueuedSwipe>)
      modifies this
      ensures !browser.hasWindow || old(flushing) || !online || !Present(deviceId) ==>
                stored == old(stored) && flushing == old(flushing) && waited == [] && delivered == []
      ensures browser.hasWindow && !old(flushing) && online && Present(deviceId) ==>
                var r := FlushOutcomeFixed(old(ReadQueue()), deviceId, ok);
                !flushing && stored == WriteStored(browser, old(stored), r.next) &&
                waited == r.waited && delivered == r.delivered
    {
      if !Present(deviceId) {
        return [], [];
      }
      waited, delivered := Flush(deviceId, online, ok);
    }

    /** `hasPending()`. */
    method HasPending() returns (pending: bool)
      ensures pending <==> browser.hasWindow && ReadQueue() != []
    {
      if !browser.hasWindow {
        return false;
      }
      pending := |ReadQueue()| > 0;
    }
  }
}
