/** The daily deck session (src/app/services/deck.service.ts): the deck of
    the day, the cursor into it, the liked symbols, the remaining swipe
    quota and the UI state. Swipes go to the server when a device id is
    known and are queued offline otherwise; the deck comes from the server
    or, on the same day, from the `localStorage` cache.

    Each transition is first a function on a `Session` value (`SwipeStep`,
    `FetchStep`, `LoadStep`) whose properties are proved here; the class
    `DeckService` then performs it on its fields step by step and is proved
    to reach exactly that value. The server's answers, the generated id,
    today's date and the clock are arguments. */
module Deck {
  import opened Common
  import opened DeviceId
  import opened SwipeQueue

  /** One card of the deck; `symbol` is its key. */
  datatype StockItem = StockItem(symbol: string, name: string, sector: string,
                                 dividendYield: real, price: real, description: string, deckDate: string)

  datatype UiState = Loading | Ready | Limit | Complete | Error

  /** The record stored under 'stockswiper-deck'. `date` is YYYY-MM-DD. */
  datatype DeckCache = DeckCache(date: string, deck: seq<StockItem>, index: nat, liked: seq<string>)

  /** A successful deck response: the cards and the parsed
      `X-RateLimit-Remaining` header, if the server sent one. */
  datatype DeckPayload = DeckPayload(deck: seq<StockItem>, remaining: Option<int>)

  const InitialSwipes := 20
  const LoadFailedMessage := "Failed to load stocks. Check your connection and try again."

  // ---------------------------------------------------------------------
  // Liked symbols

  predicate NoDups(s: seq<string>)
  {
    forall i, j :: 0 <= i < j < |s| ==> s[i] != s[j]
  }

  /** `Array.from(new Set(s))`: the first occurrence of each element, in order. */
  function Dedup(s: seq<string>): (r: seq<string>)
    ensures NoDups(r)
    ensures forall x :: x in r <==> x in s
    ensures NoDups(s) ==> r == s
    decreases |s|
  {
    if s == [] then []
    else
      var last := |s| - 1;
      var d := Dedup(s[..last]);
      assert forall x :: x in s <==> x in s[..last] || x == s[last];
      if s[last] in d then d else d + [s[last]]
  }

  /** The update `liked.update(arr => Array.from(new Set([...arr, symbol])))`:
      set insertion that keeps the list duplicate-free, grows it by at most
      one and keeps the existing order. */
  function AddLike(liked: seq<string>, symbol: string): (r: seq<string>)
    ensures NoDups(r)
    ensures forall x :: x in r <==> x in liked || x == symbol
    ensures NoDups(liked) ==> r == if symbol in liked then liked else liked + [symbol]
  {
    assert (liked + [symbol])[..|liked|] == liked;
    Dedup(liked + [symbol])
  }

  // ---------------------------------------------------------------------
  // The session value and its invariant

  datatype Session = Session(deviceId: Option<string>, deck: seq<StockItem>, index: nat,
                             swipesRemaining: int, liked: seq<string>, ui: UiState,
                             errorMessage: Option<string>, cache: Option<DeckCache>)

  /** The symbols of the cards before the cursor. */
  function SeenSymbols(deck: seq<StockItem>, n: nat): (r: set<string>)
    requires n <= |deck|
    ensures |r| <= n
  {
    if n == 0 then {}
    else
      var before := SeenSymbols(deck, n - 1);
      assert |before + {deck[n - 1].symbol}| <= |before| + 1;
      before + {deck[n - 1].symbol}
  }

  /** The cursor lies within the deck, and the liked symbols are distinct
      symbols of cards already swiped. */
  predicate ProgressOk(deck: seq<StockItem>, index: nat, liked: seq<string>)
  {
    index <= |deck| && NoDups(liked) && forall x :: x in liked ==> x in SeenSymbols(deck, index)
  }

  /** The invariant of a session: in memory and in the stored cache. */
  predicate SessionOk(s: Session)
  {
    ProgressOk(s.deck, s.index, s.liked) &&
    (s.cache.Some? ==> ProgressOk(s.cache.value.deck, s.cache.value.index, s.cache.value.liked))
  }

  function ElemSet(s: seq<string>): set<string>
  {
    set x | x in s
  }

  lemma {:induction false} NoDupsCardinality(s: seq<string>)
    requires NoDups(s)
    ensures |ElemSet(s)| == |s|
  {
    if s != [] {
      var last := |s| - 1;
      NoDupsCardinality(s[..last]);
      assert ElemSet(s) == ElemSet(s[..last]) + {s[last]};
      assert s[last] !in ElemSet(s[..last]);
    }
  }

  /** There are never more liked symbols than cards swiped. */
  lemma LikedBoundedByCursor(deck: seq<StockItem>, index: nat, liked: seq<string>)
    requires ProgressOk(deck, index, liked)
    ensures |liked| <= index
  {
    NoDupsCardinality(liked);
    assert ElemSet(liked) <= SeenSymbols(deck, index);
    SubsetCardinality(ElemSet(liked), SeenSymbols(deck, index));
  }

  lemma SubsetCardinality(a: set<string>, b: set<string>)
    requires a <= b
    ensures |a| <= |b|
  {
    assert b == a + (b - a);
  }

  /** The card under the cursor, `deck()[index()] ?? null`. */
  function CurrentCard(s: Session): (c: Option<StockItem>)
    ensures c.Some? <==> s.index < |s.deck|
    ensures c.Some? ==> c.value == s.deck[s.index]
  {
    if s.index < |s.deck| then Some(s.deck[s.index]) else None
  }

  // ---------------------------------------------------------------------
  // The cache

  /** `readCache()`: nothing without a window or when `getItem` throws. */
  function ReadCache(b: Browser, s: Session): (c: Option<DeckCache>)
    ensures b.hasWindow && b.canRead ==> c == s.cache
    ensures !(b.hasWindow && b.canRead) ==> c.None?
  {
    if b.hasWindow && b.canRead then s.cache else None
  }

  /** The acceptance test used at startup and as the fallback of a failed
      fetch: a cache of today with a non-empty deck. */
  predicate CacheUsable(c: Option<DeckCache>, today: string)
  {
    c.Some? && c.value.date == today && |c.value.deck| > 0
  }

  /** The persisting effect after a change of deck, index or liked: the
      state is written stamped with today's date, unless storage throws. */
  function Persist(b: Browser, s: Session, today: string): (r: Session)
    ensures r.(cache := s.cache) == s
    ensures b.hasWindow && b.canWrite ==> r.cache == Some(DeckCache(today, s.deck, s.index, s.liked))
    ensures !(b.hasWindow && b.canWrite) ==> r == s
  {
    if b.hasWindow && b.canWrite then s.(cache := Some(DeckCache(today, s.deck, s.index, s.liked))) else s
  }

  /** Resuming from a cache: its deck, cursor and likes, ready to swipe;
      the id, the quota, the message and the stored cache stay. */
  function AdoptCache(s: Session, c: DeckCache): (r: Session)
    ensures r.deck == c.deck && r.index == c.index && r.liked == c.liked && r.ui == Ready
    ensures r.(deck := s.deck, index := s.index, liked := s.liked, ui := s.ui) == s
  {
    s.(deck := c.deck, index := c.index, liked := c.liked, ui := Ready)
  }

  // ---------------------------------------------------------------------
  // A swipe

  /** Whether the swipe is handed to the offline queue: there is a card and
      either no device id or a failed call that was not a 429. */
  predicate SwipeEnqueues(s: Session, reply: Reply<Option<int>>)
  {
    s.index < |s.deck| && (!Present(s.deviceId) || reply.Failed?)
  }

  /** `onSwipe(like)` on values; `reply` is the server's answer, consulted
      only when a device id is known. */
  function SwipeStep(b: Browser, s: Session, like: bool, reply: Reply<Option<int>>, today: string): Session
  {
    if s.index >= |s.deck| then s
    else if Present(s.deviceId) && reply.RateLimited? then s.(ui := Limit)
    else Persist(b, Advance(s, like, RemainingAfter(s, reply)), today)
  }

  /** The quota after a swipe that was not refused: the server's count when
      it answered with one, the old value otherwise. */
  function RemainingAfter(s: Session, reply: Reply<Option<int>>): int
  {
    if Present(s.deviceId) && reply.Ok? && reply.value.Some? then reply.value.value else s.swipesRemaining
  }

  /** Tracking the swipe locally and moving to the next card. */
  function Advance(s: Session, like: bool, remaining: int): Session
    requires s.index < |s.deck|
  {
    var next := s.index + 1;
    s.(swipesRemaining := remaining,
       liked := if like then AddLike(s.liked, s.deck[s.index].symbol) else s.liked,
       index := next,
       ui := if next >= |s.deck| || remaining <= 0 then Complete else Ready)
  }

  /** What a swipe does to the session. */
  lemma SwipeStepSpec(b: Browser, s: Session, like: bool, reply: Reply<Option<int>>, today: string)
    ensures var r := SwipeStep(b, s, like, reply, today);
            // no card under the cursor: nothing changes
            (s.index >= |s.deck| ==> r == s) &&
            // a 429: the limit is shown and nothing else changes
            (s.index < |s.deck| && Present(s.deviceId) && reply.RateLimited? ==> r == s.(ui := Limit)) &&
            // any other swipe on a card: one step forward on the same deck
            (s.index < |s.deck| && !(Present(s.deviceId) && reply.RateLimited?) ==>
              r.index == s.index + 1 && r.deck == s.deck && r.deviceId == s.deviceId &&
              r.errorMessage == s.errorMessage &&
              r.swipesRemaining == (if Present(s.deviceId) && reply.Ok? && reply.value.Some?
                                    then reply.value.value else s.swipesRemaining) &&
              (r.ui == Complete <==> r.index >= |r.deck| || r.swipesRemaining <= 0) &&
              (r.ui == Ready <==> r.index < |r.deck| && r.swipesRemaining > 0) &&
              (like ==> forall x :: x in r.liked <==> x in s.liked || x == s.deck[s.index].symbol) &&
              (like && NoDups(s.liked) ==> |r.liked| <= |s.liked| + 1) &&
              (!like ==> r.liked == s.liked) &&
              (b.hasWindow && b.canWrite ==> r.cache == Some(DeckCache(today, r.deck, r.index, r.liked))) &&
              (!(b.hasWindow && b.canWrite) ==> r.cache == s.cache))
  {
  }

  /** The stored queue after `onSwipe`: the swipe appended exactly when it
      is queued, the queue untouched otherwise. */
  function QueueAfterSwipe(b: Browser, stored: seq<QueuedSwipe>, s: Session, like: bool,
                           reply: Reply<Option<int>>, now: int): seq<QueuedSwipe>
  {
    if SwipeEnqueues(s, reply) then AfterEnqueue(b, stored, QueuedSwipe(s.deck[s.index].symbol, like, 0, now))
    else stored
  }

  /** A swipe that is not refused and not confirmed is queued exactly once,
      appended at the end with no attempts yet; any other swipe leaves the
      queue untouched. */
  lemma SwipeQueuedOnce(b: Browser, stored: seq<QueuedSwipe>, s: Session, like: bool,
                        reply: Reply<Option<int>>, now: int)
    requires b.hasWindow && b.canRead && b.canWrite
    ensures SwipeEnqueues(s, reply) ==>
              QueueAfterSwipe(b, stored, s, like, reply, now) ==
              stored + [QueuedSwipe(s.deck[s.index].symbol, like, 0, now)]
    ensures !SwipeEnqueues(s, reply) ==> QueueAfterSwipe(b, stored, s, like, reply, now) == stored
  {
    if SwipeEnqueues(s, reply) {
      var r := QueueAfterSwipe(b, stored, s, like, reply, now);
      assert r == r[..|stored|] + [r[|stored|]];
    }
  }

  lemma SeenSymbolsStep(deck: seq<StockItem>, n: nat)
    requires n < |deck|
    ensures SeenSymbols(deck, n + 1) == SeenSymbols(deck, n) + {deck[n].symbol}
  {
  }

  /** A swipe keeps the session invariant: the cursor stays within the deck
      and the liked list stays a duplicate-free list of swiped symbols. */
  lemma SwipeKeepsSessionOk(b: Browser, s: Session, like: bool, reply: Reply<Option<int>>, today: string)
    requires SessionOk(s)
    ensures SessionOk(SwipeStep(b, s, like, reply, today))
  {
    if s.index < |s.deck| {
      SeenSymbolsStep(s.deck, s.index);
    }
  }

  datatype SwipeAction = SwipeAction(like: bool, reply: Reply<Option<int>>)

  function Swipes(b: Browser, s: Session, actions: seq<SwipeAction>, today: string): Session
    decreases |actions|
  {
    if actions == [] then s
    else Swipes(b, SwipeStep(b, s, actions[0].like, actions[0].reply, today), actions[1..], today)
  }

  /** Over any sequence of swipes the cursor never decreases, never passes
      the end of the deck, and the liked list stays duplicate-free and no
      longer than the cursor. */
  lemma {:induction false} SwipesKeepProgress(b: Browser, s: Session, actions: seq<SwipeAction>, today: string)
    requires SessionOk(s)
    ensures var r := Swipes(b, s, actions, today);
            SessionOk(r) && r.deck == s.deck && s.index <= r.index <= |r.deck| &&
            NoDups(r.liked) && |r.liked| <= r.index
    decreases |actions|
  {
    var r := Swipes(b, s, actions, today);
    if actions != [] {
      var s1 := SwipeStep(b, s, actions[0].like, actions[0].reply, today);
      SwipeKeepsSessionOk(b, s, actions[0].like, actions[0].reply, today);
      SwipesKeepProgress(b, s1, actions[1..], today);
    }
    LikedBoundedByCursor(r.deck, r.index, r.liked);
  }

  // ---------------------------------------------------------------------
  // Fetching the deck

  /** The device id `fetchDeck` works with: the known one, else the one
      `generateDeviceId()` returned if that is truthy. */
  function ResolvedId(known: Option<string>, generated: Option<string>): Option<string>
  {
    if Present(known) then known else if Present(generated) then generated else known
  }

  /** `fetchDeck()` on values. `generated` is what `generateDeviceId()`
      would return; it is used only when no device id is known. A missing id
      ends the call (the 300 ms retry timer is not modelled). */
  function FetchStep(b: Browser, s: Session, generated: Option<string>, reply: Reply<DeckPayload>, today: string): (r: Session)
    // the device id is adopted once it is known
    ensures r.deviceId == ResolvedId(s.deviceId, generated)
    // no id: returns early, nothing but the id changes
    ensures !Present(r.deviceId) ==> r == s.(deviceId := r.deviceId)
    // success: the new deck from its start, nothing liked, quota only from a header
    ensures Present(r.deviceId) && reply.Ok? ==>
              r.deck == reply.value.deck && r.index == 0 && r.liked == [] && r.ui == Ready &&
              r.swipesRemaining == (if reply.value.remaining.Some? then reply.value.remaining.value
                                    else s.swipesRemaining) &&
              r.errorMessage == s.errorMessage &&
              r.cache == (if b.hasWindow && b.canWrite then Some(DeckCache(today, r.deck, 0, [])) else s.cache)
    // 429: the limit is shown, progress and deck untouched
    ensures Present(r.deviceId) && reply.RateLimited? ==> r == s.(deviceId := r.deviceId, ui := Limit)
    // other failure: today's non-empty cache is adopted, otherwise an error
    ensures Present(r.deviceId) && reply.Failed? && CacheUsable(ReadCache(b, s), today) ==>
              var c := ReadCache(b, s).value;
              r.deck == c.deck && r.index == c.index && r.liked == c.liked && r.ui == Ready &&
              r.swipesRemaining == s.swipesRemaining && r.errorMessage == s.errorMessage &&
              r.cache == (if b.hasWindow && b.canWrite then Some(DeckCache(today, c.deck, c.index, c.liked)) else s.cache)
    ensures Present(r.deviceId) && reply.Failed? && !CacheUsable(ReadCache(b, s), today) ==>
              r == s.(deviceId := r.deviceId, ui := Error, errorMessage := Some(LoadFailedMessage))
  {
    var id := ResolvedId(s.deviceId, generated);
    var s1 := s.(deviceId := id);
    if !Present(id) then s1
    else
      match reply
      case Ok(res) =>
        Persist(b, s1.(deck := res.deck,
                       swipesRemaining := if res.remaining.Some? then res.remaining.value else s.swipesRemaining,
                       index := 0, liked := [], ui := Ready), today)
      case RateLimited => s1.(ui := Limit)
      case Failed =>
        var c := ReadCache(b, s1);
        if CacheUsable(c, today) then Persist(b, AdoptCache(s1, c.value), today)
        else s1.(ui := Error, errorMessage := Some(LoadFailedMessage))
  }

  /** A fetch ends without a deck only when there is no browser window:
      with a window the helper always yields an id. */
  lemma FetchReturnsEarlyOnlyWithoutWindow(b: Browser, s: Session, ids: IdState, newId: string,
                                           reply: Reply<DeckPayload>, today: string)
    requires newId != ""
    ensures var r := FetchStep(b, s, GetOrCreate(b, ids, newId).id, reply, today);
            !Present(r.deviceId) <==> !b.hasWindow && !Present(s.deviceId)
  {
  }

  lemma FetchKeepsSessionOk(b: Browser, s: Session, generated: Option<string>, reply: Reply<DeckPayload>, today: string)
    requires SessionOk(s)
    ensures SessionOk(FetchStep(b, s, generated, reply, today))
  {
  }

  /** `loadFromCacheOrFetch()`: today's non-empty cache, else a fetch. */
  function LoadStep(b: Browser, s: Session, generated: Option<string>, reply: Reply<DeckPayload>, today: string): (r: Session)
    ensures CacheUsable(ReadCache(b, s), today) ==>
              var c := ReadCache(b, s).value;
              r.deck == c.deck && r.index == c.index && r.liked == c.liked && r.ui == Ready &&
              r.deviceId == s.deviceId && r.swipesRemaining == s.swipesRemaining &&
              r.errorMessage == s.errorMessage &&
              r.cache == (if b.canWrite then Some(DeckCache(today, c.deck, c.index, c.liked)) else s.cache)
    ensures !CacheUsable(ReadCache(b, s), today) ==> r == FetchStep(b, s, generated, reply, today)
  {
    var c := ReadCache(b, s);
    if CacheUsable(c, today) then Persist(b, AdoptCache(s, c.value), today)
    else FetchStep(b, s, generated, reply, today)
  }

  /** Reopening the app on the same day resumes where the user left off. */
  lemma SameDayReload(b: Browser, s: Session, generated: Option<string>, reply: Reply<DeckPayload>, today: string)
    requires b.hasWindow && b.canRead
    requires s.cache.Some? && s.cache.value.date == today && |s.cache.value.deck| == 5 && s.cache.value.index == 2
    ensures var r := LoadStep(b, s, generated, reply, today);
            r.ui == Ready && CurrentCard(r) == Some(s.cache.value.deck[2])
  {
  }

  /** A cache from another day is ignored and the deck is fetched. */
  lemma StaleCacheIgnored(b: Browser, s: Session, generated: Option<string>, reply: Reply<DeckPayload>, today: string)
    requires s.cache.Some? && s.cache.value.date != today
    ensures LoadStep(b, s, generated, reply, today) == FetchStep(b, s, generated, reply, today)
  {
  }

  /** A day in the app: three cards with two swipes left; a like and a
      dislike go through, then the server answers 429 to the third swipe. */
  lemma DayScenario(b: Browser, s0: Session, items: seq<StockItem>, left1: int, left2: int, today: string)
    requires Present(s0.deviceId) && |items| == 3 && left1 > 0 && left2 > 0
    ensures var s1 := FetchStep(b, s0, None, Ok(DeckPayload(items, Some(2))), today);
            var s2 := SwipeStep(b, s1, true, Ok(Some(left1)), today);
            var s3 := SwipeStep(b, s2, false, Ok(Some(left2)), today);
            var s4 := SwipeStep(b, s3, true, RateLimited, today);
            s1.ui == Ready && s1.index == 0 && s1.swipesRemaining == 2 &&
            s2.index == 1 && s2.liked == [items[0].symbol] && s2.ui == Ready &&
            s3.index == 2 && s3.liked == [items[0].symbol] && s3.ui == Ready &&
            s4.ui == Limit && s4.index == 2 && s4.liked == [items[0].symbol]
  {
  }

  // ---------------------------------------------------------------------
  // The service object

  class DeckService {
    const browser: Browser
    const device: DeviceIdStore
    const queue: SwipeQueueService
    var deviceId: Option<string>
    var deck: seq<StockItem>
    var index: nat
    var swipesRemaining: int
    var liked: seq<string>
    var ui: UiState
    var errorMessage: Option<string>
    var cache: Option<DeckCache>

    function State(): Session
      reads this
    {
      Session(deviceId, deck, index, swipesRemaining, liked, ui, errorMessage, cache)
    }

    ghost predicate Valid()
      reads this
    {
      SessionOk(State()) && device.browser == browser && queue.browser == browser
    }

    /** `current`. */
    function Current(): (c: Option<StockItem>)
      reads this
      ensures c.Some? <==> index < |deck|
      ensures c.Some? ==> c.value == deck[index]
    {
      CurrentCard(State())
    }

    /** The constructor: the device id from a first `generateDeviceId()`
        call, the initial field values, then `loadFromCacheOrFetch()`. A
        cache in storage was written by the service itself, so it satisfies
        the session invariant. */
    constructor (browser: Browser, device: DeviceIdStore, queue: SwipeQueueService,
                 stored: Option<DeckCache>, today: string, newId: string, reply: Reply<DeckPayload>)
      requires newId != ""
      requires device.browser == browser && queue.browser == browser
      requires stored.Some? ==> ProgressOk(stored.value.deck, stored.value.index, stored.value.liked)
      modifies device
      ensures Valid()
      ensures this.browser == browser && this.device == device && this.queue == queue
      ensures device.State() == GetOrCreate(browser, old(device.State()), newId).state
      ensures var first := GetOrCreate(browser, old(device.State()), newId);
              var initial := Session(if Present(first.id) then first.id else None, [], 0, InitialSwipes, [],
                                     Loading, None, stored);
              State() == LoadStep(browser, initial, GetOrCreate(browser, first.state, newId).id, reply, today)
    {
      this.browser := browser;
      this.device := device;
      this.queue := queue;
      var firstId := device.GenerateDeviceId(newId);
      deviceId := if Present(firstId) then firstId else None;
      deck := [];
      index := 0;
      swipesRemaining := InitialSwipes;
      liked := [];
      ui := Loading;
      errorMessage := None;
      cache := stored;
      new;
      LoadFromCacheOrFetch(today, newId, reply);
    }

    /** `writeCache` as the persisting effect calls it. */
    method PersistCache(today: string)
      modifies this
      ensures State() == Persist(browser, old(State()), today)
    {
      if browser.hasWindow && browser.canWrite {
        cache := Some(DeckCache(today, deck, index, liked));
      }
    }

    /** `onSwipe(like)`; `now` is the enqueue time of a queued swipe. */
    method OnSwipe(like: bool, reply: Reply<Option<int>>, today: string, now: int)
      requires Valid()
      modifies this, queue
      ensures Valid()
      ensures State() == SwipeStep(browser, old(State()), like, reply, today)
      ensures queue.stored == QueueAfterSwipe(browser, old(queue.stored), old(State()), like, reply, now)
      ensures queue.flushing == old(queue.flushing)
    {
      ghost var s0 := State();
      SwipeKeepsSessionOk(browser, s0, like, reply, today);
      if index >= |deck| {
        return;
      }
      var current := deck[index];
      ghost var queued := QueueAfterSwipe(browser, queue.stored, s0, like, reply, now);
      if !Present(deviceId) {
        queue.Enqueue(current.symbol, like, now);
        assert queue.stored == queued;
      } else {
        match reply
        case Ok(remaining) =>
          if remaining.Some? {
            swipesRemaining := remaining.value;
          }
        case RateLimited =>
          ui := Limit;
          return;
        case Failed =>
          queue.Enqueue(current.symbol, like, now);
          assert queue.stored == queued;
      }
      if like {
        liked := AddLike(liked, current.symbol);
      }
      var nextIndex := index + 1;
      var outOfCards := nextIndex >= |deck|;
      var outOfSwipes := swipesRemaining <= 0;
      if outOfCards || outOfSwipes {
        ui := Complete;
        index := nextIndex;
      } else {
        index := nextIndex;
        ui := Ready;
      }
      assert swipesRemaining == RemainingAfter(s0, reply);
      assert State() == Advance(s0, like, swipesRemaining);
      PersistCache(today);
    }

    /** `fetchDeck()`; `newId` feeds `generateDeviceId()` if it is called. */
    method FetchDeck(today: string, newId: string, reply: Reply<DeckPayload>)
      requires Valid() && newId != ""
      modifies this, device
      ensures Valid()
      ensures var gen := GetOrCreate(browser, old(device.State()), newId);
              State() == FetchStep(browser, old(State()), gen.id, reply, today) &&
              device.State() == (if Present(old(deviceId)) then old(device.State()) else gen.state)
    {
      ghost var gen := GetOrCreate(browser, device.State(), newId);
      FetchKeepsSessionOk(browser, State(), gen.id, reply, today);
      var id := deviceId;
      if !Present(id) {
        var generated := device.GenerateDeviceId(newId);
        if Present(generated) {
          deviceId := generated;
          id := generated;
        }
      }
      if !Present(id) {
        return;
      }
      match reply
      case Ok(res) =>
        deck := res.deck;
        if res.remaining.Some? {
          swipesRemaining := res.remaining.value;
        }
        index := 0;
        liked := [];
        ui := Ready;
        PersistCache(today);
      case RateLimited =>
        ui := Limit;
      case Failed =>
        var stored := ReadCache(browser, State());
        if CacheUsable(stored, today) {
          deck := stored.value.deck;
          index := stored.value.index;
          liked := stored.value.liked;
          ui := Ready;
          PersistCache(today);
        } else {
          ui := Error;
          errorMessage := Some(LoadFailedMessage);
        }
    }

    /** `reloadDeck()`: back to loading, then a fetch. */
    method ReloadDeck(today: string, newId: string, reply: Reply<DeckPayload>)
      requires Valid() && newId != ""
      modifies this, device
      ensures Valid()
      ensures var gen := GetOrCreate(browser, old(device.State()), newId);
              State() == FetchStep(browser, old(State()).(ui := Loading), gen.id, reply, today) &&
              device.State() == (if Present(old(deviceId)) then old(device.State()) else gen.state)
    {
      ui := Loading;
      FetchDeck(today, newId, reply);
    }

    /** `loadFromCacheOrFetch()`. */
    method LoadFromCacheOrFetch(today: string, newId: string, reply: Reply<DeckPayload>)
      requires Valid() && newId != ""
      modifies this, device
      ensures Valid()
      ensures var gen := GetOrCreate(browser, old(device.State()), newId);
              State() == LoadStep(browser, old(State()), gen.id, reply, today) &&
              (CacheUsable(old(ReadCache(browser, State())), today) || Present(old(deviceId)) ==>
                 device.State() == old(device.State())) &&
              (!CacheUsable(old(ReadCache(browser, State())), today) && !Present(old(deviceId)) ==>
                 device.State() == gen.state)
    {
      var stored := ReadCache(browser, State());
      if CacheUsable(stored, today) {
        deck := stored.value.deck;
        index := stored.value.index;
        liked := stored.value.liked;
        ui := Ready;
        PersistCache(today);
      } else {
        FetchDeck(today, newId, reply);
      }
    }
  }
}
