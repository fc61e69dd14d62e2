# StockSwiper client core in Dafny

A model of the browser-side logic of StockSwiper, a daily "swipe deck" of
stocks. It has three parts.

- **Device id** (`DeviceId`, `device_id.dfy`). This models `generateDeviceId`.
  - It reads the id stored in `localStorage` under `stockswiper-device-id`.
  - If none is stored, it creates an id and stores it.
  - If storage throws, it falls back to an in-memory id on `window`.
- **Offline swipe queue** (`SwipeQueue`, `swipe_queue.dfy`). This models `SwipeQueueService`.
  - A FIFO list of swipes stored under `stockswiper-swipe-queue`.
  - `enqueue` appends one swipe.
  - `flush` tries every queued swipe once. It drops the delivered ones and writes back the failed ones with one more attempt.
  - It waits a capped exponential backoff before retrying an item.
  - A `flushing` flag stops two flushes from overlapping.
- **Deck session** (`Deck`, `deck_service.dfy`). This models `DeckService`.
  - The session holds the day's deck, the cursor `index`, the liked symbols, the swipe quota and the UI state.
  - `onSwipe` sends a swipe to the server or queues it. A 429 reply stops it. Otherwise it advances the cursor.
  - `fetchDeck`, `reloadDeck` and `loadFromCacheOrFetch` choose between a fresh deck, the same-day cache, `limit` and `error`.

The model replaces the outside world with arguments:

- The browser is a `Browser` value with three flags: is there a `window`, does `getItem` work, does `setItem` work.
- Each server answer is a `Reply` value: `Ok`, `RateLimited` (HTTP 429) or `Failed`.
- The flush gets a function `ok`. `ok(i)` says whether the i-th delivery of that flush succeeds.
- Today's date, the enqueue time and the newly generated id are also arguments.

Each class is written the way the source writes it: fields that its methods
update in place.

- `DeviceIdStore.GenerateDeviceId` is proved to compute the pure function `GetOrCreate`.
- `SwipeQueueService.Flush` loops over the queue it read. Its loop invariants tie it to `Retained`, `Delivered` and `Waits`.
- Each `DeckService` method is proved to move `State()` to the value that `SwipeStep`, `FetchStep` or `LoadStep` gives for the old state.

The properties are proved as lemmas about these functions. The deck session
also keeps an invariant, `SessionOk`, in memory and in the stored cache:

- the cursor never passes the end of the deck;
- the liked list has no duplicates;
- every liked symbol belongs to a card already swiped.

## Model

| member | source | states |
|---|---|---|
| `DeviceId.GetOrCreate` | src/app/utils/device-id.ts:5-28 | Returns null exactly when there is no window, and then touches neither storage nor the in-memory id. Never returns an empty id. A stored non-empty id is returned and nothing is written. With no usable stored id and working storage, the new id is stored and returned. When storage throws, the in-memory id is created only if it is missing, and it is returned. No other storage key changes. |
| `DeviceId.Idempotent` | src/app/utils/device-id.ts:13-27 | A second call returns what the first returned and changes nothing, whatever id the generator would yield. |
| `DeviceId.StoredIsReturned` | src/app/utils/device-id.ts:14-20 | When storage works, the value stored under the key equals the returned id. |
| `DeviceId.Lookup` | src/app/utils/device-id.ts:15 | `localStorage.getItem(key)` when reading works: the stored value when the key is present, null otherwise. |
| `DeviceId.Calls` | src/app/utils/device-id.ts:5-28 | Consecutive calls give one result per call. |
| `DeviceId.StableAcrossCalls` | src/app/utils/device-id.ts:13-27 | Any number of consecutive calls all return the first call's id: the stored one, the created one or the in-memory fallback. |
| `DeviceId.DeviceIdStore.constructor` | src/app/utils/device-id.ts:1-3 | Holds the given storage entries and the given `window` fallback id. |
| `DeviceId.DeviceIdStore.GenerateDeviceId` | src/app/utils/device-id.ts:5-28 | The new storage, the new fallback id and the result are exactly those of `GetOrCreate`. |
| `DeviceId.CreatesAndKeepsId` | src/app/utils/device-id.spec.ts:4-13 | The unit test. With the key removed, the first id is truthy, the second call returns the same id, and storage holds it. |
| `SwipeQueue.Pow2` | src/app/services/swipe-queue.service.ts:39 | `Math.pow(2, n)` on naturals is at least 1. |
| `SwipeQueue.Pow2Monotone` | src/app/services/swipe-queue.service.ts:39 | `Math.pow(2, n)` does not decrease as n grows. |
| `SwipeQueue.BackoffDelay` | src/app/services/swipe-queue.service.ts:39 | The delay `min(15000, 500·2^attempts)` is between 500 and 15000 ms, and at least 1000 ms once the item has failed before. |
| `SwipeQueue.BackoffDoubles` | src/app/services/swipe-queue.service.ts:39 | One more failure doubles the delay, up to the 15000 ms cap. |
| `SwipeQueue.BackoffMonotone` | src/app/services/swipe-queue.service.ts:39 | More failures never mean a shorter delay. |
| `SwipeQueue.BackoffSaturates` | src/app/services/swipe-queue.service.ts:39 | From 5 attempts on, the delay is exactly the 15000 ms cap. |
| `SwipeQueue.Waits` | src/app/services/swipe-queue.service.ts:39-40 | A flush sleeps at most once per item. Each sleep lasts 1000 to 15000 ms. A queue of first attempts causes no sleep. |
| `SwipeQueue.WaitsAreTheBackoffs` | src/app/services/swipe-queue.service.ts:38-40 | The sleeps are exactly one per item that has failed before, in queue order, and each equals `BackoffDelay` of that item's attempts. Items on their first attempt cause none. |
| `SwipeQueue.Retained` | src/app/services/swipe-queue.service.ts:44-46 | The written-back list is never longer than the queue read. |
| `SwipeQueue.Delivered` | src/app/services/swipe-queue.service.ts:43 | The delivered list is never longer than the queue read. |
| `SwipeQueue.RetainedAreTheFailures` | src/app/services/swipe-queue.service.ts:38-49 | With a device id, the written queue is exactly the items whose delivery failed, in their original order, each with one more attempt. |
| `SwipeQueue.DeliveredAreTheSuccesses` | src/app/services/swipe-queue.service.ts:38-48 | With a device id, the items delivered are exactly the items whose delivery succeeded, in queue order. |
| `SwipeQueue.TriedOnce` | src/app/services/swipe-queue.service.ts:38-48 | Each item is tried once per flush: it is either delivered or written back. |
| `SwipeQueue.FlushesKeepOrderAndCountFailures` | src/app/services/swipe-queue.service.ts:38-49 | After any sequence of flushes with a device id, the queue holds original items in their original order. Each item's attempts has grown by the number of its deliveries that failed. |
| `SwipeQueue.AllFailingFlush` | src/app/services/swipe-queue.service.ts:44-46 | A flush in which every delivery fails keeps every item in place, one attempt older. |
| `SwipeQueue.AllSucceedingFlush` | src/app/services/swipe-queue.service.ts:38-49 | A flush in which every delivery succeeds delivers the whole queue in order and writes back an empty list. |
| `SwipeQueue.AllFailKeepsEveryone` | src/app/services/swipe-queue.service.ts:44-47 | k failing flushes keep every item, in order, with k more attempts. |
| `SwipeQueue.RetriedUntilDelivered` | src/app/services/swipe-queue.service.ts:38-49 | k failing flushes followed by a succeeding one deliver each swipe exactly once, in enqueue order, with attempts equal to its k failures. |
| `SwipeQueue.FlushOutcome` | src/app/services/swipe-queue.service.ts:36-49 | Defines the flush as written on the queue it read: with a device id, the written list, the deliveries and the sleeps are `Retained`, `Delivered` and `Waits`; without one, the first item's backoff is slept when that item has failed before, and the empty list is written. Its meaning is proved by `RetainedAreTheFailures`, `DeliveredAreTheSuccesses`, `WaitsAreTheBackoffs` and `FlushWithoutDeviceDropsQueue`. |
| `SwipeQueue.FlushOutcomeFixed` | src/app/services/swipe-queue.service.ts:42 | Defines the corrected flush: without a device id the queue is left as read, with one it is `FlushOutcome`. Its meaning is proved by `FixedFlushLosesNothing`. |
| `SwipeQueue.FlushWithoutDeviceDropsQueue` | src/app/services/swipe-queue.service.ts:42 | As written, a flush without a device id writes back an empty list. A non-empty queue is lost: nothing is delivered and nothing is kept. |
| `SwipeQueue.FixedFlushLosesNothing` | src/app/services/swipe-queue.service.ts:42 | The corrected flush never loses a swipe: every item is delivered or kept. Without a device id the queue is kept as it is. |
| `SwipeQueue.ReadStored` | src/app/services/swipe-queue.service.ts:60-67 | Defines `readQueue()` on the stored value: the stored queue, or `[]` when `getItem` throws. |
| `SwipeQueue.WriteStored` | src/app/services/swipe-queue.service.ts:69-73 | Defines `writeQueue(q)` on the stored value: q, or the old value when `setItem` throws. |
| `SwipeQueue.AfterEnqueue` | src/app/services/swipe-queue.service.ts:25-30 | With working storage, enqueue appends exactly one item at the end and leaves the earlier items unchanged. With no window or a throwing `setItem`, the swipe is lost. With a throwing `getItem` and a working `setItem`, the stored queue is replaced by the new item. |
| `SwipeQueue.SwipeQueueService.constructor` | src/app/services/swipe-queue.service.ts:14-23 | The service starts with the flag cleared and the given stored queue. |
| `SwipeQueue.SwipeQueueService.ReadQueue` | src/app/services/swipe-queue.service.ts:60-67 | `readQueue()` on this object's stored queue, defined as `ReadStored` of the field so that the contracts of `Flush` and `HasPending` can name it. |
| `SwipeQueue.SwipeQueueService.WriteQueue` | src/app/services/swipe-queue.service.ts:69-73 | `writeQueue` replaces the stored queue unless `setItem` throws; the flag is unchanged. |
| `SwipeQueue.SwipeQueueService.Enqueue` | src/app/services/swipe-queue.service.ts:25-30 | The stored queue becomes `AfterEnqueue` of the old one, with attempts 0 and the given time. The flag is unchanged. |
| `SwipeQueue.SwipeQueueService.Flush` | src/app/services/swipe-queue.service.ts:32-53 | With no window, a flush already running, or the browser offline, nothing changes and nothing is sent. Otherwise the stored queue becomes the written-back list of the as-written flush, the delivered list and the sleeps are those of the as-written flush, and the flag ends cleared. |
| `SwipeQueue.SwipeQueueService.FlushFixed` | src/app/services/swipe-queue.service.ts:32-53 | The corrected flush: a missing device id is also a no-op. |
| `SwipeQueue.SwipeQueueService.HasPending` | src/app/services/swipe-queue.service.ts:55-58 | True exactly when there is a window and the stored queue reads as non-empty. |
| `Deck.Dedup` | src/app/services/deck.service.ts:117 | `Array.from(new Set(s))` has no duplicates and has the same elements as s. It leaves a duplicate-free list unchanged. |
| `Deck.AddLike` | src/app/services/deck.service.ts:117 | Inserting a symbol keeps the list duplicate-free, with the old elements plus the symbol. On a duplicate-free list it is a no-op if the symbol is already there, else an append. |
| `Deck.SeenSymbols` | src/app/services/deck.service.ts:120-129 | The symbols of the n cards before the cursor number at most n. |
| `Deck.LikedBoundedByCursor` | src/app/services/deck.service.ts:117-129 | Under the session invariant there are never more liked symbols than cards swiped. |
| `Deck.CurrentCard` | src/app/services/deck.service.ts:40 | There is a current card exactly when `index < deck.length`, and it is `deck[index]`. |
| `Deck.ReadCache` | src/app/services/deck.service.ts:199-207 | `readCache()` gives the stored record when there is a window and `getItem` works, and null otherwise. |
| `Deck.CacheUsable` | src/app/services/deck.service.ts:139 | Defines the acceptance test shared by startup and the failed-fetch fallback (line 187): a record exists, its date is today and its deck is non-empty. `SameDayReload` and `StaleCacheIgnored` use it. |
| `Deck.AdoptCache` | src/app/services/deck.service.ts:140-143 | Adopting a cache sets deck, index and liked from the record and `ready`; every other field stays. |
| `Deck.Persist` | src/app/services/deck.service.ts:72-80 | The persisting effect writes deck, index and liked with today's date, unless storage throws. Nothing else changes. |
| `Deck.SwipeStep` | src/app/services/deck.service.ts:90-130 | Defines `onSwipe(like)` on a session value. Its properties are proved by `SwipeStepSpec`, `SwipeKeepsSessionOk` and `SwipesKeepProgress`. |
| `Deck.SwipeStepSpec` | src/app/services/deck.service.ts:90-130 | With no current card nothing changes. A 429 sets `limit` and nothing else. Any other swipe on a card advances `index` by exactly one on the same deck. The quota is taken from the reply when it has a value. `ui` is `complete` exactly when the new index reaches the deck length or the quota is at most 0; otherwise it is `ready`. A like inserts the symbol with set semantics and grows the list by at most one. A dislike leaves the list unchanged. The cache is rewritten when `setItem` works and kept as it was when it throws. |
| `Deck.QueueAfterSwipe` | src/app/services/deck.service.ts:99-113 | Defines the stored queue after `onSwipe`: the swipe is enqueued when there is a card and either no device id or a failed call other than 429. Its properties are proved by `SwipeQueuedOnce`. |
| `Deck.SwipeQueuedOnce` | src/app/services/deck.service.ts:99-114 | With working storage, when the swipe has no device id, or its call failed without a 429, it is appended to the queue exactly once with attempts 0. Otherwise the queue is untouched. |
| `Deck.SwipeKeepsSessionOk` | src/app/services/deck.service.ts:116-129 | A swipe preserves the session invariant. |
| `Deck.SwipesKeepProgress` | src/app/services/deck.service.ts:90-130 | Over any sequence of swipes, the deck is unchanged, the cursor never decreases and never passes the deck length, and the liked list stays duplicate-free and no longer than the cursor. |
| `Deck.FetchStep` | src/app/services/deck.service.ts:149-197 | A generated id is adopted only when none is known; with no id the fetch returns and nothing else changes. Success replaces the deck with index 0, nothing liked and `ready`, and overwrites the quota only when the header is present. A 429 sets `limit` with deck, index and liked unchanged. Any other failure adopts the cache when it is from today with a non-empty deck; otherwise it sets `error` and the error message. After a success or an adopted cache, the persisting effect stores the new deck, index and liked with today's date, unless storage throws. |
| `Deck.FetchReturnsEarlyOnlyWithoutWindow` | src/app/services/deck.service.ts:150-167 | With `generateDeviceId` as the source of ids, a fetch ends without an id exactly when there is no window and no id was known. |
| `Deck.FetchKeepsSessionOk` | src/app/services/deck.service.ts:171-196 | Every fetch outcome preserves the session invariant. |
| `Deck.LoadStep` | src/app/services/deck.service.ts:137-147 | At startup, a cache from today with a non-empty deck is adopted with `ready`. The id, the quota and the error message stay, and the cache is stored again with today's date unless storage throws. Otherwise the deck is fetched. |
| `Deck.SameDayReload` | src/app/services/deck.service.ts:137-143 | A same-day cache with 5 cards and index 2 gives `ready` with `deck[2]` as the current card. |
| `Deck.StaleCacheIgnored` | src/app/services/deck.service.ts:139-146 | A cache from another day is ignored, and startup fetches. |
| `Deck.DayScenario` | src/app/services/deck.service.ts:90-130 | A fetch of 3 cards with 2 swipes left, then a like and a dislike that succeed, then a 429. The states are: cursor 1 with the first symbol liked and `ready`; cursor 2 and `ready`; then `limit` with the cursor still 2. |
| `Deck.DeckService.constructor` | src/app/services/deck.service.ts:42-81 | The service takes the id from a first `generateDeviceId()` call, starts with 20 swipes, `loading` and the stored cache, then runs `loadFromCacheOrFetch`. It keeps the session invariant. The device-id store ends as that first `generateDeviceId()` call left it: a later call during the fetch changes nothing. |
| `Deck.DeckService.Current` | src/app/services/deck.service.ts:40 | `current` is the card at the cursor exactly when `index < deck.length`, and null otherwise. |
| `Deck.DeckService.PersistCache` | src/app/services/deck.service.ts:209-212 | The state becomes `Persist` of the old state. |
| `Deck.DeckService.OnSwipe` | src/app/services/deck.service.ts:90-130 | The state becomes `SwipeStep` of the old state. The queue becomes `QueueAfterSwipe` of the old queue, and its flag is untouched. The session invariant is kept. |
| `Deck.DeckService.FetchDeck` | src/app/services/deck.service.ts:149-197 | The state becomes `FetchStep` of the old state. The device-id store follows `GetOrCreate` only when no id was known. The invariant is kept. |
| `Deck.DeckService.ReloadDeck` | src/app/services/deck.service.ts:132-135 | The state becomes `FetchStep` of the old state with `ui` set to `loading`. A fetch that returns early leaves it `loading`. |
| `Deck.DeckService.LoadFromCacheOrFetch` | src/app/services/deck.service.ts:137-147 | The state becomes `LoadStep` of the old state. The device-id store changes only when it fetches with no known id. |

## Left out

- Timers are not modelled. This covers the countdown `setInterval`, the 5 s periodic flush, the 2 s startup flush, the 300 ms `fetchDeck` retry and `sleep`.
  - A sleep becomes the delay value the flush returns in `waited`.
  - The retry becomes an early return that leaves the state unchanged.
- Asynchronous interleavings are not modelled, and neither is the `online` event listener.
  - Each operation runs to completion. An `enqueue` during an awaited `flush`, which `writeQueue(next)` would overwrite, is not represented.
  - A second `onSwipe` while `recordSwipe` is awaited (deck.service.ts:104) is not represented either. It reads the same `current` and advances `index` once more, so `index` can reach `deck.length + 1`. The cursor bound of `SessionOk` and `SwipesKeepProgress` holds only for swipes that run one after another.
  - The `flushing` flag is a field. The model shows only that a flush starting with the flag set does nothing.
- `DeviceId.StableAcrossCalls`: the browser's storage behaviour is fixed for a whole run (`browser` is a constant). The id changes when storage starts to work after a throwing write. The first call then returns the in-memory id (device-id.ts:23-26). A later call with a working `setItem` ignores that id, and it creates, stores and returns a new one (device-id.ts:15-20).
- `SwipeQueueService.Flush`: no step of the model throws. The `finally` block is modelled as the flag being cleared at the end of the flush.
- The Angular `effect` that persists the cache is modelled as an explicit write (`Persist`) after every change to deck, index or liked. It is stamped with today's date. Its timing is not modelled, including its first run with the initial empty deck.
- The browser-only microtask in the `DeckService` constructor (deck.service.ts:55-64) is not modelled. It re-creates the id and refetches after server-side rendering.
- `StockApiService` is not modelled; only its outcomes are, as `Reply`.
  - `X-RateLimit-Remaining` is an integer or absent. A `NaN` from `parseInt` is not modelled.
  - A response that emits no value (the `if (res)` guard) is not modelled.
- JSON serialisation and parsing of the cache and the queue are not modelled. A missing or corrupt record reads as absent (cache) or `[]` (queue).
- `Deck.DeckService.constructor` requires the stored cache to satisfy the session invariant (index within its deck, distinct liked symbols of swiped cards). Only the service writes that key. A hand-edited cache is not modelled.
- `DeviceId.DeviceIdStore.GenerateDeviceId`: when `setItem` throws, the source calls the generator twice and discards the first id. The model uses one `newId` for both.
- The following are not modelled because they are presentation or platform details: date and clock functions (`todayStr`, `midnightMs`, `countdownMs`), `navigator.vibrate`, `console` logging, `app.ts` and the gesture component `stock-card.component.ts`.
- `init`, `like` and `dislike` are trivial wrappers and are not modelled separately. The `force` argument of `fetchDeck` has no effect: it is only passed on to the 300 ms retry.
- `enqueue` with a throwing `setItem` loses the swipe; nothing keeps it in memory (`AfterEnqueue`).
- The defaults `cache.index ?? 0` and `cache.liked ?? []` (deck.service.ts:140-141) are not modelled: a stored cache always carries both fields.

## Findings

| source | as written | input that shows it | evidently intended | confidence | as-written member | corrected member |
|---|---|---|---|---|---|---|
| src/app/services/swipe-queue.service.ts:42 | The loop hits `if (!deviceId) break;` at the first item, and `writeQueue(next)` then writes the empty `next`. | `flush()` with no device id over a non-empty queue, as the startup flush (line 21) and the `online` listener (line 19) call it. | With no device id the queued swipes stay stored: the comment says "need device to proceed". | high; not executed | `SwipeQueue.FlushWithoutDeviceDropsQueue` | `SwipeQueue.FixedFlushLosesNothing` |

`SwipeQueueService.Flush` models the flush as written. `SwipeQueueService.FlushFixed` is the corrected flush: callers should use it. It treats a missing device id like a flush that is already running. It computes `FlushOutcomeFixed`, which is proved never to lose a swipe.
