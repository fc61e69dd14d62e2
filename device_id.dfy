/** Get-or-create of the per-install device id (src/app/utils/device-id.ts).
    The id lives in `localStorage` under a fixed key; when storage throws, a
    process-wide fallback (`window.__stockswiperDeviceId`) keeps the run
    working. The random generator is replaced by a `newId` argument. */
module DeviceId {
  import opened Common

  const DeviceIdKey := "stockswiper-device-id"

  /** The state the helper reads and writes: the string entries of
      `localStorage` and the in-memory fallback id on `window`. */
  datatype IdState = IdState(storage: map<string, string>, memory: Option<string>)

  datatype IdResult = IdResult(state: IdState, id: Option<string>)

  /** `localStorage.getItem(key)` when the read does not throw. */
  function Lookup(storage: map<string, string>, key: string): (r: Option<string>)
    ensures r.Some? <==> key in storage
    ensures r.Some? ==> r.value == storage[key]
  {
    if key in storage then Some(storage[key]) else None
  }

  /** One call of `generateDeviceId()`, on values. `newId` stands for what
      `crypto.randomUUID()` (or the time-and-random fallback) yields, which is
      never empty. */
  function GetOrCreate(b: Browser, s: IdState, newId: string): (r: IdResult)
    requires newId != ""
    // null only when there is no window, and never an empty id
    ensures r.id.None? <==> !b.hasWindow
    ensures !b.hasWindow ==> r == IdResult(s, None)
    ensures r.id.Some? ==> r.id.value != ""
    // an id already stored is returned unchanged and nothing is written
    ensures b.hasWindow && b.canRead && Present(Lookup(s.storage, DeviceIdKey)) ==>
              r == IdResult(s, Lookup(s.storage, DeviceIdKey))
    // no usable stored id and working storage: the new id is stored and returned
    ensures b.hasWindow && b.canRead && b.canWrite && !Present(Lookup(s.storage, DeviceIdKey)) ==>
              r == IdResult(s.(storage := s.storage[DeviceIdKey := newId]), Some(newId))
    // storage throws: the in-memory id is created at most once and returned
    ensures b.hasWindow && (!b.canRead || (!b.canWrite && !Present(Lookup(s.storage, DeviceIdKey)))) ==>
              r.state.storage == s.storage && r.id == r.state.memory &&
              r.state.memory == (if Present(s.memory) then s.memory else Some(newId))
    // no other storage entry is touched
    ensures forall k :: k != DeviceIdKey ==> Lookup(r.state.storage, k) == Lookup(s.storage, k)
  {
    if !b.hasWindow then IdResult(s, None)
    else if b.canRead && Present(Lookup(s.storage, DeviceIdKey)) then
      IdResult(s, Lookup(s.storage, DeviceIdKey))
    else if b.canRead && b.canWrite then
      IdResult(s.(storage := s.storage[DeviceIdKey := newId]), Some(newId))
    else if Present(s.memory) then
      IdResult(s, s.memory)
    else
      IdResult(s.(memory := Some(newId)), Some(newId))
  }

  /** A second call returns the id of the first and changes nothing,
      whatever the generator would have produced the second time. */
  lemma Idempotent(b: Browser, s: IdState, newId1: string, newId2: string)
    requires newId1 != "" && newId2 != ""
    ensures var r1 := GetOrCreate(b, s, newId1);
            GetOrCreate(b, r1.state, newId2) == r1
  {
  }

  /** With working storage the stored value equals the returned value. */
  lemma StoredIsReturned(b: Browser, s: IdState, newId: string)
    requires newId != ""
    requires b.hasWindow && b.canRead && b.canWrite
    ensures var r := GetOrCreate(b, s, newId);
            r.id.Some? && Lookup(r.state.storage, DeviceIdKey) == r.id
  {
  }

  /** The ids returned by consecutive calls, one generator value per call. */
  function Calls(b: Browser, s: IdState, newIds: seq<string>): (ids: seq<Option<string>>)
    requires forall k :: 0 <= k < |newIds| ==> newIds[k] != ""
    ensures |ids| == |newIds|
    decreases newIds
  {
    if newIds == [] then []
    else
      var r := GetOrCreate(b, s, newIds[0]);
      [r.id] + Calls(b, r.state, newIds[1..])
  }

  /** However many times it is called, the helper returns the id of its
      first call: stored, freshly created, or the in-memory fallback. */
  lemma {:induction false} StableAcrossCalls(b: Browser, s: IdState, newIds: seq<string>)
    requires forall k :: 0 <= k < |newIds| ==> newIds[k] != ""
    requires newIds != []
    ensures forall k :: 0 <= k < |newIds| ==>
              Calls(b, s, newIds)[k] == GetOrCreate(b, s, newIds[0]).id
    decreases newIds
  {
    var r := GetOrCreate(b, s, newIds[0]);
    var rest := newIds[1..];
    if rest != [] {
      StableAcrossCalls(b, r.state, rest);
      Idempotent(b, s, newIds[0], rest[0]);
    }
    assert Calls(b, s, newIds) == [r.id] + Calls(b, r.state, rest);
  }

  /** The storage and the `window` global that `generateDeviceId` works on. */
  class DeviceIdStore {
    const browser: Browser
    var storage: map<string, string>
    var memoryId: Option<string>

    ghost function State(): IdState
      reads this
    {
      IdState(storage, memoryId)
    }

    constructor (browser: Browser, storage: map<string, string>, memoryId: Option<string>)
      ensures this.browser == browser && State() == IdState(storage, memoryId)
    {
      this.browser := browser;
      this.storage := storage;
      this.memoryId := memoryId;
    }

    /** `generateDeviceId()`: the try block reads and maybe writes storage;
        a throwing `getItem` or `setItem` lands in the fallback branch. */
    method GenerateDeviceId(newId: string) returns (id: Option<string>)
      requires newId != ""
      modifies this
      ensures IdResult(State(), id) == GetOrCreate(browser, old(State()), newId)
    {
      if !browser.hasWindow {
        return None;
      }
      var threw := false;
      var deviceId: Option<string> := None;
      if !browser.canRead {
        threw := true;
      } else {
        deviceId := Lookup(storage, DeviceIdKey);
        if !Present(deviceId) {
          deviceId := Some(newId);
          if browser.canWrite {
            storage := storage[DeviceIdKey := newId];
          } else {
            threw := true;
          }
        }
      }
      if !threw {
        return deviceId;
      }
      if !Present(memoryId) {
        memoryId := Some(newId);
      }
      id := memoryId;
    }
  }

  /** The unit test of the helper: with the key removed, a first call creates
      a truthy id, a second call returns the same id, and storage holds it. */
  method CreatesAndKeepsId(initial: map<string, string>, newId1: string, newId2: string)
    returns (id1: Option<string>, id2: Option<string>, stored: Option<string>)
    requires newId1 != "" && newId2 != ""
    ensures Present(id1)
    ensures id2 == id1
    ensures stored == id1
  {
    var store := new DeviceIdStore(Browser(true, true, true), initial - {DeviceIdKey}, None);
    id1 := store.GenerateDeviceId(newId1);
    id2 := store.GenerateDeviceId(newId2);
    stored := Lookup(store.storage, DeviceIdKey);
  }
}
