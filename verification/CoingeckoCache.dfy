/**
 The two-tier price cache (apps/web/lib/coingeckoCache.ts): a memory map in front of
 localStorage. `Tiers` holds both; class `Cache` is the module, changed in place.
 */
module CoingeckoCache {
  import opened Wrappers

  datatype Entry<T> = Entry(data: T, timestamp: int, ttl: int)

  /** What a localStorage slot holds: text that parses to an entry, or text that does not. */
  datatype Raw<T> = Garbage | Json(entry: Entry<T>)

  /** Storage is restricted to the cache's prefixed keys. */
  datatype Tiers<T> = Tiers(memory: map<string, Entry<T>>, storage: map<string, Raw<T>>)

  predicate Fresh<T>(e: Entry<T>, now: int) {
    now - e.timestamp < e.ttl
  }

  /** getCached, outside the browser when !hasWindow. */
  function Get<T>(s: Tiers<T>, key: string, now: int, hasWindow: bool): (Tiers<T>, Option<T>) {
    if key in s.memory && Fresh(s.memory[key], now) then (s, Some(s.memory[key].data))
    else if !hasWindow || key !in s.storage || s.storage[key].Garbage? then (s, None)
    else
      var entry := s.storage[key].entry;
      if Fresh(entry, now) then (s.(memory := s.memory[key := entry]), Some(entry.data))
      else (Tiers(s.memory - {key}, s.storage - {key}), None)
  }

  /** getStaleCache */
  function GetStale<T>(s: Tiers<T>, key: string, hasWindow: bool): Option<T> {
    if key in s.memory then Some(s.memory[key].data)
    else if !hasWindow || key !in s.storage || s.storage[key].Garbage? then None
    else Some(s.storage[key].entry.data)
  }

  /**
   How localStorage takes a write: at once, or only after `victim` is purged, or not even
   then. A victim that is not there stands for a purge that finds nothing or throws.
   */
  datatype Write = Taken | Quota(victim: string, retried: bool)

  /** setCached */
  function Set<T>(s: Tiers<T>, key: string, entry: Entry<T>, w: Write, hasWindow: bool): Tiers<T> {
    var memory := s.memory[key := entry];
    if !hasWindow then s.(memory := memory)
    else match w
      case Taken => Tiers(memory, s.storage[key := Json(entry)])
      case Quota(victim, retried) =>
        if victim !in s.storage then s.(memory := memory)
        else
          var purged := s.storage - {victim};
          Tiers(memory, if retried then purged[key := Json(entry)] else purged)
  }

  class Cache<T> {
    var memory: map<string, Entry<T>>
    var storage: map<string, Raw<T>>
    const hasWindow: bool

    function View(): Tiers<T>
      reads this
    {
      Tiers(memory, storage)
    }

    /** A page load: memory empty, storage as earlier loads left it. */
    constructor (storage: map<string, Raw<T>>, hasWindow: bool)
      ensures View() == Tiers(map[], storage) && this.hasWindow == hasWindow
    {
      this.memory, this.storage, this.hasWindow := map[], storage, hasWindow;
    }

    method GetCached(key: string, now: int) returns (r: Option<T>)
      modifies this
      ensures (View(), r) == Get(old(View()), key, now, hasWindow)
    {
      if key in memory && now - memory[key].timestamp < memory[key].ttl {
        return Some(memory[key].data);
      }
      if !hasWindow || key !in storage || storage[key].Garbage? {
        return None;
      }
      var entry := storage[key].entry;
      if now - entry.timestamp < entry.ttl {
        memory := memory[key := entry];
        return Some(entry.data);
      }
      storage := storage - {key};
      memory := memory - {key};
      r := None;
    }

    method GetStaleCache(key: string) returns (r: Option<T>)
      ensures r == GetStale(View(), key, hasWindow)
    {
      if key in memory {
        return Some(memory[key].data);
      }
      if !hasWindow || key !in storage || storage[key].Garbage? {
        return None;
      }
      r := Some(storage[key].entry.data);
    }

    method SetCached(key: string, data: T, ttl: int, now: int, w: Write)
      modifies this
      ensures View() == Set(old(View()), key, Entry(data, now, ttl), w, hasWindow)
    {
      var entry := Entry(data, now, ttl);
      memory := memory[key := entry];
      if !hasWindow {
        return;
      }
      match w
      case Taken =>
        storage := storage[key := Json(entry)];
      case Quota(victim, retried) =>
        if victim in storage {
          storage := storage - {victim};
          if retried {
            storage := storage[key := Json(entry)];
          }
        }
    }
  }

  // ── What a write leaves behind ──────────────────────────────

  /** Storage took the write, at once or after a purge. */
  predicate Lands<T>(s: Tiers<T>, w: Write) {
    w.Taken? || (w.victim in s.storage && w.retried)
  }

  predicate Purges<T>(s: Tiers<T>, w: Write, k: string) {
    w.Quota? && w.victim in s.storage && w.victim == k
  }

  /**
   A write that lands is in storage, one that does not leaves its key as it was; a purge takes
   its victim only. In memory the entry always is.
   */
  lemma WriteLeaves<T>(s: Tiers<T>, key: string, entry: Entry<T>, w: Write)
    ensures var s' := Set(s, key, entry, w, true);
            && s'.memory == s.memory[key := entry]
            && (Lands(s, w) ==> key in s'.storage && s'.storage[key] == Json(entry))
            && (forall k | k != key || !Lands(s, w) ::
                  (k in s'.storage <==> k in s.storage && !Purges(s, w, k))
                  && (k in s'.storage ==> s'.storage[k] == s.storage[k]))
  {
  }

  /** After a reload a key written last by a write that landed reads as written until it expires. */
  lemma LandedWriteSurvives<T>(s: Tiers<T>, key: string, entry: Entry<T>, w: Write, now: int)
    requires Lands(s, w)
    ensures var reloaded := Tiers(map[], Set(s, key, entry, w, true).storage);
            Get(reloaded, key, now, true).1 == if now - entry.timestamp < entry.ttl then Some(entry.data) else None
  {
    WriteLeaves(s, key, entry, w);
  }

  /** Outside the browser a write is in memory only, and reads there until it expires. */
  lemma WriteOnServer<T>(s: Tiers<T>, key: string, entry: Entry<T>, w: Write, now: int)
    ensures var s' := Set(s, key, entry, w, false);
            && s' == Tiers(s.memory[key := entry], s.storage)
            && Get(s', key, now, false) ==
                 (s', if now - entry.timestamp < entry.ttl then Some(entry.data) else None)
  {
  }

  /** What a read found is in memory from then on: whatever becomes of storage, it reads alike while it lasts. */
  lemma HitOutlivesStorage<T>(s: Tiers<T>, key: string, now: int, storage: map<string, Raw<T>>, later: int)
    requires Get(s, key, now, true).1.Some?
    ensures var (s', answer) := Get(s, key, now, true);
            && s'.storage == s.storage && key in s'.memory
            && Some(s'.memory[key].data) == answer && now - s'.memory[key].timestamp < s'.memory[key].ttl
            && (later - s'.memory[key].timestamp < s'.memory[key].ttl ==>
                  Get(s'.(storage := storage), key, later, true).1 == answer)
  {
  }

  // ── Runs of one page load ───────────────────────────────────

  datatype Op<T> =
    | Read(key: string, now: int)
    | Store(key: string, entry: Entry<T>, write: Write)

  function Time<T>(op: Op<T>): int {
    if op.Read? then op.now else op.entry.timestamp
  }

  function Do<T>(s: Tiers<T>, op: Op<T>): Tiers<T> {
    match op
    case Read(key, now) => Get(s, key, now, true).0
    case Store(key, entry, write) => Set(s, key, entry, write, true)
  }

  function After<T>(stored: map<string, Raw<T>>, ops: seq<Op<T>>): Tiers<T> {
    if ops == [] then Tiers(map[], stored) else Do(After(stored, ops[..|ops| - 1]), ops[|ops| - 1])
  }

  /** A plain map: the last entry written to each key in this page load. */
  function Written<T>(ops: seq<Op<T>>): map<string, Entry<T>> {
    if ops == [] then map[]
    else
      var before := Written(ops[..|ops| - 1]);
      match ops[|ops| - 1]
      case Read(_, _) => before
      case Store(key, entry, _) => before[key := entry]
  }

  /** What a plain expiring map answers. */
  function Expiring<T>(m: map<string, Entry<T>>, key: string, now: int): Option<T> {
    if key in m && Fresh(m[key], now) then Some(m[key].data) else None
  }

  /** The clock does not run backwards, not even across page loads. */
  predicate ClockOk<T>(stored: map<string, Raw<T>>, ops: seq<Op<T>>, now: int) {
    && (forall k | k in stored && stored[k].Json? ::
          stored[k].entry.timestamp <= (if ops == [] then now else Time(ops[0])))
    && (forall i, j | 0 <= i < j < |ops| :: Time(ops[i]) <= Time(ops[j]))
    && (forall i | 0 <= i < |ops| :: Time(ops[i]) <= now)
  }

  /** Each key is always stored with the same time to live. */
  predicate FixedTtl<T>(ttl: string -> int, stored: map<string, Raw<T>>, ops: seq<Op<T>>) {
    && (forall k | k in stored && stored[k].Json? :: stored[k].entry.ttl == ttl(k))
    && (forall i | 0 <= i < |ops| && ops[i].Store? :: ops[i].entry.ttl == ttl(ops[i].key))
  }

  // ── Refinement of the expiring map ──────────────────────────

  /** No tier holds, for a written key, anything that outlives what was written last. */
  predicate NothingOutlives<T>(ttl: string -> int, s: Tiers<T>, written: map<string, Entry<T>>) {
    && (forall k | k in written :: written[k].ttl == ttl(k))
    && (forall k | k in s.memory ::
          s.memory[k].ttl == ttl(k) && (k in written ==> s.memory[k].timestamp <= written[k].timestamp))
    && (forall k | k in s.storage && s.storage[k].Json? ::
          s.storage[k].entry.ttl == ttl(k) && (k in written ==> s.storage[k].entry.timestamp <= written[k].timestamp))
  }

  /** A written key is in memory as written, or has expired for good. */
  ghost predicate Remembered<T>(s: Tiers<T>, written: map<string, Entry<T>>, now: int) {
    forall k | k in written :: (k in s.memory && s.memory[k] == written[k]) || !Fresh(written[k], now)
  }

  /** Keys not written in this page load hold what storage held, if anything. */
  ghost predicate OthersFromStorage<T>(s: Tiers<T>, written: map<string, Entry<T>>, stored: map<string, Raw<T>>) {
    && (forall k | k in s.memory && k !in written :: k in stored && stored[k] == Json(s.memory[k]))
    && (forall k | k in s.storage && k !in written :: k in stored && stored[k] == s.storage[k])
  }

  predicate Stamped<T>(s: Tiers<T>, now: int) {
    && (forall k | k in s.memory :: s.memory[k].timestamp <= now)
    && (forall k | k in s.storage && s.storage[k].Json? :: s.storage[k].entry.timestamp <= now)
  }

  ghost predicate Refines<T>(ttl: string -> int, s: Tiers<T>, written: map<string, Entry<T>>,
        stored: map<string, Raw<T>>, now: int) {
    && NothingOutlives(ttl, s, written) && Remembered(s, written, now)
    && OthersFromStorage(s, written, stored) && Stamped(s, now)
  }

  lemma ReadRefines<T>(ttl: string -> int, s: Tiers<T>, written: map<string, Entry<T>>,
        stored: map<string, Raw<T>>, before: int, key: string, now: int)
    requires Refines(ttl, s, written, stored, before) && before <= now
    ensures Refines(ttl, Get(s, key, now, true).0, written, stored, now)
    ensures key in written ==> Get(s, key, now, true).1 == Expiring(written, key, now)
    ensures key !in written && Get(s, key, now, true).1.Some? ==>
              && key in stored && stored[key].Json? && Fresh(stored[key].entry, now)
              && Get(s, key, now, true).1 == Some(stored[key].entry.data)
  {
  }

  /** Every slot after a write is an old one or the new entry's. */
  ghost predicate Overlays<T>(s: Tiers<T>, s': Tiers<T>, key: string, entry: Entry<T>) {
    && s'.memory == s.memory[key := entry]
    && forall k | k in s'.storage ::
         (k == key && s'.storage[k] == Json(entry)) || (k in s.storage && s'.storage[k] == s.storage[k])
  }

  lemma StoreOverlays<T>(s: Tiers<T>, key: string, entry: Entry<T>, write: Write)
    ensures Overlays(s, Set(s, key, entry, write, true), key, entry)
  {
  }

  lemma OverlayRefines<T>(ttl: string -> int, s: Tiers<T>, s': Tiers<T>, written: map<string, Entry<T>>,
        stored: map<string, Raw<T>>, before: int, key: string, entry: Entry<T>)
    requires Refines(ttl, s, written, stored, before) && before <= entry.timestamp && entry.ttl == ttl(key)
    requires Overlays(s, s', key, entry)
    ensures Refines(ttl, s', written[key := entry], stored, entry.timestamp)
  {
    OverlayOutlives(ttl, s, s', written, key, entry, before);
    OverlayOthers(s, s', written, stored, key, entry);
    assert Remembered(s', written[key := entry], entry.timestamp);
  }

  lemma OverlayOutlives<T>(ttl: string -> int, s: Tiers<T>, s': Tiers<T>, written: map<string, Entry<T>>,
        key: string, entry: Entry<T>, before: int)
    requires NothingOutlives(ttl, s, written) && Stamped(s, before)
    requires before <= entry.timestamp && entry.ttl == ttl(key)
    requires Overlays(s, s', key, entry)
    ensures NothingOutlives(ttl, s', written[key := entry]) && Stamped(s', entry.timestamp)
  {
  }

  lemma OverlayOthers<T>(s: Tiers<T>, s': Tiers<T>, written: map<string, Entry<T>>,
        stored: map<string, Raw<T>>, key: string, entry: Entry<T>)
    requires OthersFromStorage(s, written, stored) && Overlays(s, s', key, entry)
    ensures OthersFromStorage(s', written[key := entry], stored)
  {
  }

  lemma StoreRefines<T>(ttl: string -> int, s: Tiers<T>, written: map<string, Entry<T>>,
        stored: map<string, Raw<T>>, before: int, key: string, entry: Entry<T>, write: Write)
    requires Refines(ttl, s, written, stored, before) && before <= entry.timestamp && entry.ttl == ttl(key)
    ensures Refines(ttl, Set(s, key, entry, write, true), written[key := entry], stored, entry.timestamp)
  {
    StoreOverlays(s, key, entry, write);
    OverlayRefines(ttl, s, Set(s, key, entry, write, true), written, stored, before, key, entry);
  }

  lemma {:induction false} RunRefines<T>(ttl: string -> int, stored: map<string, Raw<T>>, ops: seq<Op<T>>, now: int)
    requires ClockOk(stored, ops, now) && FixedTtl(ttl, stored, ops)
    ensures Refines(ttl, After(stored, ops), Written(ops), stored, if ops == [] then now else Time(ops[|ops| - 1]))
  {
    if ops != [] {
      var n := |ops| - 1;
      var last := ops[n];
      var earlier := if n == 0 then Time(last) else Time(ops[n - 1]);
      assert n > 0 ==> ops[..n][0] == ops[0];
      RunRefines(ttl, stored, ops[..n], if n == 0 then Time(last) else now);
      match last
      case Read(key, at) => ReadRefines(ttl, After(stored, ops[..n]), Written(ops[..n]), stored, earlier, key, at);
      case Store(key, entry, write) =>
        StoreRefines(ttl, After(stored, ops[..n]), Written(ops[..n]), stored, earlier, key, entry, write);
    }
  }

  /**
   Whatever writes localStorage refuses or purges: a key written in this page load reads
   exactly as a plain expiring map, and any other answer is an unexpired stored value.
   */
  lemma ReadsAsExpiringMap<T>(ttl: string -> int, stored: map<string, Raw<T>>, ops: seq<Op<T>>, key: string, now: int)
    requires ClockOk(stored, ops, now) && FixedTtl(ttl, stored, ops)
    ensures var answer := Get(After(stored, ops), key, now, true).1;
            && (key in Written(ops) ==> answer == Expiring(Written(ops), key, now))
            && (key !in Written(ops) && answer.Some? ==>
                  && key in stored && stored[key].Json? && Fresh(stored[key].entry, now)
                  && answer == Some(stored[key].entry.data))
  {
    RunRefines(ttl, stored, ops, now);
    var before := if ops == [] then now else Time(ops[|ops| - 1]);
    ReadRefines(ttl, After(stored, ops), Written(ops), stored, before, key, now);
  }

  // ── Without a fixed time to live ────────────────────────────

  lemma ReadRemembers<T>(s: Tiers<T>, written: map<string, Entry<T>>, before: int, key: string, now: int)
    requires Remembered(s, written, before) && before <= now
    ensures Remembered(Get(s, key, now, true).0, written, now)
  {
  }

  lemma StoreRemembers<T>(s: Tiers<T>, written: map<string, Entry<T>>, before: int, key: string, entry: Entry<T>,
        write: Write)
    requires Remembered(s, written, before) && before <= entry.timestamp
    ensures Remembered(Set(s, key, entry, write, true), written[key := entry], entry.timestamp)
  {
    StoreOverlays(s, key, entry, write);
  }

  /** Whatever the times to live, what was written last is in memory until it expires for good. */
  lemma {:induction false} RunRemembers<T>(stored: map<string, Raw<T>>, ops: seq<Op<T>>, now: int)
    requires ClockOk(stored, ops, now)
    ensures Remembered(After(stored, ops), Written(ops), now)
  {
    if ops != [] {
      var n := |ops| - 1;
      var front, last := ops[..n], ops[n];
      assert n > 0 ==> front[0] == ops[0];
      RunRemembers(stored, front, Time(last));
      match last
      case Read(key, at) => ReadRemembers(After(stored, front), Written(front), at, key, at);
      case Store(key, entry, write) =>
        StoreRemembers(After(stored, front), Written(front), entry.timestamp, key, entry, write);
    }
  }

  /** A tier holds an unexpired entry for the key. */
  predicate FreshTier<T>(s: Tiers<T>, key: string, now: int) {
    || (key in s.memory && Fresh(s.memory[key], now))
    || (key in s.storage && s.storage[key].Json? && Fresh(s.storage[key].entry, now))
  }

  /** The entry was stored under the key, by an earlier page load or in this one. */
  ghost predicate EverStored<T>(stored: map<string, Raw<T>>, ops: seq<Op<T>>, key: string, e: Entry<T>) {
    || (key in stored && stored[key] == Json(e))
    || exists i | 0 <= i < |ops| :: ops[i].Store? && ops[i].key == key && ops[i].entry == e
  }

  ghost predicate NothingInvented<T>(s: Tiers<T>, stored: map<string, Raw<T>>, ops: seq<Op<T>>) {
    && (forall k | k in s.memory :: EverStored(stored, ops, k, s.memory[k]))
    && (forall k | k in s.storage && s.storage[k].Json? :: EverStored(stored, ops, k, s.storage[k].entry))
  }

  lemma EverStoredStays<T>(stored: map<string, Raw<T>>, ops: seq<Op<T>>, op: Op<T>, key: string, e: Entry<T>)
    requires EverStored(stored, ops, key, e) || (op.Store? && op.key == key && op.entry == e)
    ensures EverStored(stored, ops + [op], key, e)
  {
    var all := ops + [op];
    assert all[|ops|] == op;
    if i :| 0 <= i < |ops| && ops[i].Store? && ops[i].key == key && ops[i].entry == e {
      assert all[i] == ops[i];
    }
  }

  lemma {:induction false} RunInventsNothing<T>(stored: map<string, Raw<T>>, ops: seq<Op<T>>)
    ensures NothingInvented(After(stored, ops), stored, ops)
  {
    if ops != [] {
      var n := |ops| - 1;
      var front, last := ops[..n], ops[n];
      assert ops == front + [last];
      RunInventsNothing(stored, front);
      var s, s' := After(stored, front), After(stored, ops);
      if last.Store? {
        StoreOverlays(s, last.key, last.entry, last.write);
      }
      forall k | k in s'.memory ensures EverStored(stored, ops, k, s'.memory[k]) {
        EverStoredStays(stored, front, last, k, s'.memory[k]);
      }
      forall k | k in s'.storage && s'.storage[k].Json? ensures EverStored(stored, ops, k, s'.storage[k].entry) {
        EverStoredStays(stored, front, last, k, s'.storage[k].entry);
      }
    }
  }

  /**
   With any times to live, after any run: a written key reads as in a plain expiring map
   exactly when what was written last is unexpired, or neither tier holds an unexpired
   entry for it. Where it does not, it reads as an entry stored before, still unexpired.
   */
  lemma ReadsAsExpiringMapExactly<T>(stored: map<string, Raw<T>>, ops: seq<Op<T>>, key: string, now: int)
    requires ClockOk(stored, ops, now) && key in Written(ops)
    ensures var s := After(stored, ops);
            var answer := Get(s, key, now, true).1;
            && (answer == Expiring(Written(ops), key, now) <==>
                  Fresh(Written(ops)[key], now) || !FreshTier(s, key, now))
            && (answer != Expiring(Written(ops), key, now) ==>
                  exists e ::
                  EverStored(stored, ops, key, e) && e != Written(ops)[key] && Fresh(e, now) && answer == Some(e.data))
  {
    RunRemembers(stored, ops, now);
    RunInventsNothing(stored, ops);
    var s := After(stored, ops);
    if !Fresh(Written(ops)[key], now) && FreshTier(s, key, now) {
      var e := if key in s.memory && Fresh(s.memory[key], now) then s.memory[key] else s.storage[key].entry;
      assert EverStored(stored, ops, key, e);
    }
  }

  /**
   Without a fixed time to live, a refused write (even after purging another key) lets an
   older value come back after the newer one has expired.
   */
  lemma OlderValueReturns<T>(other: string, key: string, older: T, newer: T)
    requires other != key
    ensures var ops := [
              Store(other, Entry(older, 0, 60000), Taken),
              Store(key, Entry(older, 0, 60000), Taken),
              Store(key, Entry(newer, 1000, 1000), Quota(other, false))];
            && ClockOk(map[], ops, 2000)
            && Expiring(Written(ops), key, 2000) == None
            && Get(After(map[], ops), key, 2000, true).1 == Some(older)
  {
    var o1 := Store(other, Entry(older, 0, 60000), Taken);
    var o2 := Store(key, Entry(older, 0, 60000), Taken);
    var o3 := Store(key, Entry(newer, 1000, 1000), Quota(other, false));
    var ops := [o1, o2, o3];
    assert ops[..2] == [o1, o2] && [o1, o2][..1] == [o1] && [o1][..0] == [];
    assert After(map[], [o1]) == Do(Tiers(map[], map[]), o1);
    assert After(map[], [o1, o2]) == Do(After(map[], [o1]), o2);
    assert Written([o1, o2]) == Written([o1])[key := o2.entry];
  }

  /**
   The stale fallback after a miss works exactly when memory still has the key and storage
   has no entry for it: finding an expired entry in storage removes it from both tiers.
   */
  lemma StaleFallbackExactly<T>(s: Tiers<T>, key: string, now: int)
    requires Get(s, key, now, true).1 == None
    ensures GetStale(Get(s, key, now, true).0, key, true).Some? <==>
              key in s.memory && !(key in s.storage && s.storage[key].Json?)
  {
  }
}
