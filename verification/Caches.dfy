/** The two timed caches, against the history of what was written and read. */
module Caches {
  import opened Collections

  type Key = string
  type Value = string

  // ----- the cache with a time to live per entry; the clock is in milliseconds

  datatype TtlEntry = TtlEntry(value: Value, ttl: int)

  datatype TtlOp =
    | Write(key: Key, value: Value, displacer: Option<int>, now: real)
    | Read(key: Key, now: real)

  /** A displacement of zero counts as none. */
  function Expiry(displacer: Option<int>, defaultMs: int, now: real): int {
    now.Floor + if displacer.Some? && displacer.value != 0 then displacer.value else defaultMs
  }

  /** When a written value stops being valid: the time of writing, in whole milliseconds, and the
      displacement, or the default if there is none or it is zero. */
  ghost predicate IsDeadline(op: TtlOp, defaultMs: int, deadline: int)
    requires op.Write?
  {
    match op.displacer
    case None => deadline == op.now.Floor + defaultMs
    case Some(ms) => deadline == op.now.Floor + if ms == 0 then defaultMs else ms
  }

  lemma ExpiryIs(op: TtlOp, defaultMs: int, deadline: int)
    requires op.Write?
    ensures IsDeadline(op, defaultMs, deadline) <==> deadline == Expiry(op.displacer, defaultMs, op.now)
  {
  }

  predicate Expired(ttl: int, now: real) {
    (ttl as real) < now
  }

  function TtlApply(cache: map<Key, TtlEntry>, op: TtlOp, defaultMs: int): map<Key, TtlEntry> {
    match op
    case Write(key, value, displacer, now) => cache[key := TtlEntry(value, Expiry(displacer, defaultMs, now))]
    case Read(key, now) => if key in cache && Expired(cache[key].ttl, now) then cache - {key} else cache
  }

  /** A read looks before it removes. */
  function TtlAnswer(cache: map<Key, TtlEntry>, key: Key): Option<Value> {
    if key in cache then Some(cache[key].value) else None
  }

  function TtlRun(ops: seq<TtlOp>, defaultMs: int): map<Key, TtlEntry> {
    if ops == [] then map[] else TtlApply(TtlRun(ops[..|ops| - 1], defaultMs), ops[|ops| - 1], defaultMs)
  }

  /** The cache of the source, changed in place. */
  class TTLCache {
    var cache: map<Key, TtlEntry>
    const ttlDefaultMs: int

    constructor (ttlDefaultMs: int)
      ensures cache == map[] && this.ttlDefaultMs == ttlDefaultMs
    {
      cache, this.ttlDefaultMs := map[], ttlDefaultMs;
    }

    method Set(key: Key, value: Value, ttlDisplacerMs: Option<int>, now: real)
      modifies this
      ensures cache == TtlApply(old(cache), Write(key, value, ttlDisplacerMs, now), ttlDefaultMs)
    {
      var ttl := now.Floor;
      if ttlDisplacerMs.Some? && ttlDisplacerMs.value != 0 {
        ttl := ttl + ttlDisplacerMs.value;
      } else {
        ttl := ttl + ttlDefaultMs;
      }
      cache := cache[key := TtlEntry(value, ttl)];
    }

    method Get(key: Key, now: real) returns (r: Option<Value>)
      modifies this
      ensures r == TtlAnswer(old(cache), key)
      ensures cache == TtlApply(old(cache), Read(key, now), ttlDefaultMs)
    {
      if key !in cache {
        return None;
      }
      var entry := cache[key];
      if (entry.ttl as real) < now {
        cache := cache - {key};
      }
      return Some(entry.value);
    }
  }

  /** Operation `w` is the last write of the key. */
  ghost predicate LastWrite(ops: seq<TtlOp>, key: Key, w: int) {
    && 0 <= w < |ops| && ops[w].Write? && ops[w].key == key
    && forall j :: w < j < |ops| && ops[j].Write? ==> ops[j].key != key
  }

  /** The key was read after `w`, later than what was written at `w` was to live. */
  ghost predicate ReadExpired(ops: seq<TtlOp>, key: Key, w: int, defaultMs: int)
    requires 0 <= w < |ops| && ops[w].Write?
  {
    exists j :: w < j < |ops| && ops[j].Read? && ops[j].key == key
      && Expired(Expiry(ops[w].displacer, defaultMs, ops[w].now), ops[j].now)
  }

  /** What the cache holds for a key is its last write, unless that was read after its expiry. */
  ghost predicate HoldsLastWrite(ops: seq<TtlOp>, key: Key, defaultMs: int) {
    var cache := TtlRun(ops, defaultMs);
    && (forall w :: LastWrite(ops, key, w) ==>
          if ReadExpired(ops, key, w, defaultMs) then key !in cache
          else key in cache && cache[key] == TtlEntry(ops[w].value, Expiry(ops[w].displacer, defaultMs, ops[w].now)))
    && (key in cache ==> exists w :: LastWrite(ops, key, w))
  }

  lemma {:induction false} TtlHistory(ops: seq<TtlOp>, key: Key, defaultMs: int)
    ensures HoldsLastWrite(ops, key, defaultMs)
  {
    if ops != [] {
      var n := |ops| - 1;
      var before, op := ops[..n], ops[n];
      TtlHistory(before, key, defaultMs);
      if op.Write? && op.key == key {
        assert LastWrite(ops, key, n);
      } else {
        forall w
          ensures LastWrite(ops, key, w) <==> LastWrite(before, key, w)
        {
          TtlSameWrite(ops, key, w);
        }
        forall w | LastWrite(ops, key, w)
          ensures ReadExpired(ops, key, w, defaultMs) <==>
                  ReadExpired(before, key, w, defaultMs) ||
                  (op.Read? && op.key == key && Expired(Expiry(ops[w].displacer, defaultMs, ops[w].now), op.now))
        {
          TtlSameReads(ops, key, w, defaultMs);
        }
      }
    }
  }

  lemma TtlSameWrite(ops: seq<TtlOp>, key: Key, w: int)
    requires ops != [] && !(ops[|ops| - 1].Write? && ops[|ops| - 1].key == key)
    ensures LastWrite(ops, key, w) <==> LastWrite(ops[..|ops| - 1], key, w)
  {
    var before := ops[..|ops| - 1];
    if LastWrite(before, key, w) {
      forall j | w < j < |ops| && ops[j].Write?
        ensures ops[j].key != key
      {
        if j < |before| {
          assert before[j] == ops[j];
        }
      }
    }
  }

  lemma TtlSameReads(ops: seq<TtlOp>, key: Key, w: int, defaultMs: int)
    requires 0 <= w < |ops| - 1 && ops[w].Write?
    ensures var op := ops[|ops| - 1];
            ReadExpired(ops, key, w, defaultMs) <==>
            ReadExpired(ops[..|ops| - 1], key, w, defaultMs) ||
            (op.Read? && op.key == key && Expired(Expiry(ops[w].displacer, defaultMs, ops[w].now), op.now))
  {
    var before := ops[..|ops| - 1];
    if ReadExpired(before, key, w, defaultMs) {
      var j :| w < j < |before| && before[j].Read? && before[j].key == key
        && Expired(Expiry(before[w].displacer, defaultMs, before[w].now), before[j].now);
      assert ops[j] == before[j];
    }
    if ReadExpired(ops, key, w, defaultMs) {
      var j :| w < j < |ops| && ops[j].Read? && ops[j].key == key
        && Expired(Expiry(ops[w].displacer, defaultMs, ops[w].now), ops[j].now);
      assert j < |before| ==> before[j] == ops[j];
    }
  }

  ghost predicate ClockRuns(ops: seq<TtlOp>) {
    forall i, j :: 0 <= i < j < |ops| ==> ops[i].now <= ops[j].now
  }

  /** With a clock that never goes back, a read no later than the expiry returns the last value written. */
  lemma FreshReadsHit(ops: seq<TtlOp>, key: Key, w: int, now: real, defaultMs: int, deadline: int)
    requires ClockRuns(ops + [Read(key, now)]) && LastWrite(ops, key, w)
    requires IsDeadline(ops[w], defaultMs, deadline) && now <= deadline as real
    ensures TtlAnswer(TtlRun(ops, defaultMs), key) == Some(ops[w].value)
  {
    ExpiryIs(ops[w], defaultMs, deadline);
    TtlHistory(ops, key, defaultMs);
    var all := ops + [Read(key, now)];
    forall j | w < j < |ops|
      ensures ops[j].now <= now
    {
      assert all[j] == ops[j] && all[|ops|].now == now;
    }
  }

  /** The key was read after `w`, when the deadline had passed. */
  ghost predicate ReadLate(ops: seq<TtlOp>, key: Key, w: int, deadline: int) {
    exists j :: w < j < |ops| && j >= 0 && ops[j].Read? && ops[j].key == key && ops[j].now > deadline as real
  }

  /** A write yields at most one answer after it has expired: a second late read finds nothing, and a
      first late read still does. */
  lemma OneStaleRead(ops: seq<TtlOp>, key: Key, w: int, defaultMs: int, deadline: int)
    requires LastWrite(ops, key, w) && IsDeadline(ops[w], defaultMs, deadline)
    ensures ReadLate(ops, key, w, deadline) <==> TtlAnswer(TtlRun(ops, defaultMs), key) == None
    ensures !ReadLate(ops, key, w, deadline) <==> TtlAnswer(TtlRun(ops, defaultMs), key) == Some(ops[w].value)
  {
    ExpiryIs(ops[w], defaultMs, deadline);
    TtlHistory(ops, key, defaultMs);
    assert ReadLate(ops, key, w, deadline) <==> ReadExpired(ops, key, w, defaultMs);
  }

  // ----- the cache with a cleanup pass; the clock is in seconds

  datatype LruEntry = LruEntry(value: Value, lastAccess: real)

  /** A cleanup pass reads the clock once per entry. */
  datatype LruOp =
    | Put(key: Key, value: Value, now: real)
    | Look(key: Key, now: real)
    | Cleanup(clock: Key -> real)

  predicate Idle(entry: LruEntry, now: real, expireAfter: real) {
    now > entry.lastAccess + expireAfter
  }

  function LruApply(cache: map<Key, LruEntry>, op: LruOp, expireAfter: real): map<Key, LruEntry> {
    match op
    case Put(key, value, now) => cache[key := LruEntry(value, now)]
    case Look(key, now) => if key in cache then cache[key := LruEntry(cache[key].value, now)] else cache
    case Cleanup(clock) => map key | key in cache && !Idle(cache[key], clock(key), expireAfter) :: cache[key]
  }

  function LruRun(ops: seq<LruOp>, expireAfter: real): map<Key, LruEntry> {
    if ops == [] then map[] else LruApply(LruRun(ops[..|ops| - 1], expireAfter), ops[|ops| - 1], expireAfter)
  }

  class LRUCache {
    var cache: map<Key, LruEntry>
    const expireTimeSeconds: real

    constructor (expireAfterSeconds: real)
      ensures cache == map[] && expireTimeSeconds == expireAfterSeconds
    {
      cache, expireTimeSeconds := map[], expireAfterSeconds;
    }

    method Set(key: Key, value: Value, now: real)
      modifies this
      ensures cache == LruApply(old(cache), Put(key, value, now), expireTimeSeconds)
    {
      cache := cache[key := LruEntry(value, now)];
    }

    method Get(key: Key, default: Option<Value>, now: real) returns (r: Option<Value>)
      modifies this
      ensures r == if key in old(cache) then Some(old(cache)[key].value) else default
      ensures cache == LruApply(old(cache), Look(key, now), expireTimeSeconds)
    {
      if key in cache {
        cache := cache[key := cache[key].(lastAccess := now)];
        return Some(cache[key].value);
      }
      return default;
    }

    /** One pass over a copy of the entries. */
    method CleanupPass(clock: Key -> real)
      modifies this
      ensures cache == LruApply(old(cache), Cleanup(clock), expireTimeSeconds)
    {
      var copy := cache;
      var todo := copy.Keys;
      while todo != {}
        invariant todo <= copy.Keys
        invariant cache == map key | key in copy && (key in todo || !Idle(copy[key], clock(key), expireTimeSeconds)) :: copy[key]
      {
        var key :| key in todo;
        todo := todo - {key};
        if Idle(copy[key], clock(key), expireTimeSeconds) {
          cache := cache - {key};
        }
      }
    }
  }

  predicate Touches(op: LruOp, key: Key) {
    (op.Put? || op.Look?) && op.key == key
  }

  /** The clock when the key was last written or looked up. */
  function LastTouch(ops: seq<LruOp>, key: Key): real {
    if ops == [] then 0.0
    else if Touches(ops[|ops| - 1], key) then ops[|ops| - 1].now
    else LastTouch(ops[..|ops| - 1], key)
  }

  ghost predicate LastPut(ops: seq<LruOp>, key: Key, w: int) {
    && 0 <= w < |ops| && ops[w].Put? && ops[w].key == key
    && forall j :: w < j < |ops| && ops[j].Put? ==> ops[j].key != key
  }

  /** No cleanup since `w` found the key idle for too long. */
  ghost predicate Survives(ops: seq<LruOp>, key: Key, w: int, expireAfter: real) {
    forall j :: 0 <= w < j < |ops| && ops[j].Cleanup? ==> ops[j].clock(key) <= LastTouch(ops[..j], key) + expireAfter
  }

  ghost predicate HoldsLastPut(ops: seq<LruOp>, key: Key, expireAfter: real) {
    var cache := LruRun(ops, expireAfter);
    && (forall w :: LastPut(ops, key, w) ==>
          if Survives(ops, key, w, expireAfter) then key in cache && cache[key] == LruEntry(ops[w].value, LastTouch(ops, key))
          else key !in cache)
    && (key in cache ==> exists w :: LastPut(ops, key, w))
  }

  lemma LruSamePut(ops: seq<LruOp>, key: Key, w: int)
    requires ops != [] && !(ops[|ops| - 1].Put? && ops[|ops| - 1].key == key)
    ensures LastPut(ops, key, w) <==> LastPut(ops[..|ops| - 1], key, w)
  {
    var before := ops[..|ops| - 1];
    if LastPut(before, key, w) {
      forall j | w < j < |ops| && ops[j].Put?
        ensures ops[j].key != key
      {
        if j < |before| {
          assert before[j] == ops[j];
        }
      }
    }
  }

  lemma LruSameSurvival(ops: seq<LruOp>, key: Key, w: int, expireAfter: real)
    requires 0 <= w < |ops| - 1
    ensures var n := |ops| - 1;
            Survives(ops, key, w, expireAfter) <==>
            Survives(ops[..n], key, w, expireAfter) &&
            (ops[n].Cleanup? ==> ops[n].clock(key) <= LastTouch(ops[..n], key) + expireAfter)
  {
    var n := |ops| - 1;
    assert forall j :: 0 <= j < n ==> ops[..n][j] == ops[j] && ops[..n][..j] == ops[..j];
  }

  /** A key is in the cache exactly when no cleanup since its last write found it idle too long; a hit
      always returns the last value written. */
  lemma {:induction false} LruHistory(ops: seq<LruOp>, key: Key, expireAfter: real)
    ensures HoldsLastPut(ops, key, expireAfter)
  {
    if ops != [] {
      var n := |ops| - 1;
      LruHistory(ops[..n], key, expireAfter);
      if ops[n].Put? && ops[n].key == key {
        assert LastPut(ops, key, n);
      } else {
        forall w
          ensures LastPut(ops, key, w) <==> LastPut(ops[..n], key, w)
          ensures LastPut(ops, key, w) ==>
                    (Survives(ops, key, w, expireAfter) <==>
                     Survives(ops[..n], key, w, expireAfter) &&
                     (ops[n].Cleanup? ==> ops[n].clock(key) <= LastTouch(ops[..n], key) + expireAfter))
        {
          LruSamePut(ops, key, w);
          if LastPut(ops, key, w) {
            LruSameSurvival(ops, key, w, expireAfter);
          }
        }
      }
    }
  }
}
