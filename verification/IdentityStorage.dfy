/** The identity service: the cache in use, over a table that others may write too. */
module IdentityStorage {
  import opened Prelude
  import opened IdentityCache

  class IdentityStorageService {
    const ttl: nat
    const maxEntries: nat
    /** The identity table. */
    var db: Table
    var cache: Table
    var mxidCache: map<string, string>
    var cacheTimestamps: map<string, int>
    var mxidTimestamps: map<string, int>
    /** The table at every instant at which it was read or written. */
    ghost var log: seq<Snapshot>
    ghost var clock: int

    ghost function Cached(): Caches
      reads this
    {
      Caches(cache, mxidCache, cacheTimestamps, mxidTimestamps)
    }

    ghost predicate Valid()
      reads this
    {
      Sound(Cached(), log, clock) && TableOk(db)
    }

    /** The cache mirrors the table; a write by another process may break this. */
    ghost predicate Mirrors()
      reads this
    {
      Exact(Cached(), db)
    }

    constructor (ttl: nat, maxEntries: nat, db: Table, now: int)
      requires TableOk(db)
      ensures Valid() && Mirrors() && this.db == db && clock == now
      ensures this.ttl == ttl && this.maxEntries == maxEntries
    {
      this.ttl, this.maxEntries, this.db := ttl, maxEntries, db;
      cache, mxidCache, cacheTimestamps, mxidTimestamps := map[], map[], map[], map[];
      log, clock := [], now;
    }

    method RemoveCacheEntry(id: string)
      modifies this`cache, this`mxidCache, this`cacheTimestamps, this`mxidTimestamps
      ensures Cached() == Removed(old(Cached()), id)
    {
      if id in cache {
        var mxid := cache[id].mxid;
        mxidCache, mxidTimestamps := mxidCache - {mxid}, mxidTimestamps - {mxid};
      }
      cache, cacheTimestamps := cache - {id}, cacheTimestamps - {id};
    }

    method Oldest() returns (id: string)
      requires cacheTimestamps != map[]
      ensures id in cacheTimestamps && forall j :: j in cacheTimestamps ==> cacheTimestamps[id] <= cacheTimestamps[j]
    {
      id :| id in cacheTimestamps;
      var todo := cacheTimestamps.Keys;
      while todo != {}
        invariant todo <= cacheTimestamps.Keys && id in cacheTimestamps
        invariant forall j :: j in cacheTimestamps && j !in todo ==> cacheTimestamps[id] <= cacheTimestamps[j]
        decreases todo
      {
        var j :| j in todo;
        todo := todo - {j};
        if cacheTimestamps[j] < cacheTimestamps[id] {
          id := j;
        }
      }
    }

    /** Everything that is no longer fresh goes. */
    method DropExpired(now: int)
      requires cacheTimestamps.Keys == cache.Keys
      modifies this`cache, this`mxidCache, this`cacheTimestamps, this`mxidTimestamps
      ensures cacheTimestamps.Keys == cache.Keys && Within(Cached(), old(Cached()))
      ensures forall i :: i in old(cache) ==> (i in cache <==> Fresh(old(cacheTimestamps)[i], now, ttl))
      ensures Coherent(old(Cached())) ==> Coherent(Cached())
    {
      var expired := set i | i in cacheTimestamps && now - cacheTimestamps[i] > ttl;
      ghost var all := Cached();
      while expired != {}
        invariant cacheTimestamps.Keys == cache.Keys && Within(Cached(), all)
        invariant forall i :: i in all.entries ==> (i in cache <==> i in expired || Fresh(all.stamps[i], now, ttl))
        invariant forall i :: i in expired ==> i in all.entries && !Fresh(all.stamps[i], now, ttl)
        invariant Coherent(all) ==> Coherent(Cached())
        decreases expired
      {
        var i :| i in expired;
        expired := expired - {i};
        RemovedExact(Cached(), i);
        RemovedWithin(all, Cached(), i);
        hide Coherent, MxidsWithin;
        RemoveCacheEntry(i);
      }
    }

    /** The oldest entries go until the rest fits. */
    method EvictExcess()
      requires cacheTimestamps.Keys == cache.Keys
      modifies this`cache, this`mxidCache, this`cacheTimestamps, this`mxidTimestamps
      ensures cacheTimestamps.Keys == cache.Keys && Within(Cached(), old(Cached()))
      ensures |cache| <= maxEntries && (|cache| == maxEntries || cache == old(cache))
      ensures OldestOut(old(Cached()), Cached())
      ensures Coherent(old(Cached())) ==> Coherent(Cached())
    {
      AllWithin(Cached());
      hide Within, OldestOut, Coherent;
      var evict := if |cache| <= maxEntries then 0 else |cache| - maxEntries;
      while evict > 0
        invariant cacheTimestamps.Keys == cache.Keys && Within(Cached(), old(Cached()))
        invariant evict == if |cache| <= maxEntries then 0 else |cache| - maxEntries
        invariant |cache| >= maxEntries || cache == old(cache)
        invariant OldestOut(old(Cached()), Cached())
        invariant Coherent(old(Cached())) ==> Coherent(Cached())
        decreases evict
      {
        assert |cacheTimestamps.Keys| == |cache.Keys| > 0;
        var i := Oldest();
        RemovedExact(Cached(), i);
        OldestGoes(old(Cached()), Cached(), i);
        RemoveCacheEntry(i);
        evict := evict - 1;
      }
    }

    /** `_prune_cache`: first what has expired, then the oldest entries until the rest fits. */
    method PruneCache(now: int)
      requires cacheTimestamps.Keys == cache.Keys
      modifies this`cache, this`mxidCache, this`cacheTimestamps, this`mxidTimestamps
      ensures Pruned(old(Cached()), Cached(), now, ttl, maxEntries)
      ensures Coherent(old(Cached())) ==> Coherent(Cached())
    {
      hide Coherent, Within, Pruned, OldestOut;
      DropExpired(now);
      ghost var live := Cached();
      EvictExcess();
      PrunedTwice(old(Cached()), live, Cached(), now, ttl, maxEntries);
    }

    method SetCacheEntry(v: Identity, now: int)
      requires Valid() && clock <= now && HeldAt(log, now, v.id, Some(v))
      modifies this`cache, this`mxidCache, this`cacheTimestamps, this`mxidTimestamps, this`clock
      ensures Valid() && clock == now
      ensures Pruned(Stored(old(Cached()), v, now), Cached(), now, ttl, maxEntries)
      ensures Coherent(Stored(old(Cached()), v, now)) ==> Coherent(Cached())
    {
      hide Sound, Coherent, TableOk, HeldAt, Pruned;
      SoundLater(Cached(), log, clock, now);
      clock := now;
      StoredSound(Cached(), v, now, log);
      cache, cacheTimestamps := cache[v.id := v], cacheTimestamps[v.id := now];
      mxidCache, mxidTimestamps := mxidCache[v.mxid := v.id], mxidTimestamps[v.mxid := now];
      ghost var stored := Cached();
      PruneCache(now);
      PrunedSound(stored, Cached(), log, clock, now, ttl, maxEntries);
    }

    /** The instant at which the table is read or has been written. */
    ghost method Observe(now: int)
      requires Sound(Cached(), log, clock) && clock <= now
      modifies this`log, this`clock
      ensures Sound(Cached(), log, clock) && clock == now
      ensures log == old(log) + [Snapshot(now, db)]
      ensures forall id {:trigger ById(db, id)} :: HeldAt(log, now, id, ById(db, id))
    {
      SoundGrows(Cached(), log, clock, Snapshot(now, db));
      forall id
        ensures HeldAt(log + [Snapshot(now, db)], now, id, ById(db, id))
      {
        HeldGrows(log, Snapshot(now, db), now, id, None);
      }
      log, clock := log + [Snapshot(now, db)], now;
    }

    /** Reads through the cache.  Whatever other processes do, the value was the table's at
        some instant within the last `ttl`; when all writes go through the service, it is the
        table's now. */
    method Get(id: string, now: int) returns (r: Option<Identity>)
      requires Valid() && clock <= now
      modifies this`cache, this`mxidCache, this`cacheTimestamps, this`mxidTimestamps, this`log, this`clock
      ensures Valid() && clock == now && old(log) <= log
      ensures HeldWithin(log, ttl, now, id, r)
      ensures old(Mirrors()) ==> Mirrors() && r == ById(db, id)
    {
      if id in cache {
        if now - cacheTimestamps[id] <= ttl {
          HeldRecently(log, cacheTimestamps[id], ttl, now, id, Some(cache[id]));
          clock := now;
          return Some(cache[id]);
        }
        RemovedSound(Cached(), id, log, clock);
        DroppedExact'(Cached(), db, id);
        RemoveCacheEntry(id);
      }
      hide Exact, Sound, HeldAt;
      Observe(now);
      HeldRecently(log, now, ttl, now, id, ById(db, id));
      if id in db {
        Cache(db[id], now);
        return Some(db[id]);
      }
      r := None;
    }

    /** Cache a row that was just read. */
    method Cache(v: Identity, now: int)
      requires Valid() && clock == now && v.id in db && db[v.id] == v && HeldAt(log, now, v.id, Some(v))
      modifies this`cache, this`mxidCache, this`cacheTimestamps, this`mxidTimestamps, this`clock
      ensures Valid() && clock == now && |cache| <= maxEntries
      ensures old(Mirrors()) ==> Mirrors()
    {
      if Exact(Cached(), db) {
        StoredExact(Cached(), db, v, now);
      }
      ghost var stored := Stored(Cached(), v, now);
      SetCacheEntry(v, now);
      WithinAgrees(stored, Cached(), db);
    }

    /** Reads by mxid: through the mxid cache and then the id cache, else from the table. */
    method GetByMxid(mxid: string, now: int) returns (r: Option<Identity>)
      requires Valid() && clock <= now
      modifies this`cache, this`mxidCache, this`cacheTimestamps, this`mxidTimestamps, this`log, this`clock
      ensures Valid() && clock == now
      ensures if mxid in old(mxidCache) && mxid in old(mxidTimestamps) && now - old(mxidTimestamps)[mxid] <= ttl
              then HeldWithin(log, ttl, now, old(mxidCache)[mxid], r)
                   && NamedWithin(log, ttl, now, old(mxidCache)[mxid], mxid)
              else HasMxid(r, db, mxid)
      ensures old(Mirrors()) ==> Mirrors() && HasMxid(r, db, mxid)
    {
      if mxid in mxidCache {
        var id := mxidCache[mxid];
        if mxid in mxidTimestamps && now - mxidTimestamps[mxid] <= ttl {
          ghost var at, before := mxidTimestamps[mxid], log;
          hide Exact;
          r := Get(id, now);
          NamedRecently(before, log, at, ttl, now, id, mxid);
          return;
        }
        RemovedSound(Cached(), id, log, clock);
        DroppedExact'(Cached(), db, id);
        RemoveCacheEntry(id);
      }
      hide Exact, Sound, HeldAt;
      Observe(now);
      if i :| i in db && db[i].mxid == mxid {
        assert db[i].id == i;
        assert HeldAt(log, now, i, ById(db, i));
        hide TableOk;
        Cache(db[i], now);
        return Some(db[i]);
      }
      r := None;
    }

    /** Adds a row; the table refuses an id or an mxid that it has. */
    method Create(v: Identity, now: int) returns (ok: bool)
      requires Valid() && clock <= now
      modifies this
      ensures Valid() && clock == now
      ensures ok <==> old(v.id !in db && forall i :: i in db ==> db[i].mxid != v.mxid)
      ensures db == if ok then old(db)[v.id := v] else old(db)
      ensures old(Mirrors()) ==> Mirrors()
    {
      if v.id in db || exists i :: i in db && db[i].mxid == v.mxid {
        clock := now;
        return false;
      }
      TableAdded(db, v);
      if Mirrors() {
        AddedExact(Cached(), db, v, now);
      }
      db := db[v.id := v];
      ok := true;
      Record(v, now);
    }

    /** Rewrites a row: `update`, `update_access_token` and `mark_used`.  The table refuses an mxid
        that another row has. */
    method Update(v: Identity, now: int) returns (r: Option<Identity>, raised: bool)
      requires Valid() && clock <= now
      modifies this
      ensures Valid() && clock == now
      ensures raised <==> old(v.id in db && exists i :: i in db && i != v.id && db[i].mxid == v.mxid)
      ensures r == if v.id in old(db) && !raised then Some(v) else None
      ensures db == if r.Some? then old(db)[v.id := v] else old(db)
      ensures raised ==> Cached() == old(Cached())
      ensures old(Mirrors()) && (r.Some? ==> old(db)[v.id].mxid == v.mxid) ==> Mirrors()
    {
      raised := v.id in db && exists i :: i in db && i != v.id && db[i].mxid == v.mxid;
      if v.id !in db || raised {
        Later(now);
        return None, raised;
      }
      TableRewritten(db, v);
      if Mirrors() && db[v.id].mxid == v.mxid {
        RewrittenExact(Cached(), db, v, now);
      }
      hide TableOk, Sound, Exact;
      db := db[v.id := v];
      Record(v, now);
      r := Some(v);
    }

    /** Time passes. */
    ghost method Later(now: int)
      requires Valid() && clock <= now
      modifies this`clock
      ensures Valid() && clock == now && (old(Mirrors()) ==> Mirrors())
    {
      hide Exact, Sound, TableOk;
      SoundLater(Cached(), log, clock, now);
      clock := now;
    }

    /** Observes the table just written and caches the row. */
    method Record(v: Identity, now: int)
      requires Valid() && clock <= now && v.id in db && db[v.id] == v
      modifies this`cache, this`mxidCache, this`cacheTimestamps, this`mxidTimestamps, this`log, this`clock
      ensures Valid() && clock == now
      ensures old(Exact(Stored(Cached(), v, now), db)) ==> Mirrors()
    {
      hide Sound, HeldAt, Coherent, TableOk;
      Observe(now);
      assert HeldAt(log, now, v.id, ById(db, v.id));
      ghost var stored := Stored(Cached(), v, now);
      SetCacheEntry(v, now);
      WithinAgrees(stored, Cached(), db);
    }

    /** `deactivate`: the row stays, marked inactive, and its entry goes. */
    method Deactivate(id: string, now: int) returns (ok: bool)
      requires Valid() && clock <= now
      modifies this
      ensures Valid() && clock == now
      ensures ok <==> id in old(db)
      ensures db == if ok then old(db)[id := old(db)[id].(active := false)] else old(db)
      ensures ok ==> id !in cache
      ensures old(Mirrors()) ==> Mirrors()
    {
      ok := id in db;
      if !ok {
        clock := now;
        return;
      }
      Drop(id, db[id := db[id].(active := false)], now);
    }

    /** `delete`: the row and its entry go. */
    method Delete(id: string, now: int) returns (ok: bool)
      requires Valid() && clock <= now
      modifies this
      ensures Valid() && clock == now
      ensures ok <==> id in old(db)
      ensures db == old(db) - {id}
      ensures ok ==> id !in cache
      ensures old(Mirrors()) ==> Mirrors()
    {
      ok := id in db;
      if !ok {
        clock := now;
        assert db == db - {id};
        return;
      }
      Drop(id, db - {id}, now);
    }

    /** The common part of `deactivate` and `delete`: the table becomes `db'`, the entry goes,
        and so does whatever is cached under the mxid of the entry or, if there was none, of
        the row. */
    method Drop(id: string, db': Table, now: int)
      requires Valid() && clock <= now && id in db && TableOk(db')
      requires forall i :: i != id && i in db ==> i in db' && db'[i] == db[i]
      modifies this
      ensures Valid() && clock == now && db == db' && id !in cache
      ensures old(Mirrors()) ==> Mirrors()
    {
      hide Exact, Sound, HeldAt, TableOk;
      var identity := if id in cache then cache[id] else db[id];
      DropKeeps(Cached(), id, identity.mxid, db, db', log, clock);
      ghost var dropped := Forgotten(Removed(Cached(), id), identity.mxid);
      db := db';
      RemoveCacheEntry(id);
      mxidCache, mxidTimestamps := mxidCache - {identity.mxid}, mxidTimestamps - {identity.mxid};
      assert Cached() == dropped;
      Observe(now);
    }

    /** `clear_cache`. */
    method ClearCache()
      requires Valid()
      modifies this`cache, this`mxidCache, this`cacheTimestamps, this`mxidTimestamps
      ensures Valid() && Mirrors() && Cached() == Caches(map[], map[], map[], map[])
    {
      cache, mxidCache, cacheTimestamps, mxidTimestamps := map[], map[], map[], map[];
    }

    /** Another process writes the table, as it likes. */
    method ExternalWrite(db': Table, now: int)
      requires Valid() && clock <= now && TableOk(db')
      modifies this
      ensures Valid() && clock == now && db == db' && Cached() == old(Cached())
    {
      db := db';
      hide Sound, HeldAt, TableOk;
      Observe(now);
    }
  }

  lemma AllWithin(c: Caches)
    requires c.stamps.Keys == c.entries.Keys
    ensures Within(c, c) && OldestOut(c, c)
  {
  }

  lemma HeldRecently(log: seq<Snapshot>, at: int, ttl: int, now: int, id: string, v: Option<Identity>)
    requires HeldAt(log, at, id, v) && now - ttl <= at <= now
    ensures HeldWithin(log, ttl, now, id, v)
  {
  }

  lemma DroppedExact'(c: Caches, db: Table, id: string)
    ensures Exact(c, db) ==> Exact(Removed(c, id), db)
  {
    if Exact(c, db) {
      DroppedExact(c, db, id, db);
    }
  }

  lemma NamedRecently(before: seq<Snapshot>, log: seq<Snapshot>, at: int, ttl: int, now: int, id: string, mxid: string)
    requires NamedAt(before, at, id, mxid) && before <= log && now - ttl <= at <= now
    ensures NamedWithin(log, ttl, now, id, mxid)
  {
    var k :| 0 <= k < |before| && before[k].at == at && HasName(before[k].db, id, mxid);
    assert log[k] == before[k];
  }

  function Forgotten(c: Caches, mxid: string): Caches {
    c.(byMxid := c.byMxid - {mxid}, mxidStamps := c.mxidStamps - {mxid})
  }

  lemma SoundLater(c: Caches, log: seq<Snapshot>, clock: int, now: int)
    requires Sound(c, log, clock) && clock <= now
    ensures Sound(c, log, now) && c.stamps.Keys == c.entries.Keys
  {
    hide HeldAt, NamedAt;
  }

  /** In a cache that mirrors the table nothing is left under the mxid of a removed entry. */
  lemma ForgottenExact(c: Caches, id: string, mxid: string, db: Table, db': Table)
    requires Exact(c, db) && id in db && TableOk(db')
    requires forall i :: i != id && i in db ==> i in db' && db'[i] == db[i]
    requires mxid == if id in c.entries then c.entries[id].mxid else db[id].mxid
    ensures Exact(Forgotten(Removed(c, id), mxid), db')
  {
    hide Exact, Coherent, Agrees, TableOk;
    DroppedExact(c, db, id, db');
    if id !in c.entries {
      UncachedMxid(c, id, db);
    }
    assert Forgotten(Removed(c, id), mxid) == Removed(c, id);
  }

  lemma UncachedMxid(c: Caches, id: string, db: Table)
    requires Exact(c, db) && id in db && id !in c.entries
    ensures db[id].mxid !in c.byMxid && db[id].mxid !in c.mxidStamps
  {
    assert forall m :: m in c.byMxid ==> c.byMxid[m] in db && db[c.byMxid[m]].mxid == m;
  }

  lemma DropKeeps(c: Caches, id: string, mxid: string, db: Table, db': Table, log: seq<Snapshot>, clock: int)
    requires id in db && TableOk(db')
    requires forall i :: i != id && i in db ==> i in db' && db'[i] == db[i]
    requires mxid == if id in c.entries then c.entries[id].mxid else db[id].mxid
    ensures Sound(c, log, clock) ==> Sound(Forgotten(Removed(c, id), mxid), log, clock)
    ensures Exact(c, db) ==> Exact(Forgotten(Removed(c, id), mxid), db')
  {
    hide HeldAt, NamedAt, Exact, TableOk;
    if Exact(c, db) {
      ForgottenExact(c, id, mxid, db, db');
    }
  }

  lemma WithinAgrees(c: Caches, c': Caches, db: Table)
    requires Within(c', c)
    ensures Agrees(c, db) ==> Agrees(c', db)
  {
  }

  lemma PrunedTwice(all: Caches, live: Caches, c: Caches, now: int, ttl: int, maxEntries: nat)
    requires all.stamps.Keys == all.entries.Keys && live.stamps.Keys == live.entries.Keys
             && c.stamps.Keys == c.entries.Keys
    requires Within(live, all) && Within(c, live)
    requires forall i :: i in all.entries ==> (i in live.entries <==> Fresh(all.stamps[i], now, ttl))
    requires |c.entries| <= maxEntries && (|c.entries| == maxEntries || c.entries == live.entries)
    requires OldestOut(live, c)
    ensures Pruned(all, c, now, ttl, maxEntries)
  {
    WithinTwice(all, live, c);
    hide MxidsWithin;
  }
}
