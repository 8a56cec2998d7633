/** The identity service's two-key cache in front of the identity table. */
module IdentityCache {
  import opened Prelude

  datatype Identity = Identity(id: string, mxid: string, passwordHash: Option<string>, active: bool, rest: string)

  type Table = map<string, Identity>

  /** The unique constraints of the identity table. */
  predicate TableOk(db: Table) {
    && (forall i :: i in db ==> db[i].id == i)
    && forall i, j :: i in db && j in db && db[i].mxid == db[j].mxid ==> i == j
  }

  function ById(db: Table, id: string): Option<Identity> {
    if id in db then Some(db[id]) else None
  }

  predicate HasMxid(r: Option<Identity>, db: Table, mxid: string) {
    match r
    case Some(v) => v.id in db && db[v.id] == v && v.mxid == mxid
    case None => forall i :: i in db ==> db[i].mxid != mxid
  }

  datatype Caches = Caches(entries: Table, byMxid: map<string, string>, stamps: map<string, int>,
          mxidStamps: map<string, int>)

  function Removed(c: Caches, id: string): Caches {
    var d := c.(entries := c.entries - {id}, stamps := c.stamps - {id});
    if id in c.entries then
      d.(byMxid := c.byMxid - {c.entries[id].mxid}, mxidStamps := c.mxidStamps - {c.entries[id].mxid})
    else d
  }

  /** `_set_cache_entry` before it prunes. */
  function Stored(c: Caches, v: Identity, now: int): Caches {
    Caches(c.entries[v.id := v], c.byMxid[v.mxid := v.id], c.stamps[v.id := now], c.mxidStamps[v.mxid := now])
  }

  // ---------------------------------------------------------------------------------------
  // Coherence.

  /** The id cache and the mxid cache are inverse to each other, with equal timestamps. */
  predicate Coherent(c: Caches) {
    && c.stamps.Keys == c.entries.Keys
    && c.mxidStamps.Keys == c.byMxid.Keys
    && (forall i :: i in c.entries ==>
          var m := c.entries[i].mxid;
          c.entries[i].id == i && m in c.byMxid && c.byMxid[m] == i && c.mxidStamps[m] == c.stamps[i])
    && (forall m :: m in c.byMxid ==> c.byMxid[m] in c.entries && c.entries[c.byMxid[m]].mxid == m)
  }

  predicate Agrees(c: Caches, db: Table) {
    forall i :: i in c.entries ==> i in db && db[i] == c.entries[i]
  }

  /** The cache mirrors the table. */
  predicate Exact(c: Caches, db: Table) {
    Coherent(c) && Agrees(c, db) && TableOk(db)
  }

  lemma RemovedExact(c: Caches, id: string)
    ensures Coherent(c) ==> Coherent(Removed(c, id))
    ensures id in c.entries ==> |Removed(c, id).entries| == |c.entries| - 1
  {
    assert id in c.entries ==> c.entries.Keys == (c.entries - {id}).Keys + {id};
  }

  /** Storing an entry keeps a coherent cache coherent exactly if the id keeps its mxid and the
      mxid is not cached for another id. */
  lemma StoredCoherentIff(c: Caches, v: Identity, now: int)
    requires Coherent(c)
    ensures Coherent(Stored(c, v, now)) <==>
              && (v.id in c.entries ==> c.entries[v.id].mxid == v.mxid)
              && (v.mxid in c.byMxid ==> c.byMxid[v.mxid] == v.id)
  {
    var d := Stored(c, v, now);
    if v.id in c.entries && c.entries[v.id].mxid != v.mxid {
      var former := c.entries[v.id].mxid;
      assert former in d.byMxid && d.byMxid[former] == v.id && d.entries[v.id].mxid != former;
    } else if v.mxid in c.byMxid && c.byMxid[v.mxid] != v.id {
      var other := c.byMxid[v.mxid];
      assert other in d.entries && d.entries[other].mxid == v.mxid && d.byMxid[v.mxid] != other;
    }
  }

  lemma StoredExact(c: Caches, db: Table, v: Identity, now: int)
    requires Exact(c, db) && v.id in db && db[v.id] == v
    ensures Exact(Stored(c, v, now), db)
  {
    if v.mxid in c.byMxid {
      var i := c.byMxid[v.mxid];
      assert db[i].mxid == v.mxid;
    }
    StoredCoherentIff(c, v, now);
  }

  /** A row changes without changing its mxid, and the new row is cached. */
  lemma RewrittenExact(c: Caches, db: Table, v: Identity, now: int)
    requires Exact(c, db) && v.id in db && db[v.id].mxid == v.mxid
    ensures Exact(Stored(c, v, now), db[v.id := v])
  {
    var db' := db[v.id := v];
    if v.mxid in c.byMxid {
      var i := c.byMxid[v.mxid];
      assert db[i].mxid == v.mxid;
    }
    StoredCoherentIff(c, v, now);
    assert TableOk(db');
  }

  lemma TableAdded(db: Table, v: Identity)
    requires TableOk(db) && v.id !in db && (forall i :: i in db ==> db[i].mxid != v.mxid)
    ensures TableOk(db[v.id := v])
  {
  }

  /** The table takes a rewritten row exactly if no other row has its mxid. */
  lemma TableRewritten(db: Table, v: Identity)
    requires TableOk(db) && v.id in db
    ensures TableOk(db[v.id := v]) <==> forall i :: i in db && i != v.id ==> db[i].mxid != v.mxid
  {
    var db' := db[v.id := v];
    if TableOk(db') {
      forall i | i in db && i != v.id
        ensures db[i].mxid != v.mxid
      {
        assert db'[i] == db[i] && db'[v.id] == v;
      }
    }
  }

  /** A row is added under a new id and a new mxid, and cached. */
  lemma AddedExact(c: Caches, db: Table, v: Identity, now: int)
    requires Exact(c, db) && v.id !in db && (forall i :: i in db ==> db[i].mxid != v.mxid)
    ensures Exact(Stored(c, v, now), db[v.id := v])
  {
    hide Coherent, Agrees, TableOk, Stored;
    NotCached(c, db, v);
    TableAdded(db, v);
    StoredCoherentIff(c, v, now);
    StoredAgrees(c, db, v, now);
  }

  lemma NotCached(c: Caches, db: Table, v: Identity)
    requires Coherent(c) && Agrees(c, db)
    requires v.id !in db && (forall i :: i in db ==> db[i].mxid != v.mxid)
    ensures v.mxid !in c.byMxid && v.id !in c.entries
  {
    forall m | m in c.byMxid
      ensures m != v.mxid
    {
      var i := c.byMxid[m];
      assert c.entries[i].mxid == m && db[i] == c.entries[i];
    }
  }

  /** Caching a changed row leaves the cache exact if and only if the id was not cached or keeps
      its mxid; otherwise the former mxid still leads to the id, although no row has it. */
  lemma RewrittenExactIff(c: Caches, db: Table, v: Identity, now: int)
    requires Exact(c, db) && v.id in db && TableOk(db[v.id := v])
    ensures Exact(Stored(c, v, now), db[v.id := v]) <==> (v.id in c.entries ==> c.entries[v.id].mxid == v.mxid)
    ensures v.id in c.entries && c.entries[v.id].mxid != v.mxid ==>
              var former := c.entries[v.id].mxid;
              && former in Stored(c, v, now).byMxid && Stored(c, v, now).byMxid[former] == v.id
              && HasMxid(None, db[v.id := v], former)
  {
    hide Coherent, Agrees, TableOk, HasMxid, Stored;
    StoredCoherentIff(c, v, now);
    NotTheirs(c, db, v);
    FormerCached(c, db, v, now);
    StoredAgrees(c, db, v, now);
    if v.id in c.entries && c.entries[v.id].mxid != v.mxid {
      FormerGone(db, v);
    }
  }

  /** If the table takes the changed row, its mxid is cached for no other id. */
  lemma NotTheirs(c: Caches, db: Table, v: Identity)
    requires Coherent(c) && Agrees(c, db) && v.id in db && TableOk(db[v.id := v])
    ensures v.mxid in c.byMxid ==> c.byMxid[v.mxid] == v.id
  {
    var db' := db[v.id := v];
    if v.mxid in c.byMxid {
      var i := c.byMxid[v.mxid];
      assert i in c.entries && c.entries[i].mxid == v.mxid && i in db';
      assert db'[i].mxid == v.mxid && db'[v.id] == v;
    }
  }

  lemma StoredAgrees(c: Caches, db: Table, v: Identity, now: int)
    requires Agrees(c, db)
    ensures Agrees(Stored(c, v, now), db[v.id := v])
  {
  }

  lemma FormerCached(c: Caches, db: Table, v: Identity, now: int)
    requires Coherent(c) && Agrees(c, db)
    ensures v.id in c.entries ==> v.id in db && db[v.id] == c.entries[v.id]
    ensures v.id in c.entries && c.entries[v.id].mxid != v.mxid ==>
              var former := c.entries[v.id].mxid;
              former in Stored(c, v, now).byMxid && Stored(c, v, now).byMxid[former] == v.id
  {
  }

  lemma FormerGone(db: Table, v: Identity)
    requires TableOk(db) && v.id in db && db[v.id].mxid != v.mxid
    ensures HasMxid(None, db[v.id := v], db[v.id].mxid)
  {
    var db' := db[v.id := v];
    forall i | i in db'
      ensures db'[i].mxid != db[v.id].mxid
    {
      assert i in db && (i == v.id || db'[i] == db[i]);
    }
  }

  /** A change of mxid that the cache does not survive: after `@old` became `@new`, the former
      mxid is still cached, and leads to a row that does not have it. */
  lemma MxidChangeLeavesStale()
    ensures exists c: Caches, db: Table, v: Identity ::
              && Exact(c, db) && v.id in db && TableOk(db[v.id := v])
              && !Exact(Stored(c, v, 1), db[v.id := v])
              && !HasMxid(ById(db[v.id := v], v.id), db[v.id := v], db[v.id].mxid)
  {
    var u := Identity("a", "@old", None, true, "");
    var v := u.(mxid := "@new");
    var db: Table := map["a" := u];
    var c := Caches(db, map["@old" := "a"], map["a" := 0], map["@old" := 0]);
    assert db["a" := v] == map["a" := v];
    assert u.mxid != v.mxid by {
      assert "@old"[1] != "@new"[1];
    }
    assert Exact(c, db) && TableOk(db["a" := v]);
    hide Exact, TableOk, Stored;
    RewrittenExactIff(c, db, v, 1);
  }

  /** A row changes or goes away, and its entry is removed from the cache. */
  lemma DroppedExact(c: Caches, db: Table, id: string, db': Table)
    requires Exact(c, db) && TableOk(db')
    requires forall i :: i != id && i in db ==> i in db' && db'[i] == db[i]
    ensures Exact(Removed(c, id), db')
  {
    RemovedExact(c, id);
  }

  // ---------------------------------------------------------------------------------------
  // Staleness.

  /** The table as it was at one instant. */
  datatype Snapshot = Snapshot(at: int, db: Table)

  /** `v` was what the table said about `id` at some instant of the last `ttl`. */
  predicate HeldWithin(log: seq<Snapshot>, ttl: int, now: int, id: string, v: Option<Identity>) {
    exists k :: 0 <= k < |log| && now - ttl <= log[k].at <= now && ById(log[k].db, id) == v
  }

  predicate HeldAt(log: seq<Snapshot>, at: int, id: string, v: Option<Identity>) {
    exists k :: 0 <= k < |log| && log[k].at == at && ById(log[k].db, id) == v
  }

  /** The row of `id` had the mxid at some instant of the last `ttl`. */
  predicate NamedWithin(log: seq<Snapshot>, ttl: int, now: int, id: string, mxid: string) {
    exists k :: 0 <= k < |log| && now - ttl <= log[k].at <= now && HasName(log[k].db, id, mxid)
  }

  predicate NamedAt(log: seq<Snapshot>, at: int, id: string, mxid: string) {
    exists k :: 0 <= k < |log| && log[k].at == at && HasName(log[k].db, id, mxid)
  }

  predicate HasName(db: Table, id: string, mxid: string) {
    id in db && db[id].mxid == mxid
  }

  /** Every cached value was the table's value at its timestamp, the row of every cached id had the
      mxid at the mxid's timestamp, and no timestamp lies in the future; nothing is assumed about
      who writes the table. */
  predicate Sound(c: Caches, log: seq<Snapshot>, clock: int) {
    && c.stamps.Keys == c.entries.Keys
    && (forall i :: i in c.entries ==> c.stamps[i] <= clock && HeldAt(log, c.stamps[i], i, Some(c.entries[i])))
    && forall m :: m in c.byMxid && m in c.mxidStamps ==>
         c.mxidStamps[m] <= clock && NamedAt(log, c.mxidStamps[m], c.byMxid[m], m)
  }

  lemma HeldGrows(log: seq<Snapshot>, s: Snapshot, at: int, id: string, v: Option<Identity>)
    ensures HeldAt(log, at, id, v) ==> HeldAt(log + [s], at, id, v)
    ensures HeldAt(log + [s], s.at, id, ById(s.db, id))
  {
    if HeldAt(log, at, id, v) {
      var k :| 0 <= k < |log| && log[k].at == at && ById(log[k].db, id) == v;
      assert (log + [s])[k] == log[k];
    }
    assert (log + [s])[|log|] == s;
  }

  lemma NamedGrows(log: seq<Snapshot>, s: Snapshot, at: int, id: string, mxid: string)
    requires NamedAt(log, at, id, mxid)
    ensures NamedAt(log + [s], at, id, mxid)
  {
    var k :| 0 <= k < |log| && log[k].at == at && HasName(log[k].db, id, mxid);
    assert (log + [s])[k] == log[k];
  }

  lemma HeldHasName(log: seq<Snapshot>, at: int, v: Identity)
    requires HeldAt(log, at, v.id, Some(v))
    ensures NamedAt(log, at, v.id, v.mxid)
  {
    var k :| 0 <= k < |log| && log[k].at == at && ById(log[k].db, v.id) == Some(v);
    assert HasName(log[k].db, v.id, v.mxid);
  }

  lemma SoundGrows(c: Caches, log: seq<Snapshot>, clock: int, s: Snapshot)
    requires Sound(c, log, clock) && clock <= s.at
    ensures Sound(c, log + [s], s.at)
  {
    forall i | i in c.entries
      ensures HeldAt(log + [s], c.stamps[i], i, Some(c.entries[i]))
    {
      HeldGrows(log, s, c.stamps[i], i, Some(c.entries[i]));
    }
    forall m | m in c.byMxid && m in c.mxidStamps
      ensures NamedAt(log + [s], c.mxidStamps[m], c.byMxid[m], m)
    {
      NamedGrows(log, s, c.mxidStamps[m], c.byMxid[m], m);
    }
  }

  lemma RemovedSound(c: Caches, id: string, log: seq<Snapshot>, clock: int)
    requires Sound(c, log, clock)
    ensures Sound(Removed(c, id), log, clock)
  {
    hide HeldAt, NamedAt;
  }

  lemma StoredSound(c: Caches, v: Identity, now: int, log: seq<Snapshot>)
    requires Sound(c, log, now) && HeldAt(log, now, v.id, Some(v))
    ensures Sound(Stored(c, v, now), log, now)
  {
    HeldHasName(log, now, v);
    hide HeldAt, NamedAt;
  }

  // ---------------------------------------------------------------------------------------
  // Pruning.

  /** `c'` is `c` with entries taken out. */
  predicate Within(c': Caches, c: Caches) {
    && MxidsWithin(c', c)
    && forall i :: i in c'.entries ==>
         && i in c.entries && i in c.stamps && i in c'.stamps
         && c'.entries[i] == c.entries[i] && c'.stamps[i] == c.stamps[i]
  }

  predicate MxidsWithin(c': Caches, c: Caches) {
    && (forall m :: m in c'.byMxid ==> m in c.byMxid && c'.byMxid[m] == c.byMxid[m])
    && forall m :: m in c'.mxidStamps ==> m in c.mxidStamps && c'.mxidStamps[m] == c.mxidStamps[m]
  }

  lemma RemovedWithin(all: Caches, c: Caches, i: string)
    requires MxidsWithin(c, all)
    ensures MxidsWithin(Removed(c, i), all)
  {
  }

  lemma WithinTwice(all: Caches, live: Caches, c: Caches)
    requires MxidsWithin(live, all) && MxidsWithin(c, live)
    ensures MxidsWithin(c, all)
  {
  }

  /** What went is no younger than what stayed. */
  predicate OldestOut(c: Caches, c': Caches) {
    forall i, j :: i in c.entries && i in c.stamps && i !in c'.entries && j in c'.entries && j in c'.stamps ==>
      c.stamps[i] <= c'.stamps[j]
  }

  predicate Fresh(stamp: int, now: int, ttl: int) {
    now - stamp <= ttl
  }

  /** The entry went although it was fresh. */
  predicate Evicted(c: Caches, c': Caches, now: int, ttl: int, i: string) {
    i in c.entries && i in c.stamps && i !in c'.entries && Fresh(c.stamps[i], now, ttl)
  }

  /** The cache fits, has nothing expired, and what went although it was fresh is no younger
      than what stayed. */
  predicate Pruned(c: Caches, c': Caches, now: int, ttl: int, maxEntries: nat) {
    && Within(c', c)
    && c'.stamps.Keys == c'.entries.Keys
    && |c'.entries| <= maxEntries
    && (forall i :: i in c'.entries ==> Fresh(c'.stamps[i], now, ttl))
    && (forall i, j :: i in c.entries && Evicted(c, c', now, ttl, i) && j in c'.entries ==> c.stamps[i] <= c'.stamps[j])
    && ((exists i :: i in c.entries && Evicted(c, c', now, ttl, i)) ==> |c'.entries| == maxEntries)
  }

  lemma PrunedSound(c: Caches, c': Caches, log: seq<Snapshot>, clock: int, now: int, ttl: int, maxEntries: nat)
    requires Sound(c, log, clock) && Pruned(c, c', now, ttl, maxEntries)
    ensures Sound(c', log, clock)
  {
    hide HeldAt, NamedAt;
  }

  /** One more of the oldest entries goes. */
  lemma OldestGoes(all: Caches, c: Caches, i: string)
    requires c.stamps.Keys == c.entries.Keys && i in c.entries && Within(c, all) && OldestOut(all, c)
    requires forall j :: j in c.stamps ==> c.stamps[i] <= c.stamps[j]
    ensures Within(Removed(c, i), all) && OldestOut(all, Removed(c, i))
    ensures Removed(c, i).stamps.Keys == Removed(c, i).entries.Keys
  {
  }
}
