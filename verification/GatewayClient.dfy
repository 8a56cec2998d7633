/** The pool as the client keeps it: entry objects that are updated in place, and the critical
    sections of the client's methods, each proved against the protocol's shared-state steps. */
module GatewayClientPool {
  import opened Prelude
  import opened GatewayPool

  class PoolEntry {
    const id: EntryId
    const agentId: Agent
    var lastUsed: int
    var healthy: bool
    var inUse: bool

    constructor (id: EntryId, agentId: Agent, now: int)
      ensures this.id == id && this.agentId == agentId
      ensures lastUsed == now && healthy && !inUse
    {
      this.id, this.agentId := id, agentId;
      lastUsed, healthy, inUse := now, true, false;
    }

    ghost function View(): Entry
      reads this
    {
      Entry(agentId, lastUsed, healthy, inUse)
    }
  }

  ghost function Ids(pool: map<Agent, PoolEntry>): map<Agent, EntryId> {
    map a | a in pool :: pool[a].id
  }

  lemma IdsUpdate(pool: map<Agent, PoolEntry>, a: Agent, entry: PoolEntry)
    ensures Ids(pool[a := entry]) == Ids(pool)[a := entry.id]
  {
  }

  class GatewayClient {
    const maxConnections: nat
    const idleTimeout: int
    var pool: map<Agent, PoolEntry>
    /** Every entry that was ever put in the pool. */
    ghost var published: map<EntryId, PoolEntry>

    ghost function Objects(): set<PoolEntry>
      reads this
    {
      published.Values
    }

    ghost predicate Valid()
      reads this, Objects()
    {
      && (forall i :: i in published ==> published[i].id == i)
      && (forall a :: a in pool ==> pool[a].agentId == a && pool[a].id in published && published[pool[a].id] == pool[a])
    }

    ghost function Entries(): map<EntryId, Entry>
      reads this, Objects()
    {
      map i | i in published :: published[i].View()
    }

    ghost function View(): (s: Shared)
      requires Valid()
      reads this, Objects()
      ensures WellFormed(s)
    {
      Shared(Entries(), Ids(pool))
    }

    constructor (maxConnections: nat, idleTimeout: int)
      ensures Valid() && View() == Shared(map[], map[])
      ensures this.maxConnections == maxConnections && this.idleTimeout == idleTimeout
    {
      this.maxConnections, this.idleTimeout := maxConnections, idleTimeout;
      pool, published := map[], map[];
    }

    /** `_close_entry`; the frames sent to the dying socket are not modelled. */
    method CloseEntry(entry: PoolEntry)
      requires Valid() && entry.id in published && published[entry.id] == entry
      modifies entry`healthy
      ensures Valid() && View() == Closed(old(View()), entry.id)
    {
      entry.healthy := false;
    }

    method Evict(agent: Agent)
      requires Valid()
      modifies this`pool, Objects()
      ensures Valid() && published == old(published) && View() == Evicted(old(View()), agent)
    {
      if agent in pool {
        var entry := pool[agent];
        CloseEntry(entry);
        pool := pool - {agent};
      }
    }

    /** Returns whether an abort frame was sent. */
    method Abort(agent: Agent) returns (sent: bool)
      requires Valid()
      modifies this`pool, Objects()
      ensures Valid() && published == old(published)
      ensures sent == Usable(old(View()), agent)
      ensures View() == if sent then Evicted(old(View()), agent) else old(View())
    {
      if agent !in pool || !pool[agent].healthy {
        return false;
      }
      Evict(agent);
      sent := true;
    }

    method EvictOldestUnlocked() returns (evicted: bool, ghost victim: Agent)
      requires Valid()
      modifies this`pool, Objects()
      ensures Valid() && published == old(published)
      ensures !evicted ==> AllBusy(old(View())) && View() == old(View())
      ensures evicted ==> OldestIdle(old(View()), victim) && View() == Evicted(old(View()), victim)
    {
      victim := "";
      var oldest: Option<Agent> := None;
      var todo := pool.Keys;
      while todo != {}
        invariant todo <= pool.Keys
        invariant oldest.Some? ==> oldest.value in pool && !pool[oldest.value].inUse
        invariant forall a :: a in pool && a !in todo && !pool[a].inUse ==>
                    oldest.Some? && pool[oldest.value].lastUsed <= pool[a].lastUsed
        decreases todo
      {
        var a :| a in todo;
        todo := todo - {a};
        if !pool[a].inUse && (oldest.None? || pool[a].lastUsed < pool[oldest.value].lastUsed) {
          oldest := Some(a);
        }
      }
      if oldest.None? {
        assert forall a :: IdleIn(View(), a) ==> a in pool && !pool[a].inUse;
        return false, victim;
      }
      victim := oldest.value;
      assert OldestIdle(View(), victim) by {
        assert forall a :: IdleIn(View(), a) ==> a in pool && !pool[a].inUse;
      }
      Evict(oldest.value);
      evicted := true;
    }

    /** A free entry is reserved. */
    method Take(entry: PoolEntry)
      requires Valid() && entry.id in published && published[entry.id] == entry
      modifies entry`inUse
      ensures Valid() && View() == Update(old(View()), entry.id, old(entry.View()).(inUse := true))
    {
      entry.inUse := true;
    }

    /** The first hold of the lock in `_get_or_create`. */
    method ReserveSection(agent: Agent, now: int, deadline: int) returns (v: Verdict)
      requires Valid()
      modifies this`pool, Objects()
      ensures Valid() && published == old(published)
      ensures Reserve(old(View()), agent, now, deadline, maxConnections, View(), v)
    {
      if agent in pool && pool[agent].healthy {
        var entry := pool[agent];
        if entry.inUse {
          return WaitOrFail(now, deadline);
        }
        Take(entry);
        return Reserved(entry.id);
      }
      assert pool.Keys == View().pool.Keys;
      assert |pool| == |pool.Keys| && |View().pool| == |View().pool.Keys|;
      if |pool| >= maxConnections {
        var evicted, _ := EvictOldestUnlocked();
        return if evicted then Connect else WaitOrFail(now, deadline);
      }
      v := Connect;
    }

    /** Put a new entry under its agent's key. */
    method Publish(entry: PoolEntry, now: int)
      requires Valid() && entry.id !in published && entry !in Objects() && entry.healthy
      modifies this, entry
      ensures Valid()
      ensures View() == Shared(old(View()).entries[entry.id := Entry(entry.agentId, now, true, true)],
              old(View()).pool[entry.agentId := entry.id])
    {
      ghost var before := Entries();
      IdsUpdate(pool, entry.agentId, entry);
      hide Ids;
      entry.lastUsed, entry.inUse := now, true;
      pool := pool[entry.agentId := entry];
      published := published[entry.id := entry];
      assert Entries() == before[entry.id := Entry(entry.agentId, now, true, true)];
    }

    /** The second hold of the lock, with a freshly connected entry. */
    method InstallSection(entry: PoolEntry, now: int, deadline: int) returns (v: Verdict)
      requires Valid() && entry.id !in published && entry !in Objects() && entry.healthy
      modifies this, Objects(), entry
      ensures Valid()
      ensures Install(old(View()), entry.agentId, now, deadline, entry.id, View(), v)
    {
      var agent := entry.agentId;
      if agent in pool && pool[agent].healthy {
        var current := pool[agent];
        entry.healthy := false;
        if current.inUse {
          return WaitOrFail(now, deadline);
        }
        current.lastUsed, current.inUse := now, true;
        return Reserved(current.id);
      }
      if agent in pool {
        CloseEntry(pool[agent]);
      }
      Publish(entry, now);
      v := Reserved(entry.id);
    }

    /** The `finally` of the send. */
    method Release(entry: PoolEntry)
      requires Valid() && entry.id in published && published[entry.id] == entry
      modifies entry`inUse
      ensures Valid() && View() == Released(old(View()), entry.id)
    {
      entry.inUse := false;
    }

    method Touch(entry: PoolEntry, now: int)
      requires Valid() && entry.id in published && published[entry.id] == entry
      modifies entry`lastUsed
      ensures Valid() && View() == Touched(old(View()), entry.id, now)
    {
      entry.lastUsed := now;
    }

    /** The locked half of the idle cleanup: close everything unused for longer than the
        timeout, and return what is left for the health check. */
    method SweepIdle(now: int) returns (toPing: set<Agent>, ghost stale: set<Agent>)
      requires Valid()
      modifies this`pool, Objects()
      ensures Valid() && published == old(published)
      ensures stale == set a | a in old(pool) && now - old(pool[a].lastUsed) > idleTimeout
      ensures toPing == old(pool).Keys - stale
      ensures View() == Swept(old(View()), stale)
    {
      var toEvict := set a | a in pool && now - pool[a].lastUsed > idleTimeout;
      toPing := pool.Keys - toEvict;
      stale := toEvict;
      EvictAll(toEvict);
    }

    /** Evicts the agents one by one. */
    method EvictAll(agents: set<Agent>)
      requires Valid()
      modifies this`pool, Objects()
      ensures Valid() && published == old(published) && View() == Swept(old(View()), agents)
    {
      ghost var before := View();
      SweptNone(before);
      Keyed();
      hide Swept, Evicted, GatewayClient.Valid, GatewayClient.View;
      var todo := agents;
      assert agents - todo == {};
      while todo != {}
        invariant todo <= agents && Valid() && published == old(published)
        invariant View() == Swept(before, agents - todo)
        decreases todo
      {
        var a :| a in todo;
        SweptOne(before, agents - todo, a);
        Evict(a);
        assert agents - (todo - {a}) == (agents - todo) + {a};
        todo := todo - {a};
      }
      assert agents - todo == agents;
    }

    lemma Keyed()
      requires Valid()
      ensures forall b :: b in View().pool ==> View().entries[View().pool[b]].agent == b
    {
    }
  }

  lemma SweptNone(s: Shared)
    requires WellFormed(s)
    ensures Swept(s, {}) == s
  {
  }

  lemma SweptOne(s: Shared, gone: set<Agent>, a: Agent)
    requires WellFormed(s) && a !in gone
    requires WellFormed(Swept(s, gone))
    requires forall b :: b in s.pool ==> s.entries[s.pool[b]].agent == b
    ensures Evicted(Swept(s, gone), a) == Swept(s, gone + {a})
  {
  }
}
