/** What the session pool keeps over every run. */
module GatewayPoolSafety {
  import opened GatewayPool

  lemma EvictedExact(s: Shared, a: Agent)
    requires PoolExact(s)
    ensures PoolExact(Evicted(s, a))
  {
  }

  lemma EvictedSize(s: Shared, a: Agent)
    requires WellFormed(s)
    ensures |Evicted(s, a).pool| == |s.pool| - (if a in s.pool then 1 else 0)
  {
    if a in s.pool {
      assert s.pool.Keys == (s.pool - {a}).Keys + {a};
    }
  }

  lemma EvictedKeeps(s: Shared, a: Agent, callers: map<CallerId, Caller>)
    requires PoolExact(s) && OwnersExact(s, callers) && ReservedHasOwner(s, callers)
    ensures PoolExact(Evicted(s, a)) && OwnersExact(Evicted(s, a), callers) && ReservedHasOwner(Evicted(s, a), callers)
    ensures |Evicted(s, a).pool| == |s.pool| - (if a in s.pool then 1 else 0)
  {
    EvictedExact(s, a);
    assert WellFormed(s);
    hide PoolExact, OwnersExact, ReservedHasOwner;
    EvictedSize(s, a);
    FewerKeep(s, Evicted(s, a), callers);
  }

  /** Entries may be closed and leave the pool, whoever owns them. */
  lemma FewerKeep(s: Shared, s': Shared, callers: map<CallerId, Caller>)
    requires OwnersExact(s, callers) && ReservedHasOwner(s, callers)
    requires forall e :: e in s.entries ==> e in s'.entries
    requires forall e :: e in s.entries ==>
             s'.entries[e].inUse == s.entries[e].inUse && s'.entries[e].agent == s.entries[e].agent
    requires forall a :: a in s'.pool ==> a in s.pool && s'.pool[a] == s.pool[a] && s.pool[a] in s.entries
    ensures OwnersExact(s', callers) && ReservedHasOwner(s', callers)
  {
  }

  lemma SweptExact(s: Shared, stale: set<Agent>)
    requires PoolExact(s)
    ensures PoolExact(Swept(s, stale))
  {
  }

  lemma SweptKeeps(s: Shared, stale: set<Agent>, callers: map<CallerId, Caller>)
    requires PoolExact(s) && OwnersExact(s, callers) && ReservedHasOwner(s, callers)
    ensures PoolExact(Swept(s, stale)) && OwnersExact(Swept(s, stale), callers)
            && ReservedHasOwner(Swept(s, stale), callers)
    ensures |Swept(s, stale).pool| <= |s.pool|
  {
    SweptExact(s, stale);
    assert WellFormed(s);
    hide PoolExact, OwnersExact, ReservedHasOwner;
    FewerKeep(s, Swept(s, stale), callers);
    SubsetSize((s.pool - stale).Keys, s.pool.Keys);
  }

  lemma SubsetSize<T>(a: set<T>, b: set<T>)
    requires a <= b
    ensures |a| <= |b|
  {
    assert b == a + (b - a);
  }

  /** `c` comes to own the entry under its agent's key, which nobody owned. */
  lemma TakenKeeps(s: Shared, s': Shared, callers: map<CallerId, Caller>, c: CallerId, me: Caller, e: EntryId)
    requires PoolExact(s) && OwnersExact(s, callers) && ReservedHasOwner(s, callers)
    requires PoolExact(s') && Owns(me, e) && me.phase.entry == e
    requires c in callers ==> !callers[c].phase.Pinging? && !callers[c].phase.Streaming?
    requires me.agent in s'.pool && s'.pool[me.agent] == e && s'.entries[e].inUse
    requires e in s.entries ==> !s.entries[e].inUse
    requires forall i :: i in s.entries && i != e ==>
             i in s'.entries && s'.entries[i].inUse == s.entries[i].inUse && s'.entries[i].agent == s.entries[i].agent
    requires forall a :: a in s'.pool && a != me.agent ==> a in s.pool && s.pool[a] == s'.pool[a]
    ensures OwnersExact(s', callers[c := me]) && ReservedHasOwner(s', callers[c := me])
  {
    var callers' := callers[c := me];
    forall a | a in s'.pool && s'.pool[a] in s'.entries && s'.entries[s'.pool[a]].inUse
      ensures exists d :: d in callers' && Owns(callers'[d], s'.pool[a])
    {
      if a == me.agent {
        assert Owns(callers'[c], e);
      } else {
        assert s.entries[s.pool[a]].inUse;
        var d :| d in callers && Owns(callers[d], s.pool[a]);
        assert d != c;
        assert Owns(callers'[d], s'.pool[a]);
      }
    }
  }

  /** A caller that owns nothing changes to another phase in which it owns nothing, or leaves. */
  lemma BystanderKeeps(s: Shared, callers: map<CallerId, Caller>, callers': map<CallerId, Caller>, c: CallerId)
    requires OwnersExact(s, callers) && ReservedHasOwner(s, callers)
    requires callers' - {c} == callers - {c}
    requires c in callers ==> !callers[c].phase.Pinging? && !callers[c].phase.Streaming?
    requires c in callers' ==> !callers'[c].phase.Pinging? && !callers'[c].phase.Streaming?
    ensures OwnersExact(s, callers') && ReservedHasOwner(s, callers')
  {
    SameElsewhere(callers, callers', c);
    forall a | a in s.pool && s.pool[a] in s.entries && s.entries[s.pool[a]].inUse
      ensures exists d :: d in callers' && Owns(callers'[d], s.pool[a])
    {
      var d :| d in callers && Owns(callers[d], s.pool[a]);
      assert Owns(callers'[d], s.pool[a]);
    }
  }

  lemma SameElsewhere(callers: map<CallerId, Caller>, callers': map<CallerId, Caller>, c: CallerId)
    requires callers' - {c} == callers - {c}
    ensures forall d :: d != c ==> (d in callers <==> d in callers')
    ensures forall d :: d != c && d in callers ==> callers[d] == callers'[d]
  {
    forall d | d != c
      ensures d in callers <==> d in callers'
      ensures d in callers ==> callers[d] == callers'[d]
    {
      assert d in callers <==> d in callers - {c};
      assert d in callers' <==> d in callers' - {c};
      if d in callers {
        assert (callers - {c})[d] == (callers' - {c})[d];
      }
    }
  }

  /** An owner lets go of an entry that is no longer reserved in the pool. */
  lemma LetGoKeeps(s: Shared, s': Shared, callers: map<CallerId, Caller>, callers': map<CallerId, Caller>, c: CallerId,
          e: EntryId)
    requires PoolExact(s) && OwnersExact(s, callers) && ReservedHasOwner(s, callers)
    requires c in callers && Owns(callers[c], e)
    requires callers' - {c} == callers - {c}
    requires c in callers' ==> !callers'[c].phase.Pinging? && !callers'[c].phase.Streaming?
    requires PoolExact(s')
    requires forall i :: i in s.entries && i != e ==>
             i in s'.entries && s'.entries[i].inUse == s.entries[i].inUse && s'.entries[i].agent == s.entries[i].agent
    requires forall a :: a in s'.pool ==> a in s.pool && s.pool[a] == s'.pool[a]
    requires forall a :: a in s'.pool && s'.pool[a] == e ==> !s'.entries[e].inUse
    ensures OwnersExact(s', callers') && ReservedHasOwner(s', callers')
  {
    SameElsewhere(callers, callers', c);
    forall a | a in s'.pool && s'.pool[a] in s'.entries && s'.entries[s'.pool[a]].inUse
      ensures exists d :: d in callers' && Owns(callers'[d], s'.pool[a])
    {
      assert s.entries[s.pool[a]].inUse;
      var d :| d in callers && Owns(callers[d], s.pool[a]);
      assert Owns(callers'[d], s'.pool[a]);
    }
  }

  lemma ConnectingAfter(callers: map<CallerId, Caller>, c: CallerId, me: Caller)
    ensures ConnectingSet(callers[c := me]) == if me.phase.Connecting? then ConnectingSet(callers) + {c}
            else ConnectingSet(callers) - {c}
    ensures ConnectingSet(callers - {c}) == ConnectingSet(callers) - {c}
  {
  }

  lemma UpdateKeeps(s: Shared, e: EntryId, entry: Entry, callers: map<CallerId, Caller>)
    requires PoolExact(s) && e in s.entries
    requires entry.agent == s.entries[e].agent && entry.healthy == s.entries[e].healthy
    ensures PoolExact(Update(s, e, entry))
    ensures entry.inUse == s.entries[e].inUse && OwnersExact(s, callers) ==> OwnersExact(Update(s, e, entry), callers)
    ensures entry.inUse == s.entries[e].inUse && ReservedHasOwner(s, callers) ==>
            ReservedHasOwner(Update(s, e, entry), callers)
  {
  }

  lemma WithoutSame(callers: map<CallerId, Caller>, c: CallerId, me: Caller)
    ensures callers[c := me] - {c} == callers - {c}
    ensures callers - {c} - {c} == callers - {c}
  {
  }

  /** A caller that owns nothing gets a verdict other than a session. */
  lemma SettleKeeps(s: System, shared: Shared, c: CallerId, deadline: int, v: Verdict, connected: bool)
    requires c in s.callers && !s.callers[c].phase.Pinging? && !s.callers[c].phase.Streaming?
    requires PoolExact(shared) && OwnersExact(shared, s.callers) && ReservedHasOwner(shared, s.callers)
    requires !v.Reserved?
    ensures Inv(Settle(s, shared, c, deadline, v, connected))
  {
    hide PoolExact, OwnersExact, ReservedHasOwner;
    var s' := Settle(s, shared, c, deadline, v, connected);
    if c in s'.callers {
      WithoutSame(s.callers, c, s'.callers[c]);
    } else {
      WithoutSame(s.callers, c, s.callers[c]);
    }
    BystanderKeeps(shared, s.callers, s'.callers, c);
  }

  /** Making room for a connection, or waiting for it. */
  lemma RoomKeeps(s: Shared, a: Agent, now: int, deadline: int, maxConnections: nat, s': Shared, v: Verdict,
          callers: map<CallerId, Caller>)
    requires PoolExact(s) && OwnersExact(s, callers) && ReservedHasOwner(s, callers)
    requires Reserve(s, a, now, deadline, maxConnections, s', v) && !v.Reserved?
    ensures PoolExact(s') && OwnersExact(s', callers) && ReservedHasOwner(s', callers)
    ensures |s'.pool| <= |s.pool|
    ensures v.Connect? ==> |s'.pool| < |s.pool| || |s'.pool| < maxConnections
  {
    if s' != s {
      var victim :| OldestIdle(s, victim) && s' == Evicted(s, victim);
      hide OldestIdle, PoolExact, OwnersExact, ReservedHasOwner, Evicted;
      EvictedKeeps(s, victim, callers);
    }
  }

  lemma ReserveInv(s: System, shared: Shared, c: CallerId, now: int, maxConnections: nat, v: Verdict)
    requires Inv(s) && c in s.callers && s.callers[c].phase.Waiting?
    requires Reserve(s.shared, s.callers[c].agent, now, s.callers[c].phase.deadline, maxConnections, shared, v)
    ensures Inv(Settle(s, shared, c, s.callers[c].phase.deadline, v, false))
    ensures |shared.pool| <= |s.shared.pool|
    ensures v.Connect? ==> |shared.pool| < |s.shared.pool| || |shared.pool| < maxConnections
  {
    var me := s.callers[c];
    if v.Reserved? {
      var e := v.entry;
      UpdateKeeps(s.shared, e, s.shared.entries[e].(inUse := true), s.callers);
      hide PoolExact, OwnersExact, ReservedHasOwner;
      TakenKeeps(s.shared, shared, s.callers, c, me.(phase := Pinging(e)), e);
    } else {
      RoomKeeps(s.shared, me.agent, now, me.phase.deadline, maxConnections, shared, v, s.callers);
      hide Reserve, PoolExact, OwnersExact, ReservedHasOwner;
      SettleKeeps(s, shared, c, me.phase.deadline, v, false);
    }
  }

  lemma ReserveVerdict(s: System, s': System, c: CallerId, now: int, maxConnections: nat)
    returns (shared: Shared, v: Verdict)
    requires WellFormed(s.shared) && Next(s, ReserveStep(c, now), s', maxConnections)
    ensures c in s.callers && s.callers[c].phase.Waiting?
    ensures Reserve(s.shared, s.callers[c].agent, now, s.callers[c].phase.deadline, maxConnections, shared, v)
    ensures s' == Settle(s, shared, c, s.callers[c].phase.deadline, v, false)
  {
    var me := s.callers[c];
    shared, v :| Reserve(s.shared, me.agent, now, me.phase.deadline, maxConnections, shared, v)
      && s' == Settle(s, shared, c, me.phase.deadline, v, false);
  }

  lemma ReserveCapacity(s: System, shared: Shared, c: CallerId, deadline: int, v: Verdict, maxConnections: nat)
    requires c in s.callers && !s.callers[c].phase.Connecting?
    requires maxConnections > 0 && WithinCapacity(s, maxConnections)
    requires |shared.pool| <= |s.shared.pool|
    requires v.Connect? ==> |shared.pool| < |s.shared.pool| || |shared.pool| < maxConnections
    ensures WithinCapacity(Settle(s, shared, c, deadline, v, false), maxConnections)
  {
    hide ConnectingSet;
    var s' := Settle(s, shared, c, deadline, v, false);
    ConnectingAfter(s.callers, c, if c in s'.callers then s'.callers[c] else s.callers[c]);
    NotConnecting(s.callers, c);
  }

  lemma NotConnecting(callers: map<CallerId, Caller>, c: CallerId)
    requires c in callers && !callers[c].phase.Connecting?
    ensures c !in ConnectingSet(callers)
  {
  }

  lemma ReserveKeeps(s: System, s': System, c: CallerId, now: int, maxConnections: nat)
    requires Inv(s) && Next(s, ReserveStep(c, now), s', maxConnections)
    ensures Inv(s')
    ensures maxConnections > 0 && WithinCapacity(s, maxConnections) ==> WithinCapacity(s', maxConnections)
  {
    assert WellFormed(s.shared);
    hide Next, Reserve, PoolExact, OwnersExact, ReservedHasOwner, ConnectingSet, WithinCapacity, Settle;
    var shared, v := ReserveVerdict(s, s', c, now, maxConnections);
    ReserveInv(s, shared, c, now, maxConnections, v);
    if maxConnections > 0 && WithinCapacity(s, maxConnections) {
      ReserveCapacity(s, shared, c, s.callers[c].phase.deadline, v, maxConnections);
    }
  }

  lemma PublishExact(s: Shared, a: Agent, now: int, deadline: int, id: EntryId, s': Shared, v: Verdict)
    requires PoolExact(s) && id !in s.entries && a !in s.pool
    requires Install(s, a, now, deadline, id, s', v)
    ensures PoolExact(s') && v == Reserved(id) && |s'.pool| == |s.pool| + 1
    ensures s' == Shared(s.entries[id := Entry(a, now, true, true)], s.pool[a := id])
  {
    assert s'.pool.Keys == s.pool.Keys + {a};
  }

  lemma ReuseExact(s: Shared, a: Agent, now: int, deadline: int, id: EntryId, s': Shared, v: Verdict)
    requires PoolExact(s) && id !in s.entries && a in s.pool
    requires Install(s, a, now, deadline, id, s', v)
    ensures PoolExact(s') && s'.pool == s.pool
    ensures v.Reserved? ==> v.entry == s.pool[a] && !s.entries[v.entry].inUse
    ensures v.Reserved? ==> s' == Update(s, v.entry, s.entries[v.entry].(lastUsed := now, inUse := true))
    ensures !v.Connect? && (!v.Reserved? ==> s' == s)
  {
  }

  lemma InstallInv(s: System, shared: Shared, c: CallerId, now: int, id: EntryId, v: Verdict)
    requires Inv(s) && c in s.callers && s.callers[c].phase.Connecting? && id !in s.shared.entries
    requires Install(s.shared, s.callers[c].agent, now, s.callers[c].phase.until, id, shared, v)
    ensures Inv(Settle(s, shared, c, s.callers[c].phase.until, v, true))
    ensures v.Reserved? ==> |shared.pool| <= |s.shared.pool| + 1
    ensures !v.Connect? && (!v.Reserved? ==> shared == s.shared)
  {
    var me := s.callers[c];
    if me.agent in s.shared.pool {
      ReuseExact(s.shared, me.agent, now, me.phase.until, id, shared, v);
    } else {
      PublishExact(s.shared, me.agent, now, me.phase.until, id, shared, v);
    }
    hide Install, PoolExact, OwnersExact, ReservedHasOwner;
    if v.Reserved? {
      TakenKeeps(s.shared, shared, s.callers, c, me.(phase := Streaming(v.entry)), v.entry);
    } else {
      SettleKeeps(s, shared, c, me.phase.until, v, true);
    }
  }

  lemma InstallKeeps(s: System, s': System, c: CallerId, now: int, id: EntryId, maxConnections: nat)
    requires Inv(s) && Next(s, InstallStep(c, now, id), s', maxConnections)
    ensures Inv(s')
    ensures WithinCapacity(s, maxConnections) ==> WithinCapacity(s', maxConnections)
  {
    assert WellFormed(s.shared);
    hide Install, PoolExact, OwnersExact, ReservedHasOwner;
    var me := s.callers[c];
    var deadline := me.phase.until;
    var shared, v :| Install(s.shared, me.agent, now, deadline, id, shared, v)
      && s' == Settle(s, shared, c, deadline, v, true);
    InstallInv(s, shared, c, now, id, v);
    ConnectingAfter(s.callers, c, if c in s'.callers then s'.callers[c] else me);
  }

  /** An owner stays the owner of the same entry. */
  lemma OwnerStays(s: Shared, callers: map<CallerId, Caller>, c: CallerId, me: Caller)
    requires OwnersExact(s, callers) && ReservedHasOwner(s, callers)
    requires c in callers && me.agent == callers[c].agent && forall e :: Owns(me, e) <==> Owns(callers[c], e)
    ensures OwnersExact(s, callers[c := me]) && ReservedHasOwner(s, callers[c := me])
  {
    var callers' := callers[c := me];
    forall a | a in s.pool && s.pool[a] in s.entries && s.entries[s.pool[a]].inUse
      ensures exists d :: d in callers' && Owns(callers'[d], s.pool[a])
    {
      var d :| d in callers && Owns(callers[d], s.pool[a]);
      assert Owns(callers'[d], s.pool[a]);
    }
  }

  lemma PingOkKeeps(s: System, s': System, c: CallerId, now: int, maxConnections: nat)
    requires Inv(s) && Next(s, PingOk(c, now), s', maxConnections)
    ensures Inv(s')
    ensures WithinCapacity(s, maxConnections) ==> WithinCapacity(s', maxConnections)
  {
    hide PoolExact, OwnersExact, ReservedHasOwner;
    var e := s.callers[c].phase.entry;
    var me := s.callers[c].(phase := Streaming(e));
    UpdateKeeps(s.shared, e, s.shared.entries[e].(lastUsed := now), s.callers);
    OwnerStays(s'.shared, s.callers, c, me);
    ConnectingAfter(s.callers, c, me);
  }

  lemma PingFailedKeeps(s: System, s': System, c: CallerId, deadline: int, maxConnections: nat)
    requires Inv(s) && Next(s, PingFailed(c, deadline), s', maxConnections)
    ensures Inv(s')
    ensures WithinCapacity(s, maxConnections) ==> WithinCapacity(s', maxConnections)
  {
    var me := s.callers[c];
    assert Owns(me, me.phase.entry) && WellFormed(s.shared);
    EvictedFrees(s.shared, me.agent, me.phase.entry, s.callers, c);
    hide PoolExact, OwnersExact, ReservedHasOwner, Evicted;
    WithoutSame(s.callers, c, s'.callers[c]);
    EvictedKeeps(s.shared, me.agent, s.callers);
    LetGoKeeps(s.shared, s'.shared, s.callers, s'.callers, c, me.phase.entry);
    ConnectingAfter(s.callers, c, s'.callers[c]);
  }

  /** Evicting its agent takes the entry of an owner out of the pool and touches no other. */
  lemma EvictedFrees(s: Shared, a: Agent, e: EntryId, callers: map<CallerId, Caller>, c: CallerId)
    requires PoolExact(s) && OwnersExact(s, callers) && c in callers && Owns(callers[c], e) && callers[c].agent == a
    ensures forall i :: i in s.entries ==> i in Evicted(s, a).entries
    ensures forall i :: i in s.entries ==>
            Evicted(s, a).entries[i].inUse == s.entries[i].inUse && Evicted(s, a).entries[i].agent == s.entries[i].agent
    ensures forall b :: b in Evicted(s, a).pool ==> b in s.pool && s.pool[b] == Evicted(s, a).pool[b] != e
  {
  }

  lemma FinishKeeps(s: System, s': System, c: CallerId, retry: bool, maxConnections: nat)
    requires Inv(s) && Next(s, Finish(c, retry), s', maxConnections)
    ensures Inv(s')
    ensures WithinCapacity(s, maxConnections) ==> WithinCapacity(s', maxConnections)
  {
    var me := s.callers[c];
    var e := me.phase.entry;
    assert Owns(me, e);
    WithoutSame(s.callers, c, me.(phase := Evicting));
    hide PoolExact, OwnersExact, ReservedHasOwner;
    ConnectingAfter(s.callers, c, me.(phase := Evicting));
    UpdateKeeps(s.shared, e, s.shared.entries[e].(inUse := false), s.callers);
    LetGoKeeps(s.shared, s'.shared, s.callers, s'.callers, c, e);
  }

  lemma CleanUpKeeps(s: System, s': System, c: CallerId, again: bool, deadline: int, maxConnections: nat)
    requires Inv(s) && Next(s, CleanUp(c, again, deadline), s', maxConnections)
    ensures Inv(s')
    ensures WithinCapacity(s, maxConnections) ==> WithinCapacity(s', maxConnections)
  {
    assert WellFormed(s.shared);
    hide PoolExact, OwnersExact, ReservedHasOwner, Evicted;
    EvictedKeeps(s.shared, s.callers[c].agent, s.callers);
    SettleKeeps(s, Evicted(s.shared, s.callers[c].agent), c, deadline, if again then Wait else TimedOut, false);
    ConnectingAfter(s.callers, c, s.callers[c].(phase := Waiting(deadline)));
  }

  /** The steps that belong to no caller. */
  predicate Background(step: Step) {
    step.Abort? || step.HealthEvict? || step.Sweep? || step.CloseAll?
  }

  lemma BackgroundShared(s: System, step: Step, s': System, maxConnections: nat)
    requires WellFormed(s.shared) && Next(s, step, s', maxConnections) && Background(step)
    ensures s' == s.(shared := s'.shared)
    ensures step.Abort? || step.HealthEvict? ==> s'.shared == s.shared || s'.shared == Evicted(s.shared, step.agent)
    ensures step.Sweep? ==> s'.shared == Swept(s.shared, step.stale)
    ensures step.CloseAll? ==> s'.shared == Swept(s.shared, s.shared.pool.Keys)
  {
    hide Evicted, Swept;
  }

  lemma BackgroundKeeps(s: System, step: Step, s': System, maxConnections: nat)
    requires Inv(s) && Next(s, step, s', maxConnections) && Background(step)
    ensures Inv(s') && |s'.shared.pool| <= |s.shared.pool|
    ensures WithinCapacity(s, maxConnections) ==> WithinCapacity(s', maxConnections)
  {
    assert WellFormed(s.shared);
    hide PoolExact, OwnersExact, ReservedHasOwner, ConnectingSet, Evicted, Swept, Next;
    BackgroundShared(s, step, s', maxConnections);
    if step.Sweep? {
      SweptKeeps(s.shared, step.stale, s.callers);
    } else if step.CloseAll? {
      SweptKeeps(s.shared, s.shared.pool.Keys, s.callers);
    } else {
      EvictedKeeps(s.shared, step.agent, s.callers);
    }
  }

  lemma ArriveKeeps(s: System, c: CallerId, a: Agent, deadline: int, s': System, maxConnections: nat)
    requires Inv(s) && Next(s, Arrive(c, a, deadline), s', maxConnections)
    ensures Inv(s')
    ensures WithinCapacity(s, maxConnections) ==> WithinCapacity(s', maxConnections)
  {
    hide PoolExact, OwnersExact, ReservedHasOwner;
    WithoutSame(s.callers, c, Caller(a, Waiting(deadline)));
    ConnectingAfter(s.callers, c, Caller(a, Waiting(deadline)));
    BystanderKeeps(s.shared, s.callers, s'.callers, c);
  }

  lemma ConnectFailedKeeps(s: System, c: CallerId, s': System, maxConnections: nat)
    requires Inv(s) && Next(s, ConnectFailed(c), s', maxConnections)
    ensures Inv(s')
    ensures WithinCapacity(s, maxConnections) ==> WithinCapacity(s', maxConnections)
  {
    hide PoolExact, OwnersExact, ReservedHasOwner;
    WithoutSame(s.callers, c, s.callers[c]);
    ConnectingAfter(s.callers, c, s.callers[c]);
    BystanderKeeps(s.shared, s.callers, s'.callers, c);
  }

  lemma StreamingKeeps(s: System, step: Step, s': System, maxConnections: nat)
    requires Inv(s) && Next(s, step, s', maxConnections) && (step.Receive? || step.TimeoutEvict?)
    ensures Inv(s')
    ensures WithinCapacity(s, maxConnections) ==> WithinCapacity(s', maxConnections)
  {
    assert WellFormed(s.shared);
    hide PoolExact, OwnersExact, ReservedHasOwner, Evicted;
    if step.Receive? {
      var e := s.callers[step.c].phase.entry;
      UpdateKeeps(s.shared, e, s.shared.entries[e].(lastUsed := step.now), s.callers);
    } else {
      EvictedKeeps(s.shared, s.callers[step.c].agent, s.callers);
    }
  }

  /** Every step keeps the invariant and the capacity bound. */
  lemma NextKeeps(s: System, step: Step, s': System, maxConnections: nat)
    requires Inv(s) && Next(s, step, s', maxConnections)
    ensures Inv(s')
    ensures maxConnections > 0 && WithinCapacity(s, maxConnections) ==> WithinCapacity(s', maxConnections)
  {
    assert WellFormed(s.shared);
    hide Next, PoolExact, OwnersExact, ReservedHasOwner, WithinCapacity;
    match step
    case Arrive(c, a, deadline) => ArriveKeeps(s, c, a, deadline, s', maxConnections);
    case ReserveStep(c, now) => ReserveKeeps(s, s', c, now, maxConnections);
    case PingOk(c, now) => PingOkKeeps(s, s', c, now, maxConnections);
    case PingFailed(c, deadline) => PingFailedKeeps(s, s', c, deadline, maxConnections);
    case ConnectFailed(c) => ConnectFailedKeeps(s, c, s', maxConnections);
    case InstallStep(c, now, id) => InstallKeeps(s, s', c, now, id, maxConnections);
    case Receive(_, _) => StreamingKeeps(s, step, s', maxConnections);
    case TimeoutEvict(_) => StreamingKeeps(s, step, s', maxConnections);
    case Finish(c, retry) => FinishKeeps(s, s', c, retry, maxConnections);
    case CleanUp(c, again, deadline) => CleanUpKeeps(s, s', c, again, deadline, maxConnections);
    case _ => BackgroundKeeps(s, step, s', maxConnections);
  }

  /** A run of the pool: any interleaving of the steps, from the empty pool. */
  ghost predicate Run(states: seq<System>, steps: seq<Step>, maxConnections: nat) {
    && |states| == |steps| + 1
    && Initial(states[0])
    && forall k :: 0 <= k < |steps| ==>
         WellFormed(states[k].shared) && Next(states[k], steps[k], states[k + 1], maxConnections)
  }

  lemma EmptyInv(s: System)
    requires Initial(s)
    ensures Inv(s)
  {
  }

  lemma {:induction false} RunKeeps(states: seq<System>, steps: seq<Step>, maxConnections: nat, n: nat)
    requires Run(states, steps, maxConnections) && n < |states|
    ensures Inv(states[n])
    ensures maxConnections > 0 ==> WithinCapacity(states[n], maxConnections)
  {
    hide Next, PoolExact, OwnersExact, ReservedHasOwner;
    if n == 0 {
      EmptyInv(states[0]);
      assert ConnectingSet(map[]) == {};
    } else {
      RunKeeps(states, steps, maxConnections, n - 1);
      NextKeeps(states[n - 1], steps[n - 1], states[n], maxConnections);
    }
  }

  // ---------------------------------------------------------------------------------------
  // What the invariant means.

  ghost predicate HealthySessionOf(s: System, a: Agent, e: EntryId) {
    e in s.shared.entries && s.shared.entries[e].agent == a && s.shared.entries[e].healthy
  }

  /** In every reachable state: no two callers share a socket, an agent has at most one
      healthy session, a closed session never comes back into the pool, and a pool entry is
      reserved exactly when one caller owns it. */
  lemma {:induction false} NoSharedSession(states: seq<System>, steps: seq<Step>, maxConnections: nat, n: nat)
    requires Run(states, steps, maxConnections) && n < |states|
    ensures var s := states[n];
            && (forall c, d, e :: c in s.callers && d in s.callers && Owns(s.callers[c], e) && Owns(s.callers[d], e) ==>
                 c == d)
            && (forall a, e, f :: HealthySessionOf(s, a, e) && HealthySessionOf(s, a, f) ==> e == f)
            && (forall a :: a in s.shared.pool ==> HealthySessionOf(s, a, s.shared.pool[a]))
            && (forall a :: a in s.shared.pool ==>
                  (s.shared.entries[s.shared.pool[a]].inUse <==>
                    exists c :: c in s.callers && Owns(s.callers[c], s.shared.pool[a])))
  {
    RunKeeps(states, steps, maxConnections, n);
  }

  /** The pool and the connections being made exceed the limit by less than the largest number
      of callers that ever connected at once; with one at a time the limit is never exceeded. */
  lemma {:induction false} CapacityBound(states: seq<System>, steps: seq<Step>, maxConnections: nat, n: nat)
    requires Run(states, steps, maxConnections) && n < |states| && maxConnections > 0
    ensures var s := states[n];
            && |s.shared.pool| + |ConnectingSet(s.callers)| <= maxConnections - 1 + s.peak
            && (s.peak <= 1 ==> |s.shared.pool| + |ConnectingSet(s.callers)| <= maxConnections)
  {
    RunKeeps(states, steps, maxConnections, n);
  }

  ghost predicate PeakWithin(states: seq<System>, bound: nat) {
    forall k :: 0 <= k < |states| ==> |ConnectingSet(states[k].callers)| <= bound
  }

  /** `peak` is really the maximum: it is never above a bound that every state respects. */
  lemma {:induction false} PeakIsMaximum(states: seq<System>, steps: seq<Step>, maxConnections: nat, n: nat, bound: nat)
    requires Run(states, steps, maxConnections) && n < |states| && PeakWithin(states, bound)
    ensures states[n].peak <= bound
  {
    if n > 0 {
      PeakIsMaximum(states, steps, maxConnections, n - 1, bound);
      PeakStep(states[n - 1], steps[n - 1], states[n], maxConnections);
    }
  }

  lemma PeakStep(s: System, step: Step, s': System, maxConnections: nat)
    requires WellFormed(s.shared) && Next(s, step, s', maxConnections)
    ensures s'.peak == s.peak || s'.peak == |ConnectingSet(s'.callers)|
  {
  }

  lemma ReserveSparesBusy(s: Shared, a: Agent, now: int, deadline: int, maxConnections: nat, s': Shared, v: Verdict,
          e: EntryId)
    requires PoolExact(s) && Reserve(s, a, now, deadline, maxConnections, s', v)
    requires e in s.entries && s.entries[e].inUse && s.entries[e].healthy
    ensures e in s'.entries && s'.entries[e].healthy
  {
  }

  /** Making room never takes a session away from a caller. */
  lemma {:induction false} CapacityEvictionSparesOwners(s: System, c: CallerId, now: int, s': System,
          maxConnections: nat, d: CallerId, e: EntryId)
    requires Inv(s) && Next(s, ReserveStep(c, now), s', maxConnections)
    requires d in s.callers && Owns(s.callers[d], e) && s.shared.entries[e].healthy
    ensures e in s'.shared.entries && s'.shared.entries[e].healthy
  {
    assert s.shared.entries[e].inUse && WellFormed(s.shared);
    hide Next, ReservedHasOwner, OwnersExact, PoolExact, Reserve;
    var shared, v := ReserveVerdict(s, s', c, now, maxConnections);
    ReserveSparesBusy(s.shared, s.callers[c].agent, now, s.callers[c].phase.deadline, maxConnections, shared, v, e);
  }

  /** The callers that own a session. */
  function Owners(callers: map<CallerId, Caller>): set<CallerId> {
    set c | c in callers && (callers[c].phase.Pinging? || callers[c].phase.Streaming?)
  }

  function OwnersFor(callers: map<CallerId, Caller>, keys: set<Agent>): set<CallerId> {
    set c | c in Owners(callers) && callers[c].agent in keys
  }

  lemma BusyOwner(s: Shared, callers: map<CallerId, Caller>, a: Agent)
    requires PoolExact(s) && OwnersExact(s, callers) && ReservedHasOwner(s, callers) && AllBusy(s)
    requires a in s.pool
    ensures exists c :: c in callers && Owns(callers[c], s.pool[a]) && callers[c].agent == a
  {
    assert !IdleIn(s, a);
  }

  lemma {:induction false} OwnersCover(s: Shared, callers: map<CallerId, Caller>, keys: set<Agent>)
    requires PoolExact(s) && OwnersExact(s, callers) && ReservedHasOwner(s, callers) && AllBusy(s)
    requires keys <= s.pool.Keys
    ensures |OwnersFor(callers, keys)| >= |keys|
    decreases keys
  {
    hide PoolExact, AllBusy;
    if keys != {} {
      var a :| a in keys;
      var rest := keys - {a};
      OwnersCover(s, callers, rest);
      BusyOwner(s, callers, a);
      var c :| c in callers && Owns(callers[c], s.pool[a]) && callers[c].agent == a;
      var small, big := OwnersFor(callers, rest), OwnersFor(callers, keys);
      assert c !in small && c in big;
      assert small + {c} <= big;
      SubsetSize(small + {c}, big);
    }
  }

  lemma BusyWhenHeldUp(s: Shared, a: Agent, now: int, deadline: int, maxConnections: nat, s': Shared, v: Verdict)
    requires PoolExact(s) && a !in s.pool && Reserve(s, a, now, deadline, maxConnections, s', v)
    ensures v.Wait? || v.TimedOut? ==> AllBusy(s) && |s.pool| >= maxConnections
    ensures v.Connect? || v.Wait? || v.TimedOut?
  {
  }

  lemma {:induction false} OwnersFill(s: System)
    requires Inv(s) && AllBusy(s.shared)
    ensures |Owners(s.callers)| >= |s.shared.pool|
  {
    OwnersCover(s.shared, s.callers, s.shared.pool.Keys);
    SubsetSize(OwnersFor(s.callers, s.shared.pool.Keys), Owners(s.callers));
    assert |s.shared.pool.Keys| == |s.shared.pool|;
  }

  /** A caller that has no session of its own agent to wait for is held up only while at
      least `maxConnections` callers own sessions. */
  lemma {:induction false} WaitsOnlyWhenFull(s: System, c: CallerId, now: int, s': System, maxConnections: nat)
    requires Inv(s) && Next(s, ReserveStep(c, now), s', maxConnections)
    requires s.callers[c].agent !in s.shared.pool
    requires c !in s'.callers || s'.callers[c].phase.Waiting?
    ensures |Owners(s.callers)| >= maxConnections
  {
    var me := s.callers[c];
    var shared, v := ReserveVerdict(s, s', c, now, maxConnections);
    BusyWhenHeldUp(s.shared, me.agent, now, me.phase.deadline, maxConnections, shared, v);
    if !v.Connect? {
      OwnersFill(s);
    }
  }
}
