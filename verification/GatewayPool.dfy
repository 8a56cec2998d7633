/** The gateway session pool as a protocol: callers, aborts, evictions and idle cleanup
    interleave, and one step is one hold of the pool lock (or one unlocked field write). */
module GatewayPool {
  type Agent = string

  /** Entries are identities: two entries with equal fields are still different sockets. */
  type EntryId = nat

  datatype Entry = Entry(agent: Agent, lastUsed: int, healthy: bool, inUse: bool)

  /** Every entry ever published, and the pool that maps an agent to its current one. */
  datatype Shared = Shared(entries: map<EntryId, Entry>, pool: map<Agent, EntryId>)

  ghost predicate WellFormed(s: Shared) {
    forall a :: a in s.pool ==> s.pool[a] in s.entries
  }

  // ---------------------------------------------------------------------------------------
  // What each hold of the lock does to the shared state.

  function Update(s: Shared, e: EntryId, entry: Entry): Shared {
    s.(entries := s.entries[e := entry])
  }

  function Closed(s: Shared, e: EntryId): Shared
    requires e in s.entries
  {
    Update(s, e, s.entries[e].(healthy := false))
  }

  /** `_evict`: pop and close whatever is under the key. */
  function Evicted(s: Shared, a: Agent): Shared
    requires WellFormed(s)
  {
    if a in s.pool then Closed(s, s.pool[a]).(pool := s.pool - {a}) else s
  }

  /** The idle sweep: pop and close every agent in `stale`. */
  function Swept(s: Shared, stale: set<Agent>): Shared
    requires WellFormed(s)
  {
    Shared(map e | e in s.entries ::
             if s.entries[e].agent in stale && s.entries[e].agent in s.pool && s.pool[s.entries[e].agent] == e
             then s.entries[e].(healthy := false) else s.entries[e],
           s.pool - stale)
  }

  predicate Usable(s: Shared, a: Agent)
    requires WellFormed(s)
  {
    a in s.pool && s.entries[s.pool[a]].healthy
  }

  predicate IdleIn(s: Shared, a: Agent)
    requires WellFormed(s)
  {
    a in s.pool && !s.entries[s.pool[a]].inUse
  }

  /** `victim` is an idle pool entry that was used no later than any other idle one. */
  ghost predicate OldestIdle(s: Shared, victim: Agent)
    requires WellFormed(s)
  {
    && IdleIn(s, victim)
    && forall a :: IdleIn(s, a) ==> s.entries[s.pool[victim]].lastUsed <= s.entries[s.pool[a]].lastUsed
  }

  ghost predicate AllBusy(s: Shared)
    requires WellFormed(s)
  {
    forall a :: a in s.pool ==> !IdleIn(s, a)
  }

  datatype Verdict = Reserved(entry: EntryId) | Connect | Wait | TimedOut

  function WaitOrFail(now: int, deadline: int): Verdict {
    if now >= deadline then TimedOut else Wait
  }

  /** The first critical section of `_get_or_create`. */
  ghost predicate Reserve(s: Shared, a: Agent, now: int, deadline: int, maxConnections: nat, s': Shared, v: Verdict)
    requires WellFormed(s)
  {
    if Usable(s, a) then
      var e := s.pool[a];
      if s.entries[e].inUse then s' == s && v == WaitOrFail(now, deadline)
      else s' == Update(s, e, s.entries[e].(inUse := true)) && v == Reserved(e)
    else if |s.pool| >= maxConnections then
      if AllBusy(s) then s' == s && v == WaitOrFail(now, deadline)
      else v == Connect && exists victim :: OldestIdle(s, victim) && s' == Evicted(s, victim)
    else s' == s && v == Connect
  }

  /** The second critical section: publish the new entry unless another one got there first. */
  ghost predicate Install(s: Shared, a: Agent, now: int, deadline: int, id: EntryId, s': Shared, v: Verdict)
    requires WellFormed(s) && id !in s.entries
  {
    if Usable(s, a) then
      var e := s.pool[a];
      if s.entries[e].inUse then s' == s && v == WaitOrFail(now, deadline)
      else s' == Update(s, e, s.entries[e].(lastUsed := now, inUse := true)) && v == Reserved(e)
    else
      var cleared := if a in s.pool then Closed(s, s.pool[a]) else s;
      && s' == Shared(cleared.entries[id := Entry(a, now, true, true)], s.pool[a := id])
      && v == Reserved(id)
  }

  function Released(s: Shared, e: EntryId): Shared
    requires e in s.entries
  {
    Update(s, e, s.entries[e].(inUse := false))
  }

  function Touched(s: Shared, e: EntryId, now: int): Shared
    requires e in s.entries
  {
    Update(s, e, s.entries[e].(lastUsed := now))
  }

  // ---------------------------------------------------------------------------------------
  // Callers and their steps.

  datatype Phase = Waiting(deadline: int) | Pinging(entry: EntryId) | Connecting(until: int) | Streaming(entry: EntryId)
          | Evicting

  /** A caller inside `send_message_streaming`. */
  datatype Caller = Caller(agent: Agent, phase: Phase)

  type CallerId = nat

  /** `peak` is the largest number of callers that were ever connecting at once. */
  datatype System = System(shared: Shared, callers: map<CallerId, Caller>, peak: nat)

  predicate Owns(c: Caller, e: EntryId) {
    (c.phase.Pinging? || c.phase.Streaming?) && c.phase.entry == e
  }

  function ConnectingSet(callers: map<CallerId, Caller>): set<CallerId> {
    set c | c in callers && callers[c].phase.Connecting?
  }

  datatype Step =
    | Arrive(c: CallerId, agent: Agent, deadline: int)
    | ReserveStep(c: CallerId, now: int)
    | PingOk(c: CallerId, now: int)
    | PingFailed(c: CallerId, deadline: int)
    | ConnectFailed(c: CallerId)
    | InstallStep(c: CallerId, now: int, id: EntryId)
    | Receive(c: CallerId, now: int)
    | TimeoutEvict(c: CallerId)
    | Finish(c: CallerId, retry: bool)
    | CleanUp(c: CallerId, again: bool, deadline: int)
    | Abort(agent: Agent)
    | HealthEvict(agent: Agent)
    | Sweep(stale: set<Agent>)
    | CloseAll

  function After(s: System, shared: Shared, c: CallerId, caller: Caller): System {
    var callers := s.callers[c := caller];
    System(shared, callers, if |ConnectingSet(callers)| > s.peak then |ConnectingSet(callers)| else s.peak)
  }

  function Leave(s: System, shared: Shared, c: CallerId): System {
    s.(shared := shared, callers := s.callers - {c})
  }

  /** Where a caller goes on after `_get_or_create` reached a verdict. */
  function Settle(s: System, shared: Shared, c: CallerId, deadline: int, v: Verdict, connected: bool): System
    requires c in s.callers
  {
    var me := s.callers[c];
    match v
    case Reserved(e) => After(s, shared, c, me.(phase := if connected then Streaming(e) else Pinging(e)))
    case Connect => After(s, shared, c, me.(phase := Connecting(deadline)))
    case Wait => After(s, shared, c, me.(phase := Waiting(deadline)))
    case TimedOut => Leave(s, shared, c)
  }

  ghost predicate Next(s: System, step: Step, s': System, maxConnections: nat)
    requires WellFormed(s.shared)
  {
    match step
    case Arrive(c, a, deadline) =>
      c !in s.callers && s' == After(s, s.shared, c, Caller(a, Waiting(deadline)))
    case ReserveStep(c, now) =>
      && c in s.callers && s.callers[c].phase.Waiting?
      && exists shared, v :: Reserve(s.shared, s.callers[c].agent, now, s.callers[c].phase.deadline, maxConnections,
           shared, v)
           && s' == Settle(s, shared, c, s.callers[c].phase.deadline, v, false)
    case PingOk(c, now) =>
      && c in s.callers && s.callers[c].phase.Pinging? && s.callers[c].phase.entry in s.shared.entries
      && var e := s.callers[c].phase.entry;
         s' == After(s, Touched(s.shared, e, now), c, s.callers[c].(phase := Streaming(e)))
    case PingFailed(c, deadline) =>
      && c in s.callers && s.callers[c].phase.Pinging?
      && s' == After(s, Evicted(s.shared, s.callers[c].agent), c, s.callers[c].(phase := Waiting(deadline)))
    case ConnectFailed(c) =>
      c in s.callers && s.callers[c].phase.Connecting? && s' == Leave(s, s.shared, c)
    case InstallStep(c, now, id) =>
      && c in s.callers && s.callers[c].phase.Connecting? && id !in s.shared.entries
      && exists shared, v :: Install(s.shared, s.callers[c].agent, now, s.callers[c].phase.until, id, shared, v)
           && s' == Settle(s, shared, c, s.callers[c].phase.until, v, true)
    case Receive(c, now) =>
      && c in s.callers && s.callers[c].phase.Streaming? && s.callers[c].phase.entry in s.shared.entries
      && s' == s.(shared := Touched(s.shared, s.callers[c].phase.entry, now))
    case TimeoutEvict(c) =>
      && c in s.callers && s.callers[c].phase.Streaming?
      && s' == s.(shared := Evicted(s.shared, s.callers[c].agent))
    case Finish(c, retry) =>
      && c in s.callers && s.callers[c].phase.Streaming? && s.callers[c].phase.entry in s.shared.entries
      && var shared := Released(s.shared, s.callers[c].phase.entry);
         s' == if retry then After(s, shared, c, s.callers[c].(phase := Evicting)) else Leave(s, shared, c)
    case CleanUp(c, again, deadline) =>
      && c in s.callers && s.callers[c].phase.Evicting?
      && var shared := Evicted(s.shared, s.callers[c].agent);
         s' == if again then After(s, shared, c, s.callers[c].(phase := Waiting(deadline))) else Leave(s, shared, c)
    case Abort(a) => s' == s.(shared := if Usable(s.shared, a) then Evicted(s.shared, a) else s.shared)
    case HealthEvict(a) => s' == s.(shared := Evicted(s.shared, a))
    case Sweep(stale) => s' == s.(shared := Swept(s.shared, stale))
    case CloseAll => s' == s.(shared := Swept(s.shared, s.shared.pool.Keys))
  }

  // ---------------------------------------------------------------------------------------
  // The invariant.

  /** Pool entries are healthy and under their own agent; all others are unhealthy. */
  ghost predicate PoolExact(s: Shared) {
    && WellFormed(s)
    && (forall a :: a in s.pool ==> s.entries[s.pool[a]].agent == a && s.entries[s.pool[a]].healthy)
    && (forall e :: e in s.entries && s.entries[e].healthy ==>
         s.entries[e].agent in s.pool && s.pool[s.entries[e].agent] == e)
  }

  /** Every owner holds a reserved entry of its own agent, and nobody shares one. */
  ghost predicate OwnersExact(s: Shared, callers: map<CallerId, Caller>) {
    && (forall c, e :: c in callers && Owns(callers[c], e) ==>
          e in s.entries && s.entries[e].inUse && s.entries[e].agent == callers[c].agent)
    && (forall c, d, e :: c in callers && d in callers && Owns(callers[c], e) && Owns(callers[d], e) ==> c == d)
  }

  /** No reservation leaks: a reserved pool entry has an owner. */
  ghost predicate ReservedHasOwner(s: Shared, callers: map<CallerId, Caller>) {
    forall a :: a in s.pool && s.pool[a] in s.entries && s.entries[s.pool[a]].inUse ==>
      exists c :: c in callers && Owns(callers[c], s.pool[a])
  }

  ghost predicate WithinCapacity(s: System, maxConnections: nat) {
    && |ConnectingSet(s.callers)| <= s.peak
    && |s.shared.pool| + |ConnectingSet(s.callers)| < maxConnections + s.peak
  }

  ghost predicate Inv(s: System) {
    && PoolExact(s.shared)
    && OwnersExact(s.shared, s.callers)
    && ReservedHasOwner(s.shared, s.callers)
  }

  ghost predicate Initial(s: System) {
    s.shared.pool == map[] && s.shared.entries == map[] && s.callers == map[] && s.peak == 0
  }
}
