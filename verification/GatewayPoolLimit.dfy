/** How far the session pool goes over its limit, and when. */
module GatewayPoolLimit {
  import opened GatewayPool
  import opened GatewayPoolSafety

  // ---------------------------------------------------------------------------------------
  // Exactly when.

  /** A connection made by a caller is published although the pool is full already. */
  ghost predicate Overfills(s: System, step: Step, maxConnections: nat) {
    && step.InstallStep? && step.c in s.callers
    && s.callers[step.c].agent !in s.shared.pool && |s.shared.pool| >= maxConnections
  }

  /** Only the publication of a new connection makes the pool larger, by one. */
  lemma GrowsByPublishing(s: System, step: Step, s': System, maxConnections: nat)
    requires Inv(s) && Next(s, step, s', maxConnections)
    ensures step.InstallStep? && step.c in s.callers && s.callers[step.c].agent !in s.shared.pool ==>
            |s'.shared.pool| == |s.shared.pool| + 1
    ensures !(step.InstallStep? && step.c in s.callers && s.callers[step.c].agent !in s.shared.pool) ==>
            |s'.shared.pool| <= |s.shared.pool|
  {
    assert WellFormed(s.shared);
    if Background(step) {
      hide Next, PoolExact, OwnersExact, ReservedHasOwner;
      BackgroundKeeps(s, step, s', maxConnections);
    } else if step.InstallStep? {
      InstallSize(s, step.c, step.now, step.id, s', maxConnections);
    } else if step.ReserveStep? {
      hide Next, PoolExact, OwnersExact, ReservedHasOwner;
      var shared, v := ReserveVerdict(s, s', step.c, step.now, maxConnections);
      ReserveInv(s, shared, step.c, step.now, maxConnections, v);
    } else {
      CallerSize(s, step, s', maxConnections);
    }
  }

  lemma InstallSize(s: System, c: CallerId, now: int, id: EntryId, s': System, maxConnections: nat)
    requires Inv(s) && Next(s, InstallStep(c, now, id), s', maxConnections)
    ensures |s'.shared.pool| == if s.callers[c].agent in s.shared.pool then |s.shared.pool| else |s.shared.pool| + 1
  {
    assert WellFormed(s.shared);
    hide Install, PoolExact, OwnersExact, ReservedHasOwner;
    var me := s.callers[c];
    var shared, v :| Install(s.shared, me.agent, now, me.phase.until, id, shared, v)
      && s' == Settle(s, shared, c, me.phase.until, v, true);
    if me.agent in s.shared.pool {
      ReuseExact(s.shared, me.agent, now, me.phase.until, id, shared, v);
    } else {
      PublishExact(s.shared, me.agent, now, me.phase.until, id, shared, v);
    }
  }

  /** The other steps of a caller evict, or leave the pool alone. */
  lemma CallerSize(s: System, step: Step, s': System, maxConnections: nat)
    requires WellFormed(s.shared) && Next(s, step, s', maxConnections)
    requires !Background(step) && !step.InstallStep? && !step.ReserveStep?
    ensures |s'.shared.pool| <= |s.shared.pool|
  {
    hide Evicted;
    if step.c in s.callers {
      EvictedSize(s.shared, s.callers[step.c].agent);
    }
  }

  /** The pool exceeds its limit at some time of a run if and only if at some time a connection
      is published although the pool is full. */
  lemma {:induction false} ExceedsIff(states: seq<System>, steps: seq<Step>, maxConnections: nat)
    requires Run(states, steps, maxConnections)
    ensures (exists n :: 0 <= n < |states| && |states[n].shared.pool| > maxConnections) <==>
            (exists k :: 0 <= k < |steps| && Overfills(states[k], steps[k], maxConnections))
  {
    hide Next, Inv;
    if n :| 0 <= n < |states| && |states[n].shared.pool| > maxConnections {
      Overfilled(states, steps, maxConnections, n);
    }
    if k :| 0 <= k < |steps| && Overfills(states[k], steps[k], maxConnections) {
      RunKeeps(states, steps, maxConnections, k);
      GrowsByPublishing(states[k], steps[k], states[k + 1], maxConnections);
    }
  }

  lemma {:induction false} Overfilled(states: seq<System>, steps: seq<Step>, maxConnections: nat, n: nat)
    requires Run(states, steps, maxConnections) && n < |states| && |states[n].shared.pool| > maxConnections
    ensures exists k :: 0 <= k < n && Overfills(states[k], steps[k], maxConnections)
  {
    hide Next, Inv;
    if n > 0 {
      if |states[n - 1].shared.pool| > maxConnections {
        Overfilled(states, steps, maxConnections, n - 1);
      } else {
        RunKeeps(states, steps, maxConnections, n - 1);
        GrowsByPublishing(states[n - 1], steps[n - 1], states[n], maxConnections);
        assert Overfills(states[n - 1], steps[n - 1], maxConnections);
      }
    }
  }

  // ---------------------------------------------------------------------------------------
  // How far: the bound is attained.

  function Name(i: nat): Agent {
    seq(i, _ => 'a')
  }

  function Pool(n: nat): map<Agent, EntryId> {
    if n == 0 then map[] else Pool(n - 1)[Name(n - 1) := n - 1]
  }

  function Entries(n: nat): map<EntryId, Entry> {
    if n == 0 then map[] else Entries(n - 1)[n - 1 := Entry(Name(n - 1), 0, true, true)]
  }

  /** `n` callers stream, each for an agent of its own, and `c` more are connecting. */
  function Callers(n: nat, c: nat): map<CallerId, Caller> {
    if c > 0 then Callers(n, c - 1)[n + c - 1 := Caller(Name(n + c - 1), Connecting(0))]
    else if n > 0 then Callers(n - 1, 0)[n - 1 := Caller(Name(n - 1), Streaming(n - 1))]
    else map[]
  }

  function Filled(n: nat, c: nat, peak: nat): System {
    System(Shared(Entries(n), Pool(n)), Callers(n, c), peak)
  }

  function Max(a: nat, b: nat): nat {
    if a > b then a else b
  }

  lemma {:induction false} PoolNames(n: nat)
    ensures |Pool(n)| == n
    ensures forall a :: a in Pool(n) ==> |a| < n && Pool(n)[a] == |a| && a == Name(|a|)
  {
    if n > 0 {
      PoolNames(n - 1);
    }
  }

  lemma {:induction false} EntriesAre(n: nat)
    ensures forall i: nat :: i in Entries(n) <==> i < n
    ensures forall i: nat :: i in Entries(n) ==> Entries(n)[i] == Entry(Name(i), 0, true, true)
  {
    if n > 0 {
      EntriesAre(n - 1);
    }
  }

  lemma {:induction false} CallersAre(n: nat, c: nat)
    ensures forall i: nat :: i in Callers(n, c) <==> i < n + c
    ensures forall i: nat :: i in Callers(n, c) ==>
            Callers(n, c)[i] == Caller(Name(i), if i < n then Streaming(i) else Connecting(0))
  {
    if c > 0 {
      CallersAre(n, c - 1);
    } else if n > 0 {
      CallersAre(n - 1, 0);
    }
  }

  lemma {:induction false} FilledConnecting(n: nat, c: nat)
    ensures |ConnectingSet(Callers(n, c))| == c
  {
    CallersAre(n, c);
    if c > 0 {
      FilledConnecting(n, c - 1);
      CallersAre(n, c - 1);
      assert ConnectingSet(Callers(n, c)) == ConnectingSet(Callers(n, c - 1)) + {n + c - 1};
    } else {
      assert ConnectingSet(Callers(n, 0)) == {};
    }
  }

  /** One more caller arrives. */
  function Arrived(n: nat, c: nat, peak: nat): System {
    var s := Filled(n, c, peak);
    s.(callers := s.callers[n + c := Caller(Name(n + c), Waiting(0))])
  }

  lemma ArriveStep(n: nat, c: nat, peak: nat, maxConnections: nat)
    requires c <= peak
    ensures WellFormed(Filled(n, c, peak).shared)
    ensures Next(Filled(n, c, peak), Arrive(n + c, Name(n + c), 0), Arrived(n, c, peak), maxConnections)
  {
    FilledWell(n, c, peak);
    StillConnecting(n, c);
    assert n + c !in Callers(n, c) by {
      CallersAre(n, c);
    }
    hide Pool, Name, ConnectingSet, Entries, Callers, WellFormed;
  }

  lemma StillConnecting(n: nat, c: nat)
    ensures |ConnectingSet(Callers(n, c)[n + c := Caller(Name(n + c), Waiting(0))])| == c
  {
    CallersAre(n, c);
    FilledConnecting(n, c);
    assert ConnectingSet(Callers(n, c)[n + c := Caller(Name(n + c), Waiting(0))]) == ConnectingSet(Callers(n, c));
  }

  lemma FilledWell(n: nat, c: nat, peak: nat)
    ensures WellFormed(Filled(n, c, peak).shared)
  {
    PoolNames(n);
    EntriesAre(n);
  }

  lemma NameNew(n: nat, i: nat)
    requires n <= i
    ensures Name(i) !in Pool(n)
  {
    PoolNames(n);
  }

  /** While the pool is below its limit the caller goes on to connect. */
  lemma ConnectStep(n: nat, c: nat, peak: nat, maxConnections: nat)
    requires n < maxConnections
    ensures WellFormed(Arrived(n, c, peak).shared)
    ensures Next(Arrived(n, c, peak), ReserveStep(n + c, 0), Filled(n, c + 1, Max(peak, c + 1)), maxConnections)
  {
    FilledWell(n, c, peak);
    PoolNames(n);
    NameNew(n, n + c);
    FilledConnecting(n, c + 1);
    var s, t := Arrived(n, c, peak), Filled(n, c + 1, Max(peak, c + 1));
    assert s.callers[n + c := Caller(Name(n + c), Connecting(0))] == t.callers;
    hide Pool, Name, ConnectingSet, Entries, Callers;
    assert Reserve(s.shared, Name(n + c), 0, 0, maxConnections, s.shared, Connect);
    assert t == Settle(s, s.shared, n + c, 0, Connect, false);
  }

  /** The next caller streams instead of connecting. */
  lemma CallersPublished(n: nat, c: nat)
    ensures Callers(n, c + 1)[n := Caller(Name(n), Streaming(n))] == Callers(n + 1, c)
  {
    CallersAre(n, c + 1);
    CallersAre(n + 1, c);
  }

  /** A connection that was begun is published, however full the pool is by then. */
  lemma PublishStep(n: nat, c: nat, peak: nat, maxConnections: nat)
    requires c < peak
    ensures WellFormed(Filled(n, c + 1, peak).shared)
    ensures Next(Filled(n, c + 1, peak), InstallStep(n, 0, n), Filled(n + 1, c, peak), maxConnections)
  {
    FilledWell(n, c + 1, peak);
    NameNew(n, n);
    EntriesAre(n);
    CallersAre(n, c + 1);
    CallersPublished(n, c);
    FilledConnecting(n + 1, c);
    var s, t := Filled(n, c + 1, peak), Filled(n + 1, c, peak);
    assert s.shared.entries[n := Entry(Name(n), 0, true, true)] == t.shared.entries;
    assert s.shared.pool[Name(n) := n] == t.shared.pool;
    hide Pool, Name, ConnectingSet, Entries, Callers;
    assert Install(s.shared, Name(n), 0, 0, n, t.shared, Reserved(n));
    assert t == Settle(s, t.shared, n, 0, Reserved(n), true);
  }

  ghost predicate Leads(states: seq<System>, steps: seq<Step>, maxConnections: nat, s: System) {
    Run(states, steps, maxConnections) && states[|states| - 1] == s
  }

  lemma RunOneMore(states: seq<System>, steps: seq<Step>, maxConnections: nat, s: System, step: Step, s': System)
    requires Leads(states, steps, maxConnections, s) && WellFormed(s.shared) && Next(s, step, s', maxConnections)
    ensures Leads(states + [s'], steps + [step], maxConnections, s')
  {
    hide Next;
    var all, more := states + [s'], steps + [step];
    forall k | 0 <= k < |more|
      ensures WellFormed(all[k].shared) && Next(all[k], more[k], all[k + 1], maxConnections)
    {
      if k < |steps| {
        assert all[k] == states[k] && more[k] == steps[k] && all[k + 1] == states[k + 1];
      }
    }
  }

  /** One more caller begins to connect. */
  lemma OneMoreConnects(states: seq<System>, steps: seq<Step>, n: nat, c: nat, peak: nat, maxConnections: nat)
    returns (states': seq<System>, steps': seq<Step>)
    requires Leads(states, steps, maxConnections, Filled(n, c, peak)) && n < maxConnections && c <= peak
    ensures Leads(states', steps', maxConnections, Filled(n, c + 1, Max(peak, c + 1)))
  {
    hide Leads, Filled, Arrived, Next;
    ArriveStep(n, c, peak, maxConnections);
    RunOneMore(states, steps, maxConnections, Filled(n, c, peak), Arrive(n + c, Name(n + c), 0), Arrived(n, c, peak));
    states', steps' := states + [Arrived(n, c, peak)], steps + [Arrive(n + c, Name(n + c), 0)];
    ConnectStep(n, c, peak, maxConnections);
    RunOneMore(states', steps', maxConnections, Arrived(n, c, peak), ReserveStep(n + c, 0),
      Filled(n, c + 1, Max(peak, c + 1)));
    states', steps' := states' + [Filled(n, c + 1, Max(peak, c + 1))], steps' + [ReserveStep(n + c, 0)];
  }

  lemma OneMorePublishes(states: seq<System>, steps: seq<Step>, n: nat, c: nat, peak: nat, maxConnections: nat)
    returns (states': seq<System>, steps': seq<Step>)
    requires Leads(states, steps, maxConnections, Filled(n, c + 1, peak)) && c < peak
    ensures Leads(states', steps', maxConnections, Filled(n + 1, c, peak))
  {
    hide Leads, Filled, Next;
    PublishStep(n, c, peak, maxConnections);
    RunOneMore(states, steps, maxConnections, Filled(n, c + 1, peak), InstallStep(n, 0, n), Filled(n + 1, c, peak));
    states', steps' := states + [Filled(n + 1, c, peak)], steps + [InstallStep(n, 0, n)];
  }

  /** Callers that connect one after the other fill the pool. */
  lemma {:induction false} FillOneByOne(n: nat, maxConnections: nat) returns (states: seq<System>, steps: seq<Step>)
    requires n <= maxConnections
    ensures Leads(states, steps, maxConnections, Filled(n, 0, if n == 0 then 0 else 1))
  {
    if n == 0 {
      states, steps := [Filled(0, 0, 0)], [];
    } else {
      states, steps := FillOneByOne(n - 1, maxConnections);
      hide Leads, Filled;
      states, steps := OneMoreConnects(states, steps, n - 1, 0, if n == 1 then 0 else 1, maxConnections);
      states, steps := OneMorePublishes(states, steps, n - 1, 0, 1, maxConnections);
    }
  }

  /** Then `c` callers begin to connect at once. */
  lemma {:induction false} ConnectTogether(n: nat, c: nat, maxConnections: nat)
    returns (states: seq<System>, steps: seq<Step>)
    requires n < maxConnections
    ensures Leads(states, steps, maxConnections, Filled(n, c, Max(if n == 0 then 0 else 1, c)))
  {
    hide Leads, Filled;
    if c == 0 {
      states, steps := FillOneByOne(n, maxConnections);
    } else {
      states, steps := ConnectTogether(n, c - 1, maxConnections);
      states, steps := OneMoreConnects(states, steps, n, c - 1, Max(if n == 0 then 0 else 1, c - 1), maxConnections);
    }
  }

  /** And all are published. */
  lemma {:induction false} PublishTogether(n: nat, c: nat, done: nat, maxConnections: nat)
    returns (states: seq<System>, steps: seq<Step>)
    requires n < maxConnections && done <= c && c > 0
    ensures Leads(states, steps, maxConnections, Filled(n + done, c - done, c))
  {
    hide Leads, Filled;
    if done == 0 {
      states, steps := ConnectTogether(n, c, maxConnections);
    } else {
      states, steps := PublishTogether(n, c, done - 1, maxConnections);
      states, steps := OneMorePublishes(states, steps, n + done - 1, c - done, c, maxConnections);
    }
  }

  /** For every limit and every number `c` of callers that connect at once there is a run that
      ends with as many sessions as the bound allows, `maxConnections - 1 + c`; so with two or
      more the limit is exceeded. */
  lemma {:induction false} BoundAttained(maxConnections: nat, c: nat)
    requires maxConnections > 0 && c > 0
    ensures exists states: seq<System>, steps: seq<Step> ::
              && Run(states, steps, maxConnections)
              && states[|states| - 1].peak == c
              && |states[|states| - 1].shared.pool| == maxConnections - 1 + c
  {
    var states, steps := PublishTogether(maxConnections - 1, c, c, maxConnections);
    PoolNames(maxConnections - 1 + c);
    assert Run(states, steps, maxConnections) && states[|states| - 1] == Filled(maxConnections - 1 + c, 0, c);
  }
}
