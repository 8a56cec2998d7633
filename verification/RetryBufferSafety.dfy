/** What the retry buffer keeps over every interleaving. */
module RetryBufferSafety {
  import opened Prelude
  import opened RetryBuffer
  import opened RetryBufferProtocol

  lemma {:induction false} MessagesSnoc(running: seq<Running>, r: Running)
    ensures Messages(running + [r]) == Messages(running) + multiset{r.msg}
  {
    assert (running + [r])[..|running|] == running;
  }

  lemma {:induction false} MessagesWithout(running: seq<Running>, k: nat)
    requires k < |running|
    ensures Messages(running) == Messages(Without(running, k)) + multiset{running[k].msg}
  {
    var n := |running| - 1;
    if k == n {
      assert Without(running, k) == running[..n];
    } else {
      MessagesWithout(running[..n], k);
      assert Without(running, k) == Without(running[..n], k) + [running[n]];
      MessagesSnoc(Without(running[..n], k), running[n]);
    }
  }

  lemma WithoutMultiset(s: seq<Msg>, k: nat)
    requires k < |s|
    ensures multiset(s) == multiset(Without(s, k)) + multiset{s[k]}
  {
    assert s == s[..k] + [s[k]] + s[k + 1..];
  }

  // ---------------------------------------------------------------------------------------
  // The order within a pass.

  lemma {:induction false} ByAgentAppend(a: seq<Msg>, b: seq<Msg>, agent: Agent)
    ensures ByAgent(a + b, agent) == ByAgent(a, agent) + ByAgent(b, agent)
  {
    if b == [] {
      assert a + b == a;
    } else {
      var init, last := b[..|b| - 1], b[|b| - 1];
      ByAgentAppend(a, init, agent);
      assert a + b == (a + init) + [last];
      ByAgentSnoc(a + init, last, agent);
    }
  }

  lemma {:induction false} ByAgentNone(s: seq<Msg>, a: Agent)
    requires forall j :: 0 <= j < |s| ==> s[j].agent != a
    ensures ByAgent(s, a) == []
  {
    if s != [] {
      ByAgentNone(s[..|s| - 1], a);
    }
  }

  /** Taking an agent's first message out of the queue takes its first off the agent's list. */
  lemma {:induction false} ByAgentWithout(s: seq<Msg>, k: nat, a: Agent)
    requires k < |s| && forall j :: 0 <= j < k ==> s[j].agent != s[k].agent
    ensures ByAgent(s, a) == (if a == s[k].agent then [s[k]] else []) + ByAgent(Without(s, k), a)
  {
    var front, m, back := s[..k], s[k], s[k + 1..];
    assert s == (front + [m]) + back;
    ByAgentAppend(front + [m], back, a);
    ByAgentAppend(front, back, a);
    ByAgentSnoc(front, m, a);
    if a == m.agent {
      ByAgentNone(front, a);
    }
  }

  lemma {:induction false} SubsequenceGrow(s: seq<Msg>, t: seq<Msg>, m: Msg)
    requires Subsequence(s, t)
    ensures Subsequence(s, t + [m]) && Subsequence(s + [m], t + [m])
  {
    assert (t + [m])[..|t|] == t && (s + [m])[..|s|] == s;
  }

  lemma StartOver(p: Pass, k: nat, now: int, a: Agent)
    requires CanStart(p, k)
    ensures Over(Started(p, k, now), a) == Over(p, a)
  {
    var m := p.remaining[k];
    ByAgentSnoc(p.attempted, m, a);
    RunsSnoc(p, Started(p, k, now), Running(m, now - m.createdAt), a);
    hide ByAgent;
    if a == m.agent {
      assert !Runs(p, a);
    }
  }

  lemma StartOrder(p: Pass, k: nat, now: int)
    requires PassOrdered(p) && CanStart(p, k)
    ensures PassOrdered(Started(p, k, now))
  {
    hide ByAgent, Subsequence, Over;
    var q := Started(p, k, now);
    var m := p.remaining[k];
    forall a
      ensures ByAgent(q.attempted, a) + ByAgent(q.remaining, a) == ByAgent(q.snapshot, a)
      ensures Over(q, a) == Over(p, a)
    {
      ByAgentSnoc(p.attempted, m, a);
      ByAgentWithout(p.remaining, k, a);
      StartOver(p, k, now, a);
    }
    forall j | 0 <= j < |q.running|
      ensures LatestOf(q, q.running[j].msg)
    {
      ByAgentSnoc(p.attempted, m, q.running[j].msg.agent);
      if j < |p.running| {
        assert LatestOf(p, p.running[j].msg);
      }
    }
  }

  lemma RunsSnoc(p: Pass, q: Pass, r: Running, a: Agent)
    requires q.running == p.running + [r]
    ensures Runs(q, a) <==> Runs(p, a) || r.msg.agent == a
  {
    if r.msg.agent == a {
      assert q.running[|p.running|] == r;
    }
    if Runs(p, a) {
      var k :| 0 <= k < |p.running| && p.running[k].msg.agent == a;
      assert q.running[k] == p.running[k];
    }
  }

  lemma RunsWithout(p: Pass, q: Pass, k: nat, a: Agent)
    requires k < |p.running| && q.running == Without(p.running, k)
    requires forall i, j :: 0 <= i < j < |p.running| ==> p.running[i].msg.agent != p.running[j].msg.agent
    ensures Runs(q, a) <==> Runs(p, a) && p.running[k].msg.agent != a
  {
    if Runs(p, a) && p.running[k].msg.agent != a {
      var j :| 0 <= j < |p.running| && p.running[j].msg.agent == a;
      assert q.running[if j < k then j else j - 1] == p.running[j];
    }
    forall j | 0 <= j < |q.running|
      ensures q.running[j] == p.running[if j < k then j else j + 1]
    {
    }
  }

  lemma ResolveOver(p: Pass, k: nat, ok: bool, a: Agent)
    requires OnePerAgent(p) && RunningLatest(p) && k < |p.running|
    ensures Over(ResolvedPass(p, k, ok), a) ==
            Over(p, a) + (if a == p.running[k].msg.agent then [p.running[k].msg] else [])
  {
    hide ByAgent;
    RunsWithout(p, ResolvedPass(p, k, ok), k, a);
    if a == p.running[k].msg.agent {
      assert LatestOf(p, p.running[k].msg) && Runs(p, a);
    }
  }

  lemma ResolveOrder(p: Pass, k: nat, ok: bool)
    requires PassOrdered(p) && k < |p.running|
    ensures PassOrdered(ResolvedPass(p, k, ok))
  {
    hide ByAgent, Subsequence, Over;
    var q := ResolvedPass(p, k, ok);
    var m := p.running[k].msg;
    forall j | 0 <= j < |q.running|
      ensures q.running[j] == p.running[if j < k then j else j + 1] && LatestOf(q, q.running[j].msg)
    {
      assert LatestOf(p, p.running[if j < k then j else j + 1].msg);
    }
    forall a
      ensures Subsequence(ByAgent(q.restash, a), Over(q, a))
    {
      ResolveOver(p, k, ok, a);
      ByAgentSnoc(p.restash, m, a);
      assert Subsequence(ByAgent(p.restash, a), Over(p, a));
      SubsequenceGrow(ByAgent(p.restash, a), Over(p, a), m);
      assert ByAgent(p.restash, a) + [] == ByAgent(p.restash, a) && Over(p, a) + [] == Over(p, a);
    }
  }

  lemma NewPassKept(messages: seq<Msg>)
    requires |messages| <= MAX_BUFFER_SIZE
    ensures PassOrdered(NewPass(messages)) && PassCounted(NewPass(messages))
  {
    var p := NewPass(messages);
    forall a
      ensures ByAgent(p.attempted, a) + ByAgent(p.remaining, a) == ByAgent(p.snapshot, a)
      ensures Subsequence(ByAgent(p.restash, a), Over(p, a))
    {
      assert [] + ByAgent(messages, a) == ByAgent(messages, a);
    }
  }

  lemma PassCountKept(p: Pass, k: nat, now: int, ok: bool)
    requires PassCounted(p)
    ensures k < |p.remaining| ==> PassCounted(Started(p, k, now))
    ensures k < |p.running| ==> PassCounted(ResolvedPass(p, k, ok))
  {
    if k < |p.remaining| {
      WithoutMultiset(p.remaining, k);
      assert multiset(p.attempted + [p.remaining[k]]) == multiset(p.attempted) + multiset{p.remaining[k]};
    }
  }

  // ---------------------------------------------------------------------------------------
  // Conservation, step by step.

  lemma StashPlaces(s: System, m: Msg, x: Msg)
    ensures Places(Stashed(s, m), x) == Places(s, x) + (if x == m then 1 else 0)
  {
    var all := s.buffer + [m];
    assert multiset(all)[x] == multiset(s.buffer)[x] + multiset{m}[x];
    SplitCount(all, Overflow(all), Newest(all), x);
    assert Current(Stashed(s, m)) == Current(s);
    hide InFlight, Current, Newest, Overflow;
  }

  lemma SplitCount(all: seq<Msg>, front: seq<Msg>, back: seq<Msg>, x: Msg)
    requires front + back == all
    ensures multiset(all)[x] == multiset(front)[x] + multiset(back)[x]
  {
    assert multiset(front + back) == multiset(front) + multiset(back);
  }

  /** A live task is the current one. */
  lemma LiveIsCurrent(s: System, i: nat, t: Task)
    requires OneTask(s) && i < |s.tasks| && !s.tasks[i].Done?
    ensures Current(s) == s.tasks[i] && Current(WithTask(s, i, t)) == t
  {
    assert i == |s.tasks| - 1;
  }

  lemma WakePlaces(s: System, i: nat, now: int, x: Msg)
    requires OneTask(s) && i < |s.tasks| && s.tasks[i].Sleeping?
    ensures Places(Woken(s, i, now), x) == Places(s, x)
  {
    var n := StalePrefix(s.buffer, now);
    LiveIsCurrent(s, i, Done);
    LiveIsCurrent(s, i, Notifying);
    hide OneTask, Current, StalePrefix;
    SplitCount(s.buffer, s.buffer[..n], s.buffer[n..], x);
    assert s.buffer != [] ==> Current(Woken(s, i, now)) == Current(WithTask(s, i, Notifying)) by {
      CurrentOfTasks(Woken(s, i, now), WithTask(s, i, if s.buffer == [] then Done else Notifying));
    }
  }

  lemma CurrentOfTasks(s: System, t: System)
    requires s.tasks == t.tasks
    ensures Current(s) == Current(t)
  {
  }

  lemma StartInFlight(p: Pass, k: nat, now: int)
    requires k < |p.remaining|
    ensures InFlight(Replaying(Started(p, k, now))) == InFlight(Replaying(p))
  {
    WithoutMultiset(p.remaining, k);
    MessagesSnoc(p.running, Running(p.remaining[k], now - p.remaining[k].createdAt));
  }

  lemma ResolveInFlight(p: Pass, k: nat, ok: bool)
    requires k < |p.running|
    ensures var left := if FateOf(p.running[k], ok).PutBack? then multiset{} else multiset{p.running[k].msg};
            InFlight(Replaying(ResolvedPass(p, k, ok))) + left == InFlight(Replaying(p))
  {
    MessagesWithout(p.running, k);
    assert multiset(p.restash + [p.running[k].msg]) == multiset(p.restash) + multiset{p.running[k].msg};
  }

  lemma BookedPlaces(l: Ledger, m: Msg, fate: Fate, x: Msg)
    ensures Settled(Booked(l, m, fate), x) == Settled(l, x) + (if x == m && !fate.PutBack? then 1 else 0)
  {
  }

  lemma ResolvePlaces(s: System, i: nat, k: nat, ok: bool, s': System, x: Msg)
    requires OneTask(s) && Next(s, Resolve(i, k, ok), s')
    ensures Places(s', x) == Places(s, x)
  {
    var p := s.tasks[i].pass;
    LiveIsCurrent(s, i, Replaying(ResolvedPass(p, k, ok)));
    CurrentOfTasks(s', WithTask(s, i, Replaying(ResolvedPass(p, k, ok))));
    assert s'.buffer == s.buffer && s'.ledger == Booked(s.ledger, p.running[k].msg, FateOf(p.running[k], ok));
    hide InFlight, Current, ResolvedPass, Next, OneTask, Booked, Settled, FateOf;
    BookedPlaces(s.ledger, p.running[k].msg, FateOf(p.running[k], ok), x);
    ResolveInFlight(p, k, ok);
  }

  lemma FinishPlaces(s: System, i: nat, x: Msg)
    requires OneTask(s) && i < |s.tasks| && s.tasks[i].Replaying?
    requires s.tasks[i].pass.remaining == [] && s.tasks[i].pass.running == []
    ensures Places(Finished(s, i), x) == Places(s, x)
  {
    LiveIsCurrent(s, i, Sleeping);
    CurrentOfTasks(Finished(s, i), WithTask(s, i, Sleeping));
    var again := s.tasks[i].pass.restash;
    var all := s.buffer + again;
    SplitCount(all, s.buffer, again, x);
    SplitCount(all, Overflow(all), Newest(all), x);
    assert InFlight(Current(s))[x] == multiset(again)[x];
    hide Current, Newest, Overflow, OneTask;
  }

  lemma ProbePlaces(s: System, i: nat, reachable: bool, s': System, x: Msg)
    requires OneTask(s) && Next(s, Probe(i, reachable), s')
    ensures Places(s', x) == Places(s, x)
  {
    var t := if reachable then Replaying(NewPass(s.buffer)) else Sleeping;
    LiveIsCurrent(s, i, t);
    CurrentOfTasks(s', WithTask(s, i, t));
    hide Current, OneTask, Settled;
  }

  lemma StartPlaces(s: System, i: nat, k: nat, now: int, s': System, x: Msg)
    requires OneTask(s) && Next(s, Start(i, k, now), s')
    ensures Places(s', x) == Places(s, x)
  {
    var p := s.tasks[i].pass;
    LiveIsCurrent(s, i, Replaying(Started(p, k, now)));
    assert s' == WithTask(s, i, Replaying(Started(p, k, now))) && k < |p.remaining|;
    hide InFlight, Current, Started, Next, OneTask, Settled, WithTask;
    StartInFlight(p, k, now);
    SameRest(s, i, Replaying(Started(p, k, now)));
  }

  lemma SameRest(s: System, i: nat, t: Task)
    requires i < |s.tasks|
    ensures WithTask(s, i, t).buffer == s.buffer && WithTask(s, i, t).ledger == s.ledger
  {
  }

  lemma CheckedTask(s: System)
    requires OneTask(s) && s.due > 0
    ensures Current(Checked(s)) == if Current(s).Done? then Sleeping else Current(s)
  {
    hide InFlight;
  }

  lemma CheckPlaces(s: System, x: Msg)
    requires OneTask(s) && s.due > 0
    ensures Places(Checked(s), x) == Places(s, x)
  {
    CheckedTask(s);
    assert Checked(s).buffer == s.buffer && Checked(s).ledger == s.ledger;
    hide Current, Settled, Checked, OneTask;
  }

  lemma NotifiedPlaces(s: System, i: nat, s': System, x: Msg)
    requires OneTask(s) && Next(s, Notified(i), s')
    ensures Places(s', x) == Places(s, x)
  {
    var t := if s.buffer == [] then Done else Probing;
    LiveIsCurrent(s, i, t);
    SameRest(s, i, t);
    hide Current, Settled, OneTask, WithTask;
  }

  /** Every step keeps every message accounted for. */
  lemma NextPlaces(s: System, step: Step, s': System, x: Msg)
    requires OneTask(s) && Next(s, step, s')
    ensures Places(s', x) == Places(s, x) + (if step == Stash(x) then 1 else 0)
    ensures s'.ledger.stashed[x] == s.ledger.stashed[x] + (if step == Stash(x) then 1 else 0)
  {
    hide Places, OneTask, InFlight;
    match step
    case Stash(m) => StashPlaces(s, m, x);
    case StartCheck => CheckPlaces(s, x);
    case Wake(i, now) => WakePlaces(s, i, now, x);
    case Notified(i) => NotifiedPlaces(s, i, s', x);
    case Probe(i, reachable) => ProbePlaces(s, i, reachable, s', x);
    case Start(i, k, now) => StartPlaces(s, i, k, now, s', x);
    case Resolve(i, k, ok) => ResolvePlaces(s, i, k, ok, s', x);
    case FinishPass(i) => FinishPlaces(s, i, x);
  }

  lemma NextConserved(s: System, step: Step, s': System)
    requires Conserved(s) && OneTask(s) && Next(s, step, s')
    ensures Conserved(s')
  {
    assert |s'.buffer| <= MAX_BUFFER_SIZE;
    forall x
      ensures Places(s', x) == s'.ledger.stashed[x] <= 1
    {
      NextPlaces(s, step, s', x);
      assert Places(s, x) == s.ledger.stashed[x] <= 1;
      assert step == Stash(x) ==> s.ledger.stashed[x] == 0;
      hide Places, Next;
    }
  }

  lemma OneTaskWith(s: System, i: nat, t: Task, s': System)
    requires OneTask(s) && i < |s.tasks| && !s.tasks[i].Done?
    requires s'.tasks == s.tasks[i := t] && s'.retryTask == s.retryTask
    ensures OneTask(s')
  {
    assert i == |s.tasks| - 1;
  }

  lemma CheckedOneTask(s: System)
    requires OneTask(s) && s.due > 0
    ensures OneTask(Checked(s))
  {
  }

  lemma NextOneTask(s: System, step: Step, s': System)
    requires OneTask(s) && Next(s, step, s')
    ensures OneTask(s')
  {
    if step.StartCheck? {
      CheckedOneTask(s);
    } else if !step.Stash? {
      assert s'.tasks == s.tasks[step.i := s'.tasks[step.i]] && s'.retryTask == s.retryTask;
      hide Next, OneTask;
      OneTaskWith(s, step.i, s'.tasks[step.i], s');
    }
  }

  lemma NextAwake(s: System, step: Step, s': System)
    requires OneTask(s) && Awake(s) && Next(s, step, s')
    ensures Awake(s')
  {
  }

  lemma NextPassKept(s: System, step: Step, s': System)
    requires OneTask(s) && Conserved(s) && PassKept(Current(s)) && Next(s, step, s')
    ensures PassKept(Current(s'))
  {
    assert |s.buffer| <= MAX_BUFFER_SIZE;
    hide Next, Conserved, OneTask, PassKept, Current;
    if step.Probe? {
      ProbePass(s, step.i, step.reachable, s');
    } else if step.Start? {
      StartPass(s, step.i, step.k, step.now, s');
    } else if step.Resolve? {
      ResolvePass(s, step.i, step.k, step.ok, s');
    } else {
      OtherPass(s, step, s');
    }
  }

  lemma ProbePass(s: System, i: nat, reachable: bool, s': System)
    requires OneTask(s) && |s.buffer| <= MAX_BUFFER_SIZE && Next(s, Probe(i, reachable), s')
    ensures PassKept(Current(s'))
  {
    hide PassCounted, PassOrdered, NewPass;
    NewPassKept(s.buffer);
    LiveIsCurrent(s, i, s'.tasks[i]);
    CurrentOfTasks(s', WithTask(s, i, s'.tasks[i]));
  }

  lemma StartPass(s: System, i: nat, k: nat, now: int, s': System)
    requires OneTask(s) && PassKept(Current(s)) && Next(s, Start(i, k, now), s')
    ensures PassKept(Current(s'))
  {
    LiveIsCurrent(s, i, s'.tasks[i]);
    hide PassCounted, PassOrdered, Started, Current;
    StartOrder(s.tasks[i].pass, k, now);
    PassCountKept(s.tasks[i].pass, k, now, true);
  }

  lemma ResolvePass(s: System, i: nat, k: nat, ok: bool, s': System)
    requires OneTask(s) && PassKept(Current(s)) && Next(s, Resolve(i, k, ok), s')
    ensures PassKept(Current(s'))
  {
    LiveIsCurrent(s, i, s'.tasks[i]);
    CurrentOfTasks(s', WithTask(s, i, s'.tasks[i]));
    hide PassCounted, PassOrdered, ResolvedPass, Current;
    ResolveOrder(s.tasks[i].pass, k, ok);
    PassCountKept(s.tasks[i].pass, k, 0, ok);
  }

  /** The other steps leave a replay alone, or end it. */
  lemma OtherPass(s: System, step: Step, s': System)
    requires OneTask(s) && PassKept(Current(s)) && Next(s, step, s')
    requires !step.Probe? && !step.Start? && !step.Resolve?
    ensures PassKept(Current(s'))
  {
    hide PassCounted, PassOrdered, StalePrefix, Newest, Overflow;
  }

  ghost predicate Run(states: seq<System>, steps: seq<Step>) {
    && |states| == |steps| + 1
    && Initial(states[0])
    && forall k :: 0 <= k < |steps| ==> Next(states[k], steps[k], states[k + 1])
  }

  lemma {:induction false} RunKeeps(states: seq<System>, steps: seq<Step>, n: nat)
    requires Run(states, steps) && n < |states|
    ensures Inv(states[n])
  {
    if n > 0 {
      RunKeeps(states, steps, n - 1);
      var s, step, s' := states[n - 1], steps[n - 1], states[n];
      assert Next(s, step, s');
      hide Next, Conserved, Awake, PassKept, OneTask;
      NextConserved(s, step, s');
      NextOneTask(s, step, s');
      NextAwake(s, step, s');
      NextPassKept(s, step, s');
    }
  }

  // ---------------------------------------------------------------------------------------
  // What that means.

  /** In every reachable state a stashed message is in exactly one place. */
  lemma {:induction false} ExactlyOnePlace(states: seq<System>, steps: seq<Step>, n: nat, m: Msg)
    requires Run(states, steps) && n < |states| && m in states[n].ledger.stashed
    ensures var s := states[n];
            multiset(s.buffer)[m] + InFlight(Current(s))[m] + s.ledger.completed[m] + s.ledger.dropped[m]
              + s.ledger.expired[m] + s.ledger.failed[m] + s.ledger.lost[m] == 1
  {
    RunKeeps(states, steps, n);
    var s := states[n];
    hide Next, Awake, PassKept, OneTask, InFlight, Run;
    assert Places(s, m) == s.ledger.stashed[m];
  }

  /** In every reachable state, messages that wait or are in flight have a live retry task, or
      a stasher still due to start one; and only the remembered task can be live. */
  lemma {:induction false} NoLostWakeup(states: seq<System>, steps: seq<Step>, n: nat)
    requires Run(states, steps) && n < |states|
    ensures var s := states[n];
            && (s.buffer != [] || InFlight(Current(s)) != multiset{} ==> !Current(s).Done? || s.due > 0)
            && forall i :: 0 <= i < |s.tasks| && !s.tasks[i].Done? ==> s.retryTask == Some(i)
  {
    RunKeeps(states, steps, n);
  }

  /** A pass that finishes attempted every message of its snapshot exactly once, each agent's
      in buffer order; it puts back in that order; and the counts add up. */
  lemma {:induction false} PassComplete(states: seq<System>, steps: seq<Step>, n: nat, i: nat, a: Agent)
    requires Run(states, steps) && n < |steps| && steps[n] == FinishPass(i)
    ensures i < |states[n].tasks| && states[n].tasks[i].Replaying?
    ensures var p := states[n].tasks[i].pass;
            && ByAgent(p.attempted, a) == ByAgent(p.snapshot, a)
            && multiset(p.attempted) == multiset(p.snapshot)
            && p.succeeded + p.failed == |p.snapshot|
            && Subsequence(ByAgent(p.restash, a), ByAgent(p.snapshot, a))
  {
    RunKeeps(states, steps, n);
    var s := states[n];
    assert Next(s, steps[n], states[n + 1]);
    var p := s.tasks[i].pass;
    assert i == |s.tasks| - 1 && PassKept(Current(s));
    hide Next, Conserved, Awake, Subsequence;
    assert ByAgent(p.attempted, a) + ByAgent(p.remaining, a) == ByAgent(p.snapshot, a);
    assert ByAgent(p.attempted, a) + [] == ByAgent(p.attempted, a);
    assert !Runs(p, a) && Over(p, a) == ByAgent(p.attempted, a);
    assert Subsequence(ByAgent(p.restash, a), Over(p, a));
  }

  /** A pass that finishes silently loses exactly the oldest messages stashed meanwhile that do
      not fit, and nothing it puts back. */
  lemma {:induction false} RestashExact(states: seq<System>, steps: seq<Step>, n: nat, i: nat)
    requires Run(states, steps) && n < |steps| && steps[n] == FinishPass(i)
    ensures i < |states[n].tasks| && states[n].tasks[i].Replaying?
    ensures var s, s', again := states[n], states[n + 1], states[n].tasks[i].pass.restash;
            var excess := |s.buffer| + |again| - MAX_BUFFER_SIZE;
            var lost := if excess > 0 then excess else 0;
            && lost <= |s.buffer|
            && s'.buffer == s.buffer[lost..] + again
            && s'.ledger == s.ledger.(lost := s.ledger.lost + multiset(s.buffer[..lost]))
  {
    RunKeeps(states, steps, n);
    assert Next(states[n], steps[n], states[n + 1]);
    hide Run, Next, Conserved, Awake;
    FinishExact(states[n], i, states[n + 1]);
  }

  lemma FinishExact(s: System, i: nat, s': System)
    requires OneTask(s) && PassKept(Current(s)) && Next(s, FinishPass(i), s')
    ensures i < |s.tasks| && s.tasks[i].Replaying?
    ensures var again := s.tasks[i].pass.restash;
            var excess := |s.buffer| + |again| - MAX_BUFFER_SIZE;
            var lost := if excess > 0 then excess else 0;
            && lost <= |s.buffer|
            && s'.buffer == s.buffer[lost..] + again
            && s'.ledger == s.ledger.(lost := s.ledger.lost + multiset(s.buffer[..lost]))
  {
    hide PassOrdered, Newest, Overflow;
    LiveIsCurrent(s, i, Sleeping);
    assert PassCounted(s.tasks[i].pass);
    hide PassCounted, OneTask, Current;
    RestashLoses(s.buffer, s.tasks[i].pass.restash);
  }

  ghost predicate NoStashDuringReplay(states: seq<System>, steps: seq<Step>)
    requires |states| == |steps| + 1
  {
    forall k :: 0 <= k < |steps| && steps[k].Stash? ==> !Current(states[k]).Replaying?
  }

  /** Without a stash during a replay nothing is ever lost silently. */
  lemma {:induction false} NothingLostSilently(states: seq<System>, steps: seq<Step>, n: nat)
    requires Run(states, steps) && NoStashDuringReplay(states, steps) && n < |states|
    ensures states[n].ledger.lost == multiset{}
    ensures Current(states[n]).Replaying? ==> states[n].buffer == []
  {
    if n > 0 {
      NothingLostSilently(states, steps, n - 1);
      RunKeeps(states, steps, n - 1);
      assert Next(states[n - 1], steps[n - 1], states[n]);
      assert steps[n - 1].Stash? ==> !Current(states[n - 1]).Replaying?;
      hide Run, NoStashDuringReplay, Next;
      QuietlyOn(states[n - 1], steps[n - 1], states[n]);
    }
  }

  lemma QuietlyOn(s: System, step: Step, s': System)
    requires Inv(s) && Next(s, step, s') && (step.Stash? ==> !Current(s).Replaying?)
    requires s.ledger.lost == multiset{} && (Current(s).Replaying? ==> s.buffer == [])
    ensures s'.ledger.lost == multiset{} && (Current(s').Replaying? ==> s'.buffer == [])
  {
    hide Next, OneTask, PassKept, Conserved, Awake, Current;
    QuietStep(s, step, s');
    if step.FinishPass? {
      FinishesCurrent(s, step, s');
      FinishLoses(s, step, s');
    }
  }

  lemma FinishLoses(s: System, step: Step, s': System)
    requires Next(s, step, s') && step.FinishPass? && s.buffer == []
    requires PassKept(s.tasks[step.i])
    ensures s'.ledger.lost == s.ledger.lost
  {
    RestashLoses([], s.tasks[step.i].pass.restash);
  }

  lemma FinishesCurrent(s: System, step: Step, s': System)
    requires OneTask(s) && Next(s, step, s') && step.FinishPass?
    ensures Current(s).Replaying? && Current(s) == s.tasks[step.i]
  {
    LiveIsCurrent(s, step.i, Sleeping);
  }

  lemma QuietStep(s: System, step: Step, s': System)
    requires OneTask(s) && Next(s, step, s') && (step.Stash? ==> !Current(s).Replaying?)
    requires Current(s).Replaying? ==> s.buffer == []
    ensures Current(s').Replaying? ==> s'.buffer == []
    ensures !step.FinishPass? ==> s'.ledger.lost == s.ledger.lost
  {
    if step.StartCheck? {
      CheckedTask(s);
    } else if step.Stash? {
      CurrentOfTasks(s, s');
    } else {
      var t := s'.tasks[step.i];
      LiveIsCurrent(s, step.i, t);
      assert s'.tasks == s.tasks[step.i := t];
      CurrentOfTasks(s', WithTask(s, step.i, t));
    }
    hide Current, OneTask, InFlight, StalePrefix, Newest, Overflow, Started, ResolvedPass;
  }
}
