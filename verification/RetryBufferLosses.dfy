/** When the retry buffer loses messages without a notice, and when it keeps stale ones. */
module RetryBufferLosses {
  import opened Prelude
  import opened RetryBuffer
  import opened RetryBufferProtocol
  import opened RetryBufferSafety

  /** If the step ends a pass, what it puts back fits behind what was stashed meanwhile. */
  predicate Fits(s: System, step: Step) {
    step.FinishPass? && step.i < |s.tasks| && s.tasks[step.i].Replaying? ==>
      |s.buffer| + |s.tasks[step.i].pass.restash| <= MAX_BUFFER_SIZE
  }

  lemma OnlyFinishLoses(s: System, step: Step, s': System)
    requires Next(s, step, s') && !step.FinishPass?
    ensures s'.ledger.lost == s.ledger.lost
  {
    hide StalePrefix, Newest, Overflow, Started, ResolvedPass;
  }

  /** In every run, nothing has been lost silently if and only if what every pass put back fitted
      behind the messages that were stashed while it ran. */
  lemma {:induction false} NothingLostIff(states: seq<System>, steps: seq<Step>, n: nat)
    requires Run(states, steps) && n < |states|
    ensures states[n].ledger.lost == multiset{} <==> forall k :: 0 <= k < n ==> Fits(states[k], steps[k])
  {
    if n > 0 {
      NothingLostIff(states, steps, n - 1);
      RunKeeps(states, steps, n - 1);
      assert Next(states[n - 1], steps[n - 1], states[n]);
      OneTaskThen(states[n - 1]);
      hide Next, Fits, Run, Inv, OneTask, Awake, Conserved, PassKept;
      LostStep(states[n - 1], steps[n - 1], states[n]);
    }
  }

  lemma OneTaskThen(s: System)
    requires Inv(s)
    ensures OneTask(s) && PassKept(Current(s))
  {
  }

  lemma LostStep(s: System, step: Step, s': System)
    requires OneTask(s) && PassKept(Current(s)) && Next(s, step, s')
    ensures s'.ledger.lost == multiset{} <==> s.ledger.lost == multiset{} && Fits(s, step)
  {
    hide Next, OneTask, PassKept, Current;
    if step.FinishPass? {
      FinishExact(s, step.i, s');
      var excess := |s.buffer| + |s.tasks[step.i].pass.restash| - MAX_BUFFER_SIZE;
      if excess > 0 {
        assert s.buffer[..excess][0] in multiset(s.buffer[..excess]);
      }
    } else {
      OnlyFinishLoses(s, step, s');
    }
  }

  // ---------------------------------------------------------------------------------------
  // A run that loses a message.

  function Message(i: nat): Msg {
    Msg(i, 0, 0)
  }

  function Messages(n: nat): seq<Msg> {
    if n == 0 then [] else Messages(n - 1) + [Message(n)]
  }

  /** `n` more messages are stashed, one after the other. */
  function Flooded(s: System, n: nat): System {
    if n == 0 then s else Stashed(Flooded(s, n - 1), Message(n))
  }

  ghost predicate Leads(states: seq<System>, steps: seq<Step>, s: System) {
    Run(states, steps) && states[|states| - 1] == s
  }

  lemma RunOneMore(states: seq<System>, steps: seq<Step>, s: System, step: Step, s': System)
    requires Leads(states, steps, s) && Next(s, step, s')
    ensures Leads(states + [s'], steps + [step], s')
  {
    hide Next;
    var all, more := states + [s'], steps + [step];
    forall k | 0 <= k < |more|
      ensures Next(all[k], more[k], all[k + 1])
    {
      if k < |steps| {
        assert all[k] == states[k] && more[k] == steps[k] && all[k + 1] == states[k + 1];
      }
    }
  }

  /** The first message is stashed, and the task comes to replay it. */
  const PASS := Pass([Message(0)], [Message(0)], [], [], [], 0, 0)
  const FIRST := Ledger(multiset{Message(0)}, multiset{}, multiset{}, multiset{}, multiset{}, multiset{})

  function Single(buffer: seq<Msg>, task: Task): System {
    System(buffer, [task], Some(0), 0, FIRST)
  }

  const EMPTY := System([], [], None, 0, Ledger(multiset{}, multiset{}, multiset{}, multiset{}, multiset{}, multiset{}))

  lemma FirstStashed()
    ensures Leads([EMPTY, Stashed(EMPTY, Message(0))], [Stash(Message(0))], Stashed(EMPTY, Message(0)))
    ensures Stashed(EMPTY, Message(0)) == System([Message(0)], [], None, 1, FIRST)
  {
    assert Newest([Message(0)]) == [Message(0)] && Overflow([Message(0)]) == [];
    hide Newest, Overflow;
    var s := Stashed(EMPTY, Message(0));
    assert Next(EMPTY, Stash(Message(0)), s);
  }

  lemma ReplayBegins() returns (states: seq<System>, steps: seq<Step>)
    ensures Leads(states, steps, Single([], Replaying(PASS)))
  {
    FirstStashed();
    hide Leads, Stashed;
    states, steps := ReplayReached([EMPTY, Stashed(EMPTY, Message(0))], [Stash(Message(0))],
      Stashed(EMPTY, Message(0)));
  }

  lemma ReplayReached(before: seq<System>, taken: seq<Step>, stashed: System)
    returns (states: seq<System>, steps: seq<Step>)
    requires stashed == System([Message(0)], [], None, 1, FIRST) && Leads(before, taken, stashed)
    ensures Leads(states, steps, Single([], Replaying(PASS)))
  {
    hide Leads;
    var m := Message(0);
    var sleeping, notifying, probing, replaying := Single([m], Sleeping), Single([m], Notifying), Single([m], Probing),
      Single([], Replaying(PASS));
    RunOneMore(before, taken, stashed, StartCheck, sleeping);
    states, steps := before + [sleeping], taken + [StartCheck];
    assert StalePrefix([m], 0) == 0;
    assert Next(sleeping, Wake(0, 0), notifying);
    RunOneMore(states, steps, sleeping, Wake(0, 0), notifying);
    states, steps := states + [notifying], steps + [Wake(0, 0)];
    RunOneMore(states, steps, notifying, Notified(0), probing);
    states, steps := states + [probing], steps + [Notified(0)];
    RunOneMore(states, steps, probing, Probe(0, true), replaying);
    states, steps := states + [replaying], steps + [Probe(0, true)];
  }

  /** Its attempt fails: it is to be put back. */
  const AGAIN := Pass([Message(0)], [], [], [Message(0)], [Message(0)], 0, 1)

  lemma AttemptFails() returns (states: seq<System>, steps: seq<Step>)
    ensures Leads(states, steps, Single([], Replaying(AGAIN)))
  {
    hide Leads;
    states, steps := ReplayBegins();
    var m := Message(0);
    var running := Pass([m], [], [Running(m, 0)], [m], [], 0, 0);
    assert Started(PASS, 0, 0) == running;
    RunOneMore(states, steps, Single([], Replaying(PASS)), Start(0, 0, 0), Single([], Replaying(running)));
    states, steps := states + [Single([], Replaying(running))], steps + [Start(0, 0, 0)];
    assert ResolvedPass(running, 0, false) == AGAIN;
    RunOneMore(states, steps, Single([], Replaying(running)), Resolve(0, 0, false), Single([], Replaying(AGAIN)));
    states, steps := states + [Single([], Replaying(AGAIN))], steps + [Resolve(0, 0, false)];
  }

  /** The replay runs, and `n` messages have been stashed. */
  predicate Full(s: System, n: nat) {
    && s.buffer == Messages(n) && |Messages(n)| == n && s.tasks == [Replaying(AGAIN)]
    && s.ledger.lost == multiset{}
    && forall x :: x in s.ledger.stashed ==> x.id <= n
  }

  lemma OneMoreStashed(s: System, n: nat)
    requires Full(s, n) && n < MAX_BUFFER_SIZE
    ensures Full(Stashed(s, Message(n + 1)), n + 1) && Message(n + 1) !in s.ledger.stashed
  {
    assert Messages(n + 1) == Messages(n) + [Message(n + 1)];
    assert Newest(Messages(n + 1)) == Messages(n + 1);
    hide Messages, Newest, Overflow;
  }

  lemma {:induction false} FloodedIs(n: nat)
    requires n <= MAX_BUFFER_SIZE
    ensures Full(Flooded(Single([], Replaying(AGAIN)), n), n)
  {
    if n > 0 {
      FloodedIs(n - 1);
      hide Full, Single;
      OneMoreStashed(Flooded(Single([], Replaying(AGAIN)), n - 1), n - 1);
    }
  }

  /** Meanwhile the buffer fills up. */
  lemma {:induction false} BufferFills(n: nat) returns (states: seq<System>, steps: seq<Step>)
    requires n <= MAX_BUFFER_SIZE
    ensures Leads(states, steps, Flooded(Single([], Replaying(AGAIN)), n))
  {
    hide Leads;
    if n == 0 {
      states, steps := AttemptFails();
    } else {
      states, steps := BufferFills(n - 1);
      FloodStep(n);
      hide Flooded, Next;
      var s, s' := Flooded(Single([], Replaying(AGAIN)), n - 1), Flooded(Single([], Replaying(AGAIN)), n);
      RunOneMore(states, steps, s, Stash(Message(n)), s');
      states, steps := states + [s'], steps + [Stash(Message(n))];
    }
  }

  lemma FloodStep(n: nat)
    requires 0 < n <= MAX_BUFFER_SIZE
    ensures Next(Flooded(Single([], Replaying(AGAIN)), n - 1), Stash(Message(n)),
            Flooded(Single([], Replaying(AGAIN)), n))
  {
    FloodedIs(n - 1);
    hide Full, Stashed, Single;
    OneMoreStashed(Flooded(Single([], Replaying(AGAIN)), n - 1), n - 1);
  }

  lemma {:induction false} FirstMessage(n: nat)
    requires n > 0
    ensures |Messages(n)| == n && Messages(n)[0] == Message(1)
  {
    if n > 1 {
      FirstMessage(n - 1);
    }
  }

  lemma FinishLosesFirst(s: System, n: nat)
    requires Full(s, n) && n == MAX_BUFFER_SIZE
    ensures Next(s, FinishPass(0), Finished(s, 0)) && Finished(s, 0).ledger.lost == multiset{Message(1)}
  {
    hide Messages, Newest, Overflow;
    FirstMessage(n);
    RestashLoses(s.buffer, [Message(0)]);
    assert s.buffer[..1] == [Message(1)];
  }

  /** Fifty messages stashed during the replay of one that fails: the oldest of the fifty is lost
      without a notice. */
  lemma LosingRun()
    ensures exists states: seq<System>, steps: seq<Step> ::
              Run(states, steps) && states[|states| - 1].ledger.lost == multiset{Message(1)}
  {
    LosingRunOf(MAX_BUFFER_SIZE);
  }

  lemma LosingRunOf(n: nat)
    requires n == MAX_BUFFER_SIZE
    ensures exists states: seq<System>, steps: seq<Step> ::
              Run(states, steps) && states[|states| - 1].ledger.lost == multiset{Message(1)}
  {
    hide Messages, Flooded, Single, Next, Finished, Leads;
    var s := Flooded(Single([], Replaying(AGAIN)), n);
    FloodedIs(n);
    assert |s.tasks| > 0 && s.tasks[0].Replaying?;
    hide Full;
    FinishLosesFirst(s, n);
    var states, steps := BufferFills(n);
    RunOneMore(states, steps, s, FinishPass(0), Finished(s, 0));
    states, steps := states + [Finished(s, 0)], steps + [FinishPass(0)];
    LedTo(states, steps, Finished(s, 0));
    hide Run;
    assert states[|states| - 1].ledger.lost == multiset{Message(1)};
  }

  lemma LedTo(states: seq<System>, steps: seq<Step>, s: System)
    requires Leads(states, steps, s)
    ensures Run(states, steps) && states[|states| - 1] == s
  {
  }

  // ---------------------------------------------------------------------------------------
  // A run that keeps a stale message.

  /** Stashed while the replay of the first message runs. */
  const LATER := Msg(1, 0, 200)

  function Joined(buffer: seq<Msg>, task: Task, due: nat): System {
    System(buffer, [task], Some(0), due, FIRST.(stashed := FIRST.stashed + multiset{LATER}))
  }

  lemma LaterStashed()
    ensures Next(Single([], Replaying(AGAIN)), Stash(LATER), Joined([LATER], Replaying(AGAIN), 1))
  {
    assert Newest([LATER]) == [LATER] && Overflow([LATER]) == [];
    hide Newest, Overflow;
    assert [] + [LATER] == [LATER];
  }

  lemma LaterChecked()
    ensures Next(Joined([LATER], Replaying(AGAIN), 1), StartCheck, Joined([LATER], Replaying(AGAIN), 0))
  {
  }

  lemma PutBehind()
    ensures Next(Joined([LATER], Replaying(AGAIN), 0), FinishPass(0), Joined([LATER, Message(0)], Sleeping, 0))
  {
    var all := [LATER, Message(0)];
    assert Newest(all) == all && Overflow(all) == [];
    hide Newest, Overflow;
    assert [LATER] + [Message(0)] == all;
  }

  lemma StillStale()
    ensures Next(Joined([LATER, Message(0)], Sleeping, 0), Wake(0, 350), Joined([LATER, Message(0)], Notifying, 0))
    ensures Stale(Message(0), 350)
  {
    assert StalePrefix([LATER, Message(0)], 350) == 0;
    hide StalePrefix;
  }

  lemma LaterJoins() returns (states: seq<System>, steps: seq<Step>)
    ensures Leads(states, steps, Joined([LATER], Replaying(AGAIN), 0))
  {
    LaterStashed();
    LaterChecked();
    hide Leads, Next, Single, Joined;
    var s := Joined([LATER], Replaying(AGAIN), 1);
    states, steps := AttemptFails();
    RunOneMore(states, steps, Single([], Replaying(AGAIN)), Stash(LATER), s);
    states, steps := states + [s], steps + [Stash(LATER)];
    RunOneMore(states, steps, s, StartCheck, Joined([LATER], Replaying(AGAIN), 0));
    states, steps := states + [Joined([LATER], Replaying(AGAIN), 0)], steps + [StartCheck];
  }

  lemma PurgeReached() returns (states: seq<System>, steps: seq<Step>)
    ensures Leads(states, steps, Joined([LATER, Message(0)], Notifying, 0))
    ensures |steps| > 0 && steps[|steps| - 1] == Wake(0, 350)
  {
    PutBehind();
    StillStale();
    hide Leads, Next, Joined;
    var s := Joined([LATER, Message(0)], Sleeping, 0);
    states, steps := LaterJoins();
    RunOneMore(states, steps, Joined([LATER], Replaying(AGAIN), 0), FinishPass(0), s);
    states, steps := states + [s], steps + [FinishPass(0)];
    RunOneMore(states, steps, s, Wake(0, 350), Joined([LATER, Message(0)], Notifying, 0));
    states, steps := states + [Joined([LATER, Message(0)], Notifying, 0)], steps + [Wake(0, 350)];
  }

  /** A message that a replay puts back behind a younger one outlives its TTL: when the task wakes,
      it is stale and stays in the buffer. */
  lemma StaleStays()
    ensures exists states: seq<System>, steps: seq<Step> :: EndsStale(states, steps, 350, Message(0))
  {
    hide Leads, Run;
    var all := [LATER, Message(0)];
    var states, steps := PurgeReached();
    LedTo(states, steps, Joined(all, Notifying, 0));
    assert all[1] == Message(0);
    assert EndsStale(states, steps, 350, Message(0));
  }

  /** The run ends with the purge of a task that wakes, which leaves a stale message. */
  ghost predicate EndsStale(states: seq<System>, steps: seq<Step>, now: int, m: Msg) {
    && Run(states, steps) && |steps| > 0
    && steps[|steps| - 1].Wake? && steps[|steps| - 1].now == now
    && Stale(m, now) && m in states[|states| - 1].buffer
  }
}
