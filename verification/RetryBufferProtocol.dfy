/** Stashers, the retry task and the concurrent groups of a replay, interleaved at will. */
module RetryBufferProtocol {
  import opened Prelude
  import opened RetryBuffer

  /** A message being replayed, with its age when the attempt started. */
  datatype Running = Running(msg: Msg, elapsed: int)

  /** One replay: its snapshot, what no group has reached yet (in snapshot order), what is
      being sent, what was started so far (in order), what will be put back, and the counts. */
  datatype Pass = Pass(snapshot: seq<Msg>, remaining: seq<Msg>, running: seq<Running>,
                       attempted: seq<Msg>, restash: seq<Msg>, succeeded: nat, failed: nat)

  datatype Task = Sleeping | Notifying | Probing | Replaying(pass: Pass) | Done

  /** Where messages went that are neither buffered nor in flight. */
  datatype Ledger = Ledger(stashed: multiset<Msg>, completed: multiset<Msg>, dropped: multiset<Msg>,
                           expired: multiset<Msg>, failed: multiset<Msg>, lost: multiset<Msg>)

  /** `tasks` are all retry tasks ever created, `retryTask` the one the buffer remembers, and
      `due` the stashers that have appended but not yet looked at it. */
  datatype System = System(buffer: seq<Msg>, tasks: seq<Task>, retryTask: Option<nat>, due: nat, ledger: Ledger)

  datatype Step =
    | Stash(m: Msg)
    | StartCheck
    | Wake(i: nat, now: int)
    | Notified(i: nat)
    | Probe(i: nat, reachable: bool)
    | Start(i: nat, k: nat, now: int)
    | Resolve(i: nat, k: nat, ok: bool)
    | FinishPass(i: nat)

  function NewPass(messages: seq<Msg>): Pass {
    Pass(messages, messages, [], [], [], 0, 0)
  }

  function Without<T>(s: seq<T>, k: nat): seq<T>
    requires k < |s|
  {
    s[..k] + s[k + 1..]
  }

  function Stashed(s: System, m: Msg): System {
    s.(buffer := Newest(s.buffer + [m]), due := s.due + 1,
       ledger := s.ledger.(stashed := s.ledger.stashed + multiset{m},
                           dropped := s.ledger.dropped + multiset(Overflow(s.buffer + [m]))))
  }

  function WithTask(s: System, i: nat, t: Task): System
    requires i < |s.tasks|
  {
    s.(tasks := s.tasks[i := t])
  }

  predicate TaskIdle(s: System) {
    s.retryTask.None? || s.retryTask.value >= |s.tasks| || s.tasks[s.retryTask.value].Done?
  }

  function Checked(s: System): System
    requires s.due > 0
  {
    var checked := s.(due := s.due - 1);
    if TaskIdle(s) then checked.(tasks := s.tasks + [Sleeping], retryTask := Some(|s.tasks|)) else checked
  }

  function Woken(s: System, i: nat, now: int): System
    requires i < |s.tasks|
  {
    if s.buffer == [] then WithTask(s, i, Done)
    else
      var n := StalePrefix(s.buffer, now);
      WithTask(s, i, Notifying).(buffer := s.buffer[n..],
        ledger := s.ledger.(expired := s.ledger.expired + multiset(s.buffer[..n])))
  }

  /** A group starts its next message: the first of its agent, when none of its agent runs. */
  predicate CanStart(p: Pass, k: nat) {
    && k < |p.remaining|
    && (forall j :: 0 <= j < k ==> p.remaining[j].agent != p.remaining[k].agent)
    && (forall j :: 0 <= j < |p.running| ==> p.running[j].msg.agent != p.remaining[k].agent)
  }

  function Started(p: Pass, k: nat, now: int): Pass
    requires k < |p.remaining|
  {
    var m := p.remaining[k];
    p.(remaining := Without(p.remaining, k), running := p.running + [Running(m, now - m.createdAt)],
       attempted := p.attempted + [m])
  }

  datatype Fate = Completed | Expired | PutBack | GivenUp

  function FateOf(r: Running, ok: bool): Fate {
    if r.elapsed > MESSAGE_TTL_SECONDS then Expired
    else if ok then Completed
    else if r.elapsed < MESSAGE_TTL_SECONDS then PutBack
    else GivenUp
  }

  function ResolvedPass(p: Pass, k: nat, ok: bool): Pass
    requires k < |p.running|
  {
    var fate := FateOf(p.running[k], ok);
    p.(running := Without(p.running, k),
       restash := if fate.PutBack? then p.restash + [p.running[k].msg] else p.restash,
       succeeded := p.succeeded + (if fate.Completed? then 1 else 0),
       failed := p.failed + (if fate.Completed? then 0 else 1))
  }

  function Booked(l: Ledger, m: Msg, fate: Fate): Ledger {
    match fate
    case Completed => l.(completed := l.completed + multiset{m})
    case Expired => l.(expired := l.expired + multiset{m})
    case PutBack => l
    case GivenUp => l.(failed := l.failed + multiset{m})
  }

  function Finished(s: System, i: nat): System
    requires i < |s.tasks| && s.tasks[i].Replaying?
  {
    var all := s.buffer + s.tasks[i].pass.restash;
    WithTask(s, i, Sleeping).(buffer := Newest(all),
      ledger := s.ledger.(lost := s.ledger.lost + multiset(Overflow(all))))
  }

  predicate Next(s: System, step: Step, s': System) {
    match step
    case Stash(m) => m !in s.ledger.stashed && s' == Stashed(s, m)
    case StartCheck => s.due > 0 && s' == Checked(s)
    case Wake(i, now) => i < |s.tasks| && s.tasks[i].Sleeping? && s' == Woken(s, i, now)
    case Notified(i) => i < |s.tasks| && s.tasks[i].Notifying?
      && s' == WithTask(s, i, if s.buffer == [] then Done else Probing)
    case Probe(i, reachable) =>
      && i < |s.tasks| && s.tasks[i].Probing?
      && s' == if reachable then WithTask(s, i, Replaying(NewPass(s.buffer))).(buffer := [])
           else WithTask(s, i, Sleeping)
    case Start(i, k, now) =>
      && i < |s.tasks| && s.tasks[i].Replaying? && CanStart(s.tasks[i].pass, k)
      && s' == WithTask(s, i, Replaying(Started(s.tasks[i].pass, k, now)))
    case Resolve(i, k, ok) =>
      && i < |s.tasks| && s.tasks[i].Replaying? && k < |s.tasks[i].pass.running|
      && var p := s.tasks[i].pass;
         s' == WithTask(s, i, Replaying(ResolvedPass(p, k, ok))).(
                 ledger := Booked(s.ledger, p.running[k].msg, FateOf(p.running[k], ok)))
    case FinishPass(i) =>
      && i < |s.tasks| && s.tasks[i].Replaying?
      && s.tasks[i].pass.remaining == [] && s.tasks[i].pass.running == []
      && s' == Finished(s, i)
  }

  predicate Initial(s: System) {
    s == System([], [], None, 0, Ledger(multiset{}, multiset{}, multiset{}, multiset{}, multiset{}, multiset{}))
  }

  // ---------------------------------------------------------------------------------------
  // One live task, and no lost wakeup.

  function Messages(running: seq<Running>): multiset<Msg> {
    if running == [] then multiset{}
    else Messages(running[..|running| - 1]) + multiset{running[|running| - 1].msg}
  }

  function InFlight(t: Task): multiset<Msg> {
    if t.Replaying? then multiset(t.pass.remaining) + Messages(t.pass.running) + multiset(t.pass.restash)
      else multiset{}
  }

  function Current(s: System): Task {
    if s.tasks == [] then Done else s.tasks[|s.tasks| - 1]
  }

  predicate OneTask(s: System) {
    && s.retryTask == (if s.tasks == [] then None else Some(|s.tasks| - 1))
    && forall i :: 0 <= i < |s.tasks| - 1 ==> s.tasks[i].Done?
  }

  predicate Awake(s: System) {
    s.buffer != [] || InFlight(Current(s)) != multiset{} ==> !Current(s).Done? || s.due > 0
  }

  // ---------------------------------------------------------------------------------------
  // Conservation.

  function Settled(l: Ledger, m: Msg): nat {
    l.completed[m] + l.dropped[m] + l.expired[m] + l.failed[m] + l.lost[m]
  }

  /** In how many places `m` is. */
  function Places(s: System, m: Msg): nat {
    multiset(s.buffer)[m] + InFlight(Current(s))[m] + Settled(s.ledger, m)
  }

  ghost predicate Conserved(s: System) {
    && |s.buffer| <= MAX_BUFFER_SIZE
    && forall m :: Places(s, m) == s.ledger.stashed[m] <= 1
  }

  // ---------------------------------------------------------------------------------------
  // One pass.

  /** `s` is what is left of `t` after dropping some elements. */
  predicate Subsequence(s: seq<Msg>, t: seq<Msg>) {
    || s == []
    || (t != [] && s[|s| - 1] == t[|t| - 1] && Subsequence(s[..|s| - 1], t[..|t| - 1]))
    || (t != [] && Subsequence(s, t[..|t| - 1]))
  }

  predicate Runs(p: Pass, a: Agent) {
    exists k :: 0 <= k < |p.running| && p.running[k].msg.agent == a
  }

  /** The attempts of one agent that are over. */
  function Over(p: Pass, a: Agent): seq<Msg> {
    var mine := ByAgent(p.attempted, a);
    if Runs(p, a) && mine != [] then mine[..|mine| - 1] else mine
  }

  /** Every agent's messages are attempted in snapshot order, each once. */
  ghost predicate InOrder(p: Pass) {
    forall a :: ByAgent(p.attempted, a) + ByAgent(p.remaining, a) == ByAgent(p.snapshot, a)
  }

  /** One message per agent at a time, and it is the agent's latest attempt. */
  predicate OnePerAgent(p: Pass) {
    forall j, k :: 0 <= j < k < |p.running| ==> p.running[j].msg.agent != p.running[k].msg.agent
  }

  predicate LatestOf(p: Pass, m: Msg) {
    var mine := ByAgent(p.attempted, m.agent);
    mine != [] && mine[|mine| - 1] == m
  }

  predicate RunningLatest(p: Pass) {
    forall k :: 0 <= k < |p.running| ==> LatestOf(p, p.running[k].msg)
  }

  /** What is put back keeps each agent's order. */
  ghost predicate RestashOrdered(p: Pass) {
    forall a :: Subsequence(ByAgent(p.restash, a), Over(p, a))
  }

  ghost predicate PassOrdered(p: Pass) {
    InOrder(p) && OnePerAgent(p) && RunningLatest(p) && RestashOrdered(p)
  }

  predicate PassCounted(p: Pass) {
    && |p.snapshot| <= MAX_BUFFER_SIZE
    && |p.attempted| + |p.remaining| == |p.snapshot|
    && p.succeeded + p.failed + |p.running| == |p.attempted|
    && |p.restash| <= p.failed
    && multiset(p.attempted) + multiset(p.remaining) == multiset(p.snapshot)
  }

  ghost predicate PassKept(t: Task) {
    t.Replaying? ==> PassCounted(t.pass) && PassOrdered(t.pass)
  }

  ghost predicate Inv(s: System) {
    OneTask(s) && Awake(s) && Conserved(s) && PassKept(Current(s))
  }
}
