/** The retry buffer: a bounded queue of messages that could not be delivered. */
module RetryBuffer {
  import opened Prelude

  const MAX_BUFFER_SIZE: nat := 50
  const MESSAGE_TTL_SECONDS: int := 300

  type Agent = nat

  /** `id` tells one stash of a message from another. */
  datatype Msg = Msg(id: nat, agent: Agent, createdAt: int)

  predicate Stale(m: Msg, now: int) {
    now - m.createdAt > MESSAGE_TTL_SECONDS
  }

  /** What a bounded deque keeps of `s`: its newest elements. */
  function Newest(s: seq<Msg>): (r: seq<Msg>)
    ensures |r| <= MAX_BUFFER_SIZE && |r| <= |s| && r == s[|s| - |r|..]
  {
    if |s| <= MAX_BUFFER_SIZE then s else s[|s| - MAX_BUFFER_SIZE..]
  }

  /** What it lets go. */
  function Overflow(s: seq<Msg>): (r: seq<Msg>)
    ensures r + Newest(s) == s
  {
    s[..|s| - |Newest(s)|]
  }

  /** How many messages at the front are stale. */
  function StalePrefix(buffer: seq<Msg>, now: int): (n: nat)
    ensures n <= |buffer|
    ensures forall k :: 0 <= k < n ==> Stale(buffer[k], now)
    ensures n < |buffer| ==> !Stale(buffer[n], now)
  {
    if buffer == [] || !Stale(buffer[0], now) then 0
    else 1 + StalePrefix(buffer[1..], now)
  }

  /** No fresh message stands before a stale one. */
  predicate StaleFirst(buffer: seq<Msg>, now: int) {
    forall i, j :: 0 <= i < j < |buffer| && Stale(buffer[j], now) ==> Stale(buffer[i], now)
  }

  /** Everything stale is at the front, so that all of it is removed, if and only if no fresh message
      stands before a stale one. */
  lemma ExpiresAllIff(buffer: seq<Msg>, now: int)
    ensures (forall k :: StalePrefix(buffer, now) <= k < |buffer| ==> !Stale(buffer[k], now)) <==>
            StaleFirst(buffer, now)
  {
  }

  /** So it is while messages stand in the order of their creation. */
  lemma InOrderStaleFirst(buffer: seq<Msg>, now: int)
    requires forall i, j :: 0 <= i < j < |buffer| ==> buffer[i].createdAt <= buffer[j].createdAt
    ensures StaleFirst(buffer, now)
  {
  }

  function ByAgent(messages: seq<Msg>, a: Agent): seq<Msg> {
    if messages == [] then []
    else
      var last := messages[|messages| - 1];
      ByAgent(messages[..|messages| - 1], a) + (if last.agent == a then [last] else [])
  }

  lemma ByAgentSnoc(messages: seq<Msg>, m: Msg, a: Agent)
    ensures ByAgent(messages + [m], a) == ByAgent(messages, a) + (if m.agent == a then [m] else [])
  {
    assert (messages + [m])[..|messages|] == messages;
  }

  class MessageRetryBuffer {
    var buffer: seq<Msg>

    constructor ()
      ensures buffer == []
    {
      buffer := [];
    }

    /** Append to the bounded deque, which silently drops its oldest element when full. */
    method Append(m: Msg)
      requires |buffer| <= MAX_BUFFER_SIZE
      modifies this
      ensures buffer == Newest(old(buffer) + [m])
    {
      buffer := (if |buffer| == MAX_BUFFER_SIZE then buffer[1..] else buffer) + [m];
    }

    /** The locked part of `stash`; the caller notifies the sender of `dropped`. */
    method Stash(m: Msg) returns (dropped: Option<Msg>, size: nat)
      requires |buffer| <= MAX_BUFFER_SIZE
      modifies this
      ensures buffer == Newest(old(buffer) + [m]) && size == |buffer|
      ensures Overflow(old(buffer) + [m]) == if dropped.Some? then [dropped.value] else []
    {
      dropped := None;
      if |buffer| >= MAX_BUFFER_SIZE {
        dropped := Some(buffer[0]);
        buffer := buffer[1..];
      }
      Append(m);
      size := |buffer|;
    }

    /** The locked part of `_expire_stale`. */
    method ExpireStale(now: int) returns (expired: seq<Msg>)
      modifies this
      ensures expired == old(buffer)[..StalePrefix(old(buffer), now)]
      ensures buffer == old(buffer)[StalePrefix(old(buffer), now)..]
    {
      expired := [];
      ghost var all := buffer;
      while buffer != [] && Stale(buffer[0], now)
        invariant |expired| + StalePrefix(buffer, now) == StalePrefix(all, now)
        invariant expired == all[..|expired|] && buffer == all[|expired|..]
        decreases |buffer|
      {
        expired := expired + [buffer[0]];
        buffer := buffer[1..];
      }
    }

    /** The lock at the start of `_replay_all`. */
    method TakeAll() returns (messages: seq<Msg>)
      modifies this
      ensures messages == old(buffer) && buffer == []
    {
      messages := buffer;
      buffer := [];
    }

    /** The lock at its end: append what has to be tried again. */
    method Restash(messages: seq<Msg>)
      requires |buffer| <= MAX_BUFFER_SIZE
      modifies this
      ensures buffer == Newest(old(buffer) + messages)
    {
      var n := 0;
      ghost var all := buffer;
      while n < |messages|
        invariant 0 <= n <= |messages|
        invariant all == old(buffer) + messages[..n]
        invariant |buffer| <= MAX_BUFFER_SIZE && buffer == Newest(all)
      {
        var m := messages[n];
        NewestAgain(all, m);
        AppendPrefix(old(buffer), messages, n);
        hide Newest;
        Append(m);
        all := all + [m];
        n := n + 1;
      }
      assert messages[..n] == messages;
    }
  }

  lemma AppendPrefix(before: seq<Msg>, messages: seq<Msg>, n: nat)
    requires n < |messages|
    ensures before + messages[..n] + [messages[n]] == before + messages[..n + 1]
  {
  }

  lemma NewestAgain(s: seq<Msg>, m: Msg)
    ensures Newest(Newest(s) + [m]) == Newest(s + [m])
  {
  }

  /** Putting `again` back behind what was stashed in the meantime loses exactly the oldest of
      the new messages, as many as do not fit, and none of those put back. */
  lemma RestashLoses(meantime: seq<Msg>, again: seq<Msg>)
    requires |again| <= MAX_BUFFER_SIZE
    ensures var excess := |meantime| + |again| - MAX_BUFFER_SIZE;
            var lost := if excess > 0 then excess else 0;
            && lost <= |meantime|
            && Overflow(meantime + again) == meantime[..lost]
            && Newest(meantime + again) == meantime[lost..] + again
  {
  }

  /** `_replay_all` groups its snapshot by agent. */
  method GroupByAgent(messages: seq<Msg>) returns (groups: map<Agent, seq<Msg>>)
    ensures forall a :: a in groups <==> HasAgent(messages, a)
    ensures forall a :: a in groups ==> groups[a] == ByAgent(messages, a)
  {
    NoMessages();
    hide ByAgent, HasAgent;
    groups := map[];
    var n := 0;
    ghost var done: seq<Msg> := [];
    while n < |messages|
      invariant 0 <= n <= |messages| && done == messages[..n]
      invariant forall a :: a in groups <==> HasAgent(done, a)
      invariant forall a :: ByAgent(done, a) == if a in groups then groups[a] else []
    {
      var m := messages[n];
      forall a
        ensures ByAgent(done + [m], a) == ByAgent(done, a) + (if m.agent == a then [m] else [])
        ensures HasAgent(done + [m], a) <==> HasAgent(done, a) || m.agent == a
      {
        ByAgentSnoc(done, m, a);
        HasAgentSnoc(done, m, a);
      }
      groups := groups[m.agent := (if m.agent in groups then groups[m.agent] else []) + [m]];
      done := done + [m];
      n := n + 1;
    }
    assert messages[..n] == messages;
  }

  predicate HasAgent(messages: seq<Msg>, a: Agent) {
    exists k :: 0 <= k < |messages| && messages[k].agent == a
  }

  lemma NoMessages()
    ensures forall a :: ByAgent([], a) == [] && !HasAgent([], a)
  {
  }

  lemma HasAgentSnoc(messages: seq<Msg>, m: Msg, a: Agent)
    ensures HasAgent(messages + [m], a) <==> HasAgent(messages, a) || m.agent == a
  {
    if m.agent == a {
      assert (messages + [m])[|messages|] == m;
    }
    if HasAgent(messages, a) {
      var k :| 0 <= k < |messages| && messages[k].agent == a;
      assert (messages + [m])[k] == messages[k];
    }
  }
}
