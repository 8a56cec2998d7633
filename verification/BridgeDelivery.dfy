/** One registration of the bridge: its socket, its queue, and what goes over the wire. */
module BridgeDelivery {
  import opened Prelude
  import opened BridgeLedger

  datatype Status = Connected | Degraded | Disconnected

  class OpenCodeRegistration {
    const id: string
    const directory: string
    const sessionId: string
    var rooms: seq<string>
    var lastSeen: int
    var ws: Option<nat>
    var status: Status
    var messageQueue: seq<QueuedMessage>
    ghost var ledger: Ledger
    ghost var wire: seq<Message>
    ghost var clock: int

    ghost function State(): Delivery
      reads `ledger, `messageQueue, `wire
    {
      Delivery(ledger, wire, messageQueue)
    }

    ghost predicate Valid()
      reads `ledger, `messageQueue, `wire, `clock
    {
      Sound(State()) && Timed(messageQueue, clock) && |messageQueue| <= MAX_QUEUE_SIZE
    }

    /** The socket is among the open ones. */
    predicate IsOpen(open: set<nat>)
      reads this`ws
    {
      ws.Some? && ws.value in open
    }

    /** Nothing waits behind an open socket. */
    predicate Flowing(open: set<nat>)
      reads this`ws, this`messageQueue
    {
      messageQueue != [] ==> !IsOpen(open)
    }

    /** What the bridge keeps of every live registration. */
    ghost predicate Steady(open: set<nat>, now: int)
      reads `ledger, `messageQueue, `wire, `clock, `ws
    {
      Valid() && Flowing(open) && clock <= now
    }

    constructor (directory: string, sessionId: string, rooms: seq<string>, lastSeen: int, ghost now: int)
      ensures Valid() && id == directory + ":" + sessionId && this.directory == directory && this.sessionId == sessionId
      ensures this.rooms == rooms && ws == None && messageQueue == [] && status == Disconnected
      ensures ledger == Ledger([], [], [], []) && wire == [] && clock == now && this.lastSeen == lastSeen
    {
      id, this.directory, this.sessionId := directory + ":" + sessionId, directory, sessionId;
      this.rooms, this.lastSeen, ws, status, messageQueue := rooms, lastSeen, None, Disconnected, [];
      ledger, wire, clock := Ledger([], [], [], []), [], now;
    }

    /** Sends one message if the socket is open. */
    method ForwardToOpenCode(m: Message, now: int, open: set<nat>) returns (ok: bool)
      modifies this`lastSeen, this`wire
      ensures ok == IsOpen(open)
      ensures wire == if ok then old(wire) + [m] else old(wire)
      ensures lastSeen == if ok then now else old(lastSeen)
    {
      if ws.None? || ws.value !in open {
        return false;
      }
      wire, lastSeen := wire + [m], now;
      ok := true;
    }

    /** The messages that have not expired. */
    method Unexpired(now: int) returns (valid: seq<QueuedMessage>)
      requires Timed(messageQueue, clock) && clock <= now
      ensures valid == messageQueue[ExpiredCount(messageQueue, now)..]
    {
      ghost var k := ExpiredCount(messageQueue, now);
      valid := [];
      for i := 0 to |messageQueue|
        invariant valid == if i <= k then [] else messageQueue[k..i]
      {
        assert k <= i ==> messageQueue[k].queuedAt <= messageQueue[i].queuedAt;
        if now - messageQueue[i].queuedAt < QUEUE_MESSAGE_TTL_MS {
          valid := valid + [messageQueue[i]];
        }
      }
    }

    method QueueMessage(m: Message, now: int)
      requires Valid() && clock <= now
      modifies this`messageQueue, this`ledger, this`clock
      ensures Valid() && clock == now && messageQueue != []
      ensures State() == Delivered(old(State()), m, false, now)
    {
      QueuedKeeps(ledger, messageQueue, wire, m, clock, now);
      assert |messageQueue| == |ledger.waiting|;
      hide Consistent, Tracks, Picks, Timed, Queued, ExpiredCount;
      ledger, clock := Queued(ledger, messageQueue, m, now), now;
      ghost var queue := messageQueue;
      messageQueue := Unexpired(now);
      if |messageQueue| >= MAX_QUEUE_SIZE {
        messageQueue := messageQueue[1..];
      }
      messageQueue := messageQueue + [QueuedMessage(m, now)];
      assert messageQueue == QueueAfter(queue, m, now);
    }

    /** Sends messages, oldest first, while the socket stays open: the environment lets `accepts`
        messages through before it leaves that state.  The rest goes back to the queue. */
    method SendWaiting(valid: seq<QueuedMessage>, now: int, open: set<nat>, accepts: nat) returns (delivered: nat)
      requires messageQueue == []
      modifies this`messageQueue, this`wire, this`lastSeen
      ensures delivered == if !IsOpen(open) then 0 else if accepts < |valid| then accepts else |valid|
      ensures wire == old(wire) + Messages(valid[..delivered]) && messageQueue == valid[delivered..]
      ensures lastSeen == if delivered > 0 then now else old(lastSeen)
    {
      delivered := 0;
      while delivered < |valid|
        invariant delivered <= |valid| && messageQueue == []
        invariant wire == old(wire) + Messages(valid[..delivered])
        invariant delivered > 0 ==> IsOpen(open) && delivered <= accepts
        invariant lastSeen == if delivered > 0 then now else old(lastSeen)
      {
        var ok := false;
        if delivered < accepts {
          ok := ForwardToOpenCode(valid[delivered].message, now, open);
        }
        if !ok {
          messageQueue := valid[delivered..];
          break;
        }
        assert Messages(valid[..delivered + 1]) == Messages(valid[..delivered]) + [valid[delivered].message];
        delivered := delivered + 1;
      }
    }

    /** Drops what has expired and sends the rest as far as the socket lets it. */
    method DrainMessageQueue(now: int, open: set<nat>, accepts: nat) returns (stays: bool)
      requires Valid() && clock <= now
      modifies this`messageQueue, this`ledger, this`clock, this`wire, this`lastSeen
      ensures Valid() && clock == now
      ensures lastSeen == now || lastSeen == old(lastSeen)
      ensures State() == Flushed(old(State()), Sendable(old(messageQueue), now, IsOpen(open), accepts), now)
      ensures stays == (IsOpen(open) && messageQueue == [])
    {
      ghost var q, l, w, c := messageQueue, ledger, wire, clock;
      assert |q| == |l.waiting|;
      hide Consistent, Tracks, Picks, Timed, Drained, Messages, ExpiredCount;
      var valid := Unexpired(now);
      messageQueue := [];
      var delivered := SendWaiting(valid, now, open, accepts);
      DrainedKeeps(l, q, w, delivered, c, now);
      ledger, clock := Drained(l, q, delivered, now), now;
      stays := delivered == |valid| && ws.Some? && ws.value in open;
    }

    /** The registration takes a socket, which takes what waits. */
    method Authenticate(socket: nat, now: int, open: set<nat>, accepts: nat) returns (stays: bool)
      requires Valid() && clock <= now
      modifies this`ws, this`status, this`messageQueue, this`ledger, this`clock, this`wire, this`lastSeen
      ensures Valid() && clock == now && ws == Some(socket) && status == Connected && lastSeen == now
      ensures State() == Flushed(old(State()), Sendable(old(messageQueue), now, socket in open, accepts), now)
      ensures Steady(if stays then open else open - {socket}, now)
    {
      hide Flushed, Sendable, Sound, Timed;
      ws, lastSeen, status := Some(socket), now, Connected;
      stays := DrainMessageQueue(now, open, accepts);
    }

    /** Sends a message, or queues it. */
    method Deliver(m: Message, now: int, open: set<nat>) returns (sent: bool)
      requires Valid() && Flowing(open) && clock <= now
      modifies this`messageQueue, this`ledger, this`clock, this`wire, this`lastSeen
      ensures Valid() && Flowing(open) && clock == now && sent == IsOpen(open)
      ensures lastSeen == if sent then now else old(lastSeen)
      ensures State() == Delivered(old(State()), m, sent, now)
    {
      sent := ForwardToOpenCode(m, now, open);
      if sent {
        SentAtOnceKeepsIff(ledger, m);
        ledger, clock := SentAtOnce(ledger, m), now;
      } else {
        QueueMessage(m, now);
      }
    }
  }
}
