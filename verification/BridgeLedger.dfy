/** The account of the messages that are routed to one registration of the bridge, and its bounded
    queue with expiry. */
module BridgeLedger {
  const QUEUE_MESSAGE_TTL_MS := 300000
  const MAX_QUEUE_SIZE := 50

  datatype Message = Message(roomId: string, sender: string, senderMxid: string, body: string, eventId: string)

  datatype QueuedMessage = QueuedMessage(message: Message, queuedAt: int)

  // ---------------------------------------------------------------------------------------
  // The account: what became of the messages, by their place in the order of arrival.

  datatype Fate = Sent | Waiting | Expired | ShiftedOut

  datatype Ledger = Ledger(arrivals: seq<Message>, fates: seq<Fate>, sent: seq<nat>, waiting: seq<nat>)

  predicate Increasing(s: seq<nat>, bound: nat) {
    && (forall i, j :: 0 <= i < j < |s| ==> s[i] < s[j])
    && forall i :: 0 <= i < |s| ==> s[i] < bound
  }

  /** Every message has one fate; those sent and then those waiting are in order of arrival. */
  predicate Consistent(l: Ledger) {
    && |l.fates| == |l.arrivals|
    && Increasing(l.sent + l.waiting, |l.arrivals|)
    && (forall i :: 0 <= i < |l.fates| ==> (l.fates[i] == Sent <==> i in l.sent))
    && (forall i :: 0 <= i < |l.fates| ==> (l.fates[i] == Waiting <==> i in l.waiting))
  }

  function Marked(fates: seq<Fate>, which: seq<nat>, fate: Fate): (r: seq<Fate>)
    ensures |r| == |fates| && forall i :: 0 <= i < |fates| ==> r[i] == if i in which then fate else fates[i]
  {
    seq(|fates|, i requires 0 <= i < |fates| => if i in which then fate else fates[i])
  }

  /** A message arrives and is sent at once. */
  function SentAtOnce(l: Ledger, m: Message): Ledger {
    Ledger(l.arrivals + [m], l.fates + [Sent], l.sent + [|l.arrivals|], l.waiting)
  }

  /** A message arrives and waits. */
  function Enqueued(l: Ledger, m: Message): Ledger {
    Ledger(l.arrivals + [m], l.fates + [Waiting], l.sent, l.waiting + [|l.arrivals|])
  }

  /** The first `k` that wait are lost. */
  function Dropped(l: Ledger, k: nat, fate: Fate): Ledger
    requires k <= |l.waiting|
  {
    l.(fates := Marked(l.fates, l.waiting[..k], fate), waiting := l.waiting[k..])
  }

  /** The first `k` that wait are sent. */
  function SentWaiting(l: Ledger, k: nat): Ledger
    requires k <= |l.waiting|
  {
    l.(fates := Marked(l.fates, l.waiting[..k], Sent), sent := l.sent + l.waiting[..k], waiting := l.waiting[k..])
  }

  /** Sending at once keeps the order exactly when nothing waits; were a message sent past the
      queue, as after a `send` that raised on an open socket, the order would be lost. */
  lemma SentAtOnceKeepsIff(l: Ledger, m: Message)
    requires Consistent(l)
    ensures Consistent(SentAtOnce(l, m)) <==> l.waiting == []
  {
    var r := SentAtOnce(l, m);
    var n := |l.sent|;
    if l.waiting == [] {
      assert l.sent + l.waiting == l.sent;
      assert r.sent + r.waiting == l.sent + [|l.arrivals|];
    } else {
      assert (r.sent + r.waiting)[n] == |l.arrivals|
        && (r.sent + r.waiting)[n + 1] == l.waiting[0] == (l.sent + l.waiting)[n];
    }
  }

  lemma EnqueuedKeeps(l: Ledger, m: Message)
    requires Consistent(l)
    ensures Consistent(Enqueued(l, m))
  {
    var r := Enqueued(l, m);
    assert r.sent + r.waiting == (l.sent + l.waiting) + [|l.arrivals|];
    assert forall i :: i in l.sent || i in l.waiting ==> i in l.sent + l.waiting;
  }

  lemma DroppedKeeps(l: Ledger, k: nat, fate: Fate)
    requires Consistent(l) && k <= |l.waiting| && (fate == Expired || fate == ShiftedOut)
    ensures Consistent(Dropped(l, k, fate))
  {
    Parted(l, k);
    var r := Dropped(l, k, fate);
    Subsequence(l, k);
    hide Increasing;
  }

  lemma SentWaitingKeeps(l: Ledger, k: nat)
    requires Consistent(l) && k <= |l.waiting|
    ensures Consistent(SentWaiting(l, k))
  {
    Parted(l, k);
    hide Increasing;
    var r := SentWaiting(l, k);
    assert r.sent + r.waiting == l.sent + l.waiting by {
      assert l.waiting == l.waiting[..k] + l.waiting[k..];
    }
    assert forall i :: i in r.sent <==> i in l.sent || i in l.waiting[..k];
  }

  /** The first `k` that wait and the others have nothing in common, nor with those sent. */
  lemma Parted(l: Ledger, k: nat)
    requires Increasing(l.sent + l.waiting, |l.arrivals|) && k <= |l.waiting|
    ensures forall i :: i in l.waiting <==> i in l.waiting[..k] || i in l.waiting[k..]
    ensures forall i :: i in l.waiting[..k] ==> i !in l.waiting[k..]
    ensures forall i :: i in l.waiting ==> i !in l.sent
  {
    Halves(l.sent, l.waiting, |l.arrivals|);
    assert l.waiting == l.waiting[..k] + l.waiting[k..];
    Halves(l.waiting[..k], l.waiting[k..], |l.arrivals|);
    hide Increasing;
  }

  lemma Subsequence(l: Ledger, k: nat)
    requires Increasing(l.sent + l.waiting, |l.arrivals|) && k <= |l.waiting|
    ensures Increasing(l.sent + l.waiting[k..], |l.arrivals|)
  {
    var s, t, n := l.sent + l.waiting, l.sent + l.waiting[k..], |l.sent|;
    forall j | 0 <= j < |t|
      ensures t[j] < |l.arrivals| && forall i :: 0 <= i < j ==> t[i] < t[j]
    {
      var b := if j < n then j else j + k;
      assert t[j] == s[b];
      forall i | 0 <= i < j
        ensures t[i] < t[j]
      {
        var a := if i < n then i else i + k;
        assert t[i] == s[a] < s[b];
      }
    }
  }

  /** The places with the given fate, in order. */
  function Places(fates: seq<Fate>, fate: Fate): seq<nat> {
    if fates == [] then []
    else Places(fates[..|fates| - 1], fate) + if fates[|fates| - 1] == fate then [|fates| - 1] else []
  }

  /** The messages with the given fate, in order of arrival. */
  function With(arrivals: seq<Message>, fates: seq<Fate>, fate: Fate): seq<Message>
    requires |arrivals| == |fates|
  {
    if fates == [] then []
    else
      var n := |fates| - 1;
      With(arrivals[..n], fates[..n], fate) + if fates[n] == fate then [arrivals[n]] else []
  }

  /** Increasing and complete lists of places are unique. */
  lemma {:induction false} ListsPlaces(fates: seq<Fate>, fate: Fate, s: seq<nat>)
    requires Increasing(s, |fates|) && forall i :: 0 <= i < |fates| ==> (fates[i] == fate <==> i in s)
    ensures s == Places(fates, fate)
  {
    if fates != [] {
      var n := |fates| - 1;
      if fates[n] == fate {
        var k := |s| - 1;
        LastIs(s, n);
        assert s == s[..k] + [n];
        ListsPlaces(fates[..n], fate, s[..k]);
      } else {
        assert forall k :: 0 <= k < |s| ==> s[k] in s;
        ListsPlaces(fates[..n], fate, s);
      }
    }
  }

  lemma LastIs(s: seq<nat>, n: nat)
    requires Increasing(s, n + 1) && n in s
    ensures |s| > 0 && s[|s| - 1] == n
  {
    var k :| 0 <= k < |s| && s[k] == n;
    assert s[k] <= s[|s| - 1];
  }

  lemma {:induction false} PlacesWith(arrivals: seq<Message>, fates: seq<Fate>, fate: Fate)
    requires |arrivals| == |fates|
    ensures |Places(fates, fate)| == |With(arrivals, fates, fate)|
    ensures forall k :: 0 <= k < |Places(fates, fate)| ==>
              Places(fates, fate)[k] < |arrivals| && With(arrivals, fates, fate)[k] == arrivals[Places(fates, fate)[k]]
  {
    if fates != [] {
      PlacesWith(arrivals[..|fates| - 1], fates[..|fates| - 1], fate);
    }
  }

  lemma {:induction false} EveryPlaceCounts(fates: seq<Fate>)
    ensures |Places(fates, Sent)| + |Places(fates, Waiting)| + |Places(fates, Expired)| + |Places(fates, ShiftedOut)| ==
            |fates|
  {
    if fates != [] {
      EveryPlaceCounts(fates[..|fates| - 1]);
    }
  }

  // ---------------------------------------------------------------------------------------
  // The queue.

  predicate IsExpired(q: QueuedMessage, now: int) {
    !(now - q.queuedAt < QUEUE_MESSAGE_TTL_MS)
  }

  /** How many messages at the front have expired. */
  function ExpiredCount(queue: seq<QueuedMessage>, now: int): (k: nat)
    ensures k <= |queue|
    ensures forall i :: 0 <= i < k ==> IsExpired(queue[i], now)
    ensures k < |queue| ==> !IsExpired(queue[k], now)
  {
    if queue == [] || !IsExpired(queue[0], now) then 0 else 1 + ExpiredCount(queue[1..], now)
  }

  /** The queue is in the order in which it was filled. */
  predicate Timed(queue: seq<QueuedMessage>, clock: int) {
    && (forall i, j :: 0 <= i < j < |queue| ==> queue[i].queuedAt <= queue[j].queuedAt)
    && forall i :: 0 <= i < |queue| ==> queue[i].queuedAt <= clock
  }

  /** What waits is what is in the queue. */
  predicate Tracks(queue: seq<QueuedMessage>, l: Ledger) {
    && |queue| == |l.waiting|
    && forall k :: 0 <= k < |queue| ==> l.waiting[k] < |l.arrivals| && queue[k].message == l.arrivals[l.waiting[k]]
  }

  /** What was sent is what went over the wire. */
  predicate Picks(wire: seq<Message>, l: Ledger) {
    && |wire| == |l.sent|
    && forall k :: 0 <= k < |wire| ==> l.sent[k] < |l.arrivals| && wire[k] == l.arrivals[l.sent[k]]
  }

  function Messages(queue: seq<QueuedMessage>): (ms: seq<Message>)
    ensures |ms| == |queue| && forall k :: 0 <= k < |queue| ==> ms[k] == queue[k].message
  {
    seq(|queue|, k requires 0 <= k < |queue| => queue[k].message)
  }

  /** What went over the wire is exactly the messages with the fate `Sent`, in order of arrival;
      the queue is exactly those that wait, in order; and none that waits arrived before one that
      was sent. */
  lemma DeliveredInOrder(wire: seq<Message>, queue: seq<QueuedMessage>, l: Ledger)
    requires Consistent(l) && Picks(wire, l) && Tracks(queue, l)
    ensures wire == With(l.arrivals, l.fates, Sent) && Messages(queue) == With(l.arrivals, l.fates, Waiting)
    ensures forall i, j :: 0 <= i < |l.fates| && 0 <= j < |l.fates| && l.fates[i] == Sent && l.fates[j] == Waiting ==>
            i < j
    ensures |l.arrivals| == |wire| + |queue| + |Places(l.fates, Expired)| + |Places(l.fates, ShiftedOut)|
  {
    Halves(l.sent, l.waiting, |l.arrivals|);
    hide Increasing;
    ListsPlaces(l.fates, Sent, l.sent);
    ListsPlaces(l.fates, Waiting, l.waiting);
    PlacesWith(l.arrivals, l.fates, Sent);
    PlacesWith(l.arrivals, l.fates, Waiting);
    EveryPlaceCounts(l.fates);
  }

  lemma Halves(a: seq<nat>, b: seq<nat>, bound: nat)
    requires Increasing(a + b, bound)
    ensures Increasing(a, bound) && Increasing(b, bound)
    ensures forall x, y :: x in a && y in b ==> x < y
  {
    assert forall i :: 0 <= i < |a| ==> (a + b)[i] == a[i];
    assert forall i :: 0 <= i < |b| ==> (a + b)[|a| + i] == b[i];
    forall i, j | 0 <= i < j < |b|
      ensures b[i] < b[j]
    {
      assert (a + b)[|a| + i] < (a + b)[|a| + j];
    }
  }

  /** The account after `queueMessage`: what has expired is dropped, then the oldest if the queue
      is still full, and the new message waits. */
  function Queued(l: Ledger, queue: seq<QueuedMessage>, m: Message, now: int): Ledger
    requires |queue| == |l.waiting|
  {
    var k := ExpiredCount(queue, now);
    Enqueued(Dropped(Dropped(l, k, Expired), if |queue| - k >= MAX_QUEUE_SIZE then 1 else 0, ShiftedOut), m)
  }

  /** The queue after `queueMessage`. */
  function QueueAfter(queue: seq<QueuedMessage>, m: Message, now: int): seq<QueuedMessage> {
    var k := ExpiredCount(queue, now);
    queue[if |queue| - k >= MAX_QUEUE_SIZE then k + 1 else k..] + [QueuedMessage(m, now)]
  }

  lemma QueuedKeeps(l: Ledger, queue: seq<QueuedMessage>, wire: seq<Message>, m: Message, clock: int, now: int)
    requires Consistent(l) && Tracks(queue, l) && Picks(wire, l) && Timed(queue, clock) && |queue| <= MAX_QUEUE_SIZE
             && clock <= now
    ensures Consistent(Queued(l, queue, m, now))
    ensures Tracks(QueueAfter(queue, m, now), Queued(l, queue, m, now)) && Picks(wire, Queued(l, queue, m, now))
    ensures Timed(QueueAfter(queue, m, now), now) && |QueueAfter(queue, m, now)| <= MAX_QUEUE_SIZE
  {
    assert |queue| == |l.waiting|;
    hide Consistent, Tracks, Picks, Timed, Queued, QueueAfter;
    QueuedConsistent(l, queue, m, now);
    QueuedTracks(l, queue, wire, m, now);
    QueuedTimed(queue, m, clock, now);
  }

  lemma QueuedConsistent(l: Ledger, queue: seq<QueuedMessage>, m: Message, now: int)
    requires Consistent(l) && |queue| == |l.waiting|
    ensures Consistent(Queued(l, queue, m, now))
  {
    hide Consistent;
    var k := ExpiredCount(queue, now);
    var l1 := Dropped(l, k, Expired);
    var l2 := Dropped(l1, if |queue| - k >= MAX_QUEUE_SIZE then 1 else 0, ShiftedOut);
    DroppedKeeps(l, k, Expired);
    DroppedKeeps(l1, if |queue| - k >= MAX_QUEUE_SIZE then 1 else 0, ShiftedOut);
    EnqueuedKeeps(l2, m);
  }

  lemma QueuedTracks(l: Ledger, queue: seq<QueuedMessage>, wire: seq<Message>, m: Message, now: int)
    requires Tracks(queue, l) && Picks(wire, l)
    ensures Tracks(QueueAfter(queue, m, now), Queued(l, queue, m, now)) && Picks(wire, Queued(l, queue, m, now))
  {
    var k := ExpiredCount(queue, now);
    var j := if |queue| - k >= MAX_QUEUE_SIZE then 1 else 0;
    hide ExpiredCount;
    assert Queued(l, queue, m, now).waiting == l.waiting[k + j..] + [|l.arrivals|];
    assert QueueAfter(queue, m, now) == queue[k + j..] + [QueuedMessage(m, now)];
  }

  lemma QueuedTimed(queue: seq<QueuedMessage>, m: Message, clock: int, now: int)
    requires Timed(queue, clock) && |queue| <= MAX_QUEUE_SIZE && clock <= now
    ensures Timed(QueueAfter(queue, m, now), now) && |QueueAfter(queue, m, now)| <= MAX_QUEUE_SIZE
  {
    hide ExpiredCount;
  }

  /** How many messages of the queue a socket takes. */
  function Sendable(queue: seq<QueuedMessage>, now: int, open: bool, accepts: nat): (n: nat)
    ensures n <= |queue| - ExpiredCount(queue, now)
  {
    var rest := |queue| - ExpiredCount(queue, now);
    if !open then 0 else if accepts < rest then accepts else rest
  }

  /** The account after `drainMessageQueue`: what has expired is dropped and `n` messages are
      sent. */
  function Drained(l: Ledger, queue: seq<QueuedMessage>, n: nat, now: int): Ledger
    requires |queue| == |l.waiting| && n <= |queue| - ExpiredCount(queue, now)
  {
    SentWaiting(Dropped(l, ExpiredCount(queue, now), Expired), n)
  }

  lemma DrainedKeeps(l: Ledger, queue: seq<QueuedMessage>, wire: seq<Message>, n: nat, clock: int, now: int)
    requires Consistent(l) && Tracks(queue, l) && Picks(wire, l) && Timed(queue, clock) && |queue| <= MAX_QUEUE_SIZE
             && clock <= now
    requires n <= |queue| - ExpiredCount(queue, now)
    ensures var valid := queue[ExpiredCount(queue, now)..];
            && Consistent(Drained(l, queue, n, now)) && Tracks(valid[n..], Drained(l, queue, n, now))
            && Picks(wire + Messages(valid[..n]), Drained(l, queue, n, now))
            && Timed(valid[n..], now) && |valid[n..]| <= MAX_QUEUE_SIZE
  {
    assert |queue| == |l.waiting|;
    hide Consistent, Tracks, Picks, Timed, ExpiredCount, Messages, Drained;
    DrainedQueue(l, queue, n, clock, now);
    DrainedWire(l, queue, wire, n, now);
    DrainedConsistent(l, queue, n, now);
  }

  lemma DrainedConsistent(l: Ledger, queue: seq<QueuedMessage>, n: nat, now: int)
    requires Consistent(l) && |queue| == |l.waiting| && n <= |queue| - ExpiredCount(queue, now)
    ensures Consistent(Drained(l, queue, n, now))
  {
    hide Consistent;
    var k := ExpiredCount(queue, now);
    DroppedKeeps(l, k, Expired);
    SentWaitingKeeps(Dropped(l, k, Expired), n);
  }

  lemma DrainedQueue(l: Ledger, queue: seq<QueuedMessage>, n: nat, clock: int, now: int)
    requires Tracks(queue, l) && Timed(queue, clock) && clock <= now && n <= |queue| - ExpiredCount(queue, now)
    ensures var valid := queue[ExpiredCount(queue, now)..];
            Tracks(valid[n..], Drained(l, queue, n, now)) && Timed(valid[n..], now)
  {
    var k := ExpiredCount(queue, now);
    hide ExpiredCount;
    assert queue[k..][n..] == queue[k + n..] && l.waiting[k..][n..] == l.waiting[k + n..];
  }

  lemma DrainedWire(l: Ledger, queue: seq<QueuedMessage>, wire: seq<Message>, n: nat, now: int)
    requires Tracks(queue, l) && Picks(wire, l) && n <= |queue| - ExpiredCount(queue, now)
    ensures var valid := queue[ExpiredCount(queue, now)..];
            Picks(wire + Messages(valid[..n]), Drained(l, queue, n, now))
  {
    var k := ExpiredCount(queue, now);
    hide ExpiredCount;
    var sent := Messages(queue[k..][..n]);
    var r := Drained(l, queue, n, now);
    forall j | |wire| <= j < |r.sent|
      ensures r.sent[j] < |l.arrivals| && (wire + sent)[j] == l.arrivals[r.sent[j]]
    {
      assert r.sent[j] == l.waiting[k + j - |wire|];
      assert queue[k..][..n][j - |wire|] == queue[k + j - |wire|];
    }
  }

  // ---------------------------------------------------------------------------------------
  // Account, wire and queue together.

  datatype Delivery = Delivery(ledger: Ledger, wire: seq<Message>, queue: seq<QueuedMessage>)

  predicate Sound(d: Delivery) {
    Consistent(d.ledger) && Tracks(d.queue, d.ledger) && Picks(d.wire, d.ledger)
  }

  /** A message is sent if the socket is open, else it waits. */
  function Delivered(d: Delivery, m: Message, open: bool, now: int): Delivery
    requires |d.queue| == |d.ledger.waiting|
  {
    if open then Delivery(SentAtOnce(d.ledger, m), d.wire + [m], d.queue)
    else Delivery(Queued(d.ledger, d.queue, m, now), d.wire, QueueAfter(d.queue, m, now))
  }

  /** What has expired is dropped and `n` messages are sent. */
  function Flushed(d: Delivery, n: nat, now: int): Delivery
    requires |d.queue| == |d.ledger.waiting| && n <= |d.queue| - ExpiredCount(d.queue, now)
  {
    var valid := d.queue[ExpiredCount(d.queue, now)..];
    Delivery(Drained(d.ledger, d.queue, n, now), d.wire + Messages(valid[..n]), valid[n..])
  }

  /** How an account may go on: nothing that arrived is forgotten, what was sent stays sent, in
      its place, and what expired or was shifted out stays lost. */
  predicate Evolves(l: Ledger, l': Ledger) {
    && l.arrivals <= l'.arrivals && l.sent <= l'.sent && |l.fates| <= |l'.fates|
    && forall i :: 0 <= i < |l.fates| && l.fates[i] != Waiting ==> l'.fates[i] == l.fates[i]
  }

  /** The account goes on and nothing is taken back from the wire. */
  predicate Onward(d: Delivery, d': Delivery) {
    Evolves(d.ledger, d'.ledger) && d.wire <= d'.wire
  }

  lemma OnwardAgain(a: Delivery, b: Delivery, c: Delivery)
    requires Onward(a, b) && Onward(b, c)
    ensures Onward(a, c)
  {
    assert forall i :: 0 <= i < |a.ledger.fates| && a.ledger.fates[i] != Waiting ==> b.ledger.fates[i] != Waiting;
  }

  lemma SentEvolves(l: Ledger, m: Message)
    ensures Evolves(l, SentAtOnce(l, m))
  {
  }

  lemma EnqueuedEvolves(l: Ledger, m: Message)
    ensures Evolves(l, Enqueued(l, m))
  {
  }

  lemma DroppedEvolves(l: Ledger, k: nat, fate: Fate)
    requires Consistent(l) && k <= |l.waiting|
    ensures Evolves(l, Dropped(l, k, fate))
  {
    hide Increasing;
    assert forall i :: i in l.waiting[..k] ==> i in l.waiting;
  }

  lemma SentWaitingEvolves(l: Ledger, k: nat)
    requires Consistent(l) && k <= |l.waiting|
    ensures Evolves(l, SentWaiting(l, k))
  {
    hide Increasing;
    assert forall i :: i in l.waiting[..k] ==> i in l.waiting;
  }

  lemma EvolvesAgain(a: Ledger, b: Ledger, c: Ledger)
    requires Evolves(a, b) && Evolves(b, c)
    ensures Evolves(a, c)
  {
    assert forall i :: 0 <= i < |a.fates| && a.fates[i] != Waiting ==> b.fates[i] != Waiting;
  }

  lemma DeliveredOnward(d: Delivery, m: Message, open: bool, now: int)
    requires Sound(d)
    ensures Onward(d, Delivered(d, m, open, now))
  {
    var l := d.ledger;
    if open {
      SentEvolves(l, m);
    } else {
      var k := ExpiredCount(d.queue, now);
      var l1 := Dropped(l, k, Expired);
      var j := if |d.queue| - k >= MAX_QUEUE_SIZE then 1 else 0;
      var l2 := Dropped(l1, j, ShiftedOut);
      DroppedKeeps(l, k, Expired);
      DroppedEvolves(l, k, Expired);
      DroppedEvolves(l1, j, ShiftedOut);
      EnqueuedEvolves(l2, m);
      hide Evolves, Consistent, Dropped, Enqueued;
      EvolvesAgain(l, l1, l2);
      EvolvesAgain(l, l2, Enqueued(l2, m));
    }
  }

  lemma FlushedOnward(d: Delivery, n: nat, now: int)
    requires Sound(d) && n <= |d.queue| - ExpiredCount(d.queue, now)
    ensures Onward(d, Flushed(d, n, now))
  {
    var l, k := d.ledger, ExpiredCount(d.queue, now);
    var l1 := Dropped(l, k, Expired);
    DroppedKeeps(l, k, Expired);
    DroppedEvolves(l, k, Expired);
    SentWaitingEvolves(l1, n);
    hide Evolves, Consistent, Dropped, SentWaiting;
    EvolvesAgain(l, l1, SentWaiting(l1, n));
  }

  // ---------------------------------------------------------------------------------------
  // The same message several times at one instant.

  function Copies(m: Message, n: nat): (ms: seq<Message>)
    ensures |ms| == n && forall k :: 0 <= k < n ==> ms[k] == m
  {
    seq(n, _ => m)
  }

  /** The `i`th from the end of the queue was queued at `now`, and is the `i`th last arrival. */
  predicate LastAt(d: Delivery, i: nat, now: int) {
    && 1 <= i <= |d.queue| == |d.ledger.waiting| && i <= |d.ledger.arrivals|
    && d.queue[|d.queue| - i].queuedAt == now
    && d.ledger.waiting[|d.queue| - i] == |d.ledger.arrivals| - i
  }

  /** The last `n` arrivals are the last `n` in the queue, all queued at `now`. */
  predicate QueuedLast(d: Delivery, n: nat, now: int) {
    forall i :: 1 <= i <= n ==> LastAt(d, i, now)
  }

  /** From `d` to `d'` a message has been routed `n` times: it is sent as often if the socket is
      open, and else waits as often. */
  predicate Receives(d: Delivery, d': Delivery, m: Message, n: nat, open: bool, now: int) {
    && Onward(d, d') && |d'.ledger.fates| == |d'.ledger.arrivals|
    && d'.ledger.arrivals == d.ledger.arrivals + Copies(m, n)
    && d'.wire == (if open then d.wire + Copies(m, n) else d.wire)
    && (forall i :: |d.ledger.arrivals| <= i < |d'.ledger.arrivals| ==>
         d'.ledger.fates[i] == if open then Sent else Waiting)
    && (n == 0 ==> d' == d)
  }

  lemma ReceivesNone(d: Delivery, m: Message, open: bool, now: int)
    requires Sound(d)
    ensures Receives(d, d, m, 0, open, now) && QueuedLast(d, 0, now)
  {
  }

  lemma CopiesOneMore(m: Message, n: nat)
    ensures Copies(m, n) + [m] == Copies(m, n + 1)
  {
  }

  /** Queueing takes the first `j` from the queue, none of the last `n`, and appends one. */
  lemma QueueCut(d: Delivery, m: Message, n: nat, now: int) returns (j: nat)
    requires |d.queue| == |d.ledger.waiting| && QueuedLast(d, n, now)
    requires n < MAX_QUEUE_SIZE && |d.queue| <= MAX_QUEUE_SIZE
    ensures n <= |d.queue| && j <= |d.queue| - n
    ensures var e := Delivered(d, m, false, now);
            && e.queue == d.queue[j..] + [QueuedMessage(m, now)] && e.ledger.arrivals == d.ledger.arrivals + [m]
            && e.ledger.waiting == d.ledger.waiting[j..] + [|d.ledger.arrivals|]
  {
    var k := ExpiredCount(d.queue, now);
    j := if |d.queue| - k >= MAX_QUEUE_SIZE then k + 1 else k;
    assert n > 0 ==> LastAt(d, n, now);
    assert n > 0 ==> !IsExpired(d.queue[|d.queue| - n], now);
    assert k <= |d.queue| - n;
    hide ExpiredCount, LastAt;
    assert d.ledger.waiting[k..][j - k..] == d.ledger.waiting[j..];
  }

  /** Fewer than fifty messages queued at one instant all stay in the queue when one more is. */
  lemma QueuedLastGrows(d: Delivery, m: Message, n: nat, now: int)
    requires |d.queue| == |d.ledger.waiting| && QueuedLast(d, n, now)
    requires n < MAX_QUEUE_SIZE && |d.queue| <= MAX_QUEUE_SIZE
    ensures QueuedLast(Delivered(d, m, false, now), n + 1, now)
  {
    var j := QueueCut(d, m, n, now);
    var e := Delivered(d, m, false, now);
    hide Delivered, LastAt;
    forall i | 1 <= i <= n + 1
      ensures LastAt(e, i, now)
    {
      assert i > 1 ==> LastAt(d, i - 1, now);
      LastMoves(d, e, j, m, i, now);
    }
  }

  lemma LastMoves(d: Delivery, e: Delivery, j: nat, m: Message, i: nat, now: int)
    requires j <= |d.queue| == |d.ledger.waiting| && e.queue == d.queue[j..] + [QueuedMessage(m, now)]
    requires e.ledger.waiting == d.ledger.waiting[j..] + [|d.ledger.arrivals|]
    requires e.ledger.arrivals == d.ledger.arrivals + [m]
    requires i == 1 || (i > 1 && LastAt(d, i - 1, now) && i - 1 <= |d.queue| - j)
    ensures LastAt(e, i, now)
  {
  }

  /** Those queued last wait. */
  lemma WaitingLast(d: Delivery, n: nat, now: int, i: nat)
    requires Sound(d) && QueuedLast(d, n, now) && |d.ledger.arrivals| - n <= i < |d.ledger.arrivals|
    ensures d.ledger.fates[i] == Waiting
  {
    var k := |d.ledger.arrivals| - i;
    assert LastAt(d, k, now);
    assert d.ledger.waiting[|d.queue| - k] == i;
    hide Increasing;
  }

  lemma DeliveredShape(d: Delivery, m: Message, open: bool, now: int)
    requires Sound(d) && Sound(Delivered(d, m, open, now))
    ensures var e := Delivered(d, m, open, now);
            && Onward(d, e) && |e.ledger.fates| == |e.ledger.arrivals|
            && e.ledger.arrivals == d.ledger.arrivals + [m]
            && e.wire == (if open then d.wire + [m] else d.wire)
            && (open ==> e.ledger.fates == d.ledger.fates + [Sent])
  {
    DeliveredOnward(d, m, open, now);
    hide Increasing;
  }

  lemma ReceivesOneMore(a: Delivery, b: Delivery, m: Message, n: nat, open: bool, now: int)
    requires Receives(a, b, m, n, open, now) && Sound(b) && (open || QueuedLast(b, n, now))
    requires n < MAX_QUEUE_SIZE && |b.queue| <= MAX_QUEUE_SIZE && Sound(Delivered(b, m, open, now))
    ensures Receives(a, Delivered(b, m, open, now), m, n + 1, open, now)
    ensures !open ==> QueuedLast(Delivered(b, m, open, now), n + 1, now)
  {
    var c := Delivered(b, m, open, now);
    DeliveredShape(b, m, open, now);
    OnwardAgain(a, b, c);
    CopiesOneMore(m, n);
    if !open {
      QueuedLastGrows(b, m, n, now);
      hide Delivered, QueuedLast, Onward, Sound;
      forall i | |a.ledger.arrivals| <= i < |c.ledger.arrivals|
        ensures c.ledger.fates[i] == Waiting
      {
        WaitingLast(c, n + 1, now, i);
      }
    } else {
      hide Delivered, QueuedLast, Onward, Sound;
    }
  }

  /** The same while more may come: those that wait are the last in the queue. */
  predicate Receiving(a: Delivery, b: Delivery, m: Message, n: nat, open: bool, now: int) {
    Receives(a, b, m, n, open, now) && (open || QueuedLast(b, n, now))
  }

  lemma ReceivingNone(d: Delivery, m: Message, open: bool, now: int)
    requires Sound(d)
    ensures Receiving(d, d, m, 0, open, now)
  {
    ReceivesNone(d, m, open, now);
  }

  lemma Received(a: Delivery, b: Delivery, m: Message, n: nat, open: bool, now: int)
    requires Receiving(a, b, m, n, open, now)
    ensures Receives(a, b, m, n, open, now)
  {
    hide Receives, QueuedLast;
  }

  lemma ReceivingOneMore(a: Delivery, b: Delivery, m: Message, n: nat, open: bool, now: int)
    requires Receiving(a, b, m, n, open, now) && n < MAX_QUEUE_SIZE
    requires Sound(b) && |b.queue| <= MAX_QUEUE_SIZE && Sound(Delivered(b, m, open, now))
    ensures Receiving(a, Delivered(b, m, open, now), m, n + 1, open, now)
  {
    hide Receives, Sound, Delivered, QueuedLast;
    ReceivesOneMore(a, b, m, n, open, now);
  }
}
