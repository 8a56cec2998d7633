/** How the bridge routes a Matrix message: to the owner of its room, or to whom it mentions. */
module BridgeRouting {
  import opened Prelude
  import opened SenderFilter
  import opened BridgeLedger
  import opened BridgeDelivery
  import opened BridgeTables
  import opened BridgeRegistry
  import EventDedup

  /** A timeline event, with the identities that are mentioned in it. */
  datatype MatrixEvent = MatrixEvent(
    sender: Option<string>, kind: string, msgtype: string, id: string, roomId: string,
    body: string, mentionUserIds: seq<string>, mentions: seq<string>, senderName: string)

  function SenderMxid(e: MatrixEvent): string {
    if e.sender.None? || e.sender.value == "" then "unknown" else e.sender.value
  }

  function MessageOf(e: MatrixEvent): Message {
    Message(e.roomId, e.senderName, SenderMxid(e), e.body, e.id)
  }

  /** The bridge looks at text messages of others. */
  predicate IsText(e: MatrixEvent, own: Option<string>) {
    e.sender != own && e.kind == "m.room.message" && (e.msgtype == "m.text" || e.msgtype == "m.notice")
  }

  /** What became of an event: not looked at, a duplicate, refused by the owner's room, routed to
      the owner, or routed once for every mention. */
  datatype Outcome =
    | Ignored
    | Duplicate
    | Refused(why: Admission)
    | ToOwner(owner: Registration)
    | ToMentioned(targets: seq<Option<Registration>>)

  /** Mentions are collected in a set. */
  predicate DistinctMentions(e: MatrixEvent) {
    forall j, k :: 0 <= j < k < |e.mentions| ==> e.mentions[j] != e.mentions[k]
  }

  /** How often a registration is among the targets. */
  function Hits(targets: seq<Option<Registration>>, r: Registration): nat {
    if targets == [] then 0
    else Hits(targets[..|targets| - 1], r) + if targets[|targets| - 1] == Some(r) then 1 else 0
  }

  /** How often an event is sent to, or queued on, a registration. */
  function Routed(o: Outcome, r: Registration): nat {
    match o
    case ToOwner(owner) => if owner == r then 1 else 0
    case ToMentioned(targets) => Hits(targets, r)
    case _ => 0
  }

  class Router {
    const registry: Registry
    const dedup: EventDedup.BridgeDedup
    /** The bridge's own user, once the client has started, and the users of the agents. */
    var own: Option<string>
    var agentBotMxids: set<string>

    /** The deduplicator remembers what it was asked, in order, up to the given time. */
    ghost predicate Remembering(clock: int)
      reads dedup
    {
      && dedup.Valid() && dedup.ttl == EventDedup.PROCESSED_EVENT_TTL_MS
      && EventDedup.Ordered(dedup.trace) && forall k :: 0 <= k < |dedup.trace| ==> dedup.trace[k].at <= clock
    }

    ghost predicate Valid()
      reads this, registry, registry.listed.Keys, dedup
    {
      registry.Valid() && Remembering(registry.clock)
    }

    constructor (registry: Registry)
      requires registry.Valid()
      ensures Valid() && this.registry == registry && fresh(dedup) && dedup.trace == [] && own == None
              && agentBotMxids == {}
    {
      this.registry, own, agentBotMxids := registry, None, {};
      dedup := new EventDedup.BridgeDedup(EventDedup.PROCESSED_EVENT_TTL_MS, EventDedup.PRUNE_ABOVE);
    }

    /** Whether the owner of a room receives the event. */
    function AdmissionOf(owner: Registration, e: MatrixEvent): Admission
      reads this
    {
      IsAdmissibleForRoomDelivery(SenderMxid(e), e.body, e.mentionUserIds,
        DeriveMatrixIdentities(owner.directory, registry.domain), agentBotMxids, registry.domain)
    }

    /** A fresh event in a registered room goes exactly once to the live registration of the room, if
        and only if it is admitted; in another room it goes once for every mention other than of the
        sender to a live registration with that identity, if and only if there is one.  Where it
        goes it is sent if the socket is open, and else waits; every other account is untouched. */
    method HandleMatrixMessage(e: MatrixEvent, now: int) returns (o: Outcome)
      requires Valid() && registry.clock <= now && DistinctMentions(e)
      modifies registry`clock, registry`identityToRegistration, dedup, registry.listed.Keys`messageQueue,
        registry.listed.Keys`ledger, registry.listed.Keys`clock, registry.listed.Keys`wire,
        registry.listed.Keys`lastSeen
      ensures Valid() && registry.clock == now
      ensures o.Ignored? <==> !IsText(e, own)
      ensures dedup.trace == if o.Ignored? then old(dedup.trace) else old(dedup.trace) + [EventDedup.Event(e.id, now)]
      ensures !o.Ignored? ==> (o.Duplicate? <==> !EventDedup.Accepted(dedup.ttl, dedup.trace))
      ensures !o.Ignored? && !o.Duplicate? ==>
                if e.roomId in old(registry.roomToRegistration) then
                  var owner := old(registry.roomToRegistration)[e.roomId];
                  && owner in registry.listed && e.roomId in registry.listed[owner]
                  && o == if AdmissionOf(owner, e) == Admit then ToOwner(owner) else Refused(AdmissionOf(owner, e))
                else o.ToMentioned? && Targeted(o.targets, e)
      ensures forall r :: r in registry.listed ==>
                Receives(old(r.State()), r.State(), MessageOf(e), Routed(o, r), r.IsOpen(registry.open), now)
      ensures forall r :: r in registry.listed && Routed(o, r) == 0 ==> unchanged(r)
      ensures registry.listed == old(registry.listed) && registry.roomToRegistration == old(registry.roomToRegistration)
    {
      hide Registry.Valid, Remembering, Targeted, IsAdmissibleForRoomDelivery, DeriveMatrixIdentities,
        EventDedup.Accepted, Receives, MessageOf, DistinctMentions;
      registry.Wait(now);
      NothingYet(MessageOf(e), now);
      Later(old(registry.clock), now);
      if e.sender == own || e.kind != "m.room.message" || (e.msgtype != "m.text" && e.msgtype != "m.notice") {
        return Ignored;
      }
      var accepted := IsFresh(e.id, now);
      if !accepted {
        return Duplicate;
      }
      if e.roomId in registry.roomToRegistration {
        o := RouteToOwner(e, now);
      } else {
        var targets := RouteMentions(e, now);
        o := ToMentioned(targets);
      }
    }

    lemma Later(clock: int, now: int)
      requires Remembering(clock) && clock <= now
      ensures Remembering(now)
    {
      hide EventDedup.Ordered;
    }

    method IsFresh(id: string, now: int) returns (accepted: bool)
      requires Remembering(now)
      modifies dedup
      ensures Remembering(now) && dedup.trace == old(dedup.trace) + [EventDedup.Event(id, now)]
      ensures accepted == EventDedup.Accepted(dedup.ttl, dedup.trace)
    {
      hide EventDedup.Accepted;
      accepted := dedup.Handle(id, now);
    }

    /** The room of the event is registered. */
    method RouteToOwner(e: MatrixEvent, now: int) returns (o: Outcome)
      requires registry.Valid() && registry.clock == now && e.roomId in registry.roomToRegistration
      modifies registry`clock, registry.listed.Keys`messageQueue, registry.listed.Keys`ledger,
        registry.listed.Keys`clock, registry.listed.Keys`wire, registry.listed.Keys`lastSeen
      ensures registry.Valid() && registry.clock == now
      ensures var owner := registry.roomToRegistration[e.roomId];
              && owner in registry.listed && e.roomId in registry.listed[owner]
              && o == if AdmissionOf(owner, e) == Admit then ToOwner(owner) else Refused(AdmissionOf(owner, e))
      ensures forall r :: r in registry.listed ==>
                Receives(old(r.State()), r.State(), MessageOf(e), Routed(o, r), r.IsOpen(registry.open), now)
      ensures forall r :: r in registry.listed && Routed(o, r) == 0 ==> unchanged(r)
    {
      hide Registry.Valid, IsAdmissibleForRoomDelivery, DeriveMatrixIdentities, Receives, Delivered, Sound, QueuedLast,
        MessageOf;
      NothingYet(MessageOf(e), now);
      SoundThen();
      var owner := registry.roomToRegistration[e.roomId];
      registry.RoomIsLive(e.roomId);
      var admission := AdmissionOf(owner, e);
      if admission != Admit {
        return Refused(admission);
      }
      ghost var before, open := owner.State(), owner.IsOpen(registry.open);
      var sent := registry.Deliver(owner, MessageOf(e), now);
      SoundThen();
      ReceivesOneMore(before, before, MessageOf(e), 0, open, now);
      o := ToOwner(owner);
    }

    /** Every mention has its target. */
    ghost predicate Targeted(targets: seq<Option<Registration>>, e: MatrixEvent)
      reads registry`listed
    {
      && |targets| == |e.mentions|
      && forall k :: 0 <= k < |targets| ==> RightTarget(targets[k], e.mentions[k], SenderMxid(e))
    }

    ghost predicate RightTarget(target: Option<Registration>, mention: string, sender: string)
      reads registry`listed
    {
      && (target.None? <==> mention == sender || forall r :: r in registry.listed ==> !registry.Has(r, mention))
      && (target.Some? ==> target.value in registry.listed && registry.Has(target.value, mention))
    }

    lemma NothingYet(m: Message, now: int)
      requires registry.Valid()
      ensures forall r :: r in registry.listed ==> Receives(r.State(), r.State(), m, 0, r.IsOpen(registry.open), now)
      ensures forall r :: r in registry.listed ==> Receiving(r.State(), r.State(), m, 0, r.IsOpen(registry.open), now)
    {
      SoundThen();
      hide Registry.Valid, Sound, Receives, Receiving;
      forall r | r in registry.listed
        ensures Receives(r.State(), r.State(), m, 0, r.IsOpen(registry.open), now)
        ensures Receiving(r.State(), r.State(), m, 0, r.IsOpen(registry.open), now)
      {
        ReceivesNone(r.State(), m, r.IsOpen(registry.open), now);
        ReceivingNone(r.State(), m, r.IsOpen(registry.open), now);
      }
    }

    lemma SoundThen()
      requires registry.Valid()
      ensures forall r :: r in registry.listed ==> Sound(r.State()) && |r.messageQueue| <= MAX_QUEUE_SIZE
    {
      hide Inv, Sound;
      registry.SoundAll();
    }

    method RouteMentions(e: MatrixEvent, now: int) returns (targets: seq<Option<Registration>>)
      requires registry.Valid() && registry.clock == now && DistinctMentions(e)
      modifies registry`clock, registry`identityToRegistration, registry.listed.Keys`messageQueue,
        registry.listed.Keys`ledger, registry.listed.Keys`clock, registry.listed.Keys`wire,
        registry.listed.Keys`lastSeen
      ensures registry.Valid() && registry.clock == now && Targeted(targets, e)
      ensures forall r :: r in registry.listed ==>
                Receives(old(r.State()), r.State(), MessageOf(e), Hits(targets, r), r.IsOpen(registry.open), now)
      ensures forall r :: r in registry.listed && Hits(targets, r) == 0 ==> unchanged(r)
    {
      hide Registry.Valid, MessageOf, Receiving, Receives, DistinctMentions, RightTarget, Hits;
      ghost var m := MessageOf(e);
      NothingYet(m, now);
      targets := [];
      HitsNone();
      for k := 0 to |e.mentions|
        invariant registry.Valid() && registry.clock == now
        invariant |targets| == k && forall j :: 0 <= j < k ==> RightTarget(targets[j], e.mentions[j], SenderMxid(e))
        invariant forall r :: r in registry.listed ==>
                    Receiving(old(r.State()), r.State(), m, Hits(targets, r), r.IsOpen(registry.open), now)
        invariant forall r :: r in registry.listed && Hits(targets, r) == 0 ==> unchanged(r)
      {
        label before:
        HitsFew(e, targets);
        var target := RouteOne(e.mentions[k], SenderMxid(e), MessageOf(e), now);
        forall r | r in registry.listed
          ensures Receiving(old(r.State()), r.State(), m, Hits(targets + [target], r), r.IsOpen(registry.open), now)
          ensures Hits(targets + [target], r) == 0 ==> unchanged(r)
        {
          HitsSnoc(targets, target, r);
          if target == Some(r) {
            ReceivingOneMore(old(r.State()), old@before(r.State()), m, Hits(targets, r), r.IsOpen(registry.open), now);
          } else {
            assert r.State() == old@before(r.State());
          }
        }
        targets := targets + [target];
      }
      forall r | r in registry.listed
        ensures Receives(old(r.State()), r.State(), m, Hits(targets, r), r.IsOpen(registry.open), now)
      {
        Received(old(r.State()), r.State(), m, Hits(targets, r), r.IsOpen(registry.open), now);
      }
    }

    /** Every registration is the target of at most two mentions, one for each of its identities. */
    lemma HitsFew(e: MatrixEvent, targets: seq<Option<Registration>>)
      requires DistinctMentions(e) && |targets| <= |e.mentions|
      requires forall j :: 0 <= j < |targets| ==> RightTarget(targets[j], e.mentions[j], SenderMxid(e))
      ensures forall r :: r in registry.listed ==> Hits(targets, r) <= 2
    {
      hide DeriveMatrixIdentities;
      forall r | r in registry.listed
        ensures Hits(targets, r) <= 2
      {
        HitsWithin(targets, e.mentions, r, DeriveMatrixIdentities(r.directory, registry.domain));
      }
    }

    /** One mention; the sender's own is passed over. */
    method RouteOne(mention: string, sender: string, m: Message, now: int) returns (target: Option<Registration>)
      requires registry.Valid() && registry.clock == now
      modifies registry`clock, registry`identityToRegistration, registry.listed.Keys`messageQueue,
        registry.listed.Keys`ledger, registry.listed.Keys`clock, registry.listed.Keys`wire,
        registry.listed.Keys`lastSeen
      ensures registry.Valid() && registry.clock == now && RightTarget(target, mention, sender)
      ensures forall r :: r in registry.listed && target == Some(r) ==>
                && Sound(old(r.State())) && |old(r.messageQueue)| <= MAX_QUEUE_SIZE && Sound(r.State())
                && r.State() == Delivered(old(r.State()), m, r.IsOpen(registry.open), now)
      ensures forall r :: r in registry.listed && target != Some(r) ==> unchanged(r)
    {
      SoundThen();
      assert forall r :: r in registry.listed ==> |r.messageQueue| == |r.ledger.waiting|;
      hide Registry.Valid, Registry.Has, Remembered, Delivered, Sound;
      if mention == sender {
        return None;
      }
      target := registry.RouteMention(mention, m, now);
      SoundThen();
    }
  }

  lemma HitsNone()
    ensures forall r :: Hits([], r) == 0
  {
  }

  lemma HitsSnoc(targets: seq<Option<Registration>>, target: Option<Registration>, r: Registration)
    ensures Hits(targets + [target], r) == Hits(targets, r) + if target == Some(r) then 1 else 0
  {
    assert (targets + [target])[..|targets|] == targets;
  }

  /** The identities that are mentioned. */
  function Among(mentions: seq<string>, identities: seq<string>): set<string> {
    set m | m in mentions && m in identities
  }

  lemma {:induction false} HitsWithin(targets: seq<Option<Registration>>, mentions: seq<string>, r: Registration,
          identities: seq<string>)
    requires |targets| <= |mentions| && |identities| == 2
    requires forall j, k :: 0 <= j < k < |mentions| ==> mentions[j] != mentions[k]
    requires forall j :: 0 <= j < |targets| && targets[j] == Some(r) ==> mentions[j] in identities
    ensures Hits(targets, r) <= |Among(mentions[..|targets|], identities)| <= 2
  {
    var n := |targets|;
    var now := Among(mentions[..n], identities);
    AtMostTwo(now, identities);
    if n > 0 {
      HitsWithin(targets[..n - 1], mentions, r, identities);
      var before := Among(mentions[..n - 1], identities);
      assert mentions[..n] == mentions[..n - 1] + [mentions[n - 1]];
      assert mentions[n - 1] !in before;
      if targets[n - 1] == Some(r) {
        assert now == before + {mentions[n - 1]};
      } else {
        assert now == before || now == before + {mentions[n - 1]};
      }
    }
  }

  lemma AtMostTwo(s: set<string>, identities: seq<string>)
    requires |identities| == 2 && forall m :: m in s ==> m in identities
    ensures |s| <= 2
  {
    var all := {identities[0], identities[1]};
    assert s <= all;
    assert all == s + (all - s);
  }
}
