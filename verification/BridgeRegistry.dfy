/** The bridge's registrations and the handlers that change them, in place. */
module BridgeRegistry {
  import opened Prelude
  import opened SenderFilter
  import opened BridgeLedger
  import opened BridgeDelivery
  import opened BridgeTables

  const STALE_TIMEOUT := 900000

  /** `m` without what leads to `r` under one of the keys. */
  function Disowned(m: map<string, Registration>, keys: seq<string>, r: Registration): map<string, Registration> {
    map k | k in m && !(k in keys && m[k] == r) :: m[k]
  }

  lemma SetAllSnoc(m: map<string, Registration>, keys: seq<string>, key: string, r: Registration)
    ensures SetAll(m, keys + [key], r) == SetAll(m, keys, r)[key := r]
    ensures SetAll(m, [], r) == m
  {
    assert forall k :: k in keys + [key] <==> k in keys || k == key;
  }

  class Registry {
    const domain: string
    var registrations: map<string, Registration>
    var identityToRegistration: map<string, Registration>
    var roomToRegistration: map<string, Registration>
    var directoryToRegistration: map<string, Registration>
    /** The sockets whose state is OPEN. */
    var open: set<nat>
    /** The live registrations with the rooms that they list. */
    ghost var listed: map<Registration, seq<string>>
    ghost var clock: int

    ghost function View(): Tables
      reads `registrations, `identityToRegistration, `roomToRegistration, `directoryToRegistration, `listed
    {
      Tables(registrations, identityToRegistration, roomToRegistration, directoryToRegistration, listed, domain)
    }

    /** The registrations list these rooms, their accounts are in order, and nothing waits behind
        an open socket. */
    ghost predicate Backed(rooms: map<Registration, seq<string>>)
      reads `open, `clock, rooms.Keys
    {
      forall r :: r in rooms ==> r.rooms == rooms[r] && r.Steady(open, clock)
    }

    ghost predicate Valid()
      reads this, listed.Keys
    {
      Inv(View()) && Backed(listed)
    }

    constructor (domain: string, now: int)
      ensures Valid() && View() == Tables(map[], map[], map[], map[], map[], domain)
      ensures open == {} && clock == now
    {
      this.domain, open, clock := domain, {}, now;
      registrations, identityToRegistration, roomToRegistration, directoryToRegistration := map[], map[], map[], map[];
      listed := map[];
    }

    static method DeleteOwned(m: map<string, Registration>, keys: seq<string>, r: Registration)
      returns (n: map<string, Registration>)
      ensures n == Disowned(m, keys, r)
    {
      n := m;
      for i := 0 to |keys|
        invariant n == Disowned(m, keys[..i], r)
      {
        if keys[i] in n && n[keys[i]] == r {
          n := n - {keys[i]};
        }
      }
      assert keys[..|keys|] == keys;
    }

    static method DeleteEach(m: map<string, Registration>, keys: seq<string>) returns (n: map<string, Registration>)
      ensures n == DropAll(m, keys)
    {
      n := m;
      for i := 0 to |keys|
        invariant n == DropAll(m, keys[..i])
      {
        n := n - {keys[i]};
      }
      assert keys[..|keys|] == keys;
    }

    static method SetEach(m: map<string, Registration>, keys: seq<string>, r: Registration)
      returns (n: map<string, Registration>)
      ensures n == SetAll(m, keys, r)
    {
      SetAllSnoc(m, [], "", r);
      hide SetAll;
      n := m;
      for i := 0 to |keys|
        invariant n == SetAll(m, keys[..i], r)
      {
        SetAllSnoc(m, keys[..i], keys[i], r);
        assert keys[..i + 1] == keys[..i] + [keys[i]];
        n := n[keys[i] := r];
      }
      assert keys[..|keys|] == keys;
    }

    /** A socket leaves the state OPEN. */
    method Close(ws: Option<nat>, ghost rooms: map<Registration, seq<string>>)
      requires Backed(rooms)
      modifies `open
      ensures Backed(rooms)
      ensures open == if ws.Some? then old(open) - {ws.value} else old(open)
    {
      hide OpenCodeRegistration.Steady;
      if ws.Some? {
        forall q | q in rooms
          ensures q.Steady(open - {ws.value}, clock)
        {
          SteadyOn(q, open, {ws.value}, clock, clock);
        }
        open := open - {ws.value};
      }
    }

    /** The handler's step: all tables change at once. */
    method Replace(live: map<string, Registration>, byIdentity: map<string, Registration>,
            byRoom: map<string, Registration>,
                   byDirectory: map<string, Registration>, ghost rooms: map<Registration, seq<string>>)
      requires Backed(rooms)
      modifies `registrations, `identityToRegistration, `roomToRegistration, `directoryToRegistration, `listed
      ensures Backed(listed) && View() == Tables(live, byIdentity, byRoom, byDirectory, rooms, domain)
    {
      registrations, identityToRegistration, roomToRegistration, directoryToRegistration := live, byIdentity, byRoom,
        byDirectory;
      listed := rooms;
    }

    lemma BackedLess(rooms: map<Registration, seq<string>>, gone: set<Registration>)
      requires Backed(rooms)
      ensures Backed(rooms - gone)
    {
    }

    lemma SoundAll()
      requires Backed(listed)
      ensures forall r :: r in listed ==> Sound(r.State()) && |r.messageQueue| <= MAX_QUEUE_SIZE
    {
      hide Sound;
    }

    lemma ListsRooms(r: Registration)
      requires Backed(listed) && r in listed
      ensures r.rooms == listed[r] && r.Valid() && r.Flowing(open) && r.clock <= clock
    {
    }

    /** A live registration goes, with everything that leads to it; its socket is closed. */
    method Forget(r: Registration)
      requires Valid() && r in listed
      modifies `registrations, `identityToRegistration, `roomToRegistration, `directoryToRegistration, `listed, `open
      ensures Valid() && View() == Without(old(View()), {r})
      ensures open == if r.ws.Some? then old(open) - {r.ws.value} else old(open)
    {
      hide Inv, DeriveMatrixIdentities, Without, Disowned, Backed;
      ghost var t := View();
      ListsRooms(r);
      ForgottenIsWithout(t, r);
      WithoutKeeps(t, {r});
      var identities := DeleteOwned(identityToRegistration, DeriveMatrixIdentities(r.directory, domain), r);
      var rooms := DeleteOwned(roomToRegistration, r.rooms, r);
      Close(r.ws, listed);
      BackedLess(listed, {r});
      Replace(registrations - {r.id}, identities, rooms, directoryToRegistration - {r.directory}, listed - {r});
    }

    /** The registrations under the given ids go. */
    method ForgetAll(ids: set<string>)
      requires Valid() && ids <= registrations.Keys
      modifies `registrations, `identityToRegistration, `roomToRegistration, `directoryToRegistration, `listed, `open
      ensures Valid() && View() == Without(old(View()), Under(old(View()), ids))
      ensures open == old(open) - Sockets(Under(old(View()), ids))
    {
      hide Inv, Without, Backed, Under, Sockets;
      ghost var t := View();
      var todo := ids;
      WithoutNone(t);
      UnderNone(t);
      NoSockets();
      while todo != {}
        invariant Valid() && todo <= ids && View() == Without(t, Under(t, ids - todo))
        invariant open == old(open) - Sockets(Under(t, ids - todo))
        decreases todo
      {
        var i :| i in todo;
        ghost var gone := ids - todo;
        StillLive(t, gone, i);
        WithoutTwice(t, Under(t, gone), {t.live[i]});
        UnderOneMore(t, gone, i);
        todo := todo - {i};
        assert ids - todo == gone + {i};
        label before:
        Forget(registrations[i]);
        assert Sockets(Under(t, gone)) == old@before(Sockets(Under(t, gone)));
        SocketsMore(Under(t, gone), t.live[i]);
        assert open == old(open) - Sockets(Under(t, gone) + {t.live[i]});
      }
      assert ids - todo == ids;
    }

    /** Time passes. */
    ghost method Tick(now: int)
      requires Backed(listed) && clock <= now
      modifies `clock
      ensures Backed(listed) && clock == now
    {
      hide OpenCodeRegistration.Steady;
      forall q | q in listed
        ensures q.Steady(open, now)
      {
        SteadyOn(q, open, {}, clock, now);
        assert open - {} == open;
      }
      clock := now;
    }

    ghost method Wait(now: int)
      requires Valid() && clock <= now
      modifies `clock
      ensures Valid() && clock == now
    {
      hide Inv, Backed;
      Tick(now);
    }

    /** `/unregister`. */
    method Unregister(id: string) returns (deleted: bool)
      requires Valid()
      modifies `registrations, `identityToRegistration, `roomToRegistration, `directoryToRegistration, `listed, `open
      ensures Valid() && View() == Unregistered(old(View()), id) && deleted == (id in old(registrations))
      ensures open ==
              if deleted && old(registrations)[id].ws.Some?
              then old(open) - {old(registrations)[id].ws.value}
              else old(open)
    {
      hide Inv, DeriveMatrixIdentities, Backed, DropAll, Unregistered;
      ghost var t := View();
      UnregisteredKeeps(t, id);
      UnregisteredIs(t, id);
      deleted := id in registrations;
      if deleted {
        var r := registrations[id];
        ListsRooms(r);
        var identities := DeleteEach(identityToRegistration, DeriveMatrixIdentities(r.directory, domain));
        var rooms := DeleteEach(roomToRegistration, r.rooms);
        Close(r.ws, listed);
        BackedLess(listed, {r});
        Replace(registrations - {id}, identities, rooms, directoryToRegistration - {r.directory}, listed - {r});
      }
    }

    /** The rooms of a registration change. */
    method Relist(r: Registration, rooms: seq<string>, now: int)
      requires Backed(listed)
      modifies r`rooms, r`lastSeen
      ensures Backed(listed[r := rooms]) || r !in listed
      ensures r.rooms == rooms && r.lastSeen == now
    {
      hide OpenCodeRegistration.Steady;
      r.rooms, r.lastSeen := rooms, now;
    }

    /** A live registration lists other rooms, which lead to it. */
    method SetRooms(r: Registration, rooms: seq<string>, now: int)
      requires Valid() && r in listed
      modifies `registrations, `identityToRegistration, `roomToRegistration, `directoryToRegistration, `listed, r`rooms,
        r`lastSeen
      ensures Valid() && View() == Reroomed(old(View()), r, rooms) && r.lastSeen == now
    {
      hide Inv, Backed, DropAll, SetAll;
      ReroomedKeeps(View(), r, rooms);
      ListsRooms(r);
      var dropped := DeleteEach(roomToRegistration, r.rooms);
      var entered := SetEach(dropped, rooms, r);
      Relist(r, rooms, now);
      Replace(registrations, identityToRegistration, entered, directoryToRegistration, listed[r := rooms]);
    }

    /** `/update-rooms`. */
    method UpdateRooms(directory: string, rooms: seq<string>, now: int) returns (updated: bool)
      requires Valid()
      modifies this, listed.Keys`rooms, listed.Keys`lastSeen
      ensures Valid() && View() == RoomsUpdated(old(View()), directory, rooms) && open == old(open)
      ensures updated == (directory in old(directoryToRegistration))
      ensures updated ==> old(directoryToRegistration)[directory].lastSeen == now
      ensures forall q :: q in old(listed) && !(updated && old(directoryToRegistration)[directory] == q) ==>
              unchanged(q)
    {
      hide Inv, Backed, Reroomed;
      LiveAndListed(View());
      updated := directory in directoryToRegistration;
      if updated {
        SetRooms(directoryToRegistration[directory], rooms, now);
      }
    }

    /** `cleanupStaleRegistrations`. */
    method CleanupStale(now: int) returns (ghost stale: set<string>)
      requires Valid()
      modifies `registrations, `identityToRegistration, `roomToRegistration, `directoryToRegistration, `listed, `open
      ensures Valid() && View() == Without(old(View()), Under(old(View()), stale))
      ensures open == old(open) - Sockets(Under(old(View()), stale))
      ensures forall i :: i in stale <==>
              i in old(registrations) && now - old(registrations[i].lastSeen) > STALE_TIMEOUT
    {
      var ids := set i | i in registrations && now - registrations[i].lastSeen > STALE_TIMEOUT;
      stale := ids;
      hide Inv, Without, Backed, Under, Sockets;
      ForgetAll(ids);
    }

    /** `/register`; an answer `None` is the refusal of a request without session or directory.
        The tables stay in order unless the id is taken by another directory. */
    method Register(sessionId: string, directory: string, rooms: seq<string>, now: int)
      returns (r: Option<Registration>)
      requires Valid() && clock <= now
      modifies this, listed.Keys`rooms, listed.Keys`lastSeen
      ensures Backed(listed) && clock == now
      ensures open == if r.None? then old(open)
              else old(open) - Sockets(Rivals(old(View()), directory, directory + ":" + sessionId))
      ensures r.None? <==> sessionId == "" || directory == ""
      ensures r.None? ==> View() == old(View())
      ensures forall q :: q in old(listed) && r != Some(q) ==> unchanged(q)
      ensures r.Some? ==>
                var id := directory + ":" + sessionId;
                var t := Without(old(View()), Rivals(old(View()), directory, id));
                && r.value.id == id && r.value in listed && r.value.lastSeen == now
                && if id in old(registrations)
                   then && id in t.live && t.live[id] in t.rooms && r.value == t.live[id]
                        && View() == Rejoined(t, id, directory, rooms)
                   else && fresh(r.value) && r.value.directory == directory && r.value.ws == None
                        && r.value.messageQueue == [] && View() == Entered(t, r.value, rooms)
      ensures var id := directory + ":" + sessionId;
              (r.Some? && id in old(registrations) ==> old(registrations)[id].directory == directory) ==> Valid()
    {
      hide Inv, Without, Backed, Under, Rivals, Rejoined, EnteredAs, Sockets, DeriveMatrixIdentities;
      Tick(now);
      if sessionId == "" || directory == "" {
        return None;
      }
      var id := directory + ":" + sessionId;
      ghost var t := View();
      var ids := set i | i in registrations && registrations[i].directory == directory && i != id;
      RivalsUnder(t, directory, id, ids);
      RivalsGone(t, directory, id);
      ForgetAll(ids);
      ghost var u, rivals := View(), Rivals(t, directory, id);
      label vacated:
      if id in registrations {
        var existing := registrations[id];
        LiveIsListed(t, id);
        RejoinedKeeps(u, id, directory, rooms);
        Rejoin(existing, directory, rooms, now);
        r := Some(existing);
      } else {
        var entered := Enter(directory, sessionId, rooms, DeriveMatrixIdentities(directory, domain), now);
        EnteredKeeps(u, entered, rooms);
        r := Some(entered);
      }
      assert Sockets(rivals) == old@vacated(Sockets(rivals));
    }

    /** A registration that is there already gets its rooms and its directory anew. */
    method Rejoin(r: Registration, directory: string, rooms: seq<string>, now: int)
      requires Valid() && r in listed
      modifies `registrations, `identityToRegistration, `roomToRegistration, `directoryToRegistration, `listed, r`rooms,
        r`lastSeen
      ensures r.lastSeen == now
      ensures Backed(listed) && r in listed && r.id in old(registrations) && old(registrations)[r.id] == r
      ensures View() == Rejoined(old(View()), r.id, directory, rooms)
    {
      hide Backed, DropAll, SetAll;
      assert r.id in registrations && registrations[r.id] == r;
      hide Inv;
      SetRooms(r, rooms, now);
      Replace(registrations, identityToRegistration, roomToRegistration, directoryToRegistration[directory := r],
        listed);
    }

    /** A new registration is entered in all tables. */
    method Enter(directory: string, sessionId: string, rooms: seq<string>, identities: seq<string>, lastSeen: int)
      returns (r: Registration)
      requires Backed(listed)
      modifies `registrations, `identityToRegistration, `roomToRegistration, `directoryToRegistration, `listed
      ensures fresh(r) && r.id == directory + ":" + sessionId && r.directory == directory && r.sessionId == sessionId
      ensures r.lastSeen == lastSeen && r.ws == None && r.messageQueue == [] && r.status == Disconnected
      ensures Backed(listed) && r in listed && View() == EnteredAs(old(View()), r, rooms, identities)
    {
      hide Backed, DropAll, SetAll;
      r := new OpenCodeRegistration(directory, sessionId, rooms, lastSeen, clock);
      var identified := SetEach(identityToRegistration, identities, r);
      var entered := SetEach(roomToRegistration, rooms, r);
      BackedMore(listed, r, rooms);
      Replace(registrations[r.id := r], identified, entered, directoryToRegistration[directory := r],
        listed[r := rooms]);
    }

    /** Enters the stored registrations into empty tables, with the identities that are stored or
        else derived.  The directory index is in order if and only if no two rows have one id, and
        all tables are if and only if, besides, every identity belongs to the directory of the last
        row that has it. */
    method Restore(rows: seq<Row>)
      requires Valid() && registrations == map[] && DistinctDirectories(rows)
      modifies `registrations, `identityToRegistration, `roomToRegistration, `directoryToRegistration, `listed
      ensures Backed(listed) && AllRestored(rows)
      ensures DirectoryOk(View()) <==> DistinctIds(rows)
      ensures Valid() <==> DistinctIds(rows) && Rightful(rows, domain)
    {
      hide Backed, Inv, AllRestored, Directories, Filed, DistinctIds, Rightful, DirectoryOk, DistinctDirectories;
      NoneListed(View());
      NoRows();
      Nothing(View());
      for k := 0 to |rows|
        invariant Backed(listed) && AllRestored(rows[..k]) && Filed(View(), rows[..k])
        invariant directoryToRegistration.Keys == Directories(rows[..k])
      {
        assert rows[..k + 1] == rows[..k] + [rows[k]];
        RestoreRow(rows, k);
      }
      assert rows[..|rows|] == rows;
      FiledIs(View(), rows);
    }

    lemma NoRows()
      ensures Ids([]) == {} && Directories([]) == {} && DistinctIds([])
      ensures registrations == map[] ==> AllRestored([])
    {
    }

    /** The live registrations are those of the rows, of the last one with an id. */
    ghost predicate AllRestored(rows: seq<Row>)
      reads `registrations, `listed, registrations.Values`lastSeen
    {
      && registrations.Keys == Ids(rows) && (forall i :: i in registrations ==> registrations[i].id == i)
      && forall k :: 0 <= k < |rows| && IsLast(rows, k) ==> Restored(rows[k])
    }

    /** The row has its registration. */
    ghost predicate Restored(row: Row)
      reads `registrations, `listed, registrations.Values`lastSeen
    {
      && RowId(row) in registrations && registrations[RowId(row)].directory == row.directory
      && registrations[RowId(row)] in listed && listed[registrations[RowId(row)]] == row.rooms
      && registrations[RowId(row)].lastSeen == row.updatedAt
    }

    method RestoreRow(rows: seq<Row>, k: nat)
      requires Backed(listed) && k < |rows| && DistinctDirectories(rows) && AllRestored(rows[..k])
      requires directoryToRegistration.Keys == Directories(rows[..k])
      requires Filed(View(), rows[..k])
      modifies `registrations, `identityToRegistration, `roomToRegistration, `directoryToRegistration, `listed
      ensures Backed(listed) && AllRestored(rows[..k] + [rows[k]])
      ensures directoryToRegistration.Keys == Directories(rows[..k] + [rows[k]])
      ensures Filed(View(), rows[..k] + [rows[k]])
    {
      hide Backed, RowId, AllRestored, EnteredAs, Filed, Keyed, Ids, Directories, IdentitiesOf, DistinctDirectories;
      ghost var t := View();
      IdsNew(rows, k);
      IdsSnoc(rows[..k], rows[k]);
      RestoredKeys(rows[..k]);
      var r := EnterRow(rows[..k], rows[k]);
      FiledOneMore(t, rows[..k], rows[k], r);
    }

    lemma RestoredKeys(rows: seq<Row>)
      requires AllRestored(rows)
      ensures registrations.Keys == Ids(rows) && Keyed(View())
    {
    }

    method EnterRow(ghost rows: seq<Row>, row: Row) returns (r: Registration)
      requires Backed(listed) && AllRestored(rows)
      modifies `registrations, `identityToRegistration, `roomToRegistration, `directoryToRegistration, `listed
      ensures fresh(r) && r.id == RowId(row) && r.directory == row.directory
      ensures Backed(listed) && AllRestored(rows + [row])
      ensures View() == EnteredAs(old(View()), r, row.rooms, IdentitiesOf(row, domain))
      ensures directoryToRegistration == old(directoryToRegistration)[row.directory := r]
    {
      hide Backed, RowId, IdentitiesOf;
      IdsSnoc(rows, row);
      r := Enter(row.directory, SessionOf(row), row.rooms, IdentitiesOf(row, domain), row.updatedAt);
      RowIdOf(row);
      assert Restored(row);
    }

    /** In every state, for every live registration: what went over its sockets is what was sent
        of what arrived, in order; what waits is in the queue, in order and at most fifty; and
        something waits only while the socket is not open. */
    lemma DeliversInOrder(r: Registration)
      requires Valid() && r in listed
      ensures r.wire == With(r.ledger.arrivals, r.ledger.fates, Sent)
      ensures Messages(r.messageQueue) == With(r.ledger.arrivals, r.ledger.fates, Waiting)
      ensures |r.ledger.arrivals| ==
              |r.wire| + |r.messageQueue| + |Places(r.ledger.fates, Expired)| + |Places(r.ledger.fates, ShiftedOut)|
      ensures |r.messageQueue| <= MAX_QUEUE_SIZE && (r.messageQueue != [] ==> !r.IsOpen(open))
    {
      hide Inv, With, Places, Messages;
      ListsRooms(r);
      hide Backed;
      DeliveredInOrder(r.wire, r.messageQueue, r.ledger);
    }

    /** A new connection; its socket is open and nobody's yet. */
    method Connect(ws: nat)
      requires Backed(listed) && forall r :: r in listed ==> r.ws != Some(ws)
      modifies `open
      ensures Backed(listed) && open == old(open) + {ws}
    {
      hide OpenCodeRegistration.Valid;
      open := open + {ws};
    }

    /** The registrations that an authentication may mean: the one under the id, else the one
        of the directory, else any whose id includes what was given. */
    function Lookup(registrationId: string): set<Registration>
      reads `registrations, `directoryToRegistration
    {
      if registrationId in registrations then {registrations[registrationId]}
      else if registrationId in directoryToRegistration then {directoryToRegistration[registrationId]}
      else set i | i in registrations && Includes(registrations[i].id, registrationId) :: registrations[i]
    }

    method Find(registrationId: string) returns (r: Option<Registration>)
      requires Valid()
      ensures r.None? <==> Lookup(registrationId) == {}
      ensures r.Some? ==> r.value in Lookup(registrationId) && r.value in listed
    {
      hide Inv, Backed, Includes;
      LiveAndListed(View());
      if registrationId in registrations {
        return Some(registrations[registrationId]);
      }
      if registrationId in directoryToRegistration {
        return Some(directoryToRegistration[registrationId]);
      }
      var todo := registrations.Keys;
      while todo != {}
        invariant todo <= registrations.Keys
        invariant forall i :: i in registrations && i !in todo ==> !Includes(registrations[i].id, registrationId)
        decreases todo
      {
        var i :| i in todo;
        if Includes(registrations[i].id, registrationId) {
          return Some(registrations[i]);
        }
        todo := todo - {i};
      }
      r := None;
    }

    lemma FlushedGoesOn(r: Registration, n: nat, now: int)
      requires Backed(listed) && r in listed && n <= |r.messageQueue| - ExpiredCount(r.messageQueue, now)
      ensures |r.messageQueue| == |r.ledger.waiting| && Onward(r.State(), Flushed(r.State(), n, now))
    {
      ListsRooms(r);
      hide Backed, Onward;
      FlushedOnward(r.State(), n, now);
    }

    lemma AllStay()
      ensures forall q :: q in listed ==> Onward(q.State(), q.State())
    {
    }

    /** A socket becomes the registration's and takes what waits. */
    method Attach(r: Registration, ws: nat, now: int, accepts: nat)
      requires Backed(listed) && r in listed && clock == now
      modifies `open, r
      ensures Backed(listed) && r.ws == Some(ws) && r.status == Connected && r.lastSeen == now
      ensures open <= old(open) && old(open) - {ws} <= open
      ensures r.State() == Flushed(old(r.State()), Sendable(old(r.messageQueue), now, ws in old(open), accepts), now)
    {
      hide Backed, Flushed, Sendable, OpenCodeRegistration.Valid, OpenCodeRegistration.Steady;
      BackedLess(listed, {r});
      ListsRooms(r);
      Reinserted(listed, r);
      ghost var others := listed - {r};
      var stays := r.Authenticate(ws, now, open, accepts);
      Close(if stays then None else Some(ws), others);
      BackedMore(others, r, r.rooms);
    }

    /** A socket authenticates: it becomes the registration's, which then leads its rooms and its
        directory, and what waits is sent as far as the socket lets it. */
    method Authenticate(registrationId: string, ws: nat, now: int, accepts: nat) returns (r: Option<Registration>)
      requires Valid() && clock <= now
      modifies this, listed.Keys
      ensures Valid() && clock == now && open <= old(open)
      ensures r.None? ==> View() == old(View()) && open == old(open)
      ensures r.None? <==> old(Lookup(registrationId)) == {}
      ensures r.Some? ==>
                && r.value in old(Lookup(registrationId)) && r.value in old(listed)
                && View() == Authenticated(old(View()), r.value)
                && r.value.ws == Some(ws) && r.value.status == Connected && r.value.lastSeen == now
                && (forall w :: w in old(open) && w != ws ==> (w in open <==> old(r.value.ws) != Some(w)))
                && var n := Sendable(old(r.value.messageQueue), now, ws in old(open), accepts);
                   r.value.State() == Flushed(old(r.value.State()), n, now)
      ensures forall q :: q in old(listed) && r != Some(q) ==> unchanged(q)
      ensures forall q :: q in old(listed) ==> Onward(old(q.State()), q.State())
    {
      hide Inv, Backed, Flushed, Sendable, SetAll, Onward;
      AllStay();
      r := Find(registrationId);
      Tick(now);
      if r.Some? {
        var reg := r.value;
        AuthenticatedKeeps(View(), reg);
        ListsRooms(reg);
        FlushedGoesOn(reg, Sendable(reg.messageQueue, now, ws in open, accepts), now);
        var rooms := SetEach(roomToRegistration, reg.rooms, reg);
        Replace(registrations, identityToRegistration, rooms, directoryToRegistration[reg.directory := reg], listed);
        Close(if reg.ws == Some(ws) then None else reg.ws, listed);
        Attach(reg, ws, now, accepts);
      }
    }

    /** A socket has closed; the registration that it last authenticated for, if it is still
        the registration's, is degraded. */
    method SocketClosed(r: Option<Registration>, ws: nat)
      requires Valid()
      modifies `open, (if r.Some? then {r.value} else {})`ws, (if r.Some? then {r.value} else {})`status
      ensures Valid() && open == old(open) - {ws} && View() == old(View())
      ensures r.Some? ==> r.value.ws == if old(r.value.ws) == Some(ws) then None else old(r.value.ws)
      ensures r.Some? ==> r.value.status == if old(r.value.ws) == Some(ws) then Degraded else old(r.value.status)
    {
      hide Inv, OpenCodeRegistration.Valid;
      Close(Some(ws), listed);
      if r.Some? && r.value.ws == Some(ws) {
        r.value.ws, r.value.status := None, Degraded;
      }
    }

    /** A message reaches a live registration: it is sent if the socket is open, else it waits. */
    method Deliver(r: Registration, m: Message, now: int) returns (sent: bool)
      requires Valid() && r in listed && clock <= now
      modifies `clock, r`messageQueue, r`ledger, r`clock, r`wire, r`lastSeen
      ensures Valid() && clock == now && sent == r.IsOpen(open) && r.lastSeen == if sent then now else old(r.lastSeen)
      ensures r.State() == Delivered(old(r.State()), m, sent, now)
    {
      hide Inv, Backed, Delivered, OpenCodeRegistration.Valid, OpenCodeRegistration.Flowing;
      Tick(now);
      BackedLess(listed, {r});
      ListsRooms(r);
      Reinserted(listed, r);
      ghost var others := listed - {r};
      sent := r.Deliver(m, now, open);
      BackedMore(others, r, r.rooms);
    }

    lemma RoomIsLive(room: string)
      requires Valid() && room in roomToRegistration
      ensures roomToRegistration[room] in listed && room in listed[roomToRegistration[room]]
    {
    }

    /** The registration's directory has the identity. */
    predicate Has(r: Registration, mention: string)
    {
      mention in DeriveMatrixIdentities(r.directory, domain)
    }

    /** A message for one identity: to the registration that the identity leads to, else to a
        live one that has it, preferably one whose socket is open. */
    method RouteMention(mention: string, m: Message, now: int) returns (target: Option<Registration>)
      requires Valid() && clock <= now
      modifies `clock, `identityToRegistration, listed.Keys`messageQueue, listed.Keys`ledger, listed.Keys`clock,
        listed.Keys`wire, listed.Keys`lastSeen
      ensures Valid() && clock == now
      ensures target.None? <==> forall r :: r in listed ==> !Has(r, mention)
      ensures target.Some? ==> target.value in listed && Has(target.value, mention)
      ensures target.Some? ==>
                target.value.State() == Delivered(old(target.value.State()), m, target.value.IsOpen(open), now)
      ensures forall r :: r in listed && target != Some(r) ==> unchanged(r)
      ensures target.Some? && mention in old(identityToRegistration) ==>
              target.value == old(identityToRegistration)[mention]
      ensures mention !in old(identityToRegistration) ==>
                forall r :: r in listed && Has(r, mention) && r.IsOpen(open) ==> target.value.IsOpen(open)
      ensures View() == if target.Some? then Remembered(old(View()), mention, target.value) else old(View())
    {
      hide Inv, Backed, OpenCodeRegistration.Valid, OpenCodeRegistration.State, DeriveMatrixIdentities, Delivered;
      IdentityIsLive(View(), mention);
      if mention in identityToRegistration {
        var r := identityToRegistration[mention];
        var sent := Deliver(r, m, now);
        assert identityToRegistration[mention := r] == identityToRegistration;
        return Some(r);
      }
      target := FindByIdentity(mention);
      if target.Some? {
        RememberedKeeps(View(), mention, target.value);
        var sent := Deliver(target.value, m, now);
        identityToRegistration := identityToRegistration[mention := target.value];
      } else {
        Tick(now);
      }
    }

    /** The scan of all registrations: the first that has the identity and an open socket, else
        the last that has it. */
    method FindByIdentity(mention: string) returns (r: Option<Registration>)
      requires Valid()
      ensures r.None? <==> forall q :: q in listed ==> !Has(q, mention)
      ensures r.Some? ==> r.value in listed && Has(r.value, mention)
      ensures (exists q :: q in listed && Has(q, mention) && q.IsOpen(open)) ==> r.value.IsOpen(open)
    {
      hide Inv, Backed, Registry.Has, OpenCodeRegistration.IsOpen;
      LiveAndListed(View());
      r := None;
      var todo := registrations.Keys;
      while todo != {}
        invariant todo <= registrations.Keys
        invariant r.Some? ==> r.value in listed && Has(r.value, mention) && !r.value.IsOpen(open)
        invariant forall i :: i in registrations && i !in todo && Has(registrations[i], mention) ==>
                  r.Some? && !registrations[i].IsOpen(open)
        decreases todo
      {
        var i :| i in todo;
        todo := todo - {i};
        if Has(registrations[i], mention) {
          r := Some(registrations[i]);
          if registrations[i].IsOpen(open) {
            return;
          }
        }
      }
    }

    lemma BackedMore(rooms: map<Registration, seq<string>>, r: Registration, list: seq<string>)
      requires Backed(rooms) && r.rooms == list && r.Steady(open, clock)
      ensures Backed(rooms[r := list])
    {
      hide OpenCodeRegistration.Steady;
    }
  }

  lemma Reinserted(rooms: map<Registration, seq<string>>, r: Registration)
    requires r in rooms
    ensures (rooms - {r})[r := rooms[r]] == rooms
  {
  }

  /** A stored registration. */
  datatype Row = Row(directory: string, session: string, rooms: seq<string>, identities: seq<string>, updatedAt: int)

  function IdentitiesOf(row: Row, domain: string): seq<string> {
    if row.identities != [] then row.identities else DeriveMatrixIdentities(row.directory, domain)
  }

  /** The stored identities are those of the directory. */
  predicate Genuine(row: Row, domain: string) {
    forall k :: 0 <= k < |row.identities| ==> row.identities[k] in DeriveMatrixIdentities(row.directory, domain)
  }

  function SessionOf(row: Row): string {
    if row.session == "" then "restored" else row.session
  }

  function RowId(row: Row): string {
    row.directory + ":" + SessionOf(row)
  }

  function Ids(rows: seq<Row>): set<string> {
    if rows == [] then {} else Ids(rows[..|rows| - 1]) + {RowId(rows[|rows| - 1])}
  }

  function Directories(rows: seq<Row>): set<string> {
    if rows == [] then {} else Directories(rows[..|rows| - 1]) + {rows[|rows| - 1].directory}
  }

  lemma RowIdOf(row: Row)
    ensures RowId(row) == row.directory + ":" + SessionOf(row)
  {
  }

  lemma IdsSnoc(rows: seq<Row>, row: Row)
    ensures Ids(rows + [row]) == Ids(rows) + {RowId(row)}
            && Directories(rows + [row]) == Directories(rows) + {row.directory}
  {
    assert (rows + [row])[..|rows|] == rows;
  }

  lemma {:induction false} IdsNew(rows: seq<Row>, k: nat)
    requires k < |rows| && DistinctDirectories(rows)
    ensures rows[k].directory !in Directories(rows[..k])
  {
    hide RowId;
    for j := 0 to k
      invariant rows[k].directory !in Directories(rows[..j])
    {
      assert rows[..j + 1][..j] == rows[..j];
    }
  }

  lemma {:induction false} IdsAre(rows: seq<Row>, id: string)
    ensures id in Ids(rows) <==> exists i :: 0 <= i < |rows| && RowId(rows[i]) == id
  {
    hide RowId;
    if rows != [] {
      var before := rows[..|rows| - 1];
      IdsAre(before, id);
      assert forall i :: 0 <= i < |before| ==> before[i] == rows[i];
    }
  }

  lemma DistinctOneMore(rows: seq<Row>, row: Row)
    ensures DistinctIds(rows + [row]) <==> DistinctIds(rows) && RowId(row) !in Ids(rows)
  {
    IdsAre(rows, RowId(row));
    hide RowId, Ids;
    var all := rows + [row];
    assert all[|rows|] == row && forall i :: 0 <= i < |rows| ==> all[i] == rows[i];
  }

  /** The directory of the last row with the identity. */
  function Owner(rows: seq<Row>, m: string, domain: string): Option<string> {
    if rows == [] then None
    else if m in IdentitiesOf(rows[|rows| - 1], domain) then Some(rows[|rows| - 1].directory)
    else Owner(rows[..|rows| - 1], m, domain)
  }

  /** Every identity belongs to the directory of the last row that has it. */
  ghost predicate Rightful(rows: seq<Row>, domain: string) {
    forall m :: Owner(rows, m, domain).Some? ==> m in DeriveMatrixIdentities(Owner(rows, m, domain).value, domain)
  }

  /** If all stored identities are those of their directories, they are rightful. */
  lemma {:induction false} GenuineRightful(rows: seq<Row>, domain: string)
    requires forall k :: 0 <= k < |rows| ==> Genuine(rows[k], domain)
    ensures Rightful(rows, domain)
  {
    hide DeriveMatrixIdentities;
    if rows != [] {
      var before, row := rows[..|rows| - 1], rows[|rows| - 1];
      GenuineRightful(before, domain);
      assert Genuine(row, domain);
      forall m | Owner(rows, m, domain).Some?
        ensures m in DeriveMatrixIdentities(Owner(rows, m, domain).value, domain)
      {
        if m !in IdentitiesOf(row, domain) {
          assert Owner(rows, m, domain) == Owner(before, m, domain);
        }
      }
    }
  }

  lemma OwnerSnoc(rows: seq<Row>, row: Row, m: string, domain: string)
    ensures Owner(rows + [row], m, domain) ==
            if m in IdentitiesOf(row, domain) then Some(row.directory) else Owner(rows, m, domain)
  {
    assert (rows + [row])[..|rows|] == rows;
  }

  /** How far the tables are in order after the rows. */
  ghost predicate Filed(t: Tables, rows: seq<Row>) {
    && (DirectoryOk(t) || Dangling(t)) && (DirectoryOk(t) <==> DistinctIds(rows)) && Owned(t, rows)
    && (DistinctIds(rows) ==> LiveOk(t) && RoomsOk(t) && IdentitiesLive(t))
  }

  ghost predicate Owned(t: Tables, rows: seq<Row>) {
    && (forall m :: m in t.byIdentity <==> Owner(rows, m, t.domain).Some?)
    && forall m :: m in t.byIdentity ==> Owner(rows, m, t.domain) == Some(t.byIdentity[m].directory)
  }

  predicate IdentitiesLive(t: Tables) {
    forall m :: m in t.byIdentity ==> IsLive(t, t.byIdentity[m])
  }

  lemma Nothing(t: Tables)
    requires Inv(t) && t.live == map[]
    ensures Filed(t, [])
  {
    assert forall m :: m in t.byIdentity ==> IsLive(t, t.byIdentity[m]);
  }

  lemma FiledIs(t: Tables, rows: seq<Row>)
    requires Filed(t, rows)
    ensures DirectoryOk(t) <==> DistinctIds(rows)
    ensures Inv(t) <==> DistinctIds(rows) && Rightful(rows, t.domain)
  {
    hide DirectoryOk, LiveOk, RoomsOk, DistinctIds, Dangling, Owner, DeriveMatrixIdentities;
    if DistinctIds(rows) && IdentitiesOk(t) {
      forall m | Owner(rows, m, t.domain).Some?
        ensures m in DeriveMatrixIdentities(Owner(rows, m, t.domain).value, t.domain)
      {
        assert m in t.byIdentity;
      }
    }
  }

  lemma FiledOneMore(t: Tables, rows: seq<Row>, row: Row, r: Registration)
    requires Filed(t, rows) && Keyed(t) && t.live.Keys == Ids(rows)
    requires r !in t.rooms && r !in t.byDirectory.Values && r.id == RowId(row)
    requires r.directory == row.directory && row.directory !in t.byDirectory
    ensures Filed(EnteredAs(t, r, row.rooms, IdentitiesOf(row, t.domain)), rows + [row])
  {
    var identities := IdentitiesOf(row, t.domain);
    var u := EnteredAs(t, r, row.rooms, identities);
    OwnedOneMore(t, rows, row, r);
    hide DirectoryOk, LiveOk, RoomsOk, IdentitiesLive, Owned, Dangling, DistinctIds, Keyed, Ids, RowId, EnteredAs,
      IdentitiesOf;
    EnteredDirectoryIff(t, r, row.rooms, identities);
    DistinctOneMore(rows, row);
    if DistinctIds(rows + [row]) {
      EnteredLive(t, r, row.rooms, identities);
      EnteredRooms(t, r, row.rooms, identities);
      LiveOneMore(t, r, row.rooms, identities);
    }
  }

  lemma LiveOneMore(t: Tables, r: Registration, rooms: seq<string>, identities: seq<string>)
    requires IdentitiesLive(t) && r.id !in t.live
    ensures IdentitiesLive(EnteredAs(t, r, rooms, identities))
  {
  }

  lemma OwnedOneMore(t: Tables, rows: seq<Row>, row: Row, r: Registration)
    requires Owned(t, rows) && r.directory == row.directory
    ensures Owned(EnteredAs(t, r, row.rooms, IdentitiesOf(row, t.domain)), rows + [row])
  {
    forall m
      ensures Owner(rows + [row], m, t.domain) ==
              if m in IdentitiesOf(row, t.domain) then Some(row.directory) else Owner(rows, m, t.domain)
    {
      OwnerSnoc(rows, row, m, t.domain);
    }
    hide Owner, IdentitiesOf;
  }

  /** The directory is the key of the table. */
  predicate DistinctDirectories(rows: seq<Row>) {
    forall j, k :: 0 <= j < k < |rows| ==> rows[j].directory != rows[k].directory
  }

  predicate DistinctIds(rows: seq<Row>) {
    forall j, k :: 0 <= j < k < |rows| ==> RowId(rows[j]) != RowId(rows[k])
  }

  /** Rows of two directories can have one id. */
  lemma CollidingRows(rows: seq<Row>)
    requires |rows| == 2 && rows[0].directory == "a:b" && rows[0].session == "c"
    requires rows[1].directory == "a" && rows[1].session == "b:c"
    ensures DistinctDirectories(rows) && !DistinctIds(rows)
  {
    assert |rows[0].directory| != |rows[1].directory|;
    assert RowId(rows[0]) == "a:b:c" == RowId(rows[1]);
  }

  /** No later row has the id. */
  predicate IsLast(rows: seq<Row>, k: nat)
    requires k < |rows|
  {
    forall j :: k < j < |rows| ==> RowId(rows[j]) != RowId(rows[k])
  }

  lemma NoneListed(t: Tables)
    requires Inv(t) && t.live == map[]
    ensures t.byDirectory == map[] && t.rooms == map[]
  {
    assert forall d :: d in t.byDirectory ==> IsLive(t, t.byDirectory[d]);
    assert forall r :: r in t.rooms ==> IsLive(t, r);
  }

  /** The registrations are exactly the listed ones, each under its id. */
  lemma LiveAndListed(t: Tables)
    requires Inv(t)
    ensures forall q :: q in t.rooms ==> q.id in t.live && t.live[q.id] == q
    ensures forall i :: i in t.live ==> t.live[i] in t.rooms
    ensures forall d :: d in t.byDirectory ==> t.byDirectory[d] in t.rooms
  {
    hide DirectoryOk, RoomsOk, IdentitiesOk;
    DirectoriesListed(t);
  }

  lemma DirectoriesListed(t: Tables)
    requires Inv(t)
    ensures forall d :: d in t.byDirectory ==> t.byDirectory[d] in t.rooms
  {
    hide RoomsOk, IdentitiesOk;
  }

  lemma IdentityIsLive(t: Tables, mention: string)
    requires Inv(t)
    ensures mention in t.byIdentity ==>
            t.byIdentity[mention] in t.rooms && mention in Identities(t, t.byIdentity[mention])
  {
  }

  /** The sockets of registrations. */
  function Sockets(gone: set<Registration>): set<nat>
    reads gone`ws
  {
    set r | r in gone && r.ws.Some? :: r.ws.value
  }

  lemma NoSockets()
    ensures Sockets({}) == {}
  {
  }

  lemma SocketsMore(gone: set<Registration>, r: Registration)
    ensures Sockets(gone + {r}) == if r.ws.Some? then Sockets(gone) + {r.ws.value} else Sockets(gone)
  {
  }

  /** The registrations under the given ids. */
  function Under(t: Tables, ids: set<string>): set<Registration> {
    set i | i in ids && i in t.live :: t.live[i]
  }

  lemma UnderNone(t: Tables)
    ensures forall none :: none == {} ==> Under(t, none) == {}
  {
  }

  lemma UnderOneMore(t: Tables, ids: set<string>, i: string)
    requires i in t.live
    ensures Under(t, ids + {i}) == Under(t, ids) + {t.live[i]}
  {
  }

  lemma StillLive(t: Tables, ids: set<string>, i: string)
    requires Inv(t) && i in t.live && i !in ids
    ensures var u := Without(t, Under(t, ids)); i in u.live && u.live[i] == t.live[i] && t.live[i] in u.rooms
  {
  }

  lemma UnregisteredIs(t: Tables, id: string)
    requires Inv(t)
    ensures id in t.live ==>
              var r := t.live[id];
              && r in t.rooms
              && Unregistered(t, id) ==
                 Tables(t.live - {id}, DropAll(t.byIdentity, Identities(t, r)), DropAll(t.byRoom, t.rooms[r]),
                        t.byDirectory - {r.directory}, t.rooms - {r}, t.domain)
    ensures id !in t.live ==> Unregistered(t, id) == t
  {
  }

  lemma WithoutNone(t: Tables)
    ensures Without(t, {}) == t
  {
    assert t.rooms - {} == t.rooms;
  }

  lemma WithoutTwice(t: Tables, a: set<Registration>, b: set<Registration>)
    ensures Without(Without(t, a), b) == Without(t, a + b)
  {
    assert Unless(Unless(t.live, a), b) == Unless(t.live, a + b);
    assert Unless(Unless(t.byIdentity, a), b) == Unless(t.byIdentity, a + b);
    assert Unless(Unless(t.byRoom, a), b) == Unless(t.byRoom, a + b);
    assert Unless(Unless(t.byDirectory, a), b) == Unless(t.byDirectory, a + b);
    assert t.rooms - a - b == t.rooms - (a + b);
  }

  lemma SteadyOn(q: Registration, open: set<nat>, closed: set<nat>, clock: int, now: int)
    requires q.Steady(open, clock) && clock <= now
    ensures q.Steady(open - closed, now)
  {
  }

  /** Undoing the entries under a registration's keys leaves nothing that leads to it. */
  lemma ForgottenIsWithout(t: Tables, r: Registration)
    requires Inv(t) && r in t.rooms
    ensures Without(t, {r}) ==
            Tables(t.live - {r.id}, Disowned(t.byIdentity, Identities(t, r), r), Disowned(t.byRoom, t.rooms[r], r),
                   t.byDirectory - {r.directory}, t.rooms - {r}, t.domain)
  {
    hide DeriveMatrixIdentities;
    assert Unless(t.live, {r}) == t.live - {r.id};
    assert Unless(t.byIdentity, {r}) == Disowned(t.byIdentity, Identities(t, r), r);
    assert Unless(t.byRoom, {r}) == Disowned(t.byRoom, t.rooms[r], r);
    assert Unless(t.byDirectory, {r}) == t.byDirectory - {r.directory};
  }

  lemma RivalsUnder(t: Tables, directory: string, id: string, ids: set<string>)
    requires ids == set i | i in t.live && t.live[i].directory == directory && i != id
    ensures Under(t, ids) == Rivals(t, directory, id)
  {
  }

  lemma LiveIsListed(t: Tables, id: string)
    requires Inv(t) && id in t.live
    ensures t.live[id] in t.rooms && t.live[id].id == id
  {
  }

  lemma RejoinedKeeps(t: Tables, id: string, directory: string, rooms: seq<string>)
    requires Inv(t) && id in t.live
    ensures t.live[id].id == id && t.live[id] in t.rooms && t.live[id] in Rejoined(t, id, directory, rooms).rooms
    ensures t.live[id].directory == directory ==> Inv(Rejoined(t, id, directory, rooms))
  {
    var r := t.live[id];
    ReroomedKeeps(t, r, rooms);
    if r.directory == directory {
      var u := Reroomed(t, r, rooms);
      assert u.byDirectory[directory := r] == u.byDirectory;
    }
  }
}
