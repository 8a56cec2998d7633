/** The registration tables over whole runs of the bridge's handlers. */
module BridgeTablesSafety {
  import opened Prelude
  import opened BridgeDelivery
  import opened BridgeTables

  datatype Event =
    | Restore(r: Registration, rooms: seq<string>, identities: seq<string>)
    | Register(r: Registration, rooms: seq<string>)
    | Unregister(id: string)
    | UpdateRooms(directory: string, rooms: seq<string>)
    | Authenticate(r: Registration)
    | CleanUp(stale: set<Registration>)
    | Find(mention: string, r: Registration)

  function Apply(t: Tables, e: Event): Tables
    requires e.Authenticate? ==> e.r in t.rooms
  {
    match e
    case Restore(r, rooms, identities) => EnteredAs(t, r, rooms, identities)
    case Register(r, rooms) => Registered(t, r, rooms)
    case Unregister(id) => Unregistered(t, id)
    case UpdateRooms(directory, rooms) => RoomsUpdated(t, directory, rooms)
    case Authenticate(r) => Authenticated(t, r)
    case CleanUp(stale) => Without(t, stale)
    case Find(mention, r) => Remembered(t, mention, r)
  }

  predicate NoColon(directory: string) {
    forall k :: 0 <= k < |directory| ==> directory[k] != ':'
  }

  predicate WellNamed(r: Registration) {
    r.id == r.directory + ":" + r.sessionId && NoColon(r.directory)
  }

  predicate Named(t: Tables) {
    forall r :: r in t.rooms ==> WellNamed(r)
  }

  /** What an event can be: a registration that is restored or registered is a new object, and a
      row is restored at most once for a directory, with identities of it; a socket authenticates
      for, and a search finds, a live registration. */
  predicate Legal(t: Tables, e: Event) {
    match e
    case Restore(r, _, identities) =>
      r !in t.rooms && WellNamed(r) && r.directory !in t.byDirectory && AllDerived(t, r, identities)
    case Register(r, _) => r !in t.rooms && WellNamed(r)
    case Authenticate(r) => r in t.rooms
    case Find(mention, r) => r in t.rooms && mention in Identities(t, r)
    case _ => true
  }

  /** The tables after a run that starts empty, if every event was legal when it came. */
  function After(domain: string, es: seq<Event>): Option<Tables> {
    if es == [] then Some(Tables(map[], map[], map[], map[], map[], domain))
    else
      var before, e := After(domain, es[..|es| - 1]), es[|es| - 1];
      if before.Some? && Legal(before.value, e) then Some(Apply(before.value, e)) else None
  }

  /** A directory without colons and a session are determined by the id made of them. */
  lemma IdsDetermineDirectory(d: string, s: string, e: string, u: string)
    requires NoColon(d) && NoColon(e) && d + ":" + s == e + ":" + u
    ensures d == e && s == u
  {
    var a, b := d + ":" + s, e + ":" + u;
    assert a[|d|] == ':' && b[|e|] == ':';
    assert forall k :: 0 <= k < |d| ==> a[k] == d[k];
    assert forall k :: 0 <= k < |e| ==> b[k] == e[k];
    assert |d| == |e|;
    assert d == a[..|d|] == b[..|e|] == e && s == a[|d| + 1..] == b[|e| + 1..] == u;
  }

  lemma SameIdSameDirectory(r: Registration, q: Registration)
    requires WellNamed(r) && WellNamed(q) && r.id == q.id
    ensures r.directory == q.directory
  {
    IdsDetermineDirectory(r.directory, r.sessionId, q.directory, q.sessionId);
  }

  /** Without the assumption the tables go wrong: `a:b` with session `c` and `a` with session
      `b:c` have the same id. */
  lemma CollidingIdsMisfile(t: Tables, r: Registration, q: Registration, rooms: seq<string>)
    requires Inv(t) && q in t.rooms && r !in t.rooms
    requires r.directory == "a" && r.sessionId == "b:c" && r.id == r.directory + ":" + r.sessionId
    requires q.directory == "a:b" && q.sessionId == "c" && q.id == q.directory + ":" + q.sessionId
    ensures !Inv(Registered(t, r, rooms))
  {
    assert r.id == "a:b:c" == q.id;
    assert q.directory != r.directory by {
      assert |q.directory| != |r.directory|;
    }
    assert t.live[q.id] == q;
    hide Registered;
    RegisterKeepsIff(t, r, rooms);
  }

  lemma StepKeeps(t: Tables, e: Event)
    requires Inv(t) && Named(t) && Legal(t, e)
    ensures Inv(Apply(t, e)) && Named(Apply(t, e))
  {
    StepNamed(t, e);
    match e
    case Restore(r, rooms, identities) =>
      if r.id in t.live {
        SameIdSameDirectory(r, t.live[r.id]);
      }
      EnteredAsKeepsIff(t, r, rooms, identities);
    case Register(r, rooms) =>
      if r.id in t.live {
        SameIdSameDirectory(r, t.live[r.id]);
      }
      RegisterKeepsIff(t, r, rooms);
    case Unregister(id) => UnregisteredKeeps(t, id);
    case UpdateRooms(directory, rooms) =>
      if directory in t.byDirectory {
        ReroomedKeeps(t, t.byDirectory[directory], rooms);
      }
    case Authenticate(r) => AuthenticatedKeeps(t, r);
    case CleanUp(stale) => WithoutKeeps(t, stale);
    case Find(mention, r) => RememberedKeeps(t, mention, r);
  }

  lemma StepNamed(t: Tables, e: Event)
    requires Named(t) && Legal(t, e)
    ensures Named(Apply(t, e))
  {
  }

  /** In every run there is at most one live registration for a directory, the directory index is
      exactly the inverse, and rooms and identities lead to live registrations that have them. */
  lemma {:induction false} RunKeeps(domain: string, es: seq<Event>)
    ensures After(domain, es).Some? ==> Inv(After(domain, es).value) && Named(After(domain, es).value)
  {
    if es != [] {
      RunKeeps(domain, es[..|es| - 1]);
      hide Inv, Named, Legal, Apply;
      var before, e := After(domain, es[..|es| - 1]), es[|es| - 1];
      if before.Some? && Legal(before.value, e) {
        StepKeeps(before.value, e);
      }
    }
  }
}
