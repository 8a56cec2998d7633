/** The registration table of the bridge and its three indexes, as values, and what every handler
    makes of them. */
module BridgeTables {
  import opened BridgeDelivery
  import opened SenderFilter

  type Registration = OpenCodeRegistration

  /** `registrations`, `identityToRegistration`, `roomToRegistration`, `directoryToRegistration`,
      and the rooms that each live registration lists. */
  datatype Tables = Tables(
    live: map<string, Registration>,
    byIdentity: map<string, Registration>,
    byRoom: map<string, Registration>,
    byDirectory: map<string, Registration>,
    rooms: map<Registration, seq<string>>,
    domain: string)

  predicate IsLive(t: Tables, r: Registration) {
    r.id in t.live && t.live[r.id] == r
  }

  function Identities(t: Tables, r: Registration): seq<string> {
    DeriveMatrixIdentities(r.directory, t.domain)
  }

  predicate LiveOk(t: Tables) {
    && (forall i :: i in t.live ==> t.live[i].id == i && t.live[i] in t.rooms)
    && forall r :: r in t.rooms ==> IsLive(t, r)
  }

  /** The directory index is exactly the inverse of the live registrations. */
  predicate DirectoryOk(t: Tables) {
    && (forall i :: i in t.live ==>
         t.live[i].directory in t.byDirectory && t.byDirectory[t.live[i].directory] == t.live[i])
    && forall d :: d in t.byDirectory ==> IsLive(t, t.byDirectory[d]) && t.byDirectory[d].directory == d
  }

  /** A room leads to a live registration that lists it. */
  predicate RoomsOk(t: Tables) {
    forall x :: x in t.byRoom ==> IsLive(t, t.byRoom[x]) && t.byRoom[x] in t.rooms && x in t.rooms[t.byRoom[x]]
  }

  /** An identity leads to a live registration whose directory has it. */
  predicate IdentitiesOk(t: Tables) {
    forall m :: m in t.byIdentity ==> IsLive(t, t.byIdentity[m]) && m in Identities(t, t.byIdentity[m])
  }

  predicate Inv(t: Tables) {
    LiveOk(t) && DirectoryOk(t) && RoomsOk(t) && IdentitiesOk(t)
  }

  lemma OnePerDirectory(t: Tables, i: string, j: string)
    requires Inv(t) && i in t.live && j in t.live && t.live[i].directory == t.live[j].directory
    ensures i == j
  {
  }

  // ---------------------------------------------------------------------------------------
  // The handlers.

  function Unless(m: map<string, Registration>, gone: set<Registration>): map<string, Registration> {
    map k | k in m && m[k] !in gone :: m[k]
  }

  function SetAll(m: map<string, Registration>, keys: seq<string>, r: Registration): map<string, Registration> {
    m + map k | k in keys :: r
  }

  function DropAll(m: map<string, Registration>, keys: seq<string>): map<string, Registration> {
    map k | k in m && k !in keys :: m[k]
  }

  /** Nothing leads to the registrations that are gone. */
  function Without(t: Tables, gone: set<Registration>): Tables {
    Tables(Unless(t.live, gone), Unless(t.byIdentity, gone), Unless(t.byRoom, gone), Unless(t.byDirectory, gone),
           t.rooms - gone, t.domain)
  }

  /** The other live registrations of a directory. */
  function Rivals(t: Tables, directory: string, id: string): set<Registration> {
    set i | i in t.live && t.live[i].directory == directory && i != id :: t.live[i]
  }

  /** A registration lists other rooms. */
  function Reroomed(t: Tables, r: Registration, rooms: seq<string>): Tables
    requires r in t.rooms
  {
    t.(byRoom := SetAll(DropAll(t.byRoom, t.rooms[r]), rooms, r), rooms := t.rooms[r := rooms])
  }

  /** A new registration with the given identities, over whatever stood under its keys. */
  function EnteredAs(t: Tables, r: Registration, rooms: seq<string>, identities: seq<string>): Tables {
    Tables(t.live[r.id := r], SetAll(t.byIdentity, identities, r), SetAll(t.byRoom, rooms, r),
           t.byDirectory[r.directory := r], t.rooms[r := rooms], t.domain)
  }

  /** A new registration with the identities of its directory. */
  function Entered(t: Tables, r: Registration, rooms: seq<string>): Tables {
    EnteredAs(t, r, rooms, Identities(t, r))
  }

  /** All are identities of the registration's directory. */
  predicate AllDerived(t: Tables, r: Registration, identities: seq<string>) {
    forall k :: 0 <= k < |identities| ==> identities[k] in Identities(t, r)
  }

  /** A directory registers under an id that is taken. */
  function Rejoined(t: Tables, id: string, directory: string, rooms: seq<string>): Tables
    requires id in t.live && t.live[id] in t.rooms
  {
    Reroomed(t, t.live[id], rooms).(byDirectory := t.byDirectory[directory := t.live[id]])
  }

  /** `/register`: the others of the directory go; a registration under the id is kept, else `r`
      is entered. */
  function Registered(t: Tables, r: Registration, rooms: seq<string>): Tables {
    var u := Without(t, Rivals(t, r.directory, r.id));
    if r.id in u.live && u.live[r.id] in u.rooms then Rejoined(u, r.id, r.directory, rooms) else Entered(u, r, rooms)
  }

  /** `/unregister`: everything under the registration's keys goes, whoever it leads to. */
  function Unregistered(t: Tables, id: string): Tables {
    if id in t.live && t.live[id] in t.rooms then
      var r := t.live[id];
      Tables(t.live - {id}, DropAll(t.byIdentity, Identities(t, r)), DropAll(t.byRoom, t.rooms[r]),
             t.byDirectory - {r.directory}, t.rooms - {r}, t.domain)
    else t
  }

  /** `/update-rooms`. */
  function RoomsUpdated(t: Tables, directory: string, rooms: seq<string>): Tables {
    if directory in t.byDirectory && t.byDirectory[directory] in t.rooms
      then Reroomed(t, t.byDirectory[directory], rooms) else t
  }

  /** A socket authenticates for a live registration: its rooms and its directory lead to it. */
  function Authenticated(t: Tables, r: Registration): Tables
    requires r in t.rooms
  {
    t.(byDirectory := t.byDirectory[r.directory := r], byRoom := SetAll(t.byRoom, t.rooms[r], r))
  }

  /** The search for a mention found a registration. */
  function Remembered(t: Tables, mention: string, r: Registration): Tables {
    t.(byIdentity := t.byIdentity[mention := r])
  }

  // ---------------------------------------------------------------------------------------
  // What they keep.

  lemma WithoutKeeps(t: Tables, gone: set<Registration>)
    requires Inv(t)
    ensures Inv(Without(t, gone))
  {
    var u := Without(t, gone);
    hide DeriveMatrixIdentities;
    assert LiveOk(u);
    assert DirectoryOk(u) by { hide RoomsOk, IdentitiesOk; }
    assert RoomsOk(u) by { hide DirectoryOk, IdentitiesOk; }
    assert IdentitiesOk(u) by { hide DirectoryOk, RoomsOk; }
  }

  lemma ReroomedKeeps(t: Tables, r: Registration, rooms: seq<string>)
    requires Inv(t) && r in t.rooms
    ensures Inv(Reroomed(t, r, rooms))
  {
    hide DeriveMatrixIdentities;
    ReroomedRooms(t, r, rooms);
    hide RoomsOk;
    var u := Reroomed(t, r, rooms);
    assert LiveOk(u);
    assert DirectoryOk(u) by { hide IdentitiesOk; }
    assert IdentitiesOk(u) by { hide DirectoryOk; }
  }

  lemma ReroomedRooms(t: Tables, r: Registration, rooms: seq<string>)
    requires LiveOk(t) && RoomsOk(t) && r in t.rooms
    ensures RoomsOk(Reroomed(t, r, rooms))
  {
    assert IsLive(t, r);
    hide LiveOk;
  }

  /** Entering a new registration of a new directory keeps the tables in order if and only if its
      id is new too and its identities are those of its directory. */
  lemma EnteredAsKeepsIff(t: Tables, r: Registration, rooms: seq<string>, identities: seq<string>)
    requires Inv(t) && r !in t.rooms && r.directory !in t.byDirectory
    ensures Inv(EnteredAs(t, r, rooms, identities)) <==> AllDerived(t, r, identities) && r.id !in t.live
  {
    NotIndexed(t, r);
    hide LiveOk, DirectoryOk, RoomsOk, IdentitiesOk, AllDerived, Keyed, Dangling;
    EnteredDirectoryIff(t, r, rooms, identities);
    if r.id !in t.live {
      EnteredLive(t, r, rooms, identities);
      EnteredRooms(t, r, rooms, identities);
      EnteredIdentities(t, r, rooms, identities);
    }
  }

  predicate Keyed(t: Tables) {
    forall i :: i in t.live ==> t.live[i].id == i
  }

  /** A directory leads to a registration that is not live. */
  predicate Dangling(t: Tables) {
    exists d :: d in t.byDirectory && !IsLive(t, t.byDirectory[d])
  }

  lemma NotIndexed(t: Tables, r: Registration)
    requires LiveOk(t) && DirectoryOk(t) && r !in t.rooms
    ensures Keyed(t) && r !in t.byDirectory.Values
  {
  }

  /** If the id is taken, the directory of the registration that had it leads nowhere, and no
      later entry of another directory repairs that. */
  lemma EnteredDirectoryIff(t: Tables, r: Registration, rooms: seq<string>, identities: seq<string>)
    requires Keyed(t) && r.directory !in t.byDirectory && r !in t.byDirectory.Values
    requires DirectoryOk(t) || Dangling(t)
    ensures var u := EnteredAs(t, r, rooms, identities);
            (DirectoryOk(u) <==> DirectoryOk(t) && r.id !in t.live) && (DirectoryOk(u) || Dangling(u))
  {
    hide SetAll;
    var u := EnteredAs(t, r, rooms, identities);
    if DirectoryOk(t) && r.id !in t.live {
      EnteredDirectory(t, r, rooms, identities);
    } else {
      var d :| d in t.byDirectory && (!IsLive(t, t.byDirectory[d]) || t.byDirectory[d].id == r.id);
      assert u.byDirectory[d] == t.byDirectory[d] && !IsLive(u, u.byDirectory[d]);
    }
  }

  /** Identities that were derived when the domain was another mislead: with the identities of the
      directory under `former`, a new registration keeps the tables in order if and only if that
      is the domain. */
  lemma FormerDomainMisleads(t: Tables, r: Registration, rooms: seq<string>, former: string)
    requires Inv(t) && r !in t.rooms && r.directory !in t.byDirectory && r.id !in t.live
    ensures Inv(EnteredAs(t, r, rooms, DeriveMatrixIdentities(r.directory, former))) <==> former == t.domain
  {
    var identities := DeriveMatrixIdentities(r.directory, former);
    assert identities[0] == Mxid(Name(r.directory), former);
    hide Inv, EnteredAs, DeriveMatrixIdentities, Mxid;
    EnteredAsKeepsIff(t, r, rooms, identities);
    DomainDerives(r.directory, former, t.domain);
  }

  lemma EnteredKeeps(t: Tables, r: Registration, rooms: seq<string>)
    requires Inv(t) && r !in t.rooms && r.id !in t.live && r.directory !in t.byDirectory
    ensures Inv(Entered(t, r, rooms))
  {
    hide Inv, DeriveMatrixIdentities;
    EnteredAsKeepsIff(t, r, rooms, Identities(t, r));
  }

  lemma EnteredLive(t: Tables, r: Registration, rooms: seq<string>, identities: seq<string>)
    requires LiveOk(t) && r !in t.rooms && r.id !in t.live
    ensures LiveOk(EnteredAs(t, r, rooms, identities))
  {
    hide SetAll;
  }

  lemma EnteredDirectory(t: Tables, r: Registration, rooms: seq<string>, identities: seq<string>)
    requires DirectoryOk(t) && r.id !in t.live && r.directory !in t.byDirectory
    ensures DirectoryOk(EnteredAs(t, r, rooms, identities))
  {
    hide SetAll;
  }

  lemma EnteredRooms(t: Tables, r: Registration, rooms: seq<string>, identities: seq<string>)
    requires RoomsOk(t) && r !in t.rooms && r.id !in t.live
    ensures RoomsOk(EnteredAs(t, r, rooms, identities))
  {
  }

  lemma EnteredIdentities(t: Tables, r: Registration, rooms: seq<string>, identities: seq<string>)
    requires IdentitiesOk(t) && r.id !in t.live
    ensures IdentitiesOk(EnteredAs(t, r, rooms, identities)) <==> AllDerived(t, r, identities)
  {
    hide DeriveMatrixIdentities;
    var u := EnteredAs(t, r, rooms, identities);
    assert forall q :: Identities(u, q) == Identities(t, q);
    if IdentitiesOk(u) {
      forall k | 0 <= k < |identities|
        ensures identities[k] in Identities(t, r)
      {
        assert identities[k] in u.byIdentity && u.byIdentity[identities[k]] == r;
      }
    }
  }

  lemma UnregisteredKeeps(t: Tables, id: string)
    requires Inv(t)
    ensures Inv(Unregistered(t, id))
  {
    var u := Unregistered(t, id);
    hide DeriveMatrixIdentities;
    assert LiveOk(u);
    assert DirectoryOk(u) by { hide RoomsOk, IdentitiesOk; }
    assert RoomsOk(u) by { hide DirectoryOk, IdentitiesOk; }
    assert IdentitiesOk(u) by { hide DirectoryOk, RoomsOk; }
  }

  lemma AuthenticatedKeeps(t: Tables, r: Registration)
    requires Inv(t) && r in t.rooms
    ensures Inv(Authenticated(t, r))
  {
    hide DeriveMatrixIdentities;
    AuthenticatedRooms(t, r);
    hide RoomsOk;
    var u := Authenticated(t, r);
    assert u.byDirectory == t.byDirectory;
    assert LiveOk(u);
    assert DirectoryOk(u) by { hide IdentitiesOk; }
    assert IdentitiesOk(u) by { hide DirectoryOk; }
  }

  lemma AuthenticatedRooms(t: Tables, r: Registration)
    requires LiveOk(t) && RoomsOk(t) && r in t.rooms
    ensures RoomsOk(Authenticated(t, r))
  {
    assert IsLive(t, r);
    hide LiveOk;
  }

  lemma RememberedKeeps(t: Tables, mention: string, r: Registration)
    requires Inv(t) && r in t.rooms
    ensures Inv(Remembered(t, mention, r)) <==> mention in Identities(t, r)
  {
    hide DeriveMatrixIdentities;
    var u := Remembered(t, mention, r);
    assert LiveOk(u);
    assert DirectoryOk(u) by { hide RoomsOk, IdentitiesOk; }
    assert RoomsOk(u) by { hide DirectoryOk, IdentitiesOk; }
    assert mention in Identities(t, r) ==> IdentitiesOk(u) by { hide DirectoryOk, RoomsOk; }
    assert mention in u.byIdentity && u.byIdentity[mention] == r;
  }

  lemma RivalsGone(t: Tables, directory: string, id: string)
    requires Inv(t)
    ensures var u := Without(t, Rivals(t, directory, id));
            && (directory in u.byDirectory ==> id in u.live && u.byDirectory[directory] == u.live[id])
            && (id in u.live <==> id in t.live) && (id in t.live ==> u.live[id] == t.live[id])
  {
    var gone := Rivals(t, directory, id);
    var u := Without(t, gone);
    assert id in t.live ==> t.live[id] !in gone;
    if directory in u.byDirectory {
      var r := t.byDirectory[directory];
      assert r !in gone && r.directory == directory;
      assert r.id in t.live && t.live[r.id] == r;
    }
  }

  /** Registering keeps the tables in order if and only if the id of the registration, when it is
      taken, is taken by the same directory. */
  lemma RegisterKeepsIff(t: Tables, r: Registration, rooms: seq<string>)
    requires Inv(t) && r !in t.rooms
    ensures Inv(Registered(t, r, rooms)) <==> (r.id in t.live ==> t.live[r.id].directory == r.directory)
  {
    var u := Without(t, Rivals(t, r.directory, r.id));
    WithoutKeeps(t, Rivals(t, r.directory, r.id));
    RivalsGone(t, r.directory, r.id);
    hide Without, Rivals;
    if r.id in u.live {
      var e := u.live[r.id];
      ReroomedKeeps(u, e, rooms);
      var v := Reroomed(u, e, rooms);
      if e.directory == r.directory {
        assert v.byDirectory[r.directory := e] == v.byDirectory;
      } else {
        Misfiled(v, r.directory, e);
      }
    } else {
      EnteredKeeps(u, r, rooms);
    }
  }

  lemma Misfiled(t: Tables, directory: string, e: Registration)
    requires e.directory != directory
    ensures !Inv(t.(byDirectory := t.byDirectory[directory := e]))
  {
    var u := t.(byDirectory := t.byDirectory[directory := e]);
    assert directory in u.byDirectory && u.byDirectory[directory] == e;
  }
}
