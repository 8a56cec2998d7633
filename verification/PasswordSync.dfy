/** One password in two stores: the agent mapping and the identity, written one after the other
    and rolled back when the second write fails. */
module PasswordSync {
  import opened Prelude

  datatype Mapping = Mapping(password: string, rest: string)
  datatype Account = Account(password: Option<string>, rest: string)

  /** How one call of a store goes: it works, it raises before it has an effect, or it raises
      after the effect. */
  datatype Call = Done | Refused | Torn

  predicate Took(c: Call) {
    !c.Refused?
  }

  /** How the calls of one attempt go; for calls that write nothing, whether they work. */
  datatype Attempt = Attempt(
    readMapping: bool, readIdentity: bool, write: Call, invalidate: bool, update: Call,
    reread: bool, undo: Call, undoInvalidate: bool, undoUpdate: Call)

  predicate Reads(a: Attempt) {
    a.readMapping && a.readIdentity
  }

  /** The attempt runs to its end. */
  predicate Commits(a: Attempt) {
    Reads(a) && a.write.Done? && a.invalidate && a.update.Done?
  }

  /** The new password stays in the mapping although the attempt failed. */
  predicate LeavesMapping(a: Attempt) {
    Reads(a) && Took(a.write) && !(a.reread && Took(a.undo))
  }

  /** The new password stays in the identity although the attempt failed; an identity that had
      no password is never restored. */
  predicate LeavesIdentity(a: Attempt, had: bool) {
    && Reads(a) && a.write.Done? && a.invalidate && Took(a.update)
    && !(had && a.reread && a.undo.Done? && a.undoInvalidate && Took(a.undoUpdate))
  }

  predicate Succeeds(script: seq<Attempt>) {
    exists k :: 0 <= k < |script| && Commits(script[k])
  }

  predicate SpoilsMapping(script: seq<Attempt>) {
    exists k :: 0 <= k < |script| && LeavesMapping(script[k])
  }

  predicate SpoilsIdentity(script: seq<Attempt>, had: bool) {
    exists k :: 0 <= k < |script| && LeavesIdentity(script[k], had)
  }

  /** The rows after a run in which every attempt failed. */
  function MappingAfter(row: Mapping, password: string, script: seq<Attempt>): Mapping {
    if SpoilsMapping(script) then row.(password := password) else row
  }

  function AccountAfter(row: Account, password: string, script: seq<Attempt>): Account {
    if SpoilsIdentity(script, row.password.Some?) then row.(password := Some(password)) else row
  }

  lemma SpoilsSnoc(script: seq<Attempt>, a: Attempt, had: bool)
    ensures Succeeds(script + [a]) <==> Succeeds(script) || Commits(a)
    ensures SpoilsMapping(script + [a]) <==> SpoilsMapping(script) || LeavesMapping(a)
    ensures SpoilsIdentity(script + [a], had) <==> SpoilsIdentity(script, had) || LeavesIdentity(a, had)
  {
    hide Commits, LeavesMapping, LeavesIdentity;
    assert (script + [a])[|script|] == a;
    assert forall k :: 0 <= k < |script| ==> (script + [a])[k] == script[k];
  }

  lemma AfterSnoc(m: Mapping, i: Account, password: string, script: seq<Attempt>, a: Attempt)
    ensures var m' := MappingAfter(m, password, script);
            MappingAfter(m, password, script + [a]) == if LeavesMapping(a) then m'.(password := password) else m'
    ensures var i' := AccountAfter(i, password, script);
            AccountAfter(i, password, script + [a]) ==
              if LeavesIdentity(a, i'.password.Some?) then i'.(password := Some(password)) else i'
  {
    SpoilsSnoc(script, a, i.password.Some?);
    hide Commits, LeavesMapping, LeavesIdentity, SpoilsMapping, SpoilsIdentity, Succeeds;
  }

  function PutMapping(mappings: map<string, Mapping>, agent: string, password: string): map<string, Mapping>
    requires agent in mappings
  {
    mappings[agent := mappings[agent].(password := password)]
  }

  function PutIdentity(identities: map<string, Account>, agent: string, password: Option<string>): map<string, Account>
    requires agent in identities
  {
    identities[agent := identities[agent].(password := password)]
  }

  class PasswordStores {
    var mappings: map<string, Mapping>
    var identities: map<string, Account>

    predicate Present(agent: string)
      reads this
    {
      agent in mappings && agent in identities
    }

    method Upsert(agent: string, password: string, c: Call)
      requires agent in mappings
      modifies this`mappings
      ensures mappings == if Took(c) then PutMapping(old(mappings), agent, password) else old(mappings)
    {
      if Took(c) {
        mappings := mappings[agent := mappings[agent].(password := password)];
      }
    }

    method UpdateIdentity(agent: string, password: string, c: Call)
      requires agent in identities
      modifies this`identities
      ensures identities == if Took(c) then PutIdentity(old(identities), agent, Some(password)) else old(identities)
    {
      if Took(c) {
        identities := identities[agent := identities[agent].(password := Some(password))];
      }
    }

    /** The body of the `try`. */
    method TryWrite(agent: string, password: string, a: Attempt)
      returns (ok: bool, previousMapping: Option<string>, previousIdentity: Option<string>)
      modifies this
      ensures ok <==> old(Present(agent)) && Commits(a)
      ensures previousMapping == if old(Present(agent)) && Reads(a) then Some(old(mappings)[agent].password) else None
      ensures previousIdentity == if old(Present(agent)) && Reads(a) then old(identities)[agent].password else None
      ensures mappings ==
              if old(Present(agent)) && Reads(a) && Took(a.write)
              then PutMapping(old(mappings), agent, password)
              else old(mappings)
      ensures identities ==
              if old(Present(agent)) && Reads(a) && a.write.Done? && a.invalidate && Took(a.update)
              then PutIdentity(old(identities), agent, Some(password))
              else old(identities)
    {
      ok, previousMapping, previousIdentity := false, None, None;
      if !a.readMapping || agent !in mappings || !a.readIdentity || agent !in identities {
        return;
      }
      previousIdentity, previousMapping := identities[agent].password, Some(mappings[agent].password);
      Upsert(agent, password, a.write);
      if !a.write.Done? || !a.invalidate {
        return;
      }
      UpdateIdentity(agent, password, a.update);
      ok := a.update.Done?;
    }

    /** The rollback: what was read is written back, until a call raises. */
    method Rollback(agent: string, previousMapping: Option<string>, previousIdentity: Option<string>, a: Attempt)
      requires previousMapping.Some? || previousIdentity.Some? ==> Present(agent)
      modifies this
      ensures mappings ==
              if previousMapping.Some? && a.reread && Took(a.undo)
              then PutMapping(old(mappings), agent, previousMapping.value)
              else old(mappings)
      ensures identities ==
              if && previousIdentity.Some? && Took(a.undoUpdate)
                 && (previousMapping.Some? ==> a.reread && a.undo.Done? && a.undoInvalidate)
              then PutIdentity(old(identities), agent, previousIdentity)
              else old(identities)
    {
      if previousMapping.Some? {
        if !a.reread {
          return;
        }
        Upsert(agent, previousMapping.value, a.undo);
        if !a.undo.Done? || !a.undoInvalidate {
          return;
        }
      }
      if previousIdentity.Some? {
        UpdateIdentity(agent, previousIdentity.value, a.undoUpdate);
      }
    }

    /** One turn of the loop. */
    method TryOnce(agent: string, password: string, a: Attempt) returns (ok: bool)
      modifies this
      ensures ok <==> old(Present(agent)) && Commits(a)
      ensures !old(Present(agent)) ==> mappings == old(mappings) && identities == old(identities)
      ensures ok ==> BothHold(agent, password, old(mappings), old(identities))
      ensures old(Present(agent)) && !ok ==>
                var m, i := old(mappings)[agent], old(identities)[agent];
                && mappings == old(mappings)[agent := if LeavesMapping(a) then m.(password := password) else m]
                && identities == old(identities)[agent :=
                                   if LeavesIdentity(a, i.password.Some?) then i.(password := Some(password)) else i]
    {
      var previousMapping, previousIdentity;
      ok, previousMapping, previousIdentity := TryWrite(agent, password, a);
      if !ok {
        Rollback(agent, previousMapping, previousIdentity, a);
      }
    }

    /** Both rows hold the password and nothing else has changed. */
    predicate BothHold(agent: string, password: string,
                       mappings0: map<string, Mapping>, identities0: map<string, Account>)
      reads this
    {
      && agent in mappings0 && agent in identities0
      && mappings == mappings0[agent := mappings0[agent].(password := password)]
      && identities == identities0[agent := identities0[agent].(password := Some(password))]
    }

    /** Writes the new password to both stores, trying as often as there are attempts. */
    method SyncAgentPassword(agent: string, password: string, script: seq<Attempt>) returns (ok: bool)
      modifies this
      ensures ok <==> old(Present(agent)) && Succeeds(script)
      ensures !old(Present(agent)) ==> mappings == old(mappings) && identities == old(identities)
      ensures ok ==> BothHold(agent, password, old(mappings), old(identities))
      ensures old(Present(agent)) && !ok ==>
                && mappings == old(mappings)[agent := MappingAfter(old(mappings)[agent], password, script)]
                && identities == old(identities)[agent := AccountAfter(old(identities)[agent], password, script)]
    {
      ok := false;
      var attempt := 0;
      while attempt < |script|
        invariant 0 <= attempt <= |script|
        invariant !old(Present(agent)) ==> mappings == old(mappings) && identities == old(identities)
        invariant old(Present(agent)) ==> !Succeeds(script[..attempt])
        invariant old(Present(agent)) ==>
                    var m, i := old(mappings)[agent], old(identities)[agent];
                    && mappings == old(mappings)[agent := MappingAfter(m, password, script[..attempt])]
                    && identities == old(identities)[agent := AccountAfter(i, password, script[..attempt])]
      {
        assert script[..attempt + 1] == script[..attempt] + [script[attempt]];
        SpoilsSnoc(script[..attempt], script[attempt], false);
        if Present(agent) {
          AfterSnoc(old(mappings)[agent], old(identities)[agent], password, script[..attempt], script[attempt]);
        }
        ok := TryOnce(agent, password, script[attempt]);
        if ok {
          assert Commits(script[attempt]);
          return;
        }
        attempt := attempt + 1;
      }
      assert script[..attempt] == script;
    }
  }

  /** Every call of the rollback works. */
  predicate RollbackRuns(a: Attempt) {
    a.reread && a.undo.Done? && a.undoInvalidate && a.undoUpdate.Done?
  }

  /** The update of the identity raises after it took effect. */
  predicate TearsIdentity(a: Attempt) {
    Reads(a) && a.write.Done? && a.invalidate && a.update.Torn?
  }

  /** All or nothing: when the attempts fail but their rollbacks run, the mapping is what it was,
      and so is the identity, except if and only if it had no password and some update raised
      after its effect. */
  lemma AllOrNothing(m: Mapping, i: Account, password: string, script: seq<Attempt>)
    requires !Succeeds(script)
    requires forall k :: 0 <= k < |script| && Reads(script[k]) ==> RollbackRuns(script[k])
    ensures MappingAfter(m, password, script) == m
    ensures AccountAfter(i, password, script) == i <==>
            i.password.Some? || forall k :: 0 <= k < |script| ==> !TearsIdentity(script[k])
  {
    forall k | 0 <= k < |script|
      ensures !LeavesMapping(script[k])
      ensures LeavesIdentity(script[k], i.password.Some?) <==> i.password.None? && TearsIdentity(script[k])
    {
      assert !Commits(script[k]);
    }
  }

  /** A run that fails leaves both rows alone if and only if no attempt lost the rollback of the
      mapping, or the password was the mapping's already, and likewise for the identity. */
  lemma UnchangedIff(m: Mapping, i: Account, password: string, script: seq<Attempt>)
    requires !Succeeds(script)
    ensures MappingAfter(m, password, script) == m && AccountAfter(i, password, script) == i <==>
            && (m.password == password || !SpoilsMapping(script))
            && (i.password == Some(password) || !SpoilsIdentity(script, i.password.Some?))
  {
    hide SpoilsMapping, SpoilsIdentity;
    assert m.(password := password) == m <==> m.password == password;
    assert i.(password := Some(password)) == i <==> i.password == Some(password);
  }

  /** When calls that raise have no effect, a failed run never leaves anything in the identity. */
  lemma IdentitySpared(script: seq<Attempt>, had: bool)
    requires !Succeeds(script) && forall k :: 0 <= k < |script| ==> !script[k].update.Torn?
    ensures !SpoilsIdentity(script, had)
  {
    forall k | 0 <= k < |script|
      ensures !LeavesIdentity(script[k], had)
    {
      assert !Commits(script[k]);
    }
  }

  /** One update that raises after its effect, and a rollback that runs: an identity that had no
      password keeps the new one, although the caller is told that the change failed. */
  lemma UnsetPasswordStays()
    ensures exists script: seq<Attempt>, m: Mapping, i: Account, password: string ::
              && |script| == 1 && !Succeeds(script) && RollbackRuns(script[0]) && i.password == None
              && MappingAfter(m, password, script) == m
              && AccountAfter(i, password, script).password == Some(password) != Some(m.password)
  {
    var a := Attempt(true, true, Done, true, Torn, true, Done, true, Done);
    var m, i := Mapping("a", ""), Account(None, "");
    assert [a][0] == a && !LeavesMapping(a) && LeavesIdentity(a, false);
    assert "a" != "b" by {
      assert "a"[0] != "b"[0];
    }
    assert !SpoilsMapping([a]) && SpoilsIdentity([a], false);
    assert MappingAfter(m, "b", [a]) == m && AccountAfter(i, "b", [a]).password == Some("b");
  }

  /** A mapping whose rollback failed is not healed by the attempts that follow, although their
      rollbacks run: they restore what they read, which is the new password. */
  lemma NeverHealed(m: Mapping, password: string, script: seq<Attempt>, more: seq<Attempt>)
    requires SpoilsMapping(script)
    ensures MappingAfter(m, password, script + more).password == password
  {
    var k :| 0 <= k < |script| && LeavesMapping(script[k]);
    assert (script + more)[k] == script[k];
  }

  /** One refused update and one refused rollback: the stores disagree, and the caller is told
      that the change failed. */
  lemma FailedRollbackSplits()
    ensures exists script: seq<Attempt>, m: Mapping, i: Account, password: string ::
              && |script| == 1 && !Succeeds(script) && i.password == Some(m.password)
              && AccountAfter(i, password, script).password != Some(MappingAfter(m, password, script).password)
  {
    var a := Attempt(true, true, Done, true, Refused, true, Refused, true, Done);
    var m, i := Mapping("a", ""), Account(Some("a"), "");
    assert [a][0] == a && LeavesMapping(a);
    assert "a" != "b" by {
      assert "a"[0] != "b"[0];
    }
    assert MappingAfter(m, "b", [a]).password == "b";
    assert !LeavesIdentity(a, true) && AccountAfter(i, "b", [a]) == i;
  }
}
