/** Logging an agent in: cooldown after failures, and recovery by resetting the password. */
module AgentAuth {
  import opened Prelude
  import opened PasswordSync

  datatype Reason = Healthy | Suppressed | NonForbidden | AfterRecovery

  /** What the homeserver answers to a login. */
  datatype Reply = Token(token: string) | Rejected(status: int, forbiddenText: bool)

  /** A login is answered with a token only when the password is the homeserver's; a user that
      it does not know is forbidden. */
  function Answer(server: Option<string>, password: string, r: Reply): (a: Reply)
    ensures a.Token? <==> r.Token? && server == Some(password)
  {
    if r.Token? && server != Some(password) then Rejected(403, true) else r
  }

  /** One round of the recovery: the password generated, whether the reset command was accepted,
      the homeserver's password afterwards (the command may have been processed or not), how the
      two stores behave, and the answer to the login. */
  datatype Round = Round(password: string, accepted: bool, server: Option<string>, sync: seq<Attempt>, reply: Reply)

  predicate Recovers(r: Round) {
    r.accepted && Succeeds(r.sync) && Answer(r.server, r.password, r.reply).Token?
  }

  /** What is remembered about an agent's logins. */
  datatype Book = Book(failures: nat, reason: Option<Reason>, status: Option<int>, password: Option<string>,
          retryAt: int)

  const NEVER_FAILED := Book(0, None, None, None, 0)

  predicate IsSuppressed(b: Book, password: string, now: int) {
    b.password == Some(password) && now < b.retryAt
  }

  function AfterFailure(b: Book, password: string, reason: Reason, status: int, until: int): Book {
    Book(b.failures + 1, Some(reason), Some(status), Some(password), until)
  }

  function AfterSuccess(password: string): Book {
    Book(0, Some(Healthy), Some(200), Some(password), 0)
  }

  /** No round of the recovery loses a rollback. */
  predicate RollbacksRun(rounds: seq<Round>) {
    forall j :: 0 <= j < |rounds| ==> ScriptRollsBack(rounds[j].sync)
  }

  predicate ScriptRollsBack(script: seq<Attempt>) {
    forall k :: 0 <= k < |script| && Reads(script[k]) ==> RollbackRuns(script[k])
  }

  /** What a login meets: the answer to its password, whether both stores have a row, and the
      rounds of a recovery; it begins at `now` and ends at `end`. */
  datatype Login = Login(password: string, answer: Reply, present: bool, rounds: seq<Round>, now: int, end: int)

  datatype Course = Held | LoggedIn | GivenUp | Recovered | Lost

  /** How a login ends. */
  function CourseOf(b: Book, l: Login): (c: Course)
    ensures c.GivenUp? ==> l.answer.Rejected?
    ensures c.Recovered? ==> exists k :: 0 <= k < |l.rounds| && Recovers(l.rounds[k])
  {
    if IsSuppressed(b, l.password, l.now) then Held
    else if l.answer.Token? then LoggedIn
    else if l.answer.status != 403 && !l.answer.forbiddenText then GivenUp
    else if l.present && exists k :: 0 <= k < |l.rounds| && Recovers(l.rounds[k]) then Recovered
    else Lost
  }

  function FirstRecovering(rounds: seq<Round>): (k: nat)
    requires exists k :: 0 <= k < |rounds| && Recovers(rounds[k])
    ensures k < |rounds| && Recovers(rounds[k]) && forall j :: 0 <= j < k ==> !Recovers(rounds[j])
  {
    if Recovers(rounds[0]) then 0
    else
      assert exists k :: 0 <= k < |rounds[1..]| && Recovers(rounds[1..][k]) by {
        var k :| 0 <= k < |rounds| && Recovers(rounds[k]);
        assert rounds[1..][k - 1] == rounds[k];
      }
      var k := FirstRecovering(rounds[1..]);
      assert forall j :: 0 < j <= k ==> rounds[j] == rounds[1..][j - 1];
      k + 1
  }

  lemma FirstIs(rounds: seq<Round>, k: nat)
    requires k < |rounds| && Recovers(rounds[k]) && forall j :: 0 <= j < k ==> !Recovers(rounds[j])
    ensures FirstRecovering(rounds) == k
  {
    hide Recovers;
  }

  /** What is remembered after a login. */
  function BookAfter(b: Book, l: Login, cooldown: nat): Book {
    match CourseOf(b, l)
    case Held => AfterFailure(b, l.password, Suppressed, 429, l.now + cooldown)
    case LoggedIn => AfterSuccess(l.password)
    case GivenUp => AfterFailure(b, l.password, NonForbidden, l.answer.status, l.now + cooldown)
    case Recovered => AfterSuccess(l.rounds[FirstRecovering(l.rounds)].password)
    case Lost => AfterFailure(b, l.password, AfterRecovery, 403, l.end + cooldown)
  }

  class RoomAgentAuth {
    const cooldown: nat
    const stores: PasswordStores
    /** The password that the homeserver has for each agent. */
    var server: map<string, string>
    var failures: map<string, nat>
    var lastReason: map<string, Reason>
    var lastStatus: map<string, int>
    var lastPassword: map<string, string>
    var nextRetryAt: map<string, int>

    constructor (cooldown: nat, stores: PasswordStores, server: map<string, string>)
      ensures this.cooldown == cooldown && this.stores == stores && this.server == server
      ensures forall agent :: BookOf(agent) == NEVER_FAILED
    {
      this.cooldown, this.stores, this.server := cooldown, stores, server;
      failures, lastReason, lastStatus, lastPassword, nextRetryAt := map[], map[], map[], map[], map[];
    }

    function BookOf(agent: string): Book
      reads `failures, `lastReason, `lastStatus, `lastPassword, `nextRetryAt
    {
      Book(
        if agent in failures then failures[agent] else 0,
        if agent in lastReason then Some(lastReason[agent]) else None,
        if agent in lastStatus then Some(lastStatus[agent]) else None,
        if agent in lastPassword then Some(lastPassword[agent]) else None,
        if agent in nextRetryAt then nextRetryAt[agent] else 0)
    }

    method AgentLoginSuppressed(agent: string, password: string, now: int) returns (suppressed: bool)
      ensures suppressed <==> IsSuppressed(BookOf(agent), password, now)
    {
      if agent !in lastPassword || lastPassword[agent] != password {
        return false;
      }
      suppressed := now < if agent in nextRetryAt then nextRetryAt[agent] else 0;
    }

    method RecordFailure(agent: string, password: string, reason: Reason, status: int, now: int)
      modifies this`failures, this`lastReason, this`lastStatus, this`lastPassword, this`nextRetryAt
      ensures BookOf(agent) == AfterFailure(old(BookOf(agent)), password, reason, status, now + cooldown)
      ensures forall other :: other != agent ==> BookOf(other) == old(BookOf(other))
    {
      failures := failures[agent := (if agent in failures then failures[agent] else 0) + 1];
      lastReason, lastStatus := lastReason[agent := reason], lastStatus[agent := status];
      lastPassword, nextRetryAt := lastPassword[agent := password], nextRetryAt[agent := now + cooldown];
    }

    method RecordSuccess(agent: string, password: string)
      modifies this`failures, this`lastReason, this`lastStatus, this`lastPassword, this`nextRetryAt
      ensures BookOf(agent) == AfterSuccess(password)
      ensures forall other :: other != agent ==> BookOf(other) == old(BookOf(other))
    {
      failures, lastReason, lastStatus := failures[agent := 0], lastReason[agent := Healthy], lastStatus[agent := 200];
      lastPassword, nextRetryAt := lastPassword[agent := password], nextRetryAt[agent := 0];
    }

    function ServerPassword(agent: string): Option<string>
      reads `server
    {
      if agent in server then Some(server[agent]) else None
    }

    /** The homeserver, the mapping and the identity all have the password. */
    predicate AllHold(agent: string, password: string)
      reads `server, stores
    {
      && ServerPassword(agent) == Some(password)
      && StoresHold(agent, password)
    }

    predicate StoresHold(agent: string, password: string)
      reads stores
    {
      && stores.Present(agent)
      && stores.mappings[agent].password == password && stores.identities[agent].password == Some(password)
    }

    /** The two stores have the same password. */
    predicate Agree(agent: string)
      reads stores
    {
      stores.Present(agent) && stores.identities[agent].password == Some(stores.mappings[agent].password)
    }

    /** Nothing changed for any other agent. */
    predicate Untouched(agent: string, server0: map<string, string>,
                        mappings0: map<string, Mapping>, identities0: map<string, Account>)
      reads `server, stores
    {
      && server - {agent} == server0 - {agent}
      && stores.mappings - {agent} == mappings0 - {agent}
      && stores.identities - {agent} == identities0 - {agent}
    }

    /** One round: reset the password, change it in both stores, log in with it. */
    method TryRound(agent: string, round: Round) returns (r: Option<string>)
      modifies this`server, stores
      ensures r.Some? <==> old(stores.Present(agent)) && Recovers(round)
      ensures r.Some? ==> RecoveredIn(agent, round, r)
      ensures stores.Present(agent) <==> old(stores.Present(agent))
      ensures ScriptRollsBack(round.sync) && old(Agree(agent)) ==> Agree(agent)
      ensures Untouched(agent, old(server), old(stores.mappings), old(stores.identities))
    {
      server := if round.server.Some? then server[agent := round.server.value] else server - {agent};
      if !round.accepted {
        return None;
      }
      var synced := stores.SyncAgentPassword(agent, round.password, round.sync);
      if !synced {
        return None;
      }
      var answer := Answer(ServerPassword(agent), round.password, round.reply);
      r := if answer.Token? then Some(answer.token) else None;
    }

    /** The recovery rounds. */
    method Recover(agent: string, rounds: seq<Round>) returns (r: Option<string>, k: nat)
      modifies this`server, stores
      ensures r.Some? <==> old(stores.Present(agent)) && exists j :: 0 <= j < |rounds| && Recovers(rounds[j])
      ensures r.Some? ==> k < |rounds| && Recovers(rounds[k]) && forall j :: 0 <= j < k ==> !Recovers(rounds[j])
      ensures r.Some? ==> RecoveredIn(agent, rounds[k], r)
      ensures stores.Present(agent) <==> old(stores.Present(agent))
      ensures RollbacksRun(rounds) && old(Agree(agent)) ==> Agree(agent)
      ensures Untouched(agent, old(server), old(stores.mappings), old(stores.identities))
    {
      k := 0;
      while k < |rounds|
        invariant k <= |rounds|
        invariant stores.Present(agent) <==> old(stores.Present(agent))
        invariant stores.Present(agent) ==> forall j :: 0 <= j < k ==> !Recovers(rounds[j])
        invariant RollbacksRun(rounds) && old(Agree(agent)) ==> Agree(agent)
        invariant Untouched(agent, old(server), old(stores.mappings), old(stores.identities))
      {
        assert RollbacksRun(rounds) ==> ScriptRollsBack(rounds[k].sync);
        hide Recovers, RollbacksRun, ScriptRollsBack, Agree, RecoveredIn;
        r := TryRound(agent, rounds[k]);
        if r.Some? {
          return;
        }
        k := k + 1;
      }
      r := None;
    }

    /** One login of an agent, from `now` to `end`: suppressed during the cooldown, else tried, and
        recovered by a password reset if it is forbidden. */
    method LoginWithRecovery(agent: string, password: string, first: Reply, rounds: seq<Round>, now: int, end: int)
      returns (r: Option<string>)
      requires now <= end
      modifies this`server, this`failures, this`lastReason, this`lastStatus, this`lastPassword, this`nextRetryAt, stores
      ensures forall other :: other != agent ==> BookOf(other) == old(BookOf(other))
      ensures Untouched(agent, old(server), old(stores.mappings), old(stores.identities))
      ensures var l := Login(password, Answer(old(ServerPassword(agent)), password, first), old(stores.Present(agent)),
              rounds, now, end);
              && BookOf(agent) == BookAfter(old(BookOf(agent)), l, cooldown)
              && match CourseOf(old(BookOf(agent)), l)
                 case Held => r == None && Same(agent, old(server), old(stores.mappings), old(stores.identities))
                 case GivenUp => r == None && Same(agent, old(server), old(stores.mappings), old(stores.identities))
                 case LoggedIn =>
                   && r == Some(first.token) && old(ServerPassword(agent)) == Some(password)
                   && Same(agent, old(server), old(stores.mappings), old(stores.identities))
                 case Recovered => RecoveredIn(agent, rounds[FirstRecovering(rounds)], r)
                 case Lost => r == None
      ensures RollbacksRun(rounds) && old(Agree(agent)) ==> Agree(agent)
    {
      hide RollbacksRun, Recovers, Agree, RecoveredIn, FirstRecovering, AfterSuccess, AfterFailure;
      var suppressed := AgentLoginSuppressed(agent, password, now);
      if suppressed {
        RecordFailure(agent, password, Suppressed, 429, now);
        return None;
      }
      var answer := Answer(ServerPassword(agent), password, first);
      if answer.Token? {
        RecordSuccess(agent, password);
        return Some(answer.token);
      }
      if answer.status != 403 && !answer.forbiddenText {
        RecordFailure(agent, password, NonForbidden, answer.status, now);
        return None;
      }
      var k;
      r, k := Recover(agent, rounds);
      if r.Some? {
        FirstIs(rounds, k);
        RecordSuccess(agent, rounds[k].password);
      } else {
        RecordFailure(agent, password, AfterRecovery, 403, end);
      }
    }

    /** The token is the answer to the round's password, which everyone now has. */
    predicate RecoveredIn(agent: string, round: Round, r: Option<string>)
      reads `server, stores
    {
      round.reply.Token? && r == Some(round.reply.token) && AllHold(agent, round.password)
    }

    predicate Same(agent: string, server0: map<string, string>,
                   mappings0: map<string, Mapping>, identities0: map<string, Account>)
      reads `server, stores
    {
      server == server0 && stores.mappings == mappings0 && stores.identities == identities0
    }
  }

  // ---------------------------------------------------------------------------------------
  // The cooldown, over any sequence of logins of one agent.

  /** What is remembered after the logins; the first finds nothing. */
  function Books(logins: seq<Login>, cooldown: nat): Book {
    if logins == [] then NEVER_FAILED
    else BookAfter(Books(logins[..|logins| - 1], cooldown), logins[|logins| - 1], cooldown)
  }

  function CourseAt(logins: seq<Login>, k: nat, cooldown: nat): Course
    requires k < |logins|
  {
    CourseOf(Books(logins[..k], cooldown), logins[k])
  }

  predicate Failed(c: Course) {
    c.Held? || c.GivenUp? || c.Lost?
  }

  /** When the outcome of a login was recorded. */
  function RecordedAt(logins: seq<Login>, k: nat, cooldown: nat): int
    requires k < |logins|
  {
    if CourseAt(logins, k, cooldown).Lost? then logins[k].end else logins[k].now
  }

  /** The clock counts up from zero. */
  predicate Timed(logins: seq<Login>) {
    forall k :: 0 <= k < |logins| ==> 0 <= logins[k].now <= logins[k].end
  }

  lemma BooksAt(logins: seq<Login>, k: nat, cooldown: nat)
    requires k < |logins|
    ensures Books(logins[..k + 1], cooldown) == BookAfter(Books(logins[..k], cooldown), logins[k], cooldown)
  {
    assert logins[..k + 1][..k] == logins[..k];
  }

  /** A login is answered by the cooldown if and only if the one before failed, whatever the
      reason, with the same password and less than the cooldown ago. */
  lemma HeldIff(logins: seq<Login>, k: nat, cooldown: nat)
    requires Timed(logins) && k < |logins|
    ensures CourseAt(logins, k, cooldown).Held? <==>
            && k > 0 && Failed(CourseAt(logins, k - 1, cooldown))
            && logins[k].password == logins[k - 1].password
            && logins[k].now - RecordedAt(logins, k - 1, cooldown) < cooldown
  {
    if k > 0 {
      BooksAt(logins, k - 1, cooldown);
      hide FirstRecovering, Books;
    }
  }

  /** When the failure before login `i` was recorded, if login `j` failed and all logins between
      them were answered by the cooldown. */
  function Since(logins: seq<Login>, j: nat, i: nat, cooldown: nat): int
    requires j < i < |logins|
  {
    if i == j + 1 then RecordedAt(logins, j, cooldown) else logins[i - 1].now
  }

  /** The login repeats the password of login `j`, within the cooldown of the login before. */
  predicate Hurried(logins: seq<Login>, j: nat, i: nat, cooldown: nat)
    requires j < i < |logins|
  {
    logins[i].password == logins[j].password && logins[i].now - Since(logins, j, i, cooldown) < cooldown
  }

  /** An answer of the cooldown starts it anew.  After a login `j` that failed, all logins up to `k`
      are answered by the cooldown if and only if all repeat its password and each comes less than
      the cooldown after the one before, however long ago login `j` was. */
  lemma {:induction false} StarvedByPolling(logins: seq<Login>, j: nat, k: nat, cooldown: nat)
    requires Timed(logins) && j <= k < |logins| && Failed(CourseAt(logins, j, cooldown))
    ensures (forall i :: j < i <= k ==> CourseAt(logins, i, cooldown).Held?) <==>
            (forall i :: j < i <= k ==> Hurried(logins, j, i, cooldown))
  {
    if j < k {
      StarvedByPolling(logins, j, k - 1, cooldown);
      HeldIff(logins, k, cooldown);
      hide CourseAt, Timed;
      if forall i :: j < i < k ==> CourseAt(logins, i, cooldown).Held? {
        HeldSamePassword(logins, j, k - 1, cooldown);
        assert k > j + 1 ==> CourseAt(logins, k - 1, cooldown).Held?;
        assert CourseAt(logins, k, cooldown).Held? <==> Hurried(logins, j, k, cooldown);
      }
    }
  }

  /** A login that fails for once, and then attempts that come one unit of time less than the cooldown apart
      and that the homeserver would accept. */
  function Polling(n: nat, cooldown: nat): (logins: seq<Login>)
    requires cooldown > 0
    ensures |logins| == n
  {
    if n == 0 then []
    else Polling(n - 1, cooldown) + [Poll(n - 1, (n - 1) * (cooldown - 1))]
  }

  function Poll(i: nat, now: int): Login {
    Login("p", if i == 0 then Rejected(500, false) else Token("t"), true, [], now, now)
  }

  lemma {:induction false} PollingAt(n: nat, i: nat, cooldown: nat)
    requires cooldown > 0 && i < n
    ensures Polling(n, cooldown)[i] == Poll(i, i * (cooldown - 1))
  {
    if i < n - 1 {
      PollingAt(n - 1, i, cooldown);
    }
  }

  /** For every cooldown and every number of attempts there is a run in which none but the first
      reaches the homeserver, although it would accept all others. */
  lemma StarvedRun(n: nat, cooldown: nat)
    requires cooldown > 0 && n > 0
    ensures Timed(Polling(n, cooldown)) && CourseAt(Polling(n, cooldown), 0, cooldown).GivenUp?
    ensures forall i :: 0 < i < n ==> Polling(n, cooldown)[i].answer.Token?
    ensures forall i :: 0 < i < n ==> CourseAt(Polling(n, cooldown), i, cooldown).Held?
    ensures Books(Polling(n, cooldown), cooldown).failures == n
  {
    var logins := Polling(n, cooldown);
    FirstGivenUp(n, cooldown);
    PollingTimed(n, cooldown);
    forall i | 0 < i < n
      ensures Hurried(logins, 0, i, cooldown)
    {
      PollingHurried(n, i, cooldown);
    }
    hide Polling, CourseAt, Books, Hurried, Timed;
    StarvedByPolling(logins, 0, n - 1, cooldown);
    PollingCounts(logins, 0, n - 1, cooldown);
    assert logins[..n] == logins;
  }

  lemma FirstGivenUp(n: nat, cooldown: nat)
    requires cooldown > 0 && n > 0
    ensures CourseAt(Polling(n, cooldown), 0, cooldown).GivenUp?
    ensures Books(Polling(n, cooldown)[..1], cooldown).failures == 1
  {
    PollingAt(n, 0, cooldown);
    BooksAt(Polling(n, cooldown), 0, cooldown);
    assert Polling(n, cooldown)[..0] == [];
    hide Polling, FirstRecovering;
  }

  lemma PollingTimed(n: nat, cooldown: nat)
    requires cooldown > 0
    ensures Timed(Polling(n, cooldown))
    ensures forall i :: 0 < i < n ==> Polling(n, cooldown)[i].answer.Token?
  {
    forall i | 0 <= i < n
      ensures Polling(n, cooldown)[i] == Poll(i, i * (cooldown - 1)) && i * (cooldown - 1) >= 0
    {
      PollingAt(n, i, cooldown);
    }
    hide Polling;
  }

  lemma PollingHurried(n: nat, i: nat, cooldown: nat)
    requires cooldown > 0 && 0 < i < n && CourseAt(Polling(n, cooldown), 0, cooldown).GivenUp?
    ensures Hurried(Polling(n, cooldown), 0, i, cooldown)
  {
    PollingAt(n, 0, cooldown);
    PollingAt(n, i - 1, cooldown);
    PollingAt(n, i, cooldown);
    hide Polling, CourseAt;
    assert i * (cooldown - 1) - (i - 1) * (cooldown - 1) == cooldown - 1;
  }

  lemma {:induction false} HeldSamePassword(logins: seq<Login>, j: nat, k: nat, cooldown: nat)
    requires Timed(logins) && j <= k < |logins| && Failed(CourseAt(logins, j, cooldown))
    requires forall i :: j < i <= k ==> CourseAt(logins, i, cooldown).Held?
    ensures logins[k].password == logins[j].password
  {
    if j < k {
      HeldSamePassword(logins, j, k - 1, cooldown);
      HeldIff(logins, k, cooldown);
    }
  }

  /** Every login that the cooldown answers counts as one more failure. */
  lemma {:induction false} PollingCounts(logins: seq<Login>, j: nat, k: nat, cooldown: nat)
    requires j <= k < |logins| && forall i :: j < i <= k ==> CourseAt(logins, i, cooldown).Held?
    ensures Books(logins[..k + 1], cooldown).failures == Books(logins[..j + 1], cooldown).failures + (k - j)
  {
    if j < k {
      PollingCounts(logins, j, k - 1, cooldown);
      BooksAt(logins, k, cooldown);
      assert CourseAt(logins, k, cooldown).Held?;
    }
  }
}
