/** The two event deduplicators, the bridge's lazy map and the client's eagerly purged table,
    against one specification over the full history. */
module EventDedup {
  import opened Prelude

  const PROCESSED_EVENT_TTL_MS: nat := 300000
  const PRUNE_ABOVE: nat := 5000

  datatype Event = Event(id: string, at: int)

  /** The last event of the trace is accepted: no event with its id was accepted within the
      last `ttl`.  An event without an id is always accepted. */
  predicate Accepted(ttl: nat, trace: seq<Event>)
    requires trace != []
    decreases |trace|
  {
    var last := trace[|trace| - 1];
    last.id == "" || forall k :: 0 <= k < |trace| - 1 && trace[k].id == last.id && last.at - trace[k].at <= ttl ==>
      !Accepted(ttl, trace[..k + 1])
  }

  /** The clock never goes back. */
  predicate Ordered(trace: seq<Event>) {
    forall j, k :: 0 <= j <= k < |trace| ==> trace[j].at <= trace[k].at
  }

  /** When an event with this id was last accepted. */
  function LatestAccepted(ttl: nat, trace: seq<Event>, id: string): Option<int>
    decreases |trace|
  {
    if trace == [] then None
    else
      var last := trace[|trace| - 1];
      if last.id == id && Accepted(ttl, trace) then Some(last.at)
      else LatestAccepted(ttl, trace[..|trace| - 1], id)
  }

  predicate Recent(t: Option<int>, now: int, ttl: nat) {
    t.Some? && now - t.value <= ttl
  }

  predicate AcceptedAt(ttl: nat, trace: seq<Event>, k: nat, id: string) {
    k < |trace| && trace[k].id == id && Accepted(ttl, trace[..k + 1])
  }

  lemma AcceptedAtPrefix(ttl: nat, trace: seq<Event>, n: nat, k: nat, id: string)
    requires k < n <= |trace|
    ensures AcceptedAt(ttl, trace[..n], k, id) <==> AcceptedAt(ttl, trace, k, id)
  {
    assert trace[..n][..k + 1] == trace[..k + 1];
  }

  /** The latest acceptance is an acceptance. */
  lemma {:induction false} LatestIsAccepted(ttl: nat, trace: seq<Event>, id: string) returns (k: nat)
    requires LatestAccepted(ttl, trace, id).Some?
    ensures AcceptedAt(ttl, trace, k, id) && trace[k].at == LatestAccepted(ttl, trace, id).value
    decreases |trace|
  {
    hide Accepted;
    var n := |trace| - 1;
    if trace[n].id == id && Accepted(ttl, trace) {
      assert trace[..n + 1] == trace;
      k := n;
    } else {
      k := LatestIsAccepted(ttl, trace[..n], id);
      AcceptedAtPrefix(ttl, trace, n, k, id);
    }
  }

  /** No acceptance is later. */
  lemma {:induction false} LatestIsLast(ttl: nat, trace: seq<Event>, k: nat, id: string)
    requires Ordered(trace) && AcceptedAt(ttl, trace, k, id)
    ensures LatestAccepted(ttl, trace, id).Some? && trace[k].at <= LatestAccepted(ttl, trace, id).value
    decreases |trace|
  {
    hide Accepted;
    var n := |trace| - 1;
    assert trace[k].at <= trace[n].at;
    if k == n {
      assert trace[..n + 1] == trace;
    } else if !(trace[n].id == id && Accepted(ttl, trace)) {
      AcceptedAtPrefix(ttl, trace, n, k, id);
      LatestIsLast(ttl, trace[..n], k, id);
    }
  }

  /** With an ordered clock the latest acceptance alone decides. */
  lemma {:induction false} AcceptedByLatest(ttl: nat, trace: seq<Event>, e: Event)
    requires Ordered(trace + [e])
    ensures Accepted(ttl, trace + [e]) <==> e.id == "" || !Recent(LatestAccepted(ttl, trace, e.id), e.at, ttl)
  {
    var all := trace + [e];
    OrderedLast(trace, e);
    if e.id != "" && Recent(LatestAccepted(ttl, trace, e.id), e.at, ttl) {
      var k := LatestIsAccepted(ttl, trace, e.id);
      assert all[k] == trace[k] && all[..k + 1] == trace[..k + 1];
    } else if e.id != "" {
      forall k | 0 <= k < |trace| && all[k].id == e.id && e.at - all[k].at <= ttl
        ensures !Accepted(ttl, all[..k + 1])
      {
        assert all[k] == trace[k] && all[..k + 1] == trace[..k + 1];
        if Accepted(ttl, trace[..k + 1]) {
          LatestIsLast(ttl, trace, k, e.id);
        }
      }
    }
  }

  predicate RemembersId(table: map<string, int>, ttl: nat, trace: seq<Event>, id: string) {
    if id in table then LatestAccepted(ttl, trace, id) == Some(table[id])
    else trace == [] || !Recent(LatestAccepted(ttl, trace, id), trace[|trace| - 1].at, ttl)
  }

  /** A table that still knows every acceptance of the last `ttl`, and nothing wrong. */
  ghost predicate Remembers(table: map<string, int>, ttl: nat, trace: seq<Event>) {
    "" !in table && forall id :: id != "" ==> RemembersId(table, ttl, trace, id)
  }

  /** What a table may forget at time `now`. */
  predicate Purged(table: map<string, int>, table': map<string, int>, now: int, ttl: nat) {
    && (forall id :: id in table' ==> id in table && table'[id] == table[id])
    && forall id :: id in table && id !in table' ==> now - table[id] > ttl
  }

  lemma LatestSnoc(ttl: nat, trace: seq<Event>, e: Event, id: string)
    ensures LatestAccepted(ttl, trace + [e], id) ==
              if e.id == id && Accepted(ttl, trace + [e]) then Some(e.at) else LatestAccepted(ttl, trace, id)
  {
    assert (trace + [e])[..|trace|] == trace;
  }

  function Find(table: map<string, int>, id: string): Option<int> {
    if id in table then Some(table[id]) else None
  }

  /** Looking the id up, after any allowed forgetting, gives the verdict. */
  lemma {:induction false} LookupDecides(table: map<string, int>, seen: map<string, int>, ttl: nat, trace: seq<Event>,
          e: Event)
    requires Remembers(table, ttl, trace) && Ordered(trace + [e])
    requires Purged(table, seen, e.at, ttl)
    ensures Accepted(ttl, trace + [e]) <==> e.id == "" || !Recent(Find(seen, e.id), e.at, ttl)
  {
    AcceptedByLatest(ttl, trace, e);
    OrderedLast(trace, e);
    if e.id != "" {
      assert RemembersId(table, ttl, trace, e.id);
    }
    if trace == [] {
      assert LatestAccepted(ttl, trace, e.id) == None;
    }
    hide Accepted, LatestAccepted, Ordered;
  }

  /** Recording an accepted event keeps the table right, after any allowed forgetting. */
  lemma {:induction false} RemembersStep(table: map<string, int>, seen: map<string, int>, table': map<string, int>,
          ttl: nat, trace: seq<Event>, e: Event)
    requires Remembers(table, ttl, trace) && Ordered(trace + [e])
    requires Purged(table, seen, e.at, ttl)
    requires var kept := if e.id == "" || Recent(Find(seen, e.id), e.at, ttl) then seen else seen[e.id := e.at];
             Purged(kept, table', e.at, ttl)
    ensures Accepted(ttl, trace + [e]) <==> e.id == "" || !Recent(Find(seen, e.id), e.at, ttl)
    ensures Remembers(table', ttl, trace + [e])
  {
    LookupDecides(table, seen, ttl, trace, e);
    OrderedLast(trace, e);
    forall id | id != ""
      ensures RemembersId(table', ttl, trace + [e], id)
    {
      assert RemembersId(table, ttl, trace, id);
      hide Accepted, LatestAccepted, Ordered, Remembers;
      LatestSnoc(ttl, trace, e, id);
    }
    assert "" !in table';
    hide Accepted, LatestAccepted, Ordered, RemembersId;
  }

  lemma OrderedLast(trace: seq<Event>, e: Event)
    requires Ordered(trace + [e])
    ensures Ordered(trace) && (trace != [] ==> trace[|trace| - 1].at <= e.at)
  {
    var all := trace + [e];
    assert forall k :: 0 <= k < |trace| ==> all[k] == trace[k];
    assert trace != [] ==> all[|trace| - 1].at <= all[|trace|].at;
  }

  // ---------------------------------------------------------------------------------------
  // The bridge: lazy deletion, and pruning when the map has grown large.

  class BridgeDedup {
    const ttl: nat
    const pruneAbove: nat
    var timestamps: map<string, int>
    ghost var trace: seq<Event>

    ghost predicate Valid()
      reads this
    {
      Remembers(timestamps, ttl, trace)
    }

    constructor (ttl: nat, pruneAbove: nat)
      ensures Valid() && trace == [] && this.ttl == ttl && this.pruneAbove == pruneAbove
    {
      this.ttl, this.pruneAbove := ttl, pruneAbove;
      timestamps, trace := map[], [];
    }

    method WasProcessed(id: string, now: int) returns (processed: bool)
      modifies this`timestamps
      ensures Purged(old(timestamps), timestamps, now, ttl)
      ensures processed == (id != "" && Recent(Find(timestamps, id), now, ttl))
    {
      if id == "" || id !in timestamps {
        return false;
      }
      if now - timestamps[id] > ttl {
        timestamps := timestamps - {id};
        return false;
      }
      processed := true;
    }

    method MarkProcessed(id: string, now: int)
      modifies this`timestamps
      ensures Purged(if id == "" then old(timestamps) else old(timestamps)[id := now], timestamps, now, ttl)
    {
      if id == "" {
        return;
      }
      timestamps := timestamps[id := now];
      if |timestamps| > pruneAbove {
        ghost var full := timestamps;
        var todo := timestamps.Keys;
        while todo != {}
          invariant Purged(full, timestamps, now, ttl)
          invariant todo <= full.Keys
          decreases todo
        {
          var key :| key in todo;
          todo := todo - {key};
          if key in timestamps && timestamps[key] < now - ttl {
            timestamps := timestamps - {key};
          }
        }
      }
    }

    /** The head of `handleMatrixMessage`: drop a duplicate, else record the event. */
    method Handle(id: string, now: int) returns (accepted: bool)
      requires Valid() && Ordered(trace + [Event(id, now)])
      modifies this
      ensures Valid() && trace == old(trace) + [Event(id, now)]
      ensures accepted == Accepted(ttl, trace)
    {
      ghost var before := timestamps;
      var processed := WasProcessed(id, now);
      ghost var seen := timestamps;
      if !processed {
        MarkProcessed(id, now);
      }
      RemembersStep(before, seen, timestamps, ttl, trace, Event(id, now));
      hide Accepted, Remembers, Purged;
      trace := trace + [Event(id, now)];
      accepted := !processed;
    }
  }

  // ---------------------------------------------------------------------------------------
  // The client: purge everything old, then insert unless the row exists.

  class TableDedup {
    const ttl: nat
    var rows: map<string, int>
    ghost var trace: seq<Event>

    ghost predicate Valid()
      reads this
    {
      Remembers(rows, ttl, trace)
    }

    constructor (ttl: nat)
      ensures Valid() && trace == [] && this.ttl == ttl
    {
      this.ttl := ttl;
      rows, trace := map[], [];
    }

    method DeleteBefore(cutoff: int)
      modifies this`rows
      ensures rows == map id | id in old(rows) && old(rows)[id] >= cutoff :: old(rows)[id]
    {
      rows := map id | id in rows && rows[id] >= cutoff :: rows[id];
    }

    /** INSERT OR IGNORE; the number of rows inserted. */
    method InsertOrIgnore(id: string, at: int) returns (rowcount: nat)
      modifies this`rows
      ensures id in old(rows) ==> rowcount == 0 && rows == old(rows)
      ensures id !in old(rows) ==> rowcount == 1 && rows == old(rows)[id := at]
    {
      if id in rows {
        return 0;
      }
      rows := rows[id := at];
      rowcount := 1;
    }

    method IsDuplicateEvent(id: string, now: int) returns (duplicate: bool)
      requires Valid() && Ordered(trace + [Event(id, now)])
      modifies this
      ensures Valid() && trace == old(trace) + [Event(id, now)]
      ensures duplicate == !Accepted(ttl, trace)
    {
      ghost var before := rows;
      duplicate := false;
      if id != "" {
        DeleteBefore(now - ttl);
        ghost var seen := rows;
        var rowcount := InsertOrIgnore(id, now);
        duplicate := rowcount == 0;
        RemembersStep(before, seen, rows, ttl, trace, Event(id, now));
      } else {
        RemembersStep(before, before, rows, ttl, trace, Event(id, now));
      }
      hide Accepted, Remembers;
      trace := trace + [Event(id, now)];
    }
  }

  // ---------------------------------------------------------------------------------------
  // Consequences of the specification.

  /** Two acceptances of one event are more than the TTL apart. */
  lemma {:induction false} AcceptedRepeatsFarApart(ttl: nat, trace: seq<Event>, j: nat, k: nat)
    requires j < k < |trace| && trace[j].id == trace[k].id != ""
    requires Accepted(ttl, trace[..j + 1]) && Accepted(ttl, trace[..k + 1])
    ensures trace[k].at - trace[j].at > ttl
  {
    var upTo := trace[..k + 1];
    assert upTo[..j + 1] == trace[..j + 1];
    assert upTo[j] == trace[j] && upTo[k] == trace[k];
  }

  /** A dropped event was accepted earlier, within the TTL: nothing is lost. */
  lemma {:induction false} DroppedWasAccepted(ttl: nat, trace: seq<Event>, k: nat) returns (j: nat)
    requires k < |trace| && !Accepted(ttl, trace[..k + 1])
    ensures j < k && trace[j].id == trace[k].id && trace[k].at - trace[j].at <= ttl && Accepted(ttl, trace[..j + 1])
  {
    var upTo := trace[..k + 1];
    j :| 0 <= j < |upTo| - 1 && upTo[j].id == upTo[k].id && upTo[k].at - upTo[j].at <= ttl
      && Accepted(ttl, upTo[..j + 1]);
    assert upTo[..j + 1] == trace[..j + 1];
  }
}
