/** The token bucket, and the outbound gate that keeps one bucket per room. */
module TokenBucket {
  datatype Config = Config(capacity: real, refillPerSec: real)

  predicate Sane(c: Config) {
    c.refillPerSec >= 0.0
  }

  /** The value of a bucket. */
  datatype Level = Level(tokens: real, lastRefillMs: int)

  function Min(a: real, b: real): real {
    if a <= b then a else b
  }

  /** Tokens that flow in between two instants. */
  function Gain(c: Config, from: int, to: int): real {
    (to - from) as real / 1000.0 * c.refillPerSec
  }

  function Refilled(b: Level, c: Config, now: int): Level {
    if now <= b.lastRefillMs then b
    else Level(Min(c.capacity, b.tokens + Gain(c, b.lastRefillMs, now)), now)
  }

  /** A bucket object; `created` and `calls` record what was asked of it. */
  class Bucket {
    var tokens: real
    var lastRefillMs: int
    ghost var created: int
    ghost var calls: seq<Call>

    ghost function Value(): Level
      reads this
    {
      Level(tokens, lastRefillMs)
    }

    /** The fields are what the recorded calls leave of a new bucket. */
    ghost predicate Follows(c: Config)
      reads this
    {
      Value() == After(c, created, calls)
    }

    constructor (c: Config, now: int)
      ensures Follows(c) && created == now && calls == []
    {
      tokens, lastRefillMs, created, calls := c.capacity, now, now, [];
    }

    method Refill(c: Config, now: int)
      modifies this`tokens, this`lastRefillMs
      ensures Value() == Refilled(old(Value()), c, now)
    {
      var elapsed := now - lastRefillMs;
      if elapsed <= 0 {
        return;
      }
      var add := elapsed as real / 1000.0 * c.refillPerSec;
      tokens := if c.capacity <= tokens + add then c.capacity else tokens + add;
      lastRefillMs := now;
    }

    method TryConsume(c: Config, now: int, cost: real) returns (granted: bool)
      requires Follows(c)
      modifies this
      ensures Follows(c) && created == old(created) && calls == old(calls) + [Call(now, cost)]
      ensures granted == LastGranted(c, created, calls)
    {
      AfterSnoc(c, created, calls, Call(now, cost));
      calls := calls + [Call(now, cost)];
      Refill(c, now);
      if tokens >= cost {
        tokens := tokens - cost;
        return true;
      }
      granted := false;
    }
  }

  lemma AfterSnoc(c: Config, created: int, calls: seq<Call>, call: Call)
    ensures After(c, created, calls + [call]) == Step(After(c, created, calls), c, call)
    ensures LastGranted(c, created, calls + [call]) == Grants(After(c, created, calls), c, call)
  {
    assert (calls + [call])[..|calls|] == calls;
  }

  // ---------------------------------------------------------------------------------------
  // Histories of calls.

  datatype Call = Call(at: int, cost: real)

  predicate Grants(b: Level, c: Config, call: Call) {
    Refilled(b, c, call.at).tokens >= call.cost
  }

  function Step(b: Level, c: Config, call: Call): Level {
    var refilled := Refilled(b, c, call.at);
    if refilled.tokens >= call.cost then refilled.(tokens := refilled.tokens - call.cost) else refilled
  }

  function After(c: Config, created: int, calls: seq<Call>): Level {
    if calls == [] then Level(c.capacity, created)
    else Step(After(c, created, calls[..|calls| - 1]), c, calls[|calls| - 1])
  }

  /** The last of the calls is granted. */
  predicate LastGranted(c: Config, created: int, calls: seq<Call>)
    requires calls != []
  {
    Grants(After(c, created, calls[..|calls| - 1]), c, calls[|calls| - 1])
  }

  /** The latest instant the bucket has heard of; with a clock that never goes back, the time
      of the last call. */
  function Clock(created: int, calls: seq<Call>): int {
    if calls == [] then created
    else
      var before := Clock(created, calls[..|calls| - 1]);
      if calls[|calls| - 1].at > before then calls[|calls| - 1].at else before
  }

  /** The total cost granted from the call with index `from` on. */
  function Spent(c: Config, created: int, calls: seq<Call>, from: nat): real {
    if |calls| <= from then 0.0
    else
      Spent(c, created, calls[..|calls| - 1], from) +
        (if LastGranted(c, created, calls) then calls[|calls| - 1].cost else 0.0)
  }

  predicate CostsNonNegative(calls: seq<Call>) {
    forall k :: 0 <= k < |calls| ==> calls[k].cost >= 0.0
  }

  /** What the allowance since call `j` leaves for the last call. */
  function Room(c: Config, created: int, calls: seq<Call>, j: nat): real
    requires j < |calls|
  {
    c.capacity + Gain(c, Clock(created, calls[..j + 1]), Clock(created, calls))
      - Spent(c, created, calls[..|calls| - 1], j)
  }

  lemma GainAdds(c: Config, a: int, b: int, d: int)
    ensures Gain(c, a, b) + Gain(c, b, d) == Gain(c, a, d)
    ensures Gain(c, a, a) == 0.0
    ensures Sane(c) && a <= b ==> Gain(c, a, b) >= 0.0
  {
    var r := c.refillPerSec;
    var x, y := (b - a) as real / 1000.0, (d - b) as real / 1000.0;
    assert (d - a) as real / 1000.0 == x + y;
    assert x * r + y * r == (x + y) * r;
    if Sane(c) && a <= b {
      ProductNonNegative(x, r);
    }
  }

  lemma ProductNonNegative(x: real, y: real)
    requires x >= 0.0 && y >= 0.0
    ensures x * y >= 0.0
  {
  }

  lemma {:induction false} ClockIsRefill(c: Config, created: int, calls: seq<Call>)
    ensures After(c, created, calls).lastRefillMs == Clock(created, calls)
  {
    if calls != [] {
      ClockIsRefill(c, created, calls[..|calls| - 1]);
    }
  }

  /** The tokens the last call finds, after the refill. */
  function Found(c: Config, created: int, calls: seq<Call>): real
    requires calls != []
  {
    Refilled(After(c, created, calls[..|calls| - 1]), c, calls[|calls| - 1].at).tokens
  }

  lemma {:induction false} FoundStep(c: Config, created: int, calls: seq<Call>)
    requires |calls| > 1
    ensures var init := calls[..|calls| - 1];
            var left := Found(c, created, init)
                        - (if LastGranted(c, created, init) then init[|init| - 1].cost else 0.0);
            Found(c, created, calls) ==
              if Clock(created, calls) > Clock(created, init)
                then Min(c.capacity, left + Gain(c, Clock(created, init), Clock(created, calls)))
              else left
  {
    hide Gain, Clock;
    ClockIsRefill(c, created, calls[..|calls| - 1]);
    ClockStep(created, calls);
  }

  lemma ClockStep(created: int, calls: seq<Call>)
    requires calls != []
    ensures var before := Clock(created, calls[..|calls| - 1]);
            Clock(created, calls) == if calls[|calls| - 1].at > before then calls[|calls| - 1].at else before
  {
  }

  /** The tokens found are the least allowance over all earlier calls: never more than any of
      them, and equal to one. */
  lemma {:induction false} FoundIsLeastRoom(c: Config, created: int, calls: seq<Call>) returns (tight: nat)
    requires calls != [] && Sane(c) && CostsNonNegative(calls)
    ensures forall j :: 0 <= j < |calls| ==> Found(c, created, calls) <= Room(c, created, calls, j)
    ensures tight < |calls| && Found(c, created, calls) == Room(c, created, calls, tight)
    decreases |calls|
  {
    var n := |calls| - 1;
    assert calls[..n + 1] == calls;
    GainAdds(c, Clock(created, calls), Clock(created, calls), Clock(created, calls));
    if n == 0 {
      FoundFirst(c, created, calls);
      tight := 0;
    } else {
      var init := calls[..n];
      var before := FoundIsLeastRoom(c, created, init);
      FoundStep(c, created, calls);
      forall j | 0 <= j < n
        ensures Room(c, created, calls, j) ==
                Room(c, created, init, j) + Gain(c, Clock(created, init), Clock(created, calls))
          - (if LastGranted(c, created, init) then init[n - 1].cost else 0.0)
      {
        RoomStep(c, created, calls, j);
      }
      FoundBelowCapacity(c, created, calls);
      hide Gain, Clock, Spent, Found, LastGranted;
      assert Room(c, created, calls, n) == c.capacity by {
        RoomLast(c, created, calls);
      }
      ClockGrows(created, calls);
      GainAdds(c, Clock(created, init), Clock(created, init), Clock(created, calls));
      forall j | 0 <= j < |calls|
        ensures Found(c, created, calls) <= Room(c, created, calls, j)
      {
        if j < n {
          assert Found(c, created, init) <= Room(c, created, init, j);
        }
      }
      tight := if Found(c, created, calls) == c.capacity then n else before;
    }
  }

  lemma FoundFirst(c: Config, created: int, calls: seq<Call>)
    requires |calls| == 1 && Sane(c)
    ensures Found(c, created, calls) == c.capacity == Room(c, created, calls, 0)
  {
    assert calls[..0] == [] && calls[..1] == calls;
    GainAdds(c, created, calls[0].at, calls[0].at);
    GainAdds(c, Clock(created, calls), Clock(created, calls), 0);
    hide Gain;
  }

  lemma RoomStep(c: Config, created: int, calls: seq<Call>, j: nat)
    requires |calls| > 1 && j < |calls| - 1
    ensures var init := calls[..|calls| - 1];
            Room(c, created, calls, j) ==
              Room(c, created, init, j) + Gain(c, Clock(created, init), Clock(created, calls))
              - (if LastGranted(c, created, init) then init[|init| - 1].cost else 0.0)
  {
    var init := calls[..|calls| - 1];
    assert init[..j + 1] == calls[..j + 1];
    GainAdds(c, Clock(created, init[..j + 1]), Clock(created, init), Clock(created, calls));
    hide Gain, Clock, LastGranted;
  }

  lemma RoomLast(c: Config, created: int, calls: seq<Call>)
    requires calls != []
    ensures Room(c, created, calls, |calls| - 1) == c.capacity
  {
    assert calls[..|calls| - 1 + 1] == calls;
    GainAdds(c, Clock(created, calls), Clock(created, calls), 0);
    hide Gain, Clock;
  }

  lemma ClockGrows(created: int, calls: seq<Call>)
    requires calls != []
    ensures Clock(created, calls[..|calls| - 1]) <= Clock(created, calls)
  {
  }

  lemma {:induction false} FoundBelowCapacity(c: Config, created: int, calls: seq<Call>)
    requires calls != [] && CostsNonNegative(calls)
    ensures Found(c, created, calls) <= c.capacity
  {
    hide Gain;
    if |calls| > 1 {
      FoundBelowCapacity(c, created, calls[..|calls| - 1]);
    }
  }

  /** The bucket is exact: a call is granted if and only if, for every call so far (itself
      included), the cost granted since then plus its own stays within the capacity and what
      has flowed in since. */
  lemma {:induction false} ExactlyGranted(c: Config, created: int, calls: seq<Call>)
    requires calls != [] && Sane(c) && CostsNonNegative(calls)
    ensures LastGranted(c, created, calls) <==>
              forall j :: 0 <= j < |calls| ==> calls[|calls| - 1].cost <= Room(c, created, calls, j)
  {
    var tight := FoundIsLeastRoom(c, created, calls);
    assert LastGranted(c, created, calls) <==> calls[|calls| - 1].cost <= Found(c, created, calls);
    hide Found, Room, LastGranted;
  }

  /** What is granted since any call stays within the allowance since that call. */
  lemma {:induction false} WindowBound(c: Config, created: int, calls: seq<Call>, i: nat)
    requires Sane(c) && c.capacity >= 0.0 && CostsNonNegative(calls) && i < |calls|
    ensures Spent(c, created, calls, i) <= c.capacity + Gain(c, Clock(created, calls[..i + 1]), Clock(created, calls))
    decreases |calls|
  {
    var n := |calls| - 1;
    assert calls[..n + 1] == calls;
    if LastGranted(c, created, calls) {
      ExactlyGranted(c, created, calls);
      assert calls[n].cost <= Room(c, created, calls, i);
      hide Gain, Clock, LastGranted;
    } else if i == n {
      GainAdds(c, Clock(created, calls), Clock(created, calls), 0);
      hide Gain, Clock, LastGranted;
    } else {
      var init := calls[..n];
      WindowBound(c, created, init, i);
      assert init[..i + 1] == calls[..i + 1];
      ClockGrows(created, calls);
      GainAdds(c, Clock(created, calls[..i + 1]), Clock(created, init), Clock(created, calls));
      GainAdds(c, Clock(created, init), Clock(created, calls), 0);
      hide Gain, Clock, LastGranted;
    }
  }
}
