/** Outbound posts of the bridge: one token bucket per Matrix room. */
module OutboundGate {
  import opened Prelude
  import opened TokenBucket

  const OUTBOUND: Config := Config(20.0, 5.0)

  /** White space and line ends, as `trim` knows them. */
  predicate Blank(c: char) {
    || '\U{0009}' <= c <= '\U{000D}' || c == ' ' || c == '\U{00A0}' || c == '\U{1680}'
    || '\U{2000}' <= c <= '\U{200A}' || c == '\U{2028}' || c == '\U{2029}' || c == '\U{202F}'
    || c == '\U{205F}' || c == '\U{3000}' || c == '\U{FEFF}'
  }

  function Trimmed(s: string): string
    decreases |s|
  {
    if s != "" && Blank(s[0]) then Trimmed(s[1..])
    else if s != "" && Blank(s[|s| - 1]) then Trimmed(s[..|s| - 1])
    else s
  }

  /** Answers that must not be posted: the bridge would read them back as new input. */
  predicate NoReply(content: string) {
    Trimmed(content) == "<no-reply/>" || Trimmed(content) == "`<no-reply/>`"
  }

  datatype Outbound = Ignored | RateLimited | Posted(room: string, text: string)

  /** When a room's bucket was created, and the calls made on it since. */
  datatype History = History(created: int, calls: seq<Call>)

  class Gate {
    const userName: string
    var buckets: map<string, Bucket>
    /** Whose bucket it is: no two rooms share one. */
    ghost var owner: map<Bucket, string>

    ghost predicate Valid()
      reads this, owner.Keys
    {
      forall r :: r in buckets ==>
        buckets[r] in owner && owner[buckets[r]] == r && buckets[r].Follows(OUTBOUND) && UnitCosts(buckets[r].calls)
    }

    ghost function HistoryOf(room: string): Option<History>
      reads this, owner.Keys
      requires Valid()
    {
      if room in buckets then Some(History(buckets[room].created, buckets[room].calls)) else None
    }

    /** The history of a room after one more post at `now`. */
    ghost function Tried(room: string, now: int): History
      reads this, owner.Keys
      requires Valid()
    {
      var h := if room in buckets then HistoryOf(room).value else History(now, []);
      h.(calls := h.calls + [Call(now, 1.0)])
    }

    constructor (userName: string)
      ensures Valid() && forall r :: HistoryOf(r) == None
    {
      this.userName := userName;
      buckets, owner := map[], map[];
    }

    method GetBucket(room: string, now: int) returns (bucket: Bucket)
      requires Valid()
      modifies this`buckets, this`owner
      ensures Valid() && room in buckets && bucket == buckets[room]
      ensures owner.Keys == old(owner.Keys) + {bucket} && fresh(owner.Keys - old(owner.Keys))
      ensures forall r :: r != room ==> HistoryOf(r) == old(HistoryOf(r))
      ensures HistoryOf(room) == if old(HistoryOf(room)).Some? then old(HistoryOf(room)) else Some(History(now, []))
    {
      if room in buckets {
        bucket := buckets[room];
      } else {
        bucket := new Bucket(OUTBOUND, now);
        buckets, owner := buckets[room := bucket], owner[bucket := room];
      }
    }

    method Admit(room: string, now: int) returns (granted: bool)
      requires Valid()
      modifies this`buckets, this`owner, owner.Keys
      ensures Valid() && fresh(owner.Keys - old(owner.Keys))
      ensures forall r :: r != room ==> HistoryOf(r) == old(HistoryOf(r))
      ensures HistoryOf(room) == Some(old(Tried(room, now)))
      ensures granted == LastGranted(OUTBOUND, HistoryOf(room).value.created, HistoryOf(room).value.calls)
    {
      hide After, LastGranted;
      var bucket := GetBucket(room, now);
      UnitSnoc(bucket.calls, now);
      granted := bucket.TryConsume(OUTBOUND, now, 1.0);
    }

    /** An outbound message of a registered instance: posted to its first room, unless there is
        nowhere to post, it is a no-reply marker, or the room's bucket is empty. */
    method HandleOutbound(rooms: seq<string>, content: string, fromUser: bool, connected: bool, now: int)
      returns (r: Outbound)
      requires Valid()
      modifies this`buckets, this`owner, owner.Keys
      ensures Valid() && fresh(owner.Keys - old(owner.Keys))
      ensures r.Ignored? <==> rooms == [] || rooms[0] == "" || !connected || NoReply(content)
      ensures forall q :: r.Ignored? || q != rooms[0] ==> HistoryOf(q) == old(HistoryOf(q))
      ensures !r.Ignored? ==> HistoryOf(rooms[0]) == Some(old(Tried(rooms[0], now)))
      ensures r.Posted? ==> r.room == rooms[0]
      ensures r.Posted? ==> r.text == if fromUser then "**" + userName + ":** " + content else content
      ensures !r.Ignored? ==>
                var h := HistoryOf(rooms[0]).value; r.Posted? <==> LastGranted(OUTBOUND, h.created, h.calls)
    {
      if rooms == [] || rooms[0] == "" || !connected || NoReply(content) {
        return Ignored;
      }
      var granted := Admit(rooms[0], now);
      if !granted {
        return RateLimited;
      }
      r := Posted(rooms[0], if fromUser then "**" + userName + ":** " + content else content);
    }
  }

  predicate UnitCosts(calls: seq<Call>) {
    forall k :: 0 <= k < |calls| ==> calls[k].cost == 1.0
  }

  lemma UnitSnoc(calls: seq<Call>, now: int)
    ensures UnitCosts(calls) ==> UnitCosts(calls + [Call(now, 1.0)])
    ensures UnitCosts([Call(now, 1.0)])
  {
  }

  /** The number of calls with index at least `from` that were granted. */
  function Posts(c: Config, created: int, calls: seq<Call>, from: nat): nat {
    if |calls| <= from then 0
    else Posts(c, created, calls[..|calls| - 1], from) + (if LastGranted(c, created, calls) then 1 else 0)
  }

  lemma {:induction false} PostsAreSpent(c: Config, created: int, calls: seq<Call>, from: nat)
    requires UnitCosts(calls)
    ensures Spent(c, created, calls, from) == Posts(c, created, calls, from) as real
  {
    hide LastGranted;
    if |calls| > from {
      PostsAreSpent(c, created, calls[..|calls| - 1], from);
    }
  }

  /** The clock of the callers never goes back. */
  predicate Ordered(created: int, calls: seq<Call>) {
    && (forall k :: 0 <= k < |calls| ==> created <= calls[k].at)
    && forall j, k :: 0 <= j <= k < |calls| ==> calls[j].at <= calls[k].at
  }

  lemma {:induction false} ClockIsLastCall(created: int, calls: seq<Call>)
    requires Ordered(created, calls) && calls != []
    ensures Clock(created, calls) == calls[|calls| - 1].at
  {
    if |calls| > 1 {
      ClockIsLastCall(created, calls[..|calls| - 1]);
    }
  }

  /** Within any window of `width` milliseconds, from one call to a later one, a room gets at
      most 20 + 5 * width / 1000 posts. */
  lemma {:induction false} PostsPerWindow(created: int, calls: seq<Call>, i: nat, width: int)
    requires UnitCosts(calls) && Ordered(created, calls) && i < |calls|
    requires calls[|calls| - 1].at - calls[i].at <= width
    ensures Posts(OUTBOUND, created, calls, i) as real <= 20.0 + width as real / 1000.0 * 5.0
  {
    hide Posts, Spent, After;
    PostsAreSpent(OUTBOUND, created, calls, i);
    WindowBound(OUTBOUND, created, calls, i);
    ClockIsLastCall(created, calls);
    ClockIsLastCall(created, calls[..i + 1]);
  }
}
