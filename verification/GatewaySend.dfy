/** Sending one message through the gateway: the client's two attempts, and what the reader
    and the collector make of the frames the client yields. */
module GatewaySend {
  import opened Prelude
  import opened StreamReader
  import opened StreamReaderLaws

  datatype ClientError = Unavailable | SessionError(message: string)

  datatype SendOutcome = Sent | SendFailed

  /** What one receive produces.  Silence after the last one is the event timeout. */
  datatype Arrival = Json(frame: Frame) | NotJson | Broken

  /** What the gateway does during one attempt.  `noSession` is the error of acquiring a
      session, which is not caught by the attempt. */
  datatype Attempt = Attempt(noSession: Option<ClientError>, send: SendOutcome, requestId: string,
          arrivals: seq<Arrival>)

  datatype AttemptEnd = NoSession(error: ClientError) | GotResult | Lost | GatewaySaid(text: string)

  datatype Outcome = Finished | Raised(error: ClientError)

  /** The error text mentions session_start, in any case: the gateway expired the session. */
  predicate StaleSession(text: string) {
    Includes(Lower(text), "session_start")
  }

  /** An error frame that carries another request's id is skipped. */
  predicate ConcernsOther(frame: Frame, requestId: string) {
    frame.requestId != "" && frame.requestId != requestId
  }

  /** The arrival ends the attempt. */
  predicate Ends(a: Arrival, requestId: string) {
    match a
    case Json(f) => f.kind.ResultFrame? || (f.kind.ErrorFrame? && !ConcernsOther(f, requestId))
    case NotJson => false
    case Broken => true
  }

  predicate Yieldable(a: Arrival) {
    a.Json? && (a.frame.kind.ResultFrame? || a.frame.kind.StreamFrame? || a.frame.kind.SessionInitFrame?)
  }

  /** The arrivals up to and including the first that ends the attempt. */
  function Heard(arrivals: seq<Arrival>, requestId: string): seq<Arrival> {
    if arrivals == [] || Ends(arrivals[0], requestId) then arrivals[..if arrivals == [] then 0 else 1]
    else [arrivals[0]] + Heard(arrivals[1..], requestId)
  }

  function FramesOf(arrivals: seq<Arrival>): seq<Frame> {
    if arrivals == [] then []
    else
      var last := arrivals[|arrivals| - 1];
      FramesOf(arrivals[..|arrivals| - 1]) + (if Yieldable(last) then [last.frame] else [])
  }

  function Yielded(a: Attempt): seq<Frame> {
    if a.noSession.Some? || a.send.SendFailed? then []
    else FramesOf(Heard(a.arrivals, a.requestId))
  }

  function EndOf(a: Attempt): AttemptEnd {
    if a.noSession.Some? then NoSession(a.noSession.value)
    else if a.send.SendFailed? then Lost
    else
      var heard := Heard(a.arrivals, a.requestId);
      if heard == [] || !Ends(heard[|heard| - 1], a.requestId) then Lost
      else match heard[|heard| - 1]
        case Json(f) => if f.kind.ResultFrame? then GotResult else GatewaySaid(f.message)
        case _ => Lost
  }

  function Payloads(a: Attempt): nat {
    if a.noSession.Some? || a.send.SendFailed? then 0 else 1
  }

  /** After this end the message is sent once more. */
  predicate Retries(end: AttemptEnd) {
    end.Lost? || (end.GatewaySaid? && StaleSession(end.text))
  }

  lemma {:induction false} HeardStep(arrivals: seq<Arrival>, n: nat, requestId: string)
    requires n < |arrivals|
    requires forall k :: 0 <= k < n ==> !Ends(arrivals[k], requestId)
    ensures Ends(arrivals[n], requestId) ==> Heard(arrivals, requestId) == arrivals[..n + 1]
    ensures n + 1 == |arrivals| ==> Heard(arrivals, requestId) == arrivals
    decreases n
  {
    if n > 0 {
      HeardStep(arrivals[1..], n - 1, requestId);
      assert arrivals[..n + 1] == [arrivals[0]] + arrivals[1..][..n];
    } else {
      assert arrivals[..1] == [arrivals[0]];
    }
  }

  lemma FramesSnoc(arrivals: seq<Arrival>, a: Arrival)
    ensures FramesOf(arrivals + [a]) == FramesOf(arrivals) + (if Yieldable(a) then [a.frame] else [])
  {
    assert (arrivals + [a])[..|arrivals|] == arrivals;
  }

  /** One attempt: send the payload, then receive until something ends it. */
  method Try(a: Attempt) returns (got: seq<Frame>, end: AttemptEnd, payloads: nat)
    ensures got == Yielded(a) && end == EndOf(a) && payloads == Payloads(a)
  {
    got, payloads := [], 0;
    if a.noSession.Some? {
      return got, NoSession(a.noSession.value), payloads;
    }
    if a.send.SendFailed? {
      return got, Lost, payloads;
    }
    payloads := 1;
    var n := 0;
    while n < |a.arrivals|
      invariant 0 <= n <= |a.arrivals|
      invariant forall k :: 0 <= k < n ==> !Ends(a.arrivals[k], a.requestId)
      invariant got == FramesOf(a.arrivals[..n])
    {
      var arrival := a.arrivals[n];
      HeardStep(a.arrivals, n, a.requestId);
      FramesSnoc(a.arrivals[..n], arrival);
      assert a.arrivals[..n + 1] == a.arrivals[..n] + [arrival];
      n := n + 1;
      if arrival.Broken? {
        return got, Lost, payloads;
      }
      if arrival.NotJson? {
        continue;
      }
      var event := arrival.frame;
      if event.kind.ErrorFrame? {
        if ConcernsOther(event, a.requestId) {
          continue;
        }
        return got, GatewaySaid(event.message), payloads;
      }
      if event.kind.ResultFrame? {
        got := got + [event];
        return got, GotResult, payloads;
      }
      if event.kind.StreamFrame? || event.kind.SessionInitFrame? {
        got := got + [event];
      }
    }
    assert a.arrivals[..n] == a.arrivals;
    if n > 0 {
      HeardStep(a.arrivals, n - 1, a.requestId);
    }
    end := Lost;
  }

  /** All frames that the client yields. */
  function Delivered(first: Attempt, second: Attempt): seq<Frame> {
    Yielded(first) + if Retries(EndOf(first)) then Yielded(second) else []
  }

  /** The end of the last attempt. */
  function LastEnd(first: Attempt, second: Attempt): AttemptEnd {
    if Retries(EndOf(first)) then EndOf(second) else EndOf(first)
  }

  /** The client: at most one retry, and an error when that fails too. */
  method SendMessageStreaming(first: Attempt, second: Attempt)
    returns (got: seq<Frame>, outcome: Outcome, payloads: nat)
    ensures payloads <= 2
    ensures payloads == Payloads(first) + if Retries(EndOf(first)) then Payloads(second) else 0
    ensures got == Delivered(first, second)
    ensures outcome.Finished? <==> EndOf(first).GotResult? || (Retries(EndOf(first)) && EndOf(second).GotResult?)
    ensures LastEnd(first, second).NoSession? ==> outcome == Raised(LastEnd(first, second).error)
    ensures LastEnd(first, second).GatewaySaid? ==> outcome == Raised(SessionError(LastEnd(first, second).text))
    ensures LastEnd(first, second).Lost? ==> outcome == Raised(Unavailable)
    ensures outcome.Finished? ==> EndsWithResult(got)
    ensures outcome.Raised? ==> forall k :: 0 <= k < |got| ==> !got[k].kind.ResultFrame?
    ensures forall k :: 0 <= k < |got| ==> !got[k].kind.ErrorFrame? && !got[k].kind.OtherFrame?
  {
    var end;
    got, end, payloads := Try(first);
    YieldedShape(first);
    YieldedShape(second);
    if Retries(end) {
      var more, again := [], 0;
      more, end, again := Try(second);
      got, payloads := got + more, payloads + again;
    }
    match end
    case GotResult => outcome := Finished;
    case NoSession(e) => outcome := Raised(e);
    case GatewaySaid(text) => outcome := Raised(SessionError(text));
    case Lost => outcome := Raised(Unavailable);
  }

  /** Exactly one result, and it is last. */
  predicate EndsWithResult(got: seq<Frame>) {
    && got != []
    && got[|got| - 1].kind.ResultFrame?
    && forall k :: 0 <= k < |got| - 1 ==> !got[k].kind.ResultFrame?
  }

  predicate Plain(frames: seq<Frame>) {
    forall k :: 0 <= k < |frames| ==> frames[k].kind.StreamFrame? || frames[k].kind.SessionInitFrame?
  }

  predicate NoneEnds(arrivals: seq<Arrival>, requestId: string) {
    forall k :: 0 <= k < |arrivals| ==> !Ends(arrivals[k], requestId)
  }

  lemma {:induction false} HeardShape(arrivals: seq<Arrival>, requestId: string)
    ensures var heard := Heard(arrivals, requestId);
            heard != [] ==> NoneEnds(heard[..|heard| - 1], requestId)
  {
    if arrivals != [] && !Ends(arrivals[0], requestId) {
      HeardShape(arrivals[1..], requestId);
      var rest := Heard(arrivals[1..], requestId);
      if rest == [] {
        assert ([arrivals[0]] + rest)[..0] == [];
      } else {
        assert ([arrivals[0]] + rest)[..|rest|] == [arrivals[0]] + rest[..|rest| - 1];
      }
    }
  }

  lemma {:induction false} FramesPlain(arrivals: seq<Arrival>, requestId: string)
    requires NoneEnds(arrivals, requestId)
    ensures Plain(FramesOf(arrivals))
  {
    if arrivals != [] {
      FramesPlain(arrivals[..|arrivals| - 1], requestId);
      assert !Ends(arrivals[|arrivals| - 1], requestId);
    }
  }

  lemma {:induction false} YieldedShape(a: Attempt)
    ensures EndOf(a).GotResult? ==> EndsWithResult(Yielded(a)) && Plain(Yielded(a)[..|Yielded(a)| - 1])
    ensures !EndOf(a).GotResult? ==> Plain(Yielded(a))
  {
    var heard := Heard(a.arrivals, a.requestId);
    HeardShape(a.arrivals, a.requestId);
    if heard != [] {
      var init, last := heard[..|heard| - 1], heard[|heard| - 1];
      assert init + [last] == heard;
      FramesSnoc(init, last);
      FramesPlain(init, a.requestId);
    }
  }

  // ---------------------------------------------------------------------------------------
  // Client and reader together.

  /** The run of the reader ends normally: the client finished, or the loop guard tripped
      before the client could raise. */
  predicate EndsNormally(got: seq<Frame>, outcome: Outcome, includeReasoning: bool, maxToolCalls: int) {
    outcome.Finished? || Stopped(Items(got, includeReasoning), maxToolCalls)
  }

  /** A reader run that ends normally holds nothing back, so its bubbles are all the text of
      the frames it took. */
  lemma {:induction false} NothingHeldBack(got: seq<Frame>, outcome: Outcome, includeReasoning: bool, maxToolCalls: int,
          n: nat)
    requires EndsNormally(got, outcome, includeReasoning, maxToolCalls)
    requires outcome.Finished? ==> EndsWithResult(got)
    requires Consumed(got, includeReasoning, maxToolCalls, n)
    ensures var s := Read(got, includeReasoning, maxToolCalls);
            Text(s.pending) == "" && TextOf(s.out) == FrameText(got[..n])
  {
    hide Segment, Text, TextOf, FrameText, Items, Capped, CountTools, ItemOf, Extend;
    TextConserved(got, includeReasoning, maxToolCalls, n);
    ReadPrefix(got, includeReasoning, maxToolCalls, n);
    ReadNothing(includeReasoning, maxToolCalls);
    assert got[..0] == [] && (|got| == 0 ==> got == []);
    var init, raw := got[..n - 1], got[n - 1];
    assert init + [raw] == got[..n];
    assert n == |got| ==> got[..n] == got;
    LastFrameCuts(init, raw, includeReasoning, maxToolCalls);
    FlushedBefore(init, raw, includeReasoning, maxToolCalls);
  }

  lemma {:induction false} LastFrameCuts(init: seq<Frame>, raw: Frame, includeReasoning: bool, maxToolCalls: int)
    requires !Stopped(Items(init, includeReasoning), maxToolCalls)
    requires raw.kind.ResultFrame? || Stopped(Items(init + [raw], includeReasoning), maxToolCalls)
    ensures var item := ItemOf(init, raw, includeReasoning); item != [] && (item[0].Tool? || item[0].End?)
  {
    hide Items, Capped, CountTools, Segment, Extend, Text;
    ReadSnoc(init, raw, includeReasoning, maxToolCalls);
  }

  datatype Collected = Content(text: Option<string>) | StreamFailed

  /** The content of the last assistant event that has any. */
  function LastContent(out: seq<StreamEvent>): Option<string> {
    if out == [] then None
    else
      var last := out[|out| - 1];
      if last.kind.Assistant? && last.content.Some? && last.content.value != "" then last.content
      else LastContent(out[..|out| - 1])
  }

  method Collect(events: seq<StreamEvent>) returns (r: Collected)
    ensures r == if exists k :: 0 <= k < |events| && events[k].kind.Error? then StreamFailed
            else Content(LastContent(events))
  {
    var content: Option<string> := None;
    var n := 0;
    while n < |events|
      invariant 0 <= n <= |events|
      invariant forall k :: 0 <= k < n ==> !events[k].kind.Error?
      invariant content == LastContent(events[..n])
    {
      var event := events[n];
      assert events[..n + 1][..n] == events[..n];
      if event.kind.Assistant? && event.content.Some? && event.content.value != "" {
        content := event.content;
      } else if event.kind.Error? {
        return StreamFailed;
      }
      n := n + 1;
    }
    assert events[..n] == events;
    r := Content(content);
  }

  lemma {:induction false} LastBubble(out: seq<StreamEvent>)
    requires forall k :: 0 <= k < |out| && out[k].kind.Assistant? ==> out[k].content.Some? && out[k].content.value != ""
    ensures LastContent(out) == if BubblesOf(out) == [] then None else BubblesOf(out)[|BubblesOf(out)| - 1].content
  {
    if out != [] {
      LastBubble(out[..|out| - 1]);
    }
  }

  lemma {:induction false} BubbleAmong(out: seq<StreamEvent>, k: nat)
    requires k < |out| && out[k].kind.Assistant?
    ensures exists j :: 0 <= j < |BubblesOf(out)| && BubblesOf(out)[j] == out[k]
  {
    var init := BubblesOf(out[..|out| - 1]);
    if k == |out| - 1 {
      assert BubblesOf(out)[|init|] == out[k];
    } else {
      BubbleAmong(out[..|out| - 1], k);
      var j :| 0 <= j < |init| && init[j] == out[k];
      assert BubblesOf(out)[j] == out[k];
    }
  }

  /** The result of the non-streaming path is the text of the last bubble. */
  lemma {:induction false} CollectedIsLastRun(frames: seq<Frame>, includeReasoning: bool, maxToolCalls: int)
    ensures var s := Read(frames, includeReasoning, maxToolCalls);
            LastContent(s.out) == if s.runs == [] then None else Some(Text(s.runs[|s.runs| - 1]))
  {
    hide Segment, Text, Items, Capped, LastUuid, OneUuid, Open, Flat;
    ReaderBubbles(frames, includeReasoning, maxToolCalls);
    var s := Read(frames, includeReasoning, maxToolCalls);
    forall k | 0 <= k < |s.out| && s.out[k].kind.Assistant?
      ensures s.out[k].content.Some? && s.out[k].content.value != ""
    {
      BubbleAmong(s.out, k);
      var j :| 0 <= j < |BubblesOf(s.out)| && BubblesOf(s.out)[j] == s.out[k];
      assert s.out[k] == Bubble(s.runs[j]);
    }
    LastBubble(s.out);
  }

  /** The non-streaming path end to end: an error if the client raises or the loop guard
      trips, otherwise the text of the last bubble, with no text left over. */
  method CollectViaGateway(first: Attempt, second: Attempt) returns (r: Collected)
    ensures r.Content? ==>
              var got := Delivered(first, second);
              var s := Read(got, false, 100);
              && EndsWithResult(got)
              && !Stopped(Items(got, false), 100)
              && Text(s.pending) == "" && TextOf(s.out) == FrameText(got)
              && r.text == if s.runs == [] then None else Some(Text(s.runs[|s.runs| - 1]))
    ensures r.StreamFailed? <==>
            Stopped(Items(Delivered(first, second), false), 100) || !EndsWithResult(Delivered(first, second))
  {
    hide Segment, Text, TextOf, FrameText, Items, Capped, CountTools, ItemOf, Extend, LastContent, Delivered;
    var frames, outcome, _ := SendMessageStreaming(first, second);
    var out, _, consumed := StreamViaGateway(frames, false, 100);
    YieldedToolCalls(frames, false, 100, consumed);
    CollectedIsLastRun(frames, false, 100);
    OnlyLoopErrors(frames, false, 100);
    r := Collect(out);
    if r.Content? {
      LoopErrorOnStop(frames, false, 100, consumed);
      if outcome.Raised? {
        r := StreamFailed;
      } else {
        assert frames[..consumed] == frames;
        NothingHeldBack(frames, outcome, false, 100, consumed);
      }
    } else {
      LoopErrorOnStop(frames, false, 100, consumed);
    }
  }

  /** Frames the client yields never turn into error events other than the loop error. */
  lemma {:induction false} OnlyLoopErrors(frames: seq<Frame>, includeReasoning: bool, maxToolCalls: int)
    requires forall k :: 0 <= k < |frames| ==> !frames[k].kind.ErrorFrame?
    ensures var out := Read(frames, includeReasoning, maxToolCalls).out;
            forall k :: 0 <= k < |out| && out[k].kind.Error? ==> IsLoopError(out[k])
  {
    hide Segment, Items, Capped, CountTools, Extend, Text;
    if frames == [] {
      ReadNothing(includeReasoning, maxToolCalls);
    } else {
      var init, raw := frames[..|frames| - 1], frames[|frames| - 1];
      assert init + [raw] == frames && frames[..|init|] == init;
      OnlyLoopErrors(init, includeReasoning, maxToolCalls);
      if Stopped(Items(init, includeReasoning), maxToolCalls) {
        CappedStable(frames, |init|, includeReasoning, maxToolCalls);
      } else {
        ReadSnoc(init, raw, includeReasoning, maxToolCalls);
        var item := ItemOf(init, raw, includeReasoning);
        if item != [] {
          ErrorsExtend(Read(init, includeReasoning, maxToolCalls), item[0]);
          ErrorsExtend(Read(init, includeReasoning, maxToolCalls),
            Tool(LoopError(CountTools(Items(frames, includeReasoning)))));
        }
      }
    }
  }

  lemma ErrorsExtend(s: Segmentation, x: Item)
    requires forall k :: 0 <= k < |s.out| && s.out[k].kind.Error? ==> IsLoopError(s.out[k])
    requires x.Chunk? || !x.ev.kind.Error? || IsLoopError(x.ev)
    ensures forall k :: 0 <= k < |Extend(s, x).out| && Extend(s, x).out[k].kind.Error? ==>
            IsLoopError(Extend(s, x).out[k])
  {
    hide Text, CurrentUuid, LastUuid, Closes;
  }

  lemma {:induction false} LoopErrorOnStop(frames: seq<Frame>, includeReasoning: bool, maxToolCalls: nat, n: nat)
    requires Consumed(frames, includeReasoning, maxToolCalls, n)
    ensures var out := Read(frames, includeReasoning, maxToolCalls).out;
            Stopped(Items(frames, includeReasoning), maxToolCalls) <==>
              exists k :: 0 <= k < |out| && IsLoopError(out[k])
    ensures !Stopped(Items(frames, includeReasoning), maxToolCalls) ==> n == |frames|
  {
    hide Segment, Items, Capped, CountTools, ToolCallsIn, Announces;
    YieldedToolCalls(frames, includeReasoning, maxToolCalls, n);
    StopsByCalls(frames, includeReasoning, maxToolCalls, n);
  }

  lemma {:induction false} StopsByCalls(frames: seq<Frame>, includeReasoning: bool, maxToolCalls: nat, n: nat)
    requires Consumed(frames, includeReasoning, maxToolCalls, n)
    ensures Stopped(Items(frames, includeReasoning), maxToolCalls) <==> |LogicalCalls(frames[..n])| > maxToolCalls
    ensures !Stopped(Items(frames, includeReasoning), maxToolCalls) ==> n == |frames|
  {
    hide Segment, Capped, Items, ItemOf;
    CountIsCalls(frames[..n], includeReasoning);
    if n < |frames| {
      CappedStable(frames, n, includeReasoning, maxToolCalls);
    } else {
      assert frames[..n] == frames;
    }
  }

  lemma {:induction false} CountIsCalls(frames: seq<Frame>, includeReasoning: bool)
    ensures CountTools(Items(frames, includeReasoning)) == |LogicalCalls(frames)|
  {
    if frames != [] {
      var init, raw := frames[..|frames| - 1], frames[|frames| - 1];
      CountIsCalls(init, includeReasoning);
      ItemOfTool(init, raw, includeReasoning);
      ItemAtMostOne(init, raw, includeReasoning);
      var item := ItemOf(init, raw, includeReasoning);
      if item == [] {
        assert Items(init, includeReasoning) + item == Items(init, includeReasoning);
      } else {
        assert item == [item[0]];
        CappedSnoc(Items(init, includeReasoning), item[0], 0);
      }
    }
  }
}
