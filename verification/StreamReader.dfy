/** The gateway stream reader: a transducer from raw gateway frames to the stream events
    that the Matrix handlers consume.

    A frame is a JSON object, modelled as a record of the fields the reader looks at.  A string
    field that is missing, null or "" is the empty string: Python treats the three alike
    wherever the reader tests such a field. */
module StreamReader {
  import opened Prelude

  datatype FrameKind = StreamFrame | ResultFrame | SessionInitFrame | ErrorFrame | OtherFrame

  datatype SubEvent = AssistantText | ToolCallSnapshot | ToolResult | ReasoningText | OtherSubEvent

  datatype ToolStatus = Running | Completed | NoStatus

  datatype Frame = Frame(
    kind: FrameKind, sub: SubEvent, content: Option<string>, uuid: string,
    toolName: Option<string>, toolCallId: string, status: ToolStatus,
    toolInput: string, arguments: string, isError: bool,
    message: string, code: string, requestId: string)

  datatype EventKind = Assistant | ToolCall | ToolReturn | Reasoning | Stop | Error

  datatype Metadata =
    | BubbleMeta(messageId: string)
    | ToolMeta(toolName: Option<string>, toolCallId: string, status: ToolStatus, arguments: string)
    | ReturnMeta(returnedBy: string, failed: bool, returnId: string)
    | ResultMeta(raw: Frame)
    | GatewayErrorMeta(code: string)
    | ToolLoopMeta(calls: nat)
    | NoMeta

  datatype StreamEvent = StreamEvent(kind: EventKind, content: Option<string>, metadata: Metadata)

  function Or(a: string, b: string): string {
    if a != "" then a else b
  }

  function ParseStreamEvent(raw: Frame, includeReasoning: bool): Option<StreamEvent> {
    match raw.sub
    case AssistantText => Some(StreamEvent(Assistant, raw.content, BubbleMeta(raw.uuid)))
    case ToolCallSnapshot =>
      Some(StreamEvent(ToolCall, raw.content,
                       ToolMeta(raw.toolName, raw.toolCallId, raw.status, Or(raw.toolInput, raw.arguments))))
    case ToolResult =>
      Some(StreamEvent(ToolReturn, raw.content,
                       ReturnMeta(if raw.toolName.Some? then raw.toolName.value else "", raw.isError, raw.toolCallId)))
    case ReasoningText => if includeReasoning then Some(StreamEvent(Reasoning, raw.content, NoMeta)) else None
    case OtherSubEvent => None
  }

  function ParseGatewayEvent(raw: Frame, includeReasoning: bool): Option<StreamEvent> {
    match raw.kind
    case StreamFrame => ParseStreamEvent(raw, includeReasoning)
    case ResultFrame => Some(StreamEvent(Stop, None, ResultMeta(raw)))
    case ErrorFrame => Some(StreamEvent(Error, Some(raw.message), GatewayErrorMeta(raw.code)))
    case SessionInitFrame => None
    case OtherFrame => None
  }

  // ---------------------------------------------------------------------------------------
  // Stage 1 of the specification: which frames count, and as what.

  /** What a frame contributes: text, a tool call, the end of the run, or an event that is
      passed through without touching pending text. */
  datatype Item =
    | Chunk(uuid: string, text: string)
    | Tool(ev: StreamEvent)
    | End(ev: StreamEvent)
    | Pass(ev: StreamEvent)

  predicate IsToolFrame(raw: Frame) {
    raw.kind.StreamFrame? && raw.sub.ToolCallSnapshot?
  }

  predicate IsRunningTool(raw: Frame) {
    IsToolFrame(raw) && raw.status.Running?
  }

  /** `raw` is the terminal frame of the tool call `id`. */
  predicate FinishesTool(raw: Frame, id: string) {
    IsToolFrame(raw) && !IsRunningTool(raw) && raw.toolCallId == id
  }

  predicate IdSeen(frames: seq<Frame>, id: string) {
    id != "" && exists k :: 0 <= k < |frames| && FinishesTool(frames[k], id)
  }

  /** Frames the wire contract allows a gateway to send or leave out: progress snapshots of a
      tool call, and repetitions of a terminal frame. */
  predicate Noise(before: seq<Frame>, raw: Frame) {
    IsRunningTool(raw) || (IsToolFrame(raw) && IdSeen(before, raw.toolCallId))
  }

  function ContentOf(raw: Frame): string {
    if raw.content.Some? then raw.content.value else ""
  }

  function ItemOf(before: seq<Frame>, raw: Frame, includeReasoning: bool): seq<Item> {
    if Noise(before, raw) then []
    else match ParseGatewayEvent(raw, includeReasoning)
      case None => []
      case Some(ev) =>
        match ev.kind
        case ToolCall => [Tool(ev)]
        case Assistant => [Chunk(raw.uuid, ContentOf(raw))]
        case Stop => [End(ev)]
        case _ => [Pass(ev)]
  }

  function Items(frames: seq<Frame>, includeReasoning: bool): seq<Item> {
    if frames == [] then []
    else
      var init := frames[..|frames| - 1];
      Items(init, includeReasoning) + ItemOf(init, frames[|frames| - 1], includeReasoning)
  }

  lemma {:induction false} ItemsSnoc(frames: seq<Frame>, raw: Frame, includeReasoning: bool)
    ensures Items(frames + [raw], includeReasoning) ==
            Items(frames, includeReasoning) + ItemOf(frames, raw, includeReasoning)
  {
    assert (frames + [raw])[..|frames|] == frames;
  }

  // ---------------------------------------------------------------------------------------
  // Stage 2: the tool-loop cap.

  function LoopError(calls: nat): StreamEvent {
    StreamEvent(Error, None, ToolLoopMeta(calls))
  }

  function CountTools(items: seq<Item>): nat {
    if items == [] then 0
    else CountTools(items[..|items| - 1]) + (if items[|items| - 1].Tool? then 1 else 0)
  }

  predicate Stopped(items: seq<Item>, maxToolCalls: int) {
    CountTools(items) > 0 && CountTools(items) > maxToolCalls
  }

  /** The items up to the first tool call over the limit, which becomes the loop error. */
  function Capped(items: seq<Item>, maxToolCalls: int): seq<Item> {
    if items == [] then []
    else
      var init := items[..|items| - 1];
      var last := items[|items| - 1];
      var kept := if Stopped(items, maxToolCalls) then Tool(LoopError(CountTools(items))) else last;
      Capped(init, maxToolCalls) + (if Stopped(init, maxToolCalls) then [] else [kept])
  }

  lemma {:induction false} CappedSnoc(items: seq<Item>, x: Item, maxToolCalls: int)
    ensures CountTools(items + [x]) == CountTools(items) + (if x.Tool? then 1 else 0)
    ensures Stopped(items, maxToolCalls) ==>
              Stopped(items + [x], maxToolCalls) && Capped(items + [x], maxToolCalls) == Capped(items, maxToolCalls)
    ensures !Stopped(items, maxToolCalls) ==>
              Capped(items + [x], maxToolCalls) == Capped(items, maxToolCalls) +
                [if Stopped(items + [x], maxToolCalls) then Tool(LoopError(CountTools(items) + 1)) else x]
  {
    assert (items + [x])[..|items|] == items;
  }

  lemma {:induction false} CappedUntouched(items: seq<Item>, maxToolCalls: int)
    requires !Stopped(items, maxToolCalls)
    ensures Capped(items, maxToolCalls) == items
  {
    if items != [] {
      var init := items[..|items| - 1];
      CappedSnoc(init, items[|items| - 1], maxToolCalls);
      assert init + [items[|items| - 1]] == items;
      CappedUntouched(init, maxToolCalls);
    }
  }

  // ---------------------------------------------------------------------------------------
  // Stage 3: segmentation of the items into bubbles.

  function Text(items: seq<Item>): string {
    if items == [] then ""
    else Text(items[..|items| - 1]) + (if items[|items| - 1].Chunk? then items[|items| - 1].text else "")
  }

  /** The UUID a further chunk is compared with: the last one seen since the run ended. */
  function CurrentUuid(run: seq<Item>): string {
    if run == [] then ""
    else match run[|run| - 1]
      case Chunk(uuid, _) => Or(uuid, CurrentUuid(run[..|run| - 1]))
      case End(_) => ""
      case _ => CurrentUuid(run[..|run| - 1])
  }

  function LastUuid(run: seq<Item>): string {
    if run == [] then ""
    else match run[|run| - 1]
      case Chunk(uuid, _) => Or(uuid, LastUuid(run[..|run| - 1]))
      case _ => LastUuid(run[..|run| - 1])
  }

  function Emitted(x: Item): seq<StreamEvent> {
    if x.Chunk? then [] else [x.ev]
  }

  function Others(items: seq<Item>): seq<StreamEvent> {
    if items == [] then []
    else Others(items[..|items| - 1]) + Emitted(items[|items| - 1])
  }

  function Bubble(run: seq<Item>): StreamEvent {
    StreamEvent(Assistant, Some(Text(run)), BubbleMeta(LastUuid(run)))
  }

  /** `x` closes the bubble that `run` has started. */
  predicate Closes(run: seq<Item>, x: Item) {
    && Text(run) != ""
    && match x
       case Chunk(uuid, _) => uuid != "" && CurrentUuid(run) != "" && CurrentUuid(run) != uuid
       case Pass(_) => false
       case _ => true
  }

  function FirstCut(items: seq<Item>, from: nat): (n: nat)
    requires from <= |items|
    ensures from <= n <= |items|
    ensures forall k :: from <= k < n ==> !Closes(items[..k], items[k])
    ensures n < |items| ==> Closes(items[..n], items[n])
    decreases |items| - from
  {
    if from == |items| || Closes(items[..from], items[from]) then from
    else FirstCut(items, from + 1)
  }

  datatype Segmentation = Segmentation(out: seq<StreamEvent>, runs: seq<seq<Item>>, pending: seq<Item>)

  /** The longest prefix without a cut is one run: its other events go out as they come, then
      its bubble.  The item that cut it starts the next run. */
  function Segment(items: seq<Item>): Segmentation
    decreases |items|
  {
    var n := FirstCut(items, 0);
    if n == |items| then Segmentation(Others(items), [], items)
    else
      var run, rest := items[..n], Segment(items[n..]);
      Segmentation(Others(run) + [Bubble(run)] + rest.out, [run] + rest.runs, rest.pending)
  }

  /** The segmentation after the pending run has been closed. */
  function Close(s: Segmentation): Segmentation {
    Segmentation(s.out + [Bubble(s.pending)], s.runs + [s.pending], [])
  }

  /** The segmentation after `x` has been added to the pending run. */
  function Add(s: Segmentation, x: Item): Segmentation {
    Segmentation(s.out + Emitted(x), s.runs, s.pending + [x])
  }

  /** How one more item changes the segmentation. */
  function Extend(s: Segmentation, x: Item): Segmentation {
    Add(if Closes(s.pending, x) then Close(s) else s, x)
  }

  lemma {:induction false} RunSnoc(run: seq<Item>, x: Item)
    ensures Text(run + [x]) == Text(run) + (if x.Chunk? then x.text else "")
    ensures Others(run + [x]) == Others(run) + Emitted(x)
    ensures x.Chunk? ==> CurrentUuid(run + [x]) == Or(x.uuid, CurrentUuid(run))
    ensures x.Chunk? ==> LastUuid(run + [x]) == Or(x.uuid, LastUuid(run))
    ensures !x.Chunk? ==> LastUuid(run + [x]) == LastUuid(run)
    ensures !x.Chunk? ==> CurrentUuid(run + [x]) == if x.End? then "" else CurrentUuid(run)
  {
    assert (run + [x])[..|run|] == run;
  }

  lemma FirstCutUnique(items: seq<Item>, from: nat, n: nat)
    requires from <= n <= |items|
    requires forall k :: from <= k < n ==> !Closes(items[..k], items[k])
    requires n < |items| ==> Closes(items[..n], items[n])
    ensures FirstCut(items, from) == n
  {
  }

  predicate CutAt(items: seq<Item>, n: nat) {
    && n <= |items|
    && (forall k :: 0 <= k < n ==> !Closes(items[..k], items[k]))
    && (n < |items| ==> Closes(items[..n], items[n]))
  }

  lemma {:induction false} SegmentAt(items: seq<Item>, n: nat)
    requires CutAt(items, n)
    ensures n == |items| ==> Segment(items) == Segmentation(Others(items), [], items)
    ensures n < |items| ==>
              var rest := Segment(items[n..]);
              Segment(items) ==
                Segmentation(Others(items[..n]) + [Bubble(items[..n])] + rest.out, [items[..n]] + rest.runs,
                             rest.pending)
  {
    FirstCutUnique(items, 0, n);
  }

  lemma {:induction false} CutAtSnoc(items: seq<Item>, x: Item, n: nat)
    requires CutAt(items, n)
    ensures n < |items| ==> CutAt(items + [x], n)
    ensures n == |items| ==> CutAt(items + [x], if Closes(items, x) then n else n + 1)
  {
    assert forall k :: 0 <= k <= |items| ==> (items + [x])[..k] == items[..k];
    assert items[..|items|] == items;
  }

  /** Extending commutes with putting earlier output in front. */
  lemma ExtendAppend(out: seq<StreamEvent>, runs: seq<seq<Item>>, s: Segmentation, x: Item)
    ensures Extend(Segmentation(out + s.out, runs + s.runs, s.pending), x) ==
            Segmentation(out + Extend(s, x).out, runs + Extend(s, x).runs, Extend(s, x).pending)
  {
    hide Text, CurrentUuid, LastUuid, Closes;
  }

  lemma {:induction false} SegmentOne(x: Item)
    ensures Segment([x]) == Segmentation(Emitted(x), [], [x])
  {
    assert [x][..0] == [];
    SegmentAt([x], 1);
    RunSnoc([], x);
    assert [] + [x] == [x];
  }

  lemma {:induction false} SegmentSnocClosed(items: seq<Item>, x: Item)
    requires CutAt(items, |items|) && Closes(items, x)
    ensures Segment(items + [x]) == Extend(Segment(items), x)
  {
    hide Text, CurrentUuid, LastUuid, Segment;
    var all := items + [x];
    CutAtSnoc(items, x, |items|);
    SegmentAt(items, |items|);
    SegmentAt(all, |items|);
    assert all[..|items|] == items && all[|items|..] == [x];
    SegmentOne(x);
  }

  lemma {:induction false} SegmentSnoc(items: seq<Item>, x: Item)
    ensures Segment(items + [x]) == Extend(Segment(items), x)
    decreases |items|
  {
    hide Text, CurrentUuid, LastUuid, Others, Closes, Segment;
    var n := FirstCut(items, 0);
    var all := items + [x];
    CutAtSnoc(items, x, n);
    SegmentAt(items, n);
    if n < |items| {
      SegmentAt(all, n);
      assert all[..n] == items[..n] && all[n..] == items[n..] + [x];
      assert items[..0] == [];
      SegmentSnoc(items[n..], x);
      ExtendAppend(Others(items[..n]) + [Bubble(items[..n])], [items[..n]], Segment(items[n..]), x);
    } else if Closes(items, x) {
      SegmentSnocClosed(items, x);
    } else {
      SegmentAt(all, |all|);
      RunSnoc(items, x);
    }
  }

  /** What the reader yields for a sequence of frames, and what it still holds back. */
  function Read(frames: seq<Frame>, includeReasoning: bool, maxToolCalls: int): Segmentation {
    Segment(Capped(Items(frames, includeReasoning), maxToolCalls))
  }

  // ---------------------------------------------------------------------------------------
  // The reader itself.

  function Join(chunks: seq<string>): string {
    if chunks == [] then "" else Join(chunks[..|chunks| - 1]) + chunks[|chunks| - 1]
  }

  /** The reader's variables hold what the segmentation says: the events yielded so far, the
      text, metadata and UUID of the run that is still open. */
  ghost predicate InSync(s: Segmentation, out: seq<StreamEvent>, chunks: seq<string>, messageId: string, uuid: string) {
    && out == s.out
    && Join(chunks) == Text(s.pending)
    && (chunks == [] <==> Text(s.pending) == "")
    && messageId == LastUuid(s.pending)
    && uuid == CurrentUuid(s.pending)
  }

  function Flushed(chunks: seq<string>, messageId: string): StreamEvent {
    StreamEvent(Assistant, Some(Join(chunks)), BubbleMeta(messageId))
  }

  lemma {:induction false} SyncCut(s: Segmentation, out: seq<StreamEvent>, chunks: seq<string>, messageId: string,
          uuid: string, x: Item)
    requires InSync(s, out, chunks, messageId, uuid)
    requires x.Tool? || x.End?
    ensures chunks != [] ==> InSync(Extend(s, x), out + [Flushed(chunks, messageId)] + [x.ev], [], "", "")
    ensures chunks == [] ==> InSync(Extend(s, x), out + [x.ev], [], messageId, if x.End? then "" else uuid)
  {
    RunSnoc(s.pending, x);
    RunSnoc([], x);
  }

  lemma {:induction false} SyncPass(s: Segmentation, out: seq<StreamEvent>, chunks: seq<string>, messageId: string,
          uuid: string, ev: StreamEvent)
    requires InSync(s, out, chunks, messageId, uuid)
    ensures InSync(Extend(s, Pass(ev)), out + [ev], chunks, messageId, uuid)
  {
    RunSnoc(s.pending, Pass(ev));
  }

  lemma {:induction false} SyncChunk(s: Segmentation, out: seq<StreamEvent>, chunks: seq<string>, messageId: string,
          uuid: string, x: Item)
    requires InSync(s, out, chunks, messageId, uuid)
    requires x.Chunk?
    ensures var split := x.uuid != "" && uuid != "" && x.uuid != uuid && chunks != [];
            InSync(Extend(s, x),
                   if split then out + [Flushed(chunks, messageId)] else out,
                   (if split then [] else chunks) + (if x.text == "" then [] else [x.text]),
                   Or(x.uuid, if split then "" else messageId),
                   Or(x.uuid, uuid))
  {
    RunSnoc(s.pending, x);
    RunSnoc([], x);
    assert [] + [x] == [x];
    JoinSnoc(chunks, x.text);
    JoinSnoc([], x.text);
    assert chunks + [] == chunks;
  }

  /** The reader's local variables, which live as long as the generator.  `seg` is the
      segmentation of what it has taken so far. */
  class Reader {
    const includeReasoning: bool
    const maxToolCalls: int
    var toolCallCount: nat
    var chunks: seq<string>
    var messageId: string
    var currentUuid: string
    var seen: set<string>
    var out: seq<StreamEvent>
    ghost var seg: Segmentation

    ghost predicate Valid()
      reads this
    {
      InSync(seg, out, chunks, messageId, currentUuid)
    }

    ghost predicate HasSeen(frames: seq<Frame>)
      reads this
    {
      forall id :: id in seen <==> IdSeen(frames, id)
    }

    constructor (includeReasoning: bool, maxToolCalls: int)
      ensures Valid() && HasSeen([]) && toolCallCount == 0
      ensures seg == Segmentation([], [], [])
      ensures this.includeReasoning == includeReasoning && this.maxToolCalls == maxToolCalls
    {
      this.includeReasoning, this.maxToolCalls := includeReasoning, maxToolCalls;
      toolCallCount, chunks, messageId, currentUuid, seen, out := 0, [], "", "", {}, [];
      seg := Segmentation([], [], []);
    }

    method FlushAssistant()
      modifies this`out, this`chunks, this`messageId
      ensures chunks == []
      ensures old(chunks) == [] ==> out == old(out) && messageId == old(messageId)
      ensures old(chunks) != [] ==> out == old(out) + [Flushed(old(chunks), old(messageId))] && messageId == ""
    {
      if chunks != [] {
        out := out + [Flushed(chunks, messageId)];
        chunks, messageId := [], "";
      }
    }

    /** A tool call that survived deduplication; `stop` says that the loop guard tripped. */
    method OnToolCall(event: StreamEvent) returns (stop: bool)
      requires Valid()
      modifies this`out, this`chunks, this`messageId, this`currentUuid, this`toolCallCount, this`seg
      ensures Valid() && toolCallCount == old(toolCallCount) + 1
      ensures stop <==> toolCallCount > maxToolCalls
      ensures seg == Extend(old(seg), Tool(if stop then LoopError(toolCallCount) else event))
    {
      toolCallCount := toolCallCount + 1;
      stop := toolCallCount > maxToolCalls;
      var ev := if stop then LoopError(toolCallCount) else event;
      SyncCut(seg, out, chunks, messageId, currentUuid, Tool(ev));
      seg := Extend(seg, Tool(ev));
      if chunks != [] {
        currentUuid := "";
      }
      FlushAssistant();
      out := out + [ev];
    }

    method OnAssistant(event: StreamEvent)
      requires Valid() && event.metadata.BubbleMeta?
      modifies this`out, this`chunks, this`messageId, this`currentUuid, this`seg
      ensures Valid()
      ensures seg == Extend(old(seg),
              Chunk(event.metadata.messageId, if event.content.Some? then event.content.value else ""))
    {
      var uuid := event.metadata.messageId;
      var text := if event.content.Some? then event.content.value else "";
      SyncChunk(seg, out, chunks, messageId, currentUuid, Chunk(uuid, text));
      seg := Extend(seg, Chunk(uuid, text));
      if uuid != "" && currentUuid != "" && uuid != currentUuid && chunks != [] {
        FlushAssistant();
      }
      currentUuid := Or(uuid, currentUuid);
      if text != "" {
        chunks := chunks + [text];
      }
      messageId := Or(uuid, messageId);
    }

    method OnStop(event: StreamEvent)
      requires Valid()
      modifies this`out, this`chunks, this`messageId, this`currentUuid, this`seg
      ensures Valid() && seg == Extend(old(seg), End(event))
    {
      hide Extend, InSync;
      SyncCut(seg, out, chunks, messageId, currentUuid, End(event));
      seg := Extend(seg, End(event));
      FlushAssistant();
      currentUuid := "";
      out := out + [event];
    }

    /** One turn of the reader's loop, after the frames `before`. */
    method Consume(raw: Frame, ghost before: seq<Frame>) returns (stop: bool)
      requires Valid() && HasSeen(before)
      modifies this
      ensures Valid() && HasSeen(before + [raw])
      ensures var item := ItemOf(before, raw, includeReasoning);
              && toolCallCount == old(toolCallCount) + (if item != [] && item[0].Tool? then 1 else 0)
              && (stop <==> item != [] && item[0].Tool? && toolCallCount > maxToolCalls)
              && seg == if item == [] then old(seg)
                   else Extend(old(seg), if stop then Tool(LoopError(toolCallCount)) else item[0])
    {
      hide Text, Join, CurrentUuid, LastUuid, InSync, Extend;
      SeenSnoc(before, raw);
      stop := false;
      var parsed := ParseGatewayEvent(raw, includeReasoning);
      if parsed.None? {
        return;
      }
      var event := parsed.value;
      if event.kind.ToolCall? {
        var id := event.metadata.toolCallId;
        if event.metadata.status.Running? || (id != "" && id in seen) {
          return;
        }
        if id != "" {
          seen := seen + {id};
        }
        stop := OnToolCall(event);
      } else if event.kind.Assistant? {
        OnAssistant(event);
      } else if event.kind.Stop? {
        OnStop(event);
      } else {
        SyncPass(seg, out, chunks, messageId, currentUuid, event);
        seg := Extend(seg, Pass(event));
        out := out + [event];
      }
    }
  }

  /** The reader over the frames of one gateway run.  `consumed` is how many frames it took
      before it returned; `chunks` is the text it was still holding. */
  method StreamViaGateway(frames: seq<Frame>, includeReasoning: bool, maxToolCalls: int)
    returns (out: seq<StreamEvent>, chunks: seq<string>, consumed: nat)
    ensures consumed <= |frames|
    ensures out == Read(frames, includeReasoning, maxToolCalls).out
    ensures Join(chunks) == Text(Read(frames, includeReasoning, maxToolCalls).pending)
    ensures consumed < |frames| ==> Stopped(Items(frames[..consumed], includeReasoning), maxToolCalls)
    ensures consumed > 0 ==> !Stopped(Items(frames[..consumed - 1], includeReasoning), maxToolCalls)
  {
    hide Text, Join, CurrentUuid, LastUuid, Extend, Segment, Capped, ItemOf;
    var reader := new Reader(includeReasoning, maxToolCalls);
    var stop := false;
    consumed := 0;
    ghost var done: seq<Frame>, previous: seq<Frame> := [], [];
    ReadNothing(includeReasoning, maxToolCalls);
    while consumed < |frames| && !stop
      invariant consumed <= |frames| && done == frames[..consumed]
      invariant fresh(reader) && reader.Valid() && reader.HasSeen(done)
      invariant reader.includeReasoning == includeReasoning && reader.maxToolCalls == maxToolCalls
      invariant reader.seg == Read(done, includeReasoning, maxToolCalls)
      invariant reader.toolCallCount == CountTools(Items(done, includeReasoning))
      invariant stop <==> Stopped(Items(done, includeReasoning), maxToolCalls)
      invariant consumed > 0 ==>
                previous == frames[..consumed - 1] && !Stopped(Items(previous, includeReasoning), maxToolCalls)
      decreases |frames| - consumed
    {
      var raw := frames[consumed];
      ReadSnoc(done, raw, includeReasoning, maxToolCalls);
      stop := reader.Consume(raw, done);
      previous, done := done, done + [raw];
      consumed := consumed + 1;
    }
    if stop {
      CappedStable(frames, consumed, includeReasoning, maxToolCalls);
    } else {
      assert frames[..consumed] == frames;
    }
    out, chunks := reader.out, reader.chunks;
  }

  lemma {:induction false} ReadNothing(includeReasoning: bool, maxToolCalls: int)
    ensures Read([], includeReasoning, maxToolCalls) == Segmentation([], [], [])
    ensures !Stopped(Items([], includeReasoning), maxToolCalls)
  {
    SegmentAt([], 0);
  }

  /** What one more frame does to a reader that has not tripped its loop guard. */
  lemma {:induction false} ReadSnoc(frames: seq<Frame>, raw: Frame, includeReasoning: bool, maxToolCalls: int)
    requires !Stopped(Items(frames, includeReasoning), maxToolCalls)
    ensures var item := ItemOf(frames, raw, includeReasoning);
            var before := Items(frames, includeReasoning);
            var after := Items(frames + [raw], includeReasoning);
            && |item| <= 1
            && CountTools(after) == CountTools(before) + (if item != [] && item[0].Tool? then 1 else 0)
            && (Stopped(after, maxToolCalls) <==> item != [] && item[0].Tool? && CountTools(after) > maxToolCalls)
            && Read(frames + [raw], includeReasoning, maxToolCalls) ==
                 if item == [] then Read(frames, includeReasoning, maxToolCalls)
                 else Extend(Read(frames, includeReasoning, maxToolCalls),
                             if Stopped(after, maxToolCalls) then Tool(LoopError(CountTools(after))) else item[0])
  {
    var items := Items(frames, includeReasoning);
    ItemsSnoc(frames, raw, includeReasoning);
    ItemAtMostOne(frames, raw, includeReasoning);
    var item := ItemOf(frames, raw, includeReasoning);
    if item == [] {
      assert items + item == items;
    } else {
      var x := item[0];
      assert item == [x];
      CappedSnoc(items, x, maxToolCalls);
      SegmentSnoc(Capped(items, maxToolCalls),
                  if Stopped(items + [x], maxToolCalls) then Tool(LoopError(CountTools(items) + 1)) else x);
    }
  }

  lemma JoinSnoc(chunks: seq<string>, text: string)
    ensures Join(chunks + [text]) == Join(chunks) + text
  {
    assert (chunks + [text])[..|chunks|] == chunks;
  }

  lemma SeenSnoc(before: seq<Frame>, raw: Frame)
    ensures forall id :: IdSeen(before + [raw], id) <==> IdSeen(before, id) || (id != "" && FinishesTool(raw, id))
  {
    forall id ensures IdSeen(before + [raw], id) <==> IdSeen(before, id) || (id != "" && FinishesTool(raw, id)) {
      if id != "" && FinishesTool(raw, id) {
        assert (before + [raw])[|before|] == raw;
      }
      if IdSeen(before, id) {
        var k :| 0 <= k < |before| && FinishesTool(before[k], id);
        assert (before + [raw])[k] == before[k];
      }
    }
  }

  lemma ItemAtMostOne(before: seq<Frame>, raw: Frame, includeReasoning: bool)
    ensures |ItemOf(before, raw, includeReasoning)| <= 1
  {
  }

  /** After the cap is hit, later frames change nothing. */
  lemma {:induction false} CappedStable(frames: seq<Frame>, n: nat, includeReasoning: bool, maxToolCalls: int)
    requires n <= |frames|
    requires Stopped(Items(frames[..n], includeReasoning), maxToolCalls)
    ensures Stopped(Items(frames, includeReasoning), maxToolCalls)
    ensures Capped(Items(frames, includeReasoning), maxToolCalls) ==
            Capped(Items(frames[..n], includeReasoning), maxToolCalls)
    decreases |frames|
  {
    hide Capped, CountTools, Items, ItemOf;
    if n == |frames| {
      assert frames[..n] == frames;
    } else {
      var init, raw := frames[..|frames| - 1], frames[|frames| - 1];
      assert init[..n] == frames[..n] && init + [raw] == frames;
      CappedStable(init, n, includeReasoning, maxToolCalls);
      ItemAtMostOne(init, raw, includeReasoning);
      var item := ItemOf(init, raw, includeReasoning);
      ItemsSnoc(init, raw, includeReasoning);
      if item == [] {
        assert Items(init, includeReasoning) + item == Items(init, includeReasoning);
      } else {
        assert item == [item[0]];
        CappedSnoc(Items(init, includeReasoning), item[0], maxToolCalls);
      }
    }
  }
}
