/** What the gateway stream reader promises about every sequence of frames. */
module StreamReaderLaws {
  import opened StreamReader

  // ---------------------------------------------------------------------------------------
  // Text is conserved.

  function TextOf(out: seq<StreamEvent>): string {
    if out == [] then ""
    else
      var last := out[|out| - 1];
      TextOf(out[..|out| - 1]) + (if last.kind.Assistant? && last.content.Some? then last.content.value else "")
  }

  /** All assistant text in the frames, as received. */
  function FrameText(frames: seq<Frame>): string {
    if frames == [] then ""
    else
      var last := frames[|frames| - 1];
      FrameText(frames[..|frames| - 1])
        + (if last.kind.StreamFrame? && last.sub.AssistantText? then ContentOf(last) else "")
  }

  /** Only chunks carry assistant text. */
  predicate ProperItem(x: Item) {
    x.Chunk? || !x.ev.kind.Assistant?
  }

  predicate Proper(items: seq<Item>) {
    forall k :: 0 <= k < |items| ==> ProperItem(items[k])
  }

  function EventText(e: StreamEvent): string {
    if e.kind.Assistant? && e.content.Some? then e.content.value else ""
  }

  function ItemText(x: Item): string {
    if x.Chunk? then x.text else ""
  }

  lemma {:induction false} TextOfSnoc(out: seq<StreamEvent>, e: StreamEvent)
    ensures TextOf(out + [e]) == TextOf(out) + EventText(e)
  {
    assert (out + [e])[..|out|] == out;
  }

  /** Everything the segmentation has taken in: yielded text, then held text. */
  function Total(s: Segmentation): string {
    TextOf(s.out) + Text(s.pending)
  }

  lemma {:induction false} CloseText(s: Segmentation)
    ensures TextOf(Close(s).out) == Total(s) == Total(Close(s))
  {
    TextOfSnoc(s.out, Bubble(s.pending));
    assert Text([]) == "";
  }

  lemma {:induction false} AddText(s: Segmentation, x: Item)
    requires ProperItem(x)
    ensures Total(Add(s, x)) == Total(s) + ItemText(x)
  {
    hide Text, TextOf;
    RunSnoc(s.pending, x);
    if x.Chunk? {
      assert s.out + Emitted(x) == s.out;
    } else {
      TextOfSnoc(s.out, x.ev);
    }
  }

  lemma {:induction false} ExtendText(s: Segmentation, x: Item)
    requires ProperItem(x)
    ensures Total(Extend(s, x)) == Total(s) + ItemText(x)
  {
    CloseText(s);
    AddText(s, x);
    AddText(Close(s), x);
  }

  lemma {:induction false} SegmentText(items: seq<Item>)
    requires Proper(items)
    ensures Total(Segment(items)) == Text(items)
  {
    if items == [] {
      SegmentAt([], 0);
    } else {
      var init, x := items[..|items| - 1], items[|items| - 1];
      assert init + [x] == items;
      SegmentText(init);
      SegmentSnoc(init, x);
      ExtendText(Segment(init), x);
    }
  }

  lemma {:induction false} ItemOfText(before: seq<Frame>, raw: Frame, includeReasoning: bool)
    ensures var item := ItemOf(before, raw, includeReasoning);
            var text := if raw.kind.StreamFrame? && raw.sub.AssistantText? then ContentOf(raw) else "";
            && (item == [] ==> text == "")
            && (item != [] ==> item == [item[0]] && ProperItem(item[0]) && ItemText(item[0]) == text)
  {
  }

  lemma {:induction false} ItemsText(frames: seq<Frame>, includeReasoning: bool)
    ensures Proper(Items(frames, includeReasoning))
    ensures Text(Items(frames, includeReasoning)) == FrameText(frames)
  {
    if frames != [] {
      var init, raw := frames[..|frames| - 1], frames[|frames| - 1];
      ItemsText(init, includeReasoning);
      ItemOfText(init, raw, includeReasoning);
      var item := ItemOf(init, raw, includeReasoning);
      if item == [] {
        assert Items(init, includeReasoning) + item == Items(init, includeReasoning);
      } else {
        RunSnoc(Items(init, includeReasoning), item[0]);
      }
    }
  }

  lemma {:induction false} CappedProper(items: seq<Item>, maxToolCalls: int)
    requires Proper(items)
    ensures Proper(Capped(items, maxToolCalls))
  {
    hide CountTools;
    if items != [] {
      CappedProper(items[..|items| - 1], maxToolCalls);
    }
  }

  lemma {:induction false} ReadTotal(frames: seq<Frame>, includeReasoning: bool, maxToolCalls: int)
    requires !Stopped(Items(frames, includeReasoning), maxToolCalls)
    ensures Total(Read(frames, includeReasoning, maxToolCalls)) == FrameText(frames)
  {
    hide Segment, Text, FrameText, Items, Capped, CountTools;
    ItemsText(frames, includeReasoning);
    CappedUntouched(Items(frames, includeReasoning), maxToolCalls);
    SegmentText(Items(frames, includeReasoning));
  }

  /** `n` is how many of the frames the reader takes before it returns. */
  predicate Consumed(frames: seq<Frame>, includeReasoning: bool, maxToolCalls: int, n: nat) {
    && n <= |frames|
    && (n < |frames| ==> Stopped(Items(frames[..n], includeReasoning), maxToolCalls))
    && (n > 0 ==> !Stopped(Items(frames[..n - 1], includeReasoning), maxToolCalls))
  }

  lemma {:induction false} ReadPrefix(frames: seq<Frame>, includeReasoning: bool, maxToolCalls: int, n: nat)
    requires Consumed(frames, includeReasoning, maxToolCalls, n)
    ensures Read(frames, includeReasoning, maxToolCalls) == Read(frames[..n], includeReasoning, maxToolCalls)
  {
    if n < |frames| {
      CappedStable(frames, n, includeReasoning, maxToolCalls);
    } else {
      assert frames[..n] == frames;
    }
  }

  /** What was yielded plus what is still held is exactly the assistant text received. */
  lemma {:induction false} TextConserved(frames: seq<Frame>, includeReasoning: bool, maxToolCalls: int, n: nat)
    requires Consumed(frames, includeReasoning, maxToolCalls, n)
    ensures var s := Read(frames, includeReasoning, maxToolCalls);
            TextOf(s.out) + Text(s.pending) == FrameText(frames[..n])
  {
    hide Segment, Text, Items, Capped, CountTools, ItemOf;
    ReadPrefix(frames, includeReasoning, maxToolCalls, n);
    if n == 0 {
      ReadNothing(includeReasoning, maxToolCalls);
      ReadTotal([], includeReasoning, maxToolCalls);
    } else {
      var init, raw := frames[..n - 1], frames[n - 1];
      assert init + [raw] == frames[..n];
      ReadTotal(init, includeReasoning, maxToolCalls);
      ReadSnoc(init, raw, includeReasoning, maxToolCalls);
      ItemOfText(init, raw, includeReasoning);
      var item := ItemOf(init, raw, includeReasoning);
      if item != [] {
        ExtendText(Read(init, includeReasoning, maxToolCalls), item[0]);
        ExtendText(Read(init, includeReasoning, maxToolCalls),
          Tool(LoopError(CountTools(Items(frames[..n], includeReasoning)))));
      }
    }
  }

  // ---------------------------------------------------------------------------------------
  // Order: nothing is overtaken by a tool call or by the end of the run.

  /** The events before the last one. */
  function Earlier(out: seq<StreamEvent>): seq<StreamEvent>
    requires out != []
  {
    out[..|out| - 1]
  }

  lemma {:induction false} ExtendCut(s: Segmentation, x: Item)
    requires x.Tool? || x.End?
    ensures Extend(s, x).out != [] && Extend(s, x).out[|Extend(s, x).out| - 1] == x.ev
    ensures TextOf(Earlier(Extend(s, x).out)) == Total(s)
    ensures Text(Extend(s, x).pending) == ""
  {
    CloseText(s);
    RunSnoc(s.pending, x);
    RunSnoc([], x);
    var t := if Closes(s.pending, x) then Close(s) else s;
    assert Extend(s, x).out == t.out + [x.ev];
    assert Earlier(t.out + [x.ev]) == t.out;
  }

  /** A frame that yields a tool call, the loop error or a stop: all text received earlier is
      in the events before it, and nothing is held back. */
  lemma {:induction false} FlushedBefore(frames: seq<Frame>, raw: Frame, includeReasoning: bool, maxToolCalls: int)
    requires !Stopped(Items(frames, includeReasoning), maxToolCalls)
    requires var item := ItemOf(frames, raw, includeReasoning); item != [] && (item[0].Tool? || item[0].End?)
    ensures var after := Read(frames + [raw], includeReasoning, maxToolCalls);
            && after.out != []
            && TextOf(Earlier(after.out)) == FrameText(frames)
            && Text(after.pending) == ""
            && after.out[|after.out| - 1] ==
                 if Stopped(Items(frames + [raw], includeReasoning), maxToolCalls)
                 then LoopError(CountTools(Items(frames + [raw], includeReasoning)))
                 else ItemOf(frames, raw, includeReasoning)[0].ev
  {
    hide Segment, Text, TextOf, FrameText, Items, Capped, CountTools, ItemOf, Extend;
    ReadSnoc(frames, raw, includeReasoning, maxToolCalls);
    ReadTotal(frames, includeReasoning, maxToolCalls);
    var x := ItemOf(frames, raw, includeReasoning)[0];
    var calls := CountTools(Items(frames + [raw], includeReasoning));
    ExtendCut(Read(frames, includeReasoning, maxToolCalls), x);
    ExtendCut(Read(frames, includeReasoning, maxToolCalls), Tool(LoopError(calls)));
  }

  lemma {:induction false} ReadGrows(frames: seq<Frame>, more: seq<Frame>, includeReasoning: bool, maxToolCalls: int)
    ensures Read(frames, includeReasoning, maxToolCalls).out <= Read(frames + more, includeReasoning, maxToolCalls).out
  {
    hide Segment, Capped, Items, Closes, ItemOf;
    if more == [] {
      assert frames + more == frames;
    } else {
      var init := more[..|more| - 1];
      var raw := more[|more| - 1];
      ReadGrows(frames, init, includeReasoning, maxToolCalls);
      assert frames + more == (frames + init) + [raw];
      if Stopped(Items(frames + init, includeReasoning), maxToolCalls) {
        var all := frames + more;
        assert all[..|frames + init|] == frames + init;
        CappedStable(all, |frames + init|, includeReasoning, maxToolCalls);
      } else {
        ReadSnoc(frames + init, raw, includeReasoning, maxToolCalls);
      }
    }
  }

  // ---------------------------------------------------------------------------------------
  // Bubbles.

  function Flat(runs: seq<seq<Item>>): seq<Item> {
    if runs == [] then [] else Flat(runs[..|runs| - 1]) + runs[|runs| - 1]
  }

  function BubblesOf(out: seq<StreamEvent>): seq<StreamEvent> {
    if out == [] then []
    else BubblesOf(out[..|out| - 1]) + (if out[|out| - 1].kind.Assistant? then [out[|out| - 1]] else [])
  }

  /** All the tagged text of a run carries one UUID, which is its bubble's message id. */
  predicate OneUuid(run: seq<Item>) {
    forall k :: 0 <= k < |run| && run[k].Chunk? && run[k].text != "" && run[k].uuid != "" ==>
      run[k].uuid == Bubble(run).metadata.messageId
  }

  /** The open run can still be closed with one UUID. */
  predicate Open(run: seq<Item>) {
    && OneUuid(run)
    && forall k :: 0 <= k < |run| && run[k].Chunk? && run[k].text != "" && run[k].uuid != "" ==>
         Text(run) != "" && run[k].uuid == CurrentUuid(run)
  }

  predicate Explains(s: Segmentation, items: seq<Item>) {
    && Flat(s.runs) + s.pending == items
    && |BubblesOf(s.out)| == |s.runs|
    && (forall k :: 0 <= k < |s.runs| ==>
         BubblesOf(s.out)[k] == Bubble(s.runs[k]) && Text(s.runs[k]) != "" && OneUuid(s.runs[k]))
    && Open(s.pending)
  }

  lemma {:induction false} BubblesSnoc(out: seq<StreamEvent>, e: StreamEvent)
    ensures BubblesOf(out + [e]) == BubblesOf(out) + (if e.kind.Assistant? then [e] else [])
  {
    assert (out + [e])[..|out|] == out;
  }

  lemma TextNothing()
    ensures Text([]) == ""
  {
  }

  lemma {:induction false} CloseExplains(s: Segmentation, items: seq<Item>)
    requires Explains(s, items) && Text(s.pending) != ""
    ensures Explains(Close(s), items)
  {
    hide Text, CurrentUuid, LastUuid, BubblesOf;
    TextNothing();
    BubblesSnoc(s.out, Bubble(s.pending));
    assert (s.runs + [s.pending])[..|s.runs|] == s.runs;
    assert Flat(s.runs) + s.pending + [] == items;
  }

  lemma {:induction false} OpenAdd(run: seq<Item>, x: Item)
    requires Open(run) && !Closes(run, x)
    ensures Open(run + [x])
  {
    hide Text, CurrentUuid, LastUuid;
    RunSnoc(run, x);
  }

  lemma {:induction false} AddExplains(s: Segmentation, items: seq<Item>, x: Item)
    requires Explains(s, items) && ProperItem(x) && !Closes(s.pending, x)
    ensures Explains(Add(s, x), items + [x])
  {
    hide Text, CurrentUuid, LastUuid, BubblesOf, Open, OneUuid, Flat;
    OpenAdd(s.pending, x);
    if x.Chunk? {
      assert s.out + Emitted(x) == s.out;
    } else {
      BubblesSnoc(s.out, x.ev);
    }
    assert Flat(s.runs) + (s.pending + [x]) == items + [x];
  }

  lemma {:induction false} ExtendExplains(s: Segmentation, items: seq<Item>, x: Item)
    requires Explains(s, items) && ProperItem(x)
    ensures Explains(Extend(s, x), items + [x])
  {
    hide Explains, Text;
    TextNothing();
    if Closes(s.pending, x) {
      CloseExplains(s, items);
      AddExplains(Close(s), items, x);
    } else {
      AddExplains(s, items, x);
    }
  }

  /** The reader's bubbles, one for each closed run and in order: the runs and the
      pending one partition the items, and no bubble mixes two UUIDs. */
  lemma {:induction false} BubblesExplained(items: seq<Item>)
    requires Proper(items)
    ensures Explains(Segment(items), items)
  {
    if items == [] {
      SegmentAt([], 0);
    } else {
      var init, x := items[..|items| - 1], items[|items| - 1];
      assert init + [x] == items;
      BubblesExplained(init);
      SegmentSnoc(init, x);
      ExtendExplains(Segment(init), init, x);
    }
  }

  lemma {:induction false} ReaderBubbles(frames: seq<Frame>, includeReasoning: bool, maxToolCalls: int)
    ensures Explains(Read(frames, includeReasoning, maxToolCalls),
            Capped(Items(frames, includeReasoning), maxToolCalls))
  {
    ItemsText(frames, includeReasoning);
    CappedProper(Items(frames, includeReasoning), maxToolCalls);
    BubblesExplained(Capped(Items(frames, includeReasoning), maxToolCalls));
  }

  // ---------------------------------------------------------------------------------------
  // Both wire contracts give the same output.

  lemma {:induction false} IdsWithoutNoise(before: seq<Frame>, raw: Frame, after: seq<Frame>)
    requires Noise(before, raw)
    ensures forall id :: IdSeen(before + [raw] + after, id) <==> IdSeen(before + after, id)
  {
    if after == [] {
      SeenSnoc(before, raw);
      assert before + [raw] + after == before + [raw] && before + after == before;
    } else {
      var init, last := after[..|after| - 1], after[|after| - 1];
      IdsWithoutNoise(before, raw, init);
      assert before + [raw] + after == (before + [raw] + init) + [last];
      assert before + after == (before + init) + [last];
      SeenSnoc(before + [raw] + init, last);
      SeenSnoc(before + init, last);
    }
  }

  lemma {:induction false} ItemsWithoutNoise(before: seq<Frame>, raw: Frame, after: seq<Frame>, includeReasoning: bool)
    requires Noise(before, raw)
    ensures Items(before + [raw] + after, includeReasoning) == Items(before + after, includeReasoning)
  {
    hide Items;
    if after == [] {
      ItemsSnoc(before, raw, includeReasoning);
      assert before + [raw] + after == before + [raw] && before + after == before;
      assert Items(before, includeReasoning) + [] == Items(before, includeReasoning);
    } else {
      var init, last := after[..|after| - 1], after[|after| - 1];
      ItemsWithoutNoise(before, raw, init, includeReasoning);
      assert before + [raw] + after == (before + [raw] + init) + [last];
      assert before + after == (before + init) + [last];
      ItemsSnoc(before + [raw] + init, last, includeReasoning);
      ItemsSnoc(before + init, last, includeReasoning);
      IdsWithoutNoise(before, raw, init);
    }
  }

  /** Leaving out a progress snapshot, or a terminal frame of a tool call that has already
      finished, changes nothing in the output. */
  lemma {:induction false} WireContractIndependent(before: seq<Frame>, raw: Frame, after: seq<Frame>,
          includeReasoning: bool, maxToolCalls: int)
    requires Noise(before, raw)
    ensures Read(before + [raw] + after, includeReasoning, maxToolCalls) ==
            Read(before + after, includeReasoning, maxToolCalls)
  {
    ItemsWithoutNoise(before, raw, after, includeReasoning);
  }

  /** The frames without all progress snapshots and all repetitions of a terminal frame. */
  function Denoised(frames: seq<Frame>): seq<Frame> {
    if frames == [] then []
    else
      var init, last := frames[..|frames| - 1], frames[|frames| - 1];
      Denoised(init) + if Noise(init, last) then [] else [last]
  }

  lemma {:induction false} DenoisedIds(frames: seq<Frame>)
    ensures forall id :: IdSeen(Denoised(frames), id) <==> IdSeen(frames, id)
  {
    if frames != [] {
      var init, last := frames[..|frames| - 1], frames[|frames| - 1];
      DenoisedIds(init);
      assert frames == init + [last];
      SeenSnoc(init, last);
      SeenSnoc(Denoised(init), last);
      hide IdSeen;
      assert Denoised(init) + [] == Denoised(init);
    }
  }

  lemma {:induction false} DenoisedItems(frames: seq<Frame>, includeReasoning: bool)
    ensures Items(Denoised(frames), includeReasoning) == Items(frames, includeReasoning)
  {
    if frames != [] {
      var init, last := frames[..|frames| - 1], frames[|frames| - 1];
      DenoisedItems(init, includeReasoning);
      DenoisedIds(init);
      assert frames == init + [last];
      hide IdSeen, Items;
      ItemsSnoc(init, last, includeReasoning);
      ItemsSnoc(Denoised(init), last, includeReasoning);
      assert Denoised(init) + [] == Denoised(init);
      assert Items(init, includeReasoning) + [] == Items(init, includeReasoning);
    }
  }

  /** Nothing of the kind is left. */
  lemma {:induction false} NoNoiseLeft(frames: seq<Frame>, k: nat)
    requires k < |Denoised(frames)|
    ensures !Noise(Denoised(frames)[..k], Denoised(frames)[k])
  {
    var init, last := frames[..|frames| - 1], frames[|frames| - 1];
    var d := Denoised(init);
    DenoisedIds(init);
    hide IdSeen;
    if k < |d| {
      NoNoiseLeft(init, k);
      assert Denoised(frames)[..k] == d[..k];
    } else {
      assert Denoised(frames)[..k] == d;
    }
  }

  /** All of it can be left out at once: whichever wire contract the gateway follows, the output
      is the same. */
  lemma WireContractsAgree(frames: seq<Frame>, includeReasoning: bool, maxToolCalls: int)
    ensures Read(Denoised(frames), includeReasoning, maxToolCalls) == Read(frames, includeReasoning, maxToolCalls)
  {
    DenoisedItems(frames, includeReasoning);
  }

  // ---------------------------------------------------------------------------------------
  // Which tool calls come out.

  /** The first terminal frame of each identified tool call, and every one without an id. */
  function LogicalCalls(frames: seq<Frame>): seq<Frame> {
    if frames == [] then []
    else
      var init, raw := frames[..|frames| - 1], frames[|frames| - 1];
      LogicalCalls(init)
        + (if IsToolFrame(raw) && !IsRunningTool(raw) && !IdSeen(init, raw.toolCallId) then [raw] else [])
  }

  predicate IsLoopError(e: StreamEvent) {
    e.kind.Error? && e.metadata.ToolLoopMeta?
  }

  function ToolCallsIn(out: seq<StreamEvent>): seq<StreamEvent> {
    if out == [] then []
    else ToolCallsIn(out[..|out| - 1]) + (if out[|out| - 1].kind.ToolCall? then [out[|out| - 1]] else [])
  }

  function ToolEventOf(raw: Frame): StreamEvent {
    StreamEvent(ToolCall, raw.content,
      ToolMeta(raw.toolName, raw.toolCallId, raw.status, Or(raw.toolInput, raw.arguments)))
  }

  /** The events are the calls in order, each once. */
  predicate Announces(events: seq<StreamEvent>, calls: seq<Frame>) {
    && |events| == |calls|
    && forall k :: 0 <= k < |calls| ==> events[k] == ToolEventOf(calls[k])
  }

  predicate NoLoopError(out: seq<StreamEvent>) {
    forall k :: 0 <= k < |out| ==> !IsLoopError(out[k])
  }

  lemma {:induction false} ToolCallsSnoc(out: seq<StreamEvent>, e: StreamEvent)
    ensures ToolCallsIn(out + [e]) == ToolCallsIn(out) + (if e.kind.ToolCall? then [e] else [])
  {
    assert (out + [e])[..|out|] == out;
  }

  lemma {:induction false} ExtendTools(s: Segmentation, x: Item)
    ensures ToolCallsIn(Extend(s, x).out) ==
            ToolCallsIn(s.out) + (if !x.Chunk? && x.ev.kind.ToolCall? then [x.ev] else [])
    ensures NoLoopError(s.out) && (x.Chunk? || !IsLoopError(x.ev)) ==> NoLoopError(Extend(s, x).out)
    ensures NoLoopError(s.out) && !x.Chunk? ==>
              Extend(s, x).out != [] && NoLoopError(Earlier(Extend(s, x).out))
                && Extend(s, x).out[|Extend(s, x).out| - 1] == x.ev
  {
    hide Text, Closes, ToolCallsIn;
    var t := if Closes(s.pending, x) then Close(s) else s;
    ToolCallsSnoc(s.out, Bubble(s.pending));
    assert Extend(s, x).out == t.out + Emitted(x);
    if x.Chunk? {
      assert t.out + Emitted(x) == t.out;
    } else {
      ToolCallsSnoc(t.out, x.ev);
      assert Earlier(t.out + [x.ev]) == t.out;
    }
  }

  lemma {:induction false} ItemOfTool(before: seq<Frame>, raw: Frame, includeReasoning: bool)
    ensures var item := ItemOf(before, raw, includeReasoning);
            var counts := IsToolFrame(raw) && !IsRunningTool(raw) && !IdSeen(before, raw.toolCallId);
            && (counts <==> item != [] && item[0].Tool?)
            && (item != [] && item[0].Tool? ==> item[0].ev == ToolEventOf(raw))
            && (item != [] && !item[0].Chunk? && !item[0].Tool? ==> !item[0].ev.kind.ToolCall?)
            && (item != [] && !item[0].Chunk? ==> !IsLoopError(item[0].ev))
  {
  }

  lemma {:induction false} ToolsUncapped(frames: seq<Frame>, includeReasoning: bool, maxToolCalls: int)
    requires !Stopped(Items(frames, includeReasoning), maxToolCalls)
    ensures CountTools(Items(frames, includeReasoning)) == |LogicalCalls(frames)|
    ensures Announces(ToolCallsIn(Read(frames, includeReasoning, maxToolCalls).out), LogicalCalls(frames))
    ensures NoLoopError(Read(frames, includeReasoning, maxToolCalls).out)
  {
    hide Segment, Capped, Extend, ItemOf, NoLoopError;
    if frames == [] {
      ReadNothing(includeReasoning, maxToolCalls);
      NothingYielded();
    } else {
      var init, raw := frames[..|frames| - 1], frames[|frames| - 1];
      assert init + [raw] == frames;
      NotStoppedBefore(init, raw, includeReasoning, maxToolCalls);
      ToolsUncapped(init, includeReasoning, maxToolCalls);
      ReadSnoc(init, raw, includeReasoning, maxToolCalls);
      ItemOfTool(init, raw, includeReasoning);
      var item := ItemOf(init, raw, includeReasoning);
      if item != [] {
        ExtendTools(Read(init, includeReasoning, maxToolCalls), item[0]);
      }
    }
  }

  lemma NothingYielded()
    ensures NoLoopError([])
  {
  }

  lemma {:induction false} NotStoppedBefore(init: seq<Frame>, raw: Frame, includeReasoning: bool, maxToolCalls: int)
    requires !Stopped(Items(init + [raw], includeReasoning), maxToolCalls)
    ensures !Stopped(Items(init, includeReasoning), maxToolCalls)
  {
    if Stopped(Items(init, includeReasoning), maxToolCalls) {
      assert (init + [raw])[..|init|] == init;
      CappedStable(init + [raw], |init|, includeReasoning, maxToolCalls);
    }
  }

  /** The yielded tool calls are the first terminal frame of each call, as many as the limit
      allows; the loop error comes out, last, exactly when one more call arrives. */
  lemma {:induction false} YieldedToolCalls(frames: seq<Frame>, includeReasoning: bool, maxToolCalls: nat, n: nat)
    requires Consumed(frames, includeReasoning, maxToolCalls, n)
    ensures var out := Read(frames, includeReasoning, maxToolCalls).out;
            var calls := LogicalCalls(frames[..n]);
            && (|calls| <= maxToolCalls ==> Announces(ToolCallsIn(out), calls) && NoLoopError(out) && n == |frames|)
            && (|calls| > maxToolCalls ==>
                  && |calls| == maxToolCalls + 1
                  && Announces(ToolCallsIn(out), calls[..maxToolCalls])
                  && out != [] && NoLoopError(Earlier(out))
                  && out[|out| - 1] == LoopError(maxToolCalls + 1))
  {
    hide Segment, Capped, Extend, ItemOf, NoLoopError, Items, ToolCallsIn;
    ReadPrefix(frames, includeReasoning, maxToolCalls, n);
    var taken := frames[..n];
    if !Stopped(Items(taken, includeReasoning), maxToolCalls) {
      ToolsUncapped(taken, includeReasoning, maxToolCalls);
    } else {
      ReadNothing(includeReasoning, maxToolCalls);
      assert n > 0;
      var init, raw := frames[..n - 1], frames[n - 1];
      assert init + [raw] == taken && taken[..n - 1] == init;
      ToolsUncapped(init, includeReasoning, maxToolCalls);
      ReadSnoc(init, raw, includeReasoning, maxToolCalls);
      ItemOfTool(init, raw, includeReasoning);
      ExtendTools(Read(init, includeReasoning, maxToolCalls), Tool(LoopError(maxToolCalls + 1)));
      assert LogicalCalls(taken) == LogicalCalls(init) + [raw];
      assert LogicalCalls(taken)[..maxToolCalls] == LogicalCalls(init);
    }
  }
}
