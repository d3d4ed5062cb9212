/**
 What a streaming client of the Anthropic bridge puts together, against what the parser
 knows and what a non-streaming client receives.
 */
module AnthropicClient {
  import opened Wrappers
  import opened BridgeTools
  import opened AnthropicBridge

  // What json.Marshal prints is never empty.
  ghost predicate Prints(codec: Codec) {
    forall j :: codec.marshal(j) != ""
  }

  // The chunks written carry the text and the calls of the parser.
  predicate InStep(st: State) {
    Carried(st.out, st.m.text, st.m.calls) && (st.contentEmitted <==> st.m.text != "")
  }

  lemma {:induction false} StartStaysInStep(codec: Codec, st: State, index: int, block: Block)
    requires InStep(st)
    ensures InStep(OnStart(codec, st, index, block, true))
  {
    match block
    case ServerToolUse(_, _, _) =>
      var ht := HostedFromServerUse(codec, block);
      if ht.Some? {
        StreamingAHostedTool(st.out, st.m.text, st.m.calls, "started", ht.value);
      } else {
        assert st.out + [] == st.out;
      }
    case SearchResult(_) =>
      StreamingAHostedTool(st.out, st.m.text, st.m.calls, "completed",
                           HostedFromSearchResult(block, st.m.pending).value);
    case _ =>
  }

  lemma {:induction false} DeltaStaysInStep(st: State, index: int, delta: Delta)
    requires InStep(st)
    ensures InStep(OnDelta(st, index, delta, true))
  {
    if delta.TextDelta? {
      StreamingText(st.out, st.m.text, st.m.calls, delta.text);
    }
  }

  lemma {:induction false} CallStaysInStep(st: State, index: int, tc: Option<ToolCall>)
    requires InStep(st) && (tc.Some? ==> tc.value.args != "")
    ensures InStep(Called(st, index, tc, true))
  {
    if tc.Some? {
      StreamingACall(st.out, st.m.text, st.m.calls, tc.value);
    }
  }

  // The end of a tool call is a call with arguments, or none.
  lemma {:induction false} ToolStopCalls(codec: Codec, st: State, index: int) returns (tc: Option<ToolCall>)
    requires Prints(codec) && index in st.starts && st.starts[index].ToolUse?
    ensures OnStop(codec, st, index, true) == Called(st, index, tc, true)
    ensures tc.Some? ==> tc.value.args != ""
  {
    var block := st.starts[index];
    tc := ToolCallFromBlock(codec, ToolUse(block.id, block.name, FinalInput(codec, block.input, InputOf(st, index))));
  }

  lemma {:induction false} OtherStopIsQuiet(codec: Codec, st: State, index: int)
    requires index !in st.starts || !st.starts[index].ToolUse?
    ensures var next := OnStop(codec, st, index, true);
      && next.out == st.out && next.contentEmitted == st.contentEmitted
      && next.m.text == st.m.text && next.m.calls == st.m.calls
  {
  }

  lemma {:induction false} StopStaysInStep(codec: Codec, st: State, index: int)
    requires InStep(st) && Prints(codec)
    ensures InStep(OnStop(codec, st, index, true))
  {
    if index in st.starts && st.starts[index].ToolUse? {
      var tc := ToolStopCalls(codec, st, index);
      CallStaysInStep(st, index, tc);
    } else {
      OtherStopIsQuiet(codec, st, index);
    }
  }

  /** Every event keeps the client in step with the parser. */
  lemma {:induction false} EventStaysInStep(codec: Codec, st: State, e: Event)
    requires InStep(st) && Prints(codec) && Step(codec, st, e, true).Some?
    ensures InStep(Step(codec, st, e, true).value)
  {
    match e
    case BlockStart(index, block) =>
      if block.Some? {
        StartStaysInStep(codec, st, index, block.value);
      }
    case BlockDelta(index, delta) => DeltaStaysInStep(st, index, delta);
    case BlockStop(index) => StopStaysInStep(codec, st, index);
    case _ =>
  }

  lemma {:induction false} StreamStaysInStep(codec: Codec, st: State, events: seq<Event>)
    requires InStep(st) && Prints(codec) && Parse(codec, st, events, true).Some?
    ensures InStep(Parse(codec, st, events, true).value)
    decreases |events|
  {
    if events != [] {
      EventStaysInStep(codec, st, events[0]);
      StreamStaysInStep(codec, Step(codec, st, events[0], true).value, events[1..]);
    }
  }

  lemma {:induction false} FinaleIsSeen(st: State)
    requires InStep(st)
    ensures ClientView(Finale(st).out) == CompletionOf(st.m).(calls := Reassembled(StreamedCalls(st.out)))
  {
    var finish := FinishReason(st.m.stopReason, st.m.calls != []);
    var usage := if st.m.tin + st.m.tout > 0 then Some((st.m.tin, st.m.tout)) else None;
    StreamingTheEnd(st.out, st.m.text, st.m.calls, finish, usage, st.m.hosted);
    assert st.out + [] == st.out;
  }

  /** For every stream of events, a client that puts its chunks together has the content,
      the tool calls and the finish reason of the parser, exactly when no non-empty id was
      streamed twice. */
  lemma {:induction false} ClientHasCompletionExactly(codec: Codec, events: seq<Event>)
    requires Prints(codec) && Parse(codec, INITIAL, events, true).Some?
    ensures var st := Parse(codec, INITIAL, events, true).value;
            ClientView(Finale(st).out) == CompletionOf(st.m) <==> DistinctOrEmptyIds(StreamedCalls(st.out))
  {
    var st := Parse(codec, INITIAL, events, true).value;
    StreamStaysInStep(codec, INITIAL, events);
    FinaleIsSeen(st);
    ReassembledExactly(StreamedCalls(st.out));
  }

  // ---------------------------------------------------------------------------
  // Streamed message and whole message
  // ---------------------------------------------------------------------------

  function CallOf(codec: Codec, block: Block): seq<ToolCall> {
    var tc := ToolCallFromBlock(codec, block);
    if tc.Some? then [tc.value] else []
  }

  function CallsOf(codec: Codec, blocks: seq<Block>): seq<ToolCall> {
    if blocks == [] then [] else CallOf(codec, blocks[0]) + CallsOf(codec, blocks[1..])
  }

  lemma {:induction false} BodyStreamsNoCall(codec: Codec, st: State, index: int, body: seq<Event>)
    requires BodyOf(body, index)
    ensures Parse(codec, st, body, true).Some?
    ensures StreamedCalls(Parse(codec, st, body, true).value.out) == StreamedCalls(st.out)
    decreases |body|
  {
    if body != [] {
      var next := Step(codec, st, body[0], true).value;
      BodyStreamsNoCall(codec, next, index, body[1..]);
      if body[0].BlockDelta? && body[0].delta.TextDelta? {
        StreamedCallsOfNext(st.out, ContentChunk(body[0].delta.text));
      }
    }
  }

  lemma {:induction false} StartStreamsNoCall(codec: Codec, st: State, index: int, block: Block)
    ensures StreamedCalls(OnStart(codec, st, index, block, true).out) == StreamedCalls(st.out)
  {
    match block
    case ServerToolUse(_, _, _) =>
      var ht := HostedFromServerUse(codec, block);
      if ht.Some? {
        StreamedCallsOfNext(st.out, HostedChunk("started", ht.value));
      } else {
        assert st.out + [] == st.out;
      }
    case SearchResult(_) =>
      StreamedCallsOfNext(st.out, HostedChunk("completed", HostedFromSearchResult(block, st.m.pending).value));
    case _ =>
  }

  lemma {:induction false} StopStreamsCall(codec: Codec, st: State, c: Cut, block: Block)
    requires Carries(codec, c, block) && c.index in st.starts && st.starts[c.index] == c.start
    requires InputOf(st, c.index) == JsonOf(c.body)
    ensures StreamedCalls(OnStop(codec, st, c.index, true).out) == StreamedCalls(st.out) + CallOf(codec, block)
  {
    if block.ToolUse? {
      assert FinalInput(codec, c.start.input, JsonOf(c.body)) == block.input;
      var tc := ToolCallFromBlock(codec, block);
      if tc.Some? {
        var merged := MergeToolCall(st.m.calls, tc.value);
        StreamedCallsOfNext(st.out, ToolChunk(ToolCallStreamIndex(merged, tc.value), tc.value));
      }
    }
  }

  lemma {:induction false} CutStreamsCall(codec: Codec, st: State, c: Cut, block: Block)
    requires Carries(codec, c, block) && c.index !in st.inputs
    ensures var after := Parse(codec, st, EventsOf(c), true);
      && after.Some?
      && StreamedCalls(after.value.out) == StreamedCalls(st.out) + CallOf(codec, block)
      && after.value.inputs.Keys <= st.inputs.Keys + {c.index}
  {
    var begun := OnStart(codec, st, c.index, c.start, true);
    StartStreamsNoCall(codec, st, c.index, c.start);
    BodyAddsUp(codec, begun, c.index, c.body, true);
    BodyStreamsNoCall(codec, begun, c.index, c.body);
    var filled := Parse(codec, begun, c.body, true).value;
    assert "" + JsonOf(c.body) == JsonOf(c.body);
    StopStreamsCall(codec, filled, c, block);
    ParseCut(codec, st, c, true);
    CutMeans(codec, st, c, true);
  }

  lemma {:induction false} CutsStreamCalls(codec: Codec, st: State, cuts: seq<Cut>, blocks: seq<Block>)
    requires CarriesAll(codec, cuts, blocks) && FreshIndexes(cuts, st.inputs.Keys)
    ensures var after := Parse(codec, st, AllEvents(cuts), true);
            after.Some? && StreamedCalls(after.value.out) == StreamedCalls(st.out) + CallsOf(codec, blocks)
    decreases |cuts|
  {
    if cuts == [] {
      assert StreamedCalls(st.out) + [] == StreamedCalls(st.out);
    } else {
      var c := cuts[0];
      CutStreamsCall(codec, st, c, blocks[0]);
      var mid := Parse(codec, st, EventsOf(c), true).value;
      RestCarries(codec, cuts, blocks, st.inputs.Keys, mid.inputs.Keys);
      CutsStreamCalls(codec, mid, cuts[1..], blocks[1..]);
      ParseAppend(codec, st, EventsOf(c), AllEvents(cuts[1..]), true);
      Regrouped(StreamedCalls(st.out), CallOf(codec, blocks[0]), CallsOf(codec, blocks[1..]));
    }
  }

  lemma {:induction false} Regrouped(a: seq<ToolCall>, b: seq<ToolCall>, c: seq<ToolCall>)
    ensures (a + b) + c == a + (b + c)
  {
  }

  lemma {:induction false} EndingStreamsNoCall(codec: Codec, st: State, stop: string, tout: Option<int>)
    ensures var after := Parse(codec, st, [MessageDelta(stop, tout), Ignored], true);
            after.Some? && after.value.out == st.out
  {
    var events := [MessageDelta(stop, tout), Ignored];
    assert events == [events[0]] + [events[1]];
    ParseAppend(codec, st, [events[0]], [events[1]], true);
    ParseOne(codec, st, events[0], true);
    ParseOne(codec, Step(codec, st, events[0], true).value, Ignored, true);
  }

  lemma {:induction false} StreamStreamsCalls(codec: Codec, msg: Message, cuts: seq<Cut>)
    requires CarriesAll(codec, cuts, msg.blocks) && FreshIndexes(cuts, {})
    ensures var after := Parse(codec, INITIAL, StreamOf(msg, cuts), true);
            after.Some? && StreamedCalls(after.value.out) == CallsOf(codec, msg.blocks)
  {
    var tin := if msg.usage.Some? then Some(msg.usage.value.0) else None;
    var tout := if msg.usage.Some? then Some(msg.usage.value.1) else None;
    var first, middle, last := [MessageStart(tin)], AllEvents(cuts), [MessageDelta(msg.stopReason, tout), Ignored];
    var counted := Step(codec, INITIAL, first[0], true).value;
    ParseOne(codec, INITIAL, first[0], true);
    ParseAppend(codec, INITIAL, first + middle, last, true);
    ParseAppend(codec, INITIAL, first, middle, true);
    CutsStreamCalls(codec, counted, cuts, msg.blocks);
    assert [] + CallsOf(codec, msg.blocks) == CallsOf(codec, msg.blocks);
    EndingStreamsNoCall(codec, Parse(codec, counted, middle, true).value, msg.stopReason, tout);
  }

  /** A streaming client ends with what a non-streaming client receives for the same
      message, exactly when no non-empty tool id is repeated in it. */
  lemma {:induction false} StreamedEqualsWholeExactly(codec: Codec, msg: Message, cuts: seq<Cut>)
    requires Prints(codec) && CarriesAll(codec, cuts, msg.blocks) && FreshIndexes(cuts, {})
    requires AllFindable(codec, cuts, msg.blocks, {})
    ensures var after := Parse(codec, INITIAL, StreamOf(msg, cuts), true);
      after.Some? &&
      (ClientView(Finale(after.value).out) == CompletionOf(IngestMessage(codec, NOTHING, msg))
       <==> DistinctOrEmptyIds(CallsOf(codec, msg.blocks)))
  {
    StreamMeansMessage(codec, msg, cuts, true);
    StreamStreamsCalls(codec, msg, cuts);
    ClientHasCompletionExactly(codec, StreamOf(msg, cuts));
  }
}
