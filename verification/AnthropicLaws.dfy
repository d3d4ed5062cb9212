/**
 What an Anthropic completion says, in terms of the blocks and counts of the message, or of
 the events that carried it.
 */
module AnthropicLaws {
  import opened Wrappers
  import opened Text
  import opened Json
  import opened BridgeTools
  import opened AnthropicBridge

  // ---------------------------------------------------------------------------
  // Whole messages
  // ---------------------------------------------------------------------------

  // The block is a call of a named tool.
  predicate IsCall(block: Block) {
    block.ToolUse? && block.name != ""
  }

  predicate SomeCall(blocks: seq<Block>) {
    exists i :: 0 <= i < |blocks| && IsCall(blocks[i])
  }

  // The tool calls of these blocks; a missing input is an empty object.
  function NamedCalls(codec: Codec, blocks: seq<Block>): seq<ToolCall> {
    if blocks == [] then []
    else
      var b := blocks[|blocks| - 1];
      NamedCalls(codec, blocks[..|blocks| - 1])
      + if IsCall(b) then [ToolCall(b.id, b.name, if b.input == Null then "{}" else codec.marshal(b.input))] else []
  }

  function AllText(blocks: seq<Block>): string {
    if blocks == [] then ""
    else
      var b := blocks[|blocks| - 1];
      AllText(blocks[..|blocks| - 1]) + if b.TextBlock? then b.text else ""
  }

  // The finish reason for this stop reason, and whether there are calls.
  predicate FinishesBy(stop: string, called: bool, finish: string) {
    if stop == "max_tokens" then finish == "length"
    else if stop == "tool_use" || called then finish == "tool_calls"
    else finish == "stop"
  }

  // The meaning has these blocks' text and calls, on top of none.
  predicate Means(codec: Codec, m: Meaning, blocks: seq<Block>) {
    m.text == AllText(blocks) && m.calls == Merged(NamedCalls(codec, blocks))
  }

  lemma {:induction false} MergedNext(tcs: seq<ToolCall>, tc: ToolCall)
    ensures Merged(tcs + [tc]) == MergeToolCall(Merged(tcs), tc)
  {
    assert (tcs + [tc])[..|tcs|] == tcs;
  }

  lemma {:induction false} IngestMeans(codec: Codec, m: Meaning, blocks: seq<Block>, block: Block)
    requires Means(codec, m, blocks)
    ensures Means(codec, Ingest(codec, m, block), blocks + [block])
  {
    var more := blocks + [block];
    assert more[..|blocks|] == blocks && more[|blocks|] == block;
    assert AllText(blocks) + "" == AllText(blocks) && NamedCalls(codec, blocks) + [] == NamedCalls(codec, blocks);
    if IsCall(block) {
      MergedNext(NamedCalls(codec, blocks), ToolCallFromBlock(codec, block).value);
    }
  }

  lemma {:induction false} IngestAllMeans(codec: Codec, m: Meaning, blocks: seq<Block>, more: seq<Block>)
    requires Means(codec, m, blocks)
    ensures Means(codec, IngestAll(codec, m, more), blocks + more)
    decreases |more|
  {
    if more == [] {
      assert blocks + more == blocks;
    } else {
      IngestMeans(codec, m, blocks, more[0]);
      IngestAllMeans(codec, Ingest(codec, m, more[0]), blocks + [more[0]], more[1..]);
      assert blocks + [more[0]] + more[1..] == blocks + more;
    }
  }

  lemma {:induction false} IngestAllKeepsCounts(codec: Codec, m: Meaning, blocks: seq<Block>)
    ensures var after := IngestAll(codec, m, blocks);
            after.stopReason == m.stopReason && after.tin == m.tin && after.tout == m.tout
    decreases |blocks|
  {
    if blocks != [] {
      IngestAllKeepsCounts(codec, Ingest(codec, m, blocks[0]), blocks[1..]);
    }
  }

  lemma {:induction false} NoCallsExactly(codec: Codec, blocks: seq<Block>)
    ensures NamedCalls(codec, blocks) == [] <==> !SomeCall(blocks)
  {
    if blocks != [] {
      var n := |blocks| - 1;
      NoCallsExactly(codec, blocks[..n]);
      assert forall i :: 0 <= i < n ==> blocks[..n][i] == blocks[i];
    }
  }

  lemma {:induction false} MergedNone(tcs: seq<ToolCall>)
    ensures Merged(tcs) == [] <==> tcs == []
  {
  }

  /** A whole message's completion has the text of its text blocks, its named calls merged
      by id, its counts, and the finish reason that its stop reason and calls ask for. */
  lemma {:induction false} MessageCompletes(codec: Codec, msg: Message)
    ensures var m := IngestMessage(codec, NOTHING, msg);
      var done := CompletionOf(m);
      && done.content == AllText(msg.blocks)
      && done.calls == ByIndex(Merged(NamedCalls(codec, msg.blocks)))
      && MergedById(NamedCalls(codec, msg.blocks), m.calls)
      && FinishesBy(msg.stopReason, SomeCall(msg.blocks), done.finish)
      && (m.tin, m.tout) == (if msg.usage.Some? then msg.usage.value else (0, 0))
  {
    var counted := if msg.usage.Some? then NOTHING.(tin := msg.usage.value.0, tout := msg.usage.value.1) else NOTHING;
    var stopped := if msg.stopReason != "" then counted.(stopReason := msg.stopReason) else counted;
    IngestAllMeans(codec, stopped, [], msg.blocks);
    IngestAllKeepsCounts(codec, stopped, msg.blocks);
    assert [] + msg.blocks == msg.blocks;
    NoCallsExactly(codec, msg.blocks);
    MergedNone(NamedCalls(codec, msg.blocks));
    MergedExactly(NamedCalls(codec, msg.blocks));
  }

  // ---------------------------------------------------------------------------
  // Events
  // ---------------------------------------------------------------------------

  // The last stop reason, and the last counts, that the events carried.
  function LastStop(events: seq<Event>): string {
    if events == [] then ""
    else
      var e := events[|events| - 1];
      if e.MessageDelta? && e.stopReason != "" then e.stopReason else LastStop(events[..|events| - 1])
  }

  function LastIn(events: seq<Event>): int {
    if events == [] then 0
    else
      var e := events[|events| - 1];
      if e.MessageStart? && e.tin.Some? then e.tin.value else LastIn(events[..|events| - 1])
  }

  function LastOut(events: seq<Event>): int {
    if events == [] then 0
    else
      var e := events[|events| - 1];
      if e.MessageDelta? && e.tout.Some? then e.tout.value else LastOut(events[..|events| - 1])
  }

  // An error that the vendor explains.
  predicate SomeError(events: seq<Event>) {
    exists i :: 0 <= i < |events| && events[i].ErrorEvent? && events[i].message != ""
  }

  lemma {:induction false} ParseSnoc(codec: Codec, st: State, events: seq<Event>, e: Event, streaming: bool)
    ensures Parse(codec, st, events + [e], streaming) ==
      var before := Parse(codec, st, events, streaming);
      if before.None? then None else Step(codec, before.value, e, streaming)
  {
    ParseAppend(codec, st, events, [e], streaming);
    if Parse(codec, st, events, streaming).Some? {
      ParseOne(codec, Parse(codec, st, events, streaming).value, e, streaming);
    }
  }

  // The state has these counts and this stop reason.
  predicate HasCounts(m: Meaning, stop: string, tin: int, tout: int) {
    m.stopReason == stop && m.tin == tin && m.tout == tout
  }

  lemma {:induction false} IngestKeepsCounts(codec: Codec, m: Meaning, block: Block)
    ensures HasCounts(Ingest(codec, m, block), m.stopReason, m.tin, m.tout)
  {
  }

  lemma {:induction false} StepCounts(codec: Codec, st: State, e: Event, streaming: bool)
    ensures var next := Step(codec, st, e, streaming);
      && (next.None? <==> e.ErrorEvent? && e.message != "")
      && (next.Some? ==>
            HasCounts(next.value.m,
                      if e.MessageDelta? && e.stopReason != "" then e.stopReason else st.m.stopReason,
                      if e.MessageStart? && e.tin.Some? then e.tin.value else st.m.tin,
                      if e.MessageDelta? && e.tout.Some? then e.tout.value else st.m.tout))
  {
    if e.BlockStart? && e.block.Some? {
      IngestKeepsCounts(codec, st.m, e.block.value);
    }
  }

  lemma {:induction false} ErrorNext(before: seq<Event>, e: Event)
    ensures SomeError(before + [e]) <==> SomeError(before) || (e.ErrorEvent? && e.message != "")
  {
    var more := before + [e];
    assert more[|before|] == e;
    if SomeError(before) {
      var i :| 0 <= i < |before| && before[i].ErrorEvent? && before[i].message != "";
      assert more[i] == before[i];
    }
  }

  /** A stream is parsed to its end exactly when no event explains an error; the state then
      has the last stop reason and counts that came. */
  lemma {:induction false} StreamCounts(codec: Codec, events: seq<Event>, streaming: bool)
    ensures var after := Parse(codec, INITIAL, events, streaming);
      && (after.None? <==> SomeError(events))
      && (after.Some? ==> HasCounts(after.value.m, LastStop(events), LastIn(events), LastOut(events)))
    decreases |events|
  {
    if events != [] {
      var n := |events| - 1;
      var before, e := events[..n], events[n];
      StreamCounts(codec, before, streaming);
      assert events == before + [e];
      ParseSnoc(codec, INITIAL, before, e, streaming);
      ErrorNext(before, e);
      if Parse(codec, INITIAL, before, streaming).Some? {
        StepCounts(codec, Parse(codec, INITIAL, before, streaming).value, e, streaming);
      }
    }
  }

  // The last chunks: the text if none was streamed, how it finished, and the end marker.
  predicate LastChunks(events: seq<Event>, st: State, last: State) {
    var out := last.out;
    var n := |out| - 2;
    && (last.contentEmitted <==> st.contentEmitted || st.m.text != "")
    && n >= |st.out|
    && out[n].FinalChunk? && FinishesBy(LastStop(events), st.m.calls != [], out[n].finish)
    && out[n].hosted == st.m.hosted
    && (out[n].usage.Some? <==> LastIn(events) + LastOut(events) > 0)
    && (out[n].usage.Some? ==> out[n].usage.value == (LastIn(events), LastOut(events)))
    && out[n + 1] == DoneMarker
    && out[..n] == st.out + if st.contentEmitted || st.m.text == "" then [] else [ContentChunk(st.m.text)]
  }

  /** The last chunks of every stream, and the completion for a client that waits, say how
      the message finished by its last stop reason and whether it has calls. */
  lemma {:induction false} StreamFinishes(codec: Codec, events: seq<Event>)
    requires !SomeError(events)
    ensures var streamed := Parse(codec, INITIAL, events, true);
      streamed.Some? && LastChunks(events, streamed.value, Finale(streamed.value))
    ensures var waited := Parse(codec, INITIAL, events, false);
      waited.Some? &&
      FinishesBy(LastStop(events), waited.value.m.calls != [], CompletionOf(waited.value.m).finish)
  {
    StreamCounts(codec, events, true);
    StreamCounts(codec, events, false);
    var st := Parse(codec, INITIAL, events, true).value;
    var backfill := if st.contentEmitted || st.m.text == "" then [] else [ContentChunk(st.m.text)];
    var out := Finale(st).out;
    assert out == (st.out + backfill) + [out[|st.out + backfill|], DoneMarker];
  }

  // ---------------------------------------------------------------------------
  // Hosted tools
  // ---------------------------------------------------------------------------

  // The search action for this query, if the query is a text that is not blank.
  predicate IsQuery(query: Json, action: Option<Json>) {
    if query.Str? && !AllSpace(query.s) then action == Some(Obj(map["type" := Str("search"), "query" := query]))
    else action == None
  }

  predicate IsQueryOf(j: Json, action: Option<Json>) {
    if j.Obj? && "query" in j.fields then IsQuery(j.fields["query"], action) else action == None
  }

  // The action of an input, which is an object or the text of one.
  predicate IsAction(codec: Codec, input: Json, action: Option<Json>) {
    match input
    case Obj(_) => IsQueryOf(input, action)
    case Str(text) =>
      if !AllSpace(text) && codec.unmarshal(text).Some? then IsQueryOf(codec.unmarshal(text).value, action)
      else action == None
    case _ => action == None
  }

  // The entry that a block makes, and its phase: a search in progress, or one completed,
  // which has the action of the search with its id.
  predicate IsEntry(codec: Codec, pending: map<string, HostedTool>, block: Block, entry: HostedTool, phase: string) {
    match block
    case ServerToolUse(id, name, input) =>
      && name == "web_search" && phase == "started"
      && entry.id == id && entry.name == "web_search" && entry.status == Some("in_progress")
      && IsAction(codec, input, entry.action) && entry.result == None
    case SearchResult(id) =>
      && phase == "completed"
      && entry.id == id && entry.name == "web_search" && entry.status == Some("completed") && entry.result == None
      && (if id != "" && id in pending then entry.action == pending[id].action else entry.action == None)
    case _ => false
  }

  predicate MakesEntry(block: Block) {
    (block.ServerToolUse? && block.name == "web_search") || block.SearchResult?
  }

  lemma {:induction false} ActionIs(codec: Codec, input: Json)
    ensures IsAction(codec, input, SearchAction(codec, input))
  {
    match input
    case Obj(fields) => QueryIs(fields);
    case Str(text) =>
      BlankExactly(text);
      if codec.unmarshal(text).Some? && codec.unmarshal(text).value.Obj? {
        QueryIs(codec.unmarshal(text).value.fields);
      }
    case _ =>
  }

  lemma {:induction false} QueryIs(fields: map<string, Json>)
    ensures IsQueryOf(Obj(fields), QueryAction(fields))
  {
    if "query" in fields && fields["query"].Str? {
      BlankExactly(fields["query"].s);
    }
    assert Trim("") == "";
  }

  // What a block does to the hosted tools and to the searches remembered.
  predicate HostsBlock(codec: Codec, m: Meaning, block: Block, m': Meaning, entry: HostedTool, phase: string) {
    if !MakesEntry(block) then m'.hosted == m.hosted && m'.pending == m.pending
    else
      && IsEntry(codec, m.pending, block, entry, phase)
      && m'.hosted == MergeHostedTool(m.hosted, entry)
      && m'.pending == if block.ServerToolUse? && entry.id != "" then m.pending[entry.id := entry] else m.pending
  }

  /** Each block of a message makes the hosted entry it should, merged with those before; a
      search with an id is remembered for its result. */
  lemma {:induction false} BlockHosts(codec: Codec, m: Meaning, block: Block)
    ensures exists entry: HostedTool, phase: string ::
              HostsBlock(codec, m, block, Ingest(codec, m, block), entry, phase)
  {
    match block
    case ServerToolUse(id, name, input) =>
      var entry := HostedTool(id, "web_search", Some("in_progress"), SearchAction(codec, input), None);
      ActionIs(codec, input);
      assert HostsBlock(codec, m, block, Ingest(codec, m, block), entry, "started");
    case SearchResult(id) =>
      var entry := HostedFromSearchResult(block, m.pending).value;
      assert HostsBlock(codec, m, block, Ingest(codec, m, block), entry, "completed");
    case _ =>
      assert HostsBlock(codec, m, block, Ingest(codec, m, block), HostedTool("", "", None, None, None), "");
  }

  // The entries that a streaming client is told of when this block starts.
  predicate ToldOf(codec: Codec, st: State, e: Event, streaming: bool, told: seq<(string, HostedTool)>) {
    if streaming && e.BlockStart? && e.block.Some? && MakesEntry(e.block.value)
    then |told| == 1 && IsEntry(codec, st.m.pending, e.block.value, told[0].1, told[0].0) else told == []
  }

  lemma {:induction false} StartTells(
    codec: Codec, st: State, index: int, block: Block, streaming: bool) returns (told: seq<(string, HostedTool)>)
    ensures ToldOf(codec, st, BlockStart(index, Some(block)), streaming, told)
    ensures Announced(OnStart(codec, st, index, block, streaming).out) == Announced(st.out) + told
  {
    told := [];
    assert st.out + [] == st.out && Announced(st.out) + [] == Announced(st.out);
    if streaming && MakesEntry(block) {
      var chunk := HostedChunks(codec, st.m, block)[0];
      if block.ServerToolUse? {
        ActionIs(codec, block.input);
      }
      AnnouncedNext(st.out, chunk);
      told := [(chunk.phase, chunk.tool)];
    }
  }

  /** A streaming client is told of each search as it starts and as its result comes, and of
      nothing else. */
  lemma {:induction false} EventTells(
    codec: Codec, st: State, e: Event, streaming: bool) returns (told: seq<(string, HostedTool)>)
    requires Step(codec, st, e, streaming).Some?
    ensures ToldOf(codec, st, e, streaming, told)
    ensures Announced(Step(codec, st, e, streaming).value.out) == Announced(st.out) + told
  {
    told := [];
    assert Announced(st.out) + [] == Announced(st.out);
    match e
    case BlockStart(index, Some(block)) => told := StartTells(codec, st, index, block, streaming);
    case BlockDelta(index, delta) =>
      if delta.TextDelta? {
        AnnouncedNext(st.out, ContentChunk(delta.text));
      }
    case BlockStop(index) => StopTells(codec, st, index, streaming);
    case _ =>
  }

  lemma {:induction false} StopTells(codec: Codec, st: State, index: int, streaming: bool)
    ensures Announced(OnStop(codec, st, index, streaming).out) == Announced(st.out)
  {
    assert Announced(st.out) + [] == Announced(st.out);
    if index in st.starts && st.starts[index].ToolUse? {
      var b := st.starts[index];
      var tc := ToolCallFromBlock(codec, ToolUse(b.id, b.name, FinalInput(codec, b.input, InputOf(st, index))));
      if tc.Some? && streaming {
        var merged := MergeToolCall(st.m.calls, tc.value);
        AnnouncedNext(st.out, ToolChunk(ToolCallStreamIndex(merged, tc.value), tc.value));
      }
    }
  }

  lemma {:induction false} StepIsQuiet(codec: Codec, st: State, e: Event)
    requires Step(codec, st, e, false).Some?
    ensures var next := Step(codec, st, e, false).value; next.out == st.out && next.contentEmitted == st.contentEmitted
  {
  }

  /** Without a streaming client nothing is written. */
  lemma {:induction false} QuietWithoutClient(codec: Codec, st: State, events: seq<Event>)
    ensures var after := Parse(codec, st, events, false);
            after.Some? ==> after.value.out == st.out && after.value.contentEmitted == st.contentEmitted
    decreases |events|
  {
    if events != [] && Step(codec, st, events[0], false).Some? {
      StepIsQuiet(codec, st, events[0]);
      QuietWithoutClient(codec, Step(codec, st, events[0], false).value, events[1..]);
    }
  }
}
