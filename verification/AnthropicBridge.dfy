/**
 The Anthropic bridge: a whole message and a stream of events, turned into the same chat
 completion. A codec stands for the JSON library.
 */
module AnthropicBridge {
  import opened Wrappers
  import opened Text
  import opened Json
  import opened BridgeTools

  // json.Unmarshal into any value, and json.Marshal.
  datatype Codec = Codec(unmarshal: string -> Option<Json>, marshal: Json -> string)

  // Content blocks. A Null input stands for a missing one.
  datatype Block =
    | TextBlock(text: string)
    | ToolUse(id: string, name: string, input: Json)
    | ServerToolUse(id: string, name: string, input: Json)
    | SearchResult(toolUseId: string)
    | OtherBlock

  datatype Delta = TextDelta(text: string) | JsonDelta(partial: string) | OtherDelta

  datatype Event =
    | MessageStart(tin: Option<int>)
    | BlockStart(index: int, block: Option<Block>)
    | BlockDelta(index: int, delta: Delta)
    | BlockStop(index: int)
    | MessageDelta(stopReason: string, tout: Option<int>)
    | ErrorEvent(message: string)
    | Ignored

  // What a message means to the client; `pending` remembers searches by id.
  datatype Meaning = Meaning(
    text: string,
    tin: int,
    tout: int,
    hosted: seq<HostedTool>,
    calls: seq<ToolCall>,
    pending: map<string, HostedTool>,
    stopReason: string)

  // The parse state: the meaning so far, the open blocks, and what was written.
  datatype State = State(
    m: Meaning,
    starts: map<int, Block>,
    inputs: map<int, string>,
    contentEmitted: bool,
    out: seq<Chunk>)

  const NOTHING := Meaning("", 0, 0, [], [], map[], "")
  const INITIAL := State(NOTHING, map[], map[], false, [])

  // ---------------------------------------------------------------------------
  // Blocks
  // ---------------------------------------------------------------------------

  function QueryAction(fields: map<string, Json>): Option<Json> {
    var q := Field(fields, "query");
    if Trim(StrOf(q)) != "" then Some(Obj(map["type" := Str("search"), "query" := q])) else None
  }

  // The search action in a tool input, which may be an object or its text.
  function SearchAction(codec: Codec, input: Json): Option<Json> {
    match input
    case Obj(fields) => QueryAction(fields)
    case Str(text) =>
      if Trim(text) == "" then None
      else
        var parsed := codec.unmarshal(text);
        if parsed.Some? && parsed.value.Obj? then QueryAction(parsed.value.fields) else None
    case _ => None
  }

  function ToolCallFromBlock(codec: Codec, block: Block): Option<ToolCall> {
    if !block.ToolUse? || block.name == "" then None
    else Some(ToolCall(block.id, block.name, if block.input == Null then "{}" else codec.marshal(block.input)))
  }

  function HostedFromServerUse(codec: Codec, block: Block): Option<HostedTool> {
    if !block.ServerToolUse? || block.name != "web_search" then None
    else Some(HostedTool(block.id, "web_search", Some("in_progress"), SearchAction(codec, block.input), None))
  }

  function HostedFromSearchResult(block: Block, pending: map<string, HostedTool>): Option<HostedTool> {
    if !block.SearchResult? then None
    else
      var id := block.toolUseId;
      var action := if id != "" && id in pending then pending[id].action else None;
      Some(HostedTool(id, "web_search", Some("completed"), action, None))
  }

  // A search begins; one with an id is remembered.
  function IngestSearch(m: Meaning, ht: HostedTool): Meaning {
    m.(pending := if ht.id != "" then m.pending[ht.id := ht] else m.pending,
       hosted := MergeHostedTool(m.hosted, ht))
  }

  // One content block of a whole message.
  function Ingest(codec: Codec, m: Meaning, block: Block): Meaning {
    match block
    case TextBlock(t) => m.(text := m.text + t)
    case ToolUse(_, _, _) =>
      var tc := ToolCallFromBlock(codec, block);
      if tc.None? then m else m.(calls := MergeToolCall(m.calls, tc.value))
    case ServerToolUse(_, _, _) =>
      var ht := HostedFromServerUse(codec, block);
      if ht.None? then m else IngestSearch(m, ht.value)
    case SearchResult(_) =>
      m.(hosted := MergeHostedTool(m.hosted, HostedFromSearchResult(block, m.pending).value))
    case OtherBlock => m
  }

  datatype Message = Message(usage: Option<(int, int)>, stopReason: string, blocks: seq<Block>)

  function IngestAll(codec: Codec, m: Meaning, blocks: seq<Block>): Meaning
    decreases |blocks|
  {
    if blocks == [] then m else IngestAll(codec, Ingest(codec, m, blocks[0]), blocks[1..])
  }

  function IngestMessage(codec: Codec, m: Meaning, msg: Message): Meaning {
    var counted := if msg.usage.Some? then m.(tin := msg.usage.value.0, tout := msg.usage.value.1) else m;
    var stopped := if msg.stopReason != "" then counted.(stopReason := msg.stopReason) else counted;
    IngestAll(codec, stopped, msg.blocks)
  }

  // ---------------------------------------------------------------------------
  // Events
  // ---------------------------------------------------------------------------

  function InputOf(st: State, index: int): string {
    if index in st.inputs then st.inputs[index] else ""
  }

  function HostedChunks(codec: Codec, m: Meaning, block: Block): seq<Chunk> {
    match block
    case ServerToolUse(_, _, _) =>
      var ht := HostedFromServerUse(codec, block);
      if ht.Some? then [HostedChunk("started", ht.value)] else []
    case SearchResult(_) => [HostedChunk("completed", HostedFromSearchResult(block, m.pending).value)]
    case _ => []
  }

  function OnStart(codec: Codec, st: State, index: int, block: Block, streaming: bool): State {
    var begun := st.(starts := st.starts[index := block]);
    if block.ServerToolUse? || block.SearchResult? then
      begun.(m := Ingest(codec, st.m, block),
              out := if streaming then st.out + HostedChunks(codec, st.m, block) else st.out)
    else begun
  }

  function OnDelta(st: State, index: int, delta: Delta, streaming: bool): State {
    match delta
    case TextDelta(t) =>
      if t == "" then st
      else
        var written := st.(m := st.m.(text := st.m.text + t));
        if streaming then written.(contentEmitted := true, out := st.out + [ContentChunk(t)]) else written
    case JsonDelta(p) => st.(inputs := st.inputs[index := InputOf(st, index) + p])
    case OtherDelta => st
  }

  // The input of a tool call: the streamed text, if it parses, else what the start had.
  function FinalInput(codec: Codec, placeholder: Json, text: string): Json {
    var raw := Trim(text);
    if raw != "" && codec.unmarshal(raw).Some? then codec.unmarshal(raw).value else placeholder
  }

  function Close(st: State, index: int): State {
    st.(starts := st.starts - {index}, inputs := st.inputs - {index})
  }

  // A finished tool call is merged. A streaming parser leaves the block open behind a chunk.
  function Called(st: State, index: int, tc: Option<ToolCall>, streaming: bool): State {
    if tc.None? then Close(st, index)
    else
      var merged := st.(m := st.m.(calls := MergeToolCall(st.m.calls, tc.value)));
      if streaming then
        merged.(out := st.out + [ToolChunk(ToolCallStreamIndex(merged.m.calls, tc.value), tc.value)])
      else Close(merged, index)
  }

  function OnToolStop(
    codec: Codec, st: State, index: int, id: string, name: string, placeholder: Json, streaming: bool): State
  {
    var input := FinalInput(codec, placeholder, InputOf(st, index));
    Called(st, index, ToolCallFromBlock(codec, ToolUse(id, name, input)), streaming)
  }

  // The end of a search: its action is known now.
  function WithAction(m: Meaning, id: string, action: Option<Json>): Meaning {
    if action.None? || id == "" || id !in m.pending then m
    else
      var ht := m.pending[id].(action := action);
      m.(pending := m.pending[id := ht], hosted := MergeHostedTool(m.hosted, ht))
  }

  function OnStop(codec: Codec, st: State, index: int, streaming: bool): State {
    if index !in st.starts then Close(st, index)
    else
      match st.starts[index]
      case ToolUse(id, name, placeholder) => OnToolStop(codec, st, index, id, name, placeholder, streaming)
      case ServerToolUse(id, _, _) =>
        Close(st.(m := WithAction(st.m, id, SearchAction(codec, Str(InputOf(st, index))))), index)
      case _ => Close(st, index)
  }

  // One event; None when the vendor reports an error.
  function Step(codec: Codec, st: State, e: Event, streaming: bool): Option<State> {
    match e
    case MessageStart(tin) => Some(if tin.Some? then st.(m := st.m.(tin := tin.value)) else st)
    case BlockStart(index, block) =>
      Some(if block.Some? then OnStart(codec, st, index, block.value, streaming) else st)
    case BlockDelta(index, delta) => Some(OnDelta(st, index, delta, streaming))
    case BlockStop(index) => Some(OnStop(codec, st, index, streaming))
    case MessageDelta(stop, tout) =>
      var stopped := if stop != "" then st.(m := st.m.(stopReason := stop)) else st;
      Some(if tout.Some? then stopped.(m := stopped.m.(tout := tout.value)) else stopped)
    case ErrorEvent(message) => if message != "" then None else Some(st)
    case Ignored => Some(st)
  }

  function Parse(codec: Codec, st: State, events: seq<Event>, streaming: bool): Option<State>
    decreases |events|
  {
    if events == [] then Some(st)
    else
      var next := Step(codec, st, events[0], streaming);
      if next.None? then None else Parse(codec, next.value, events[1..], streaming)
  }

  function FinishReason(stop: string, hasToolCalls: bool): string {
    if stop == "tool_use" then "tool_calls"
    else if stop == "max_tokens" then "length"
    else if hasToolCalls then "tool_calls" else "stop"
  }

  // The last chunks of a stream.
  function Finale(st: State): State {
    var backfill := if !st.contentEmitted && st.m.text != "" then [ContentChunk(st.m.text)] else [];
    st.(contentEmitted := st.contentEmitted || backfill != [],
        out := st.out + backfill + [
          FinalChunk(FinishReason(st.m.stopReason, st.m.calls != []),
                     if st.m.tin + st.m.tout > 0 then Some((st.m.tin, st.m.tout)) else None, st.m.hosted),
          DoneMarker])
  }

  function CompletionOf(m: Meaning): Completion {
    Completion(m.text, ByIndex(m.calls), FinishReason(m.stopReason, m.calls != []), m.hosted)
  }

  // ---------------------------------------------------------------------------
  // A stream means what the message means
  // ---------------------------------------------------------------------------

  // The events between the start and the stop of a block.
  predicate BodyOf(events: seq<Event>, index: int) {
    forall i :: 0 <= i < |events| ==> events[i] == Ignored || (events[i].BlockDelta? && events[i].index == index)
  }

  function TextPiece(e: Event): string {
    if e.BlockDelta? && e.delta.TextDelta? then e.delta.text else ""
  }

  function JsonPiece(e: Event): string {
    if e.BlockDelta? && e.delta.JsonDelta? then e.delta.partial else ""
  }

  function TextOf(events: seq<Event>): string {
    if events == [] then "" else TextPiece(events[0]) + TextOf(events[1..])
  }

  function JsonOf(events: seq<Event>): string {
    if events == [] then "" else JsonPiece(events[0]) + JsonOf(events[1..])
  }

  // A block cut into a start, deltas and a stop.
  datatype Cut = Cut(index: int, start: Block, body: seq<Event>)

  function EventsOf(c: Cut): seq<Event> {
    [BlockStart(c.index, Some(c.start))] + c.body + [BlockStop(c.index)]
  }

  // The streamed text is a text of the value, or there is no text and the start has it.
  predicate Spells(codec: Codec, text: string, startInput: Json, input: Json) {
    if Trim(text) == "" then startInput == input
    else codec.unmarshal(Trim(text)) == Some(input) && codec.unmarshal(text) == Some(input)
  }

  // The cut carries this block, whatever the pieces of its text and of its input are.
  predicate Carries(codec: Codec, c: Cut, block: Block) {
    && BodyOf(c.body, c.index)
    && TextOf(c.body) == (if block.TextBlock? then block.text else "")
    && match block
       case TextBlock(_) => c.start.TextBlock?
       case ToolUse(id, name, input) =>
         c.start.ToolUse? && c.start.id == id && c.start.name == name
         && Spells(codec, JsonOf(c.body), c.start.input, input)
       case ServerToolUse(id, name, input) =>
         c.start.ServerToolUse? && c.start.id == id && c.start.name == name && input.Obj?
         && Spells(codec, JsonOf(c.body), c.start.input, input)
         && (Trim(JsonOf(c.body)) != "" ==> SearchAction(codec, c.start.input) == None)
       case SearchResult(_) => c.start == block
       case OtherBlock => c.start == OtherBlock
  }

  // The block has a search action, and its input is streamed.
  predicate StreamsAction(codec: Codec, c: Cut, block: Block) {
    block.ServerToolUse? && Trim(JsonOf(c.body)) != "" && SearchAction(codec, block.input).Some?
  }

  // A search whose query is streamed needs an id to be found again; another tool with a
  // query must not take the id of a search.
  predicate Findable(codec: Codec, c: Cut, block: Block, searches: set<string>) {
    StreamsAction(codec, c, block) ==>
      if block.name == "web_search" then block.id != "" else block.id == "" || block.id !in searches
  }

  // The ids of the searches among these blocks.
  function SearchIds(blocks: seq<Block>): set<string> {
    set b | b in blocks && b.ServerToolUse? && b.name == "web_search" :: b.id
  }

  predicate AllFindable(codec: Codec, cuts: seq<Cut>, blocks: seq<Block>, searches: set<string>)
    requires |cuts| == |blocks|
  {
    forall i :: 0 <= i < |cuts| ==> Findable(codec, cuts[i], blocks[i], searches + SearchIds(blocks[..i]))
  }

  lemma {:induction false} ParseAppend(codec: Codec, st: State, a: seq<Event>, b: seq<Event>, streaming: bool)
    ensures Parse(codec, st, a + b, streaming) ==
      var mid := Parse(codec, st, a, streaming);
      if mid.None? then None else Parse(codec, mid.value, b, streaming)
    decreases |a|
  {
    if a == [] {
      assert a + b == b;
    } else {
      assert (a + b)[0] == a[0] && (a + b)[1..] == a[1..] + b;
      var next := Step(codec, st, a[0], streaming);
      if next.Some? {
        ParseAppend(codec, next.value, a[1..], b, streaming);
      }
    }
  }

  // Only text and the input of one block were added.
  predicate Adds(st: State, after: State, index: int, text: string, input: string) {
    && after.m == st.m.(text := st.m.text + text)
    && after.starts == st.starts
    && InputOf(after, index) == InputOf(st, index) + input
    && after.inputs - {index} == st.inputs - {index}
  }

  lemma {:induction false} AddsInTurn(
    a: State, b: State, c: State, index: int, t: string, u: string, i: string, j: string)
    requires Adds(a, b, index, t, i) && Adds(b, c, index, u, j)
    ensures Adds(a, c, index, t + u, i + j)
  {
    assert (a.m.text + t) + u == a.m.text + (t + u);
    assert (InputOf(a, index) + i) + j == InputOf(a, index) + (i + j);
  }

  lemma {:induction false} DeltaAdds(codec: Codec, st: State, index: int, e: Event, streaming: bool)
    requires e == Ignored || (e.BlockDelta? && e.index == index)
    ensures var next := Step(codec, st, e, streaming);
            next.Some? && Adds(st, next.value, index, TextPiece(e), JsonPiece(e))
  {
    assert st.m.text + "" == st.m.text && InputOf(st, index) + "" == InputOf(st, index);
  }

  // The deltas of a block add up.
  lemma {:induction false} BodyAddsUp(codec: Codec, st: State, index: int, body: seq<Event>, streaming: bool)
    requires BodyOf(body, index)
    ensures var after := Parse(codec, st, body, streaming);
            after.Some? && Adds(st, after.value, index, TextOf(body), JsonOf(body))
    decreases |body|
  {
    if body == [] {
      assert st.m.text + "" == st.m.text && InputOf(st, index) + "" == InputOf(st, index);
    } else {
      DeltaAdds(codec, st, index, body[0], streaming);
      var next := Step(codec, st, body[0], streaming).value;
      BodyAddsUp(codec, next, index, body[1..], streaming);
      AddsInTurn(st, next, Parse(codec, st, body, streaming).value, index,
                 TextPiece(body[0]), TextOf(body[1..]), JsonPiece(body[0]), JsonOf(body[1..]));
    }
  }

  // Merging a search before its action is known makes no difference.
  lemma {:induction false} MergeTwice(tools: seq<HostedTool>, ht: HostedTool, action: Option<Json>)
    requires ht.id != ""
    requires action.Some?
    ensures MergeHostedTool(MergeHostedTool(tools, ht), ht.(action := action))
         == MergeHostedTool(tools, ht.(action := action))
  {
    var i := FindHosted(tools, ht);
    var late := ht.(action := action);
    SameIndex(tools, ht, late);
    var once := MergeHostedTool(tools, ht);
    assert FindHosted(once, late) == i by {
      FirstHostedIs(once, late, i);
    }
  }

  lemma {:induction false} FirstHostedIs(tools: seq<HostedTool>, entry: HostedTool, i: nat)
    requires i < |tools| && SameHosted(tools[i], entry) && forall k :: 0 <= k < i ==> !SameHosted(tools[k], entry)
    ensures FindHosted(tools, entry) == i
  {
    var j := FindHosted(tools, entry);
    assert !(j < i) && !(i < j);
  }

  lemma {:induction false} SameIndex(tools: seq<HostedTool>, a: HostedTool, b: HostedTool)
    requires a.id == b.id && a.name == b.name
    ensures FindHosted(tools, a) == FindHosted(tools, b)
  {
    var i, j := FindHosted(tools, a), FindHosted(tools, b);
    assert !(j < i) && !(i < j);
  }

  // A block's start, seen alone: what it does to the meaning.
  function Begin(codec: Codec, m: Meaning, start: Block): Meaning {
    if start.ServerToolUse? || start.SearchResult? then Ingest(codec, m, start) else m
  }

  // A block's stop, seen alone: what it does to the meaning.
  function End(codec: Codec, m: Meaning, start: Block, text: string): Meaning {
    match start
    case ToolUse(id, name, placeholder) =>
      Ingest(codec, m, ToolUse(id, name, FinalInput(codec, placeholder, text)))
    case ServerToolUse(id, _, _) => WithAction(m, id, SearchAction(codec, Str(text)))
    case _ => m
  }

  lemma {:induction false} StartBegins(codec: Codec, st: State, c: Cut, streaming: bool)
    ensures var next := OnStart(codec, st, c.index, c.start, streaming);
      && next.m == Begin(codec, st.m, c.start)
      && next.starts == st.starts[c.index := c.start] && next.inputs == st.inputs
  {
  }

  lemma {:induction false} StopEnds(codec: Codec, st: State, c: Cut, streaming: bool)
    requires c.index in st.starts && st.starts[c.index] == c.start
    ensures var next := OnStop(codec, st, c.index, streaming);
      next.m == End(codec, st.m, c.start, InputOf(st, c.index)) && next.inputs.Keys <= st.inputs.Keys
  {
  }

  // One cut block behind input text that was left open at its index.
  lemma {:induction false} CutMeansFrom(codec: Codec, st: State, c: Cut, streaming: bool)
    requires BodyOf(c.body, c.index)
    ensures var after := Parse(codec, st, EventsOf(c), streaming);
      && after.Some?
      && after.value.m == AddedWith(codec, st.m, c, InputOf(st, c.index) + JsonOf(c.body))
      && after.value.inputs.Keys <= st.inputs.Keys + {c.index}
  {
    var begun := OnStart(codec, st, c.index, c.start, streaming);
    StartBegins(codec, st, c, streaming);
    BodyAddsUp(codec, begun, c.index, c.body, streaming);
    var filled := Parse(codec, begun, c.body, streaming).value;
    assert InputOf(filled, c.index) == InputOf(st, c.index) + JsonOf(c.body);
    StopEnds(codec, filled, c, streaming);
    ParseCut(codec, st, c, streaming);
    forall k | k in filled.inputs.Keys
      ensures k in st.inputs.Keys + {c.index}
    {
      assert k != c.index ==> k in filled.inputs - {c.index};
    }
  }

  // One cut block: its start, the text of its deltas, its stop.
  lemma {:induction false} CutMeans(codec: Codec, st: State, c: Cut, streaming: bool)
    requires BodyOf(c.body, c.index) && c.index !in st.inputs
    ensures var after := Parse(codec, st, EventsOf(c), streaming);
      && after.Some?
      && (var m := Begin(codec, st.m, c.start);
          after.value.m == End(codec, m.(text := m.text + TextOf(c.body)), c.start, JsonOf(c.body)))
      && after.value.inputs.Keys <= st.inputs.Keys + {c.index}
  {
    CutMeansFrom(codec, st, c, streaming);
    assert "" + JsonOf(c.body) == JsonOf(c.body);
  }

  lemma {:induction false} ParseCut(codec: Codec, st: State, c: Cut, streaming: bool)
    requires BodyOf(c.body, c.index)
    requires Parse(codec, OnStart(codec, st, c.index, c.start, streaming), c.body, streaming).Some?
    ensures Parse(codec, st, EventsOf(c), streaming)
         == Some(OnStop(codec, Parse(codec, OnStart(codec, st, c.index, c.start, streaming), c.body, streaming).value,
                        c.index, streaming))
  {
    var first, last := [BlockStart(c.index, Some(c.start))], [BlockStop(c.index)];
    ParseAppend(codec, st, first + c.body, last, streaming);
    ParseAppend(codec, st, first, c.body, streaming);
    ParseOne(codec, st, first[0], streaming);
    var filled := Parse(codec, OnStart(codec, st, c.index, c.start, streaming), c.body, streaming).value;
    ParseOne(codec, filled, last[0], streaming);
  }

  lemma {:induction false} ParseOne(codec: Codec, st: State, e: Event, streaming: bool)
    ensures Parse(codec, st, [e], streaming) == Step(codec, st, e, streaming)
  {
    var next := Step(codec, st, e, streaming);
    assert [e][1..] == [];
    if next.Some? {
      assert Parse(codec, next.value, [], streaming) == next;
    }
  }

  // What a cut block adds to the meaning when its input text is this.
  function AddedWith(codec: Codec, m: Meaning, c: Cut, text: string): Meaning {
    var begun := Begin(codec, m, c.start);
    End(codec, begun.(text := begun.text + TextOf(c.body)), c.start, text)
  }

  // What a cut block adds to the meaning.
  function Added(codec: Codec, m: Meaning, c: Cut): Meaning {
    AddedWith(codec, m, c, JsonOf(c.body))
  }

  lemma {:induction false} ToolMeansTheSame(codec: Codec, m: Meaning, c: Cut, block: Block)
    requires Carries(codec, c, block) && block.ToolUse?
    ensures Added(codec, m, c) == Ingest(codec, m, block)
  {
    assert m.text + "" == m.text;
    assert FinalInput(codec, c.start.input, JsonOf(c.body)) == block.input;
  }

  function SearchEntry(id: string, action: Option<Json>): HostedTool {
    HostedTool(id, "web_search", Some("in_progress"), action, None)
  }

  // A search whose query comes late, looked at as its start and its action.
  lemma {:induction false} LateActionMeansTheSame(m: Meaning, id: string, action: Option<Json>)
    requires id != "" && action.Some?
    ensures WithAction(IngestSearch(m, SearchEntry(id, None)), id, action) == IngestSearch(m, SearchEntry(id, action))
  {
    var early := SearchEntry(id, None);
    MergeTwice(m.hosted, early, action);
    assert early.(action := action) == SearchEntry(id, action);
    assert m.pending[id := early][id := early.(action := action)] == m.pending[id := early.(action := action)];
  }

  // A block of another server tool means nothing; a web search is an entry with its action.
  lemma {:induction false} ServerToolMeans(codec: Codec, m: Meaning, id: string, name: string, input: Json)
    ensures Ingest(codec, m, ServerToolUse(id, name, input))
         == if name == "web_search" then IngestSearch(m, SearchEntry(id, SearchAction(codec, input))) else m
  {
  }

  lemma {:induction false} SpelledAction(codec: Codec, text: string, startInput: Json, input: Json)
    requires Spells(codec, text, startInput, input) && input.Obj?
    ensures SearchAction(codec, Str(text)) == if Trim(text) == "" then None else SearchAction(codec, input)
  {
  }

  // The first entry that a search without an id would join has this action already.
  predicate NamedHasAction(hosted: seq<HostedTool>, action: Option<Json>) {
    var i := FindHosted(hosted, SearchEntry("", None));
    i < |hosted| && hosted[i].action == action
  }

  // Every key of the entry has the same value in `h`.
  predicate Covers(h: HostedTool, entry: HostedTool) {
    && (entry.id != "" ==> h.id == entry.id) && h.name == entry.name
    && (entry.status.Some? ==> h.status == entry.status)
    && (entry.action.Some? ==> h.action == entry.action)
    && (entry.result.Some? ==> h.result == entry.result)
  }

  // The search with this id has this action already, and so has its entry.
  predicate Known(m: Meaning, id: string, action: Option<Json>)
    requires id in m.pending
  {
    var ht := m.pending[id];
    var i := FindHosted(m.hosted, ht);
    ht.action == action && i < |m.hosted| && Covers(m.hosted[i], ht)
  }

  // A server tool, given its action, means the same when the action comes late.
  predicate LateIsHarmless(m: Meaning, id: string, name: string, action: Option<Json>) {
    if name == "web_search" then id != "" || NamedHasAction(m.hosted, action)
    else id == "" || id !in m.pending || Known(m, id, action)
  }

  lemma {:induction false} MergeKeepsExactly(hosted: seq<HostedTool>, entry: HostedTool)
    ensures MergeHostedTool(hosted, entry) == hosted
            <==> FindHosted(hosted, entry) < |hosted| && Covers(hosted[FindHosted(hosted, entry)], entry)
  {
    var i := FindHosted(hosted, entry);
    if i < |hosted| {
      assert MergeHostedTool(hosted, entry)[i] == Overlay(hosted[i], entry);
      if Covers(hosted[i], entry) {
        assert hosted[i := hosted[i]] == hosted;
      }
    } else {
      assert |MergeHostedTool(hosted, entry)| == |hosted| + 1;
    }
  }

  lemma {:induction false} NamelessMergesExactly(hosted: seq<HostedTool>, action: Option<Json>)
    requires action.Some?
    ensures MergeHostedTool(hosted, SearchEntry("", None)) == MergeHostedTool(hosted, SearchEntry("", action))
            <==> NamedHasAction(hosted, action)
  {
    var none, some := SearchEntry("", None), SearchEntry("", action);
    SameIndex(hosted, none, some);
    var i := FindHosted(hosted, none);
    if i < |hosted| {
      assert MergeHostedTool(hosted, none)[i] == Overlay(hosted[i], none);
      assert MergeHostedTool(hosted, some)[i] == Overlay(hosted[i], some);
    } else {
      assert MergeHostedTool(hosted, none)[i] == none && MergeHostedTool(hosted, some)[i] == some;
    }
  }

  lemma {:induction false} ForeignActionExactly(m: Meaning, id: string, action: Option<Json>)
    requires action.Some?
    ensures WithAction(m, id, action) == m <==> id == "" || id !in m.pending || Known(m, id, action)
  {
    if id != "" && id in m.pending {
      var ht := m.pending[id];
      var late := ht.(action := action);
      if ht.action == action {
        assert late == ht && m.pending[id := ht] == m.pending;
        MergeKeepsExactly(m.hosted, ht);
      } else {
        assert WithAction(m, id, action).pending[id].action != m.pending[id].action;
      }
    }
  }

  // An action that comes late, looked at as the start and the action of a server tool.
  lemma {:induction false} LateActionExactly(m: Meaning, id: string, name: string, action: Option<Json>)
    requires action.Some?
    ensures WithAction(if name == "web_search" then IngestSearch(m, SearchEntry(id, None)) else m, id, action)
         == (if name == "web_search" then IngestSearch(m, SearchEntry(id, action)) else m)
         <==> LateIsHarmless(m, id, name, action)
  {
    if name != "web_search" {
      ForeignActionExactly(m, id, action);
    } else if id != "" {
      LateActionMeansTheSame(m, id, action);
    } else {
      NamelessMergesExactly(m.hosted, action);
    }
  }

  /** A streamed block of any server tool, in any state of the parse, means what the whole
      block means, exactly when it streams no search action, or the action finds the search
      it belongs to, or changes nothing. */
  lemma {:induction false} ServerToolMeansTheSameExactly(codec: Codec, m: Meaning, c: Cut, block: Block)
    requires Carries(codec, c, block) && block.ServerToolUse?
    ensures Added(codec, m, c) == Ingest(codec, m, block)
            <==> !StreamsAction(codec, c, block)
                 || LateIsHarmless(m, block.id, block.name, SearchAction(codec, block.input))
  {
    var text := JsonOf(c.body);
    var begun := Ingest(codec, m, c.start);
    assert begun.text + "" == begun.text;
    assert Added(codec, m, c) == WithAction(begun, block.id, SearchAction(codec, Str(text)));
    SpelledAction(codec, text, c.start.input, block.input);
    ServerToolMeans(codec, m, block.id, block.name, c.start.input);
    ServerToolMeans(codec, m, block.id, block.name, block.input);
    if StreamsAction(codec, c, block) {
      LateActionExactly(m, block.id, block.name, SearchAction(codec, block.input));
    }
  }

  // A cut that carries a block means what the block means.
  lemma {:induction false} CutMeansTheSame(codec: Codec, m: Meaning, c: Cut, block: Block)
    requires Carries(codec, c, block) && Findable(codec, c, block, m.pending.Keys)
    ensures Added(codec, m, c) == Ingest(codec, m, block)
  {
    match block
    case ToolUse(_, _, _) => ToolMeansTheSame(codec, m, c, block);
    case ServerToolUse(_, _, _) => ServerToolMeansTheSameExactly(codec, m, c, block);
    case SearchResult(_) =>
      var begun := Begin(codec, m, c.start);
      assert begun.text + "" == begun.text;
    case _ => assert m.text + "" == m.text;
  }

  predicate CarriesAll(codec: Codec, cuts: seq<Cut>, blocks: seq<Block>) {
    |cuts| == |blocks| && forall i :: 0 <= i < |cuts| ==> Carries(codec, cuts[i], blocks[i])
  }

  predicate FreshIndexes(cuts: seq<Cut>, used: set<int>) {
    && (forall i :: 0 <= i < |cuts| ==> cuts[i].index !in used)
    && (forall i, j :: 0 <= i < j < |cuts| ==> cuts[i].index != cuts[j].index)
  }

  function AllEvents(cuts: seq<Cut>): seq<Event> {
    if cuts == [] then [] else EventsOf(cuts[0]) + AllEvents(cuts[1..])
  }

  lemma {:induction false} RestCarries(codec: Codec, cuts: seq<Cut>, blocks: seq<Block>, used: set<int>, more: set<int>)
    requires cuts != [] && CarriesAll(codec, cuts, blocks) && FreshIndexes(cuts, used)
    requires more <= used + {cuts[0].index}
    ensures CarriesAll(codec, cuts[1..], blocks[1..]) && FreshIndexes(cuts[1..], more)
  {
  }

  // Only a search adds an id.
  lemma {:induction false} RestFindable(codec: Codec, cuts: seq<Cut>, blocks: seq<Block>, m: Meaning)
    requires |cuts| == |blocks| != 0 && AllFindable(codec, cuts, blocks, m.pending.Keys)
    ensures Findable(codec, cuts[0], blocks[0], m.pending.Keys)
    ensures AllFindable(codec, cuts[1..], blocks[1..], Ingest(codec, m, blocks[0]).pending.Keys)
  {
    var keys := Ingest(codec, m, blocks[0]).pending.Keys;
    assert keys <= m.pending.Keys + SearchIds([blocks[0]]);
    assert SearchIds(blocks[..0]) == {} && m.pending.Keys + {} == m.pending.Keys;
    forall i | 0 <= i < |cuts| - 1
      ensures Findable(codec, cuts[1..][i], blocks[1..][i], keys + SearchIds(blocks[1..][..i]))
    {
      assert blocks[..i + 1] == [blocks[0]] + blocks[1..][..i];
      assert Findable(codec, cuts[i + 1], blocks[i + 1], m.pending.Keys + SearchIds(blocks[..i + 1]));
    }
  }

  lemma {:induction false} CutsMeanTheSame(codec: Codec, st: State, cuts: seq<Cut>, blocks: seq<Block>, streaming: bool)
    requires CarriesAll(codec, cuts, blocks) && FreshIndexes(cuts, st.inputs.Keys)
    requires AllFindable(codec, cuts, blocks, st.m.pending.Keys)
    ensures var after := Parse(codec, st, AllEvents(cuts), streaming);
            after.Some? && after.value.m == IngestAll(codec, st.m, blocks)
    decreases |cuts|
  {
    if cuts != [] {
      var c := cuts[0];
      CutMeans(codec, st, c, streaming);
      RestFindable(codec, cuts, blocks, st.m);
      CutMeansTheSame(codec, st.m, c, blocks[0]);
      var mid := Parse(codec, st, EventsOf(c), streaming).value;
      RestCarries(codec, cuts, blocks, st.inputs.Keys, mid.inputs.Keys);
      CutsMeanTheSame(codec, mid, cuts[1..], blocks[1..], streaming);
      ParseAppend(codec, st, EventsOf(c), AllEvents(cuts[1..]), streaming);
    }
  }

  // A message as the vendor streams it.
  function StreamOf(msg: Message, cuts: seq<Cut>): seq<Event> {
    var (tin, tout) := if msg.usage.Some? then (Some(msg.usage.value.0), Some(msg.usage.value.1)) else (None, None);
    [MessageStart(tin)] + AllEvents(cuts) + [MessageDelta(msg.stopReason, tout), Ignored]
  }

  lemma {:induction false} IngestAllKeeps(
    codec: Codec, m: Meaning, blocks: seq<Block>, tin: int, tout: int, stop: string)
    ensures IngestAll(codec, m.(tin := tin, tout := tout, stopReason := stop), blocks)
         == IngestAll(codec, m, blocks).(tin := tin, tout := tout, stopReason := stop)
    decreases |blocks|
  {
    if blocks != [] {
      IngestAllKeeps(codec, Ingest(codec, m, blocks[0]), blocks[1..], tin, tout, stop);
      assert Ingest(codec, m.(tin := tin, tout := tout, stopReason := stop), blocks[0])
          == Ingest(codec, m, blocks[0]).(tin := tin, tout := tout, stopReason := stop);
    }
  }

  // The last two events of a message.
  function Ended(m: Meaning, stop: string, tout: Option<int>): Meaning {
    var stopped := if stop != "" then m.(stopReason := stop) else m;
    if tout.Some? then stopped.(tout := tout.value) else stopped
  }

  lemma {:induction false} EndingMeans(codec: Codec, st: State, stop: string, tout: Option<int>, streaming: bool)
    ensures var after := Parse(codec, st, [MessageDelta(stop, tout), Ignored], streaming);
            after.Some? && after.value.m == Ended(st.m, stop, tout)
  {
    var events := [MessageDelta(stop, tout), Ignored];
    assert events == [events[0]] + [events[1]];
    ParseAppend(codec, st, [events[0]], [events[1]], streaming);
    ParseOne(codec, st, events[0], streaming);
    ParseOne(codec, Step(codec, st, events[0], streaming).value, Ignored, streaming);
  }

  /** The streaming parser agrees with the whole-message parser, however the text and the
      inputs of the message are cut into deltas: for every message in which each search
      whose query is streamed has an id, and no other server tool whose query is streamed
      takes the id of a search before it. */
  lemma {:induction false} StreamMeansMessage(codec: Codec, msg: Message, cuts: seq<Cut>, streaming: bool)
    requires CarriesAll(codec, cuts, msg.blocks) && FreshIndexes(cuts, {})
    requires AllFindable(codec, cuts, msg.blocks, {})
    ensures var after := Parse(codec, INITIAL, StreamOf(msg, cuts), streaming);
            after.Some? && after.value.m == IngestMessage(codec, NOTHING, msg)
  {
    var tin := if msg.usage.Some? then Some(msg.usage.value.0) else None;
    var tout := if msg.usage.Some? then Some(msg.usage.value.1) else None;
    var first, middle, last := [MessageStart(tin)], AllEvents(cuts), [MessageDelta(msg.stopReason, tout), Ignored];
    var counted := Step(codec, INITIAL, first[0], streaming).value;
    ParseOne(codec, INITIAL, first[0], streaming);
    ParseAppend(codec, INITIAL, first + middle, last, streaming);
    ParseAppend(codec, INITIAL, first, middle, streaming);
    CutsMeanTheSame(codec, counted, cuts, msg.blocks, streaming);
    var read := Parse(codec, counted, middle, streaming).value;
    EndingMeans(codec, read, msg.stopReason, tout, streaming);
    IngestAllKeeps(codec, NOTHING, msg.blocks, if tin.Some? then tin.value else 0, 0, "");
    IngestAllKeeps(codec, NOTHING, msg.blocks, if tin.Some? then tin.value else 0,
                   if tout.Some? then tout.value else 0, msg.stopReason);
  }

  /** So a message of one streamed search means the same when and only when the search has
      an id or no query. */
  lemma {:induction false} OneSearchMeansTheSameExactly(codec: Codec, c: Cut, id: string, input: Json)
    requires Carries(codec, c, ServerToolUse(id, "web_search", input)) && Trim(JsonOf(c.body)) != ""
    ensures Added(codec, NOTHING, c) == Ingest(codec, NOTHING, ServerToolUse(id, "web_search", input))
            <==> id != "" || SearchAction(codec, input) == None
  {
    ServerToolMeansTheSameExactly(codec, NOTHING, c, ServerToolUse(id, "web_search", input));
  }

  /** Behind a streamed tool call the parser leaves the input text open, so a later block
      with the same index starts with it; a parser without a client does not. */
  lemma {:induction false} StreamedStopKeepsInput(codec: Codec, st: State, c: Cut, streaming: bool)
    requires BodyOf(c.body, c.index) && c.index !in st.inputs && c.start.ToolUse? && c.start.name != ""
    ensures var after := Parse(codec, st, EventsOf(c), streaming);
            after.Some? && InputOf(after.value, c.index) == if streaming then JsonOf(c.body) else ""
  {
    var begun := OnStart(codec, st, c.index, c.start, streaming);
    StartBegins(codec, st, c, streaming);
    BodyAddsUp(codec, begun, c.index, c.body, streaming);
    ParseCut(codec, st, c, streaming);
    assert "" + JsonOf(c.body) == JsonOf(c.body);
  }

  /** Behind a tool call, a second block with the same index means, to a parser with a
      client, what its input makes of the two texts together; without one, its own text. */
  lemma {:induction false} SecondCutMeans(codec: Codec, st: State, c: Cut, d: Cut, streaming: bool)
    requires BodyOf(c.body, c.index) && c.index !in st.inputs && c.start.ToolUse? && c.start.name != ""
    requires BodyOf(d.body, d.index) && d.index == c.index
    ensures var after := Parse(codec, st, EventsOf(c) + EventsOf(d), streaming);
      && after.Some?
      && after.value.m == AddedWith(codec, Added(codec, st.m, c), d,
                                    if streaming then JsonOf(c.body) + JsonOf(d.body) else JsonOf(d.body))
  {
    CutMeans(codec, st, c, streaming);
    StreamedStopKeepsInput(codec, st, c, streaming);
    CutMeansFrom(codec, Parse(codec, st, EventsOf(c), streaming).value, d, streaming);
    ParseAppend(codec, st, EventsOf(c), EventsOf(d), streaming);
    assert "" + JsonOf(d.body) == JsonOf(d.body);
  }

  function ArgumentsOf(codec: Codec, input: Json): string {
    if input == Null then "{}" else codec.marshal(input)
  }

  lemma {:induction false} MergedCallTells(calls: seq<ToolCall>, x: ToolCall, y: ToolCall)
    requires x.id == y.id
    ensures MergeToolCall(calls, x) == MergeToolCall(calls, y) <==> x == y
  {
    var i := FindId(calls, x.id);
    assert MergeToolCall(calls, x)[if x.id != "" && i < |calls| then i else |calls|] == x;
    assert MergeToolCall(calls, y)[if x.id != "" && i < |calls| then i else |calls|] == y;
  }

  /** Two tool calls with one index mean the same with and without a client exactly when the
      input left open makes no difference to the arguments of the second. */
  lemma {:induction false} SecondCallMeansTheSameExactly(codec: Codec, st: State, c: Cut, d: Cut)
    requires BodyOf(c.body, c.index) && c.index !in st.inputs && c.start.ToolUse? && c.start.name != ""
    requires BodyOf(d.body, d.index) && d.index == c.index && d.start.ToolUse? && d.start.name != ""
    ensures var streamed := Parse(codec, st, EventsOf(c) + EventsOf(d), true);
      var waited := Parse(codec, st, EventsOf(c) + EventsOf(d), false);
      streamed.Some? && waited.Some? &&
      (streamed.value.m == waited.value.m
       <==> ArgumentsOf(codec, FinalInput(codec, d.start.input, JsonOf(c.body) + JsonOf(d.body)))
            == ArgumentsOf(codec, FinalInput(codec, d.start.input, JsonOf(d.body))))
  {
    SecondCutMeans(codec, st, c, d, true);
    SecondCutMeans(codec, st, c, d, false);
    var m := Added(codec, st.m, c);
    var begun := m.(text := m.text + TextOf(d.body));
    var both := ToolCall(d.start.id, d.start.name,
                         ArgumentsOf(codec, FinalInput(codec, d.start.input, JsonOf(c.body) + JsonOf(d.body))));
    var own := ToolCall(d.start.id, d.start.name, ArgumentsOf(codec, FinalInput(codec, d.start.input, JsonOf(d.body))));
    assert AddedWith(codec, m, d, JsonOf(c.body) + JsonOf(d.body)) == begun.(calls := MergeToolCall(m.calls, both));
    assert Added(codec, m, d) == begun.(calls := MergeToolCall(m.calls, own));
    MergedCallTells(m.calls, both, own);
  }

  /** So the second call loses its input to a parser with a client, when the library does not
      read the two inputs in a row. */
  lemma {:induction false} SecondCallLosesInput(codec: Codec, index: int, x: string, y: string, input: Json)
    requires codec.unmarshal(Trim(x + y)) == None && Trim(y) != ""
    requires codec.unmarshal(Trim(y)) == Some(input) && ArgumentsOf(codec, input) != "{}"
    ensures var c := Cut(index, ToolUse("1", "f", Null), [BlockDelta(index, JsonDelta(x))]);
      var d := Cut(index, ToolUse("2", "f", Null), [BlockDelta(index, JsonDelta(y))]);
      var streamed := Parse(codec, INITIAL, EventsOf(c) + EventsOf(d), true);
      var waited := Parse(codec, INITIAL, EventsOf(c) + EventsOf(d), false);
      streamed.Some? && waited.Some? && streamed.value.m != waited.value.m
  {
    var c := Cut(index, ToolUse("1", "f", Null), [BlockDelta(index, JsonDelta(x))]);
    var d := Cut(index, ToolUse("2", "f", Null), [BlockDelta(index, JsonDelta(y))]);
    OneJsonDelta(index, x);
    OneJsonDelta(index, y);
    SecondCallMeansTheSameExactly(codec, INITIAL, c, d);
  }

  lemma {:induction false} OneJsonDelta(index: int, text: string)
    ensures JsonOf([BlockDelta(index, JsonDelta(text))]) == text
  {
    var events := [BlockDelta(index, JsonDelta(text))];
    assert events[1..] == [] && JsonOf(events[1..]) == "" && text + "" == text;
  }
}
