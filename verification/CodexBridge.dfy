/**
 The Codex bridge: Responses events turned into a chat completion, for a streaming client
 and for a client that waits for the whole.
 */
module CodexBridge {
  import opened Wrappers
  import opened Text
  import opened Json
  import opened BridgeTools

  // Output items. A message item is one of type message or of no type.
  datatype Item =
    | FunctionCall(callId: string, id: string, name: string, args: string)
    | WebSearchCall(id: string, status: string, action: Option<Json>)
    | ImageCall(id: string, status: string, result: string)
    | MessageItem(texts: seq<string>)
    | OtherItem

  datatype Response = Response(usage: Option<(int, int)>, output: seq<Item>)

  // `Completed` stands for response.completed and response.incomplete.
  datatype Event =
    | TextDelta(delta: string)
    | ItemAdded(item: Option<Item>)
    | ItemDone(item: Option<Item>)
    | Completed(response: Option<Response>)
    | OtherEvent(item: Option<Item>)

  datatype State = State(
    text: string,
    tin: int,
    tout: int,
    hosted: seq<HostedTool>,
    calls: seq<ToolCall>,
    contentEmitted: bool,
    out: seq<Chunk>)

  const INITIAL := State("", 0, 0, [], [], false, [])

  function NonEmpty(s: string): Option<string> {
    if s != "" then Some(s) else None
  }

  function HostedFromItem(item: Item): Option<HostedTool> {
    match item
    case WebSearchCall(id, status, action) => Some(HostedTool(id, "web_search", NonEmpty(status), action, None))
    case ImageCall(id, status, result) =>
      Some(HostedTool(id, "generate_image", Some(if status != "" then status else "completed"), None,
                      NonEmpty(Trim(result))))
    case _ => None
  }

  function ToolCallFromItem(item: Item): Option<ToolCall> {
    if !item.FunctionCall? || item.name == "" then None
    else Some(ToolCall(if item.callId != "" then item.callId else item.id, item.name, item.args))
  }

  function Phase(item: Item): string {
    if (item.WebSearchCall? || item.ImageCall?) && item.status == "completed" then "completed" else "started"
  }

  // One output item: hosted tools and tool calls, never message text.
  function Ingest(st: State, item: Item, streaming: bool): State {
    var ht := HostedFromItem(item);
    var told := if ht.None? then st
      else st.(hosted := MergeHostedTool(st.hosted, ht.value),
               out := if streaming then st.out + [HostedChunk(Phase(item), ht.value)] else st.out);
    var tc := ToolCallFromItem(item);
    if tc.None? then told else told.(calls := MergeToolCall(st.calls, tc.value))
  }

  function IngestAll(st: State, items: seq<Item>): State
    decreases |items|
  {
    if items == [] then st else IngestAll(Ingest(st, items[0], false), items[1..])
  }

  function ItemText(item: Item): string {
    if item.MessageItem? then Concat(item.texts) else ""
  }

  // The text of the completed output.
  function CompletedText(output: seq<Item>): string {
    if output == [] then "" else ItemText(output[0]) + CompletedText(output[1..])
  }

  // The completed output: its tools, and its text in place of what the deltas gave.
  function Complete(st: State, r: Response): State {
    var counted := if r.usage.Some? then st.(tin := r.usage.value.0, tout := r.usage.value.1) else st;
    var ingested := IngestAll(counted, r.output);
    var final := CompletedText(r.output);
    if final != "" then ingested.(text := final) else ingested
  }

  // A finished item; a tool call is streamed at its place among the merged calls.
  function Finish(st: State, item: Item, streaming: bool): State {
    var ingested := Ingest(st, item, streaming);
    var tc := ToolCallFromItem(item);
    if streaming && tc.Some? then
      ingested.(out := ingested.out + [ToolChunk(ToolCallStreamIndex(ingested.calls, tc.value), tc.value)])
    else ingested
  }

  function Step(st: State, e: Event, streaming: bool): State {
    match e
    case TextDelta(d) =>
      if d == "" then st
      else if streaming then st.(text := st.text + d, contentEmitted := true, out := st.out + [ContentChunk(d)])
      else st.(text := st.text + d)
    case ItemAdded(item) => if item.Some? then Ingest(st, item.value, streaming) else st
    case ItemDone(item) => if item.Some? then Finish(st, item.value, streaming) else st
    case Completed(r) => if r.Some? then Complete(st, r.value) else st
    case OtherEvent(item) => if item.Some? then Ingest(st, item.value, streaming) else st
  }

  function Parse(events: seq<Event>, streaming: bool): State {
    if events == [] then INITIAL
    else Step(Parse(events[..|events| - 1], streaming), events[|events| - 1], streaming)
  }

  function FinishReason(calls: seq<ToolCall>): string {
    if calls != [] then "tool_calls" else "stop"
  }

  // The last chunks of a stream; completed text fills in for missing deltas.
  function Finale(st: State): State {
    var backfill := if !st.contentEmitted && st.text != "" then [ContentChunk(st.text)] else [];
    st.(contentEmitted := st.contentEmitted || backfill != [],
        out := st.out + backfill + [
          FinalChunk(FinishReason(st.calls), if st.tin + st.tout > 0 then Some((st.tin, st.tout)) else None, st.hosted),
          DoneMarker])
  }

  function CompletionOf(st: State): Completion {
    Completion(st.text, ByIndex(st.calls), FinishReason(st.calls), st.hosted)
  }

  // ---------------------------------------------------------------------------
  // The state does not depend on whether a client is listening
  // ---------------------------------------------------------------------------

  predicate SameCore(a: State, b: State) {
    a.text == b.text && a.tin == b.tin && a.tout == b.tout && a.hosted == b.hosted && a.calls == b.calls
  }

  lemma {:induction false} IngestAllSameCore(a: State, b: State, items: seq<Item>)
    requires SameCore(a, b)
    ensures SameCore(IngestAll(a, items), IngestAll(b, items))
    decreases |items|
  {
    if items != [] {
      IngestAllSameCore(Ingest(a, items[0], false), Ingest(b, items[0], false), items[1..]);
    }
  }

  /** Text, tools, calls and token counts are the same with and without a streaming client. */
  lemma {:induction false} StreamingKeepsCore(events: seq<Event>)
    ensures SameCore(Parse(events, true), Parse(events, false))
  {
    if events != [] {
      var before := events[..|events| - 1];
      var a, b := Parse(before, true), Parse(before, false);
      StreamingKeepsCore(before);
      match events[|events| - 1]
      case Completed(r) =>
        if r.Some? && r.value.usage.Some? {
          var u := r.value.usage.value;
          IngestAllSameCore(a.(tin := u.0, tout := u.1), b.(tin := u.0, tout := u.1), r.value.output);
        } else if r.Some? {
          IngestAllSameCore(a, b, r.value.output);
        }
      case _ =>
    }
  }

  // ---------------------------------------------------------------------------
  // Tool calls at the client
  // ---------------------------------------------------------------------------

  // A call that the parser took in, and whether it was streamed to the client.
  datatype Op = Op(call: ToolCall, streamed: bool)

  function OpsOfItem(item: Item, streamed: bool): seq<Op> {
    var tc := ToolCallFromItem(item);
    if tc.Some? then [Op(tc.value, streamed)] else []
  }

  function OpsOfItems(items: seq<Item>): seq<Op> {
    if items == [] then [] else OpsOfItem(items[0], false) + OpsOfItems(items[1..])
  }

  function OpsOfEvent(e: Event): seq<Op> {
    match e
    case TextDelta(_) => []
    case ItemAdded(item) => if item.Some? then OpsOfItem(item.value, false) else []
    case ItemDone(item) => if item.Some? then OpsOfItem(item.value, true) else []
    case Completed(r) => if r.Some? then OpsOfItems(r.value.output) else []
    case OtherEvent(item) => if item.Some? then OpsOfItem(item.value, false) else []
  }

  function OpsOf(events: seq<Event>): seq<Op> {
    if events == [] then [] else OpsOf(events[..|events| - 1]) + OpsOfEvent(events[|events| - 1])
  }

  function MergedOps(ops: seq<Op>): seq<ToolCall> {
    if ops == [] then [] else MergeToolCall(MergedOps(ops[..|ops| - 1]), ops[|ops| - 1].call)
  }

  // What the client has by index.
  function ClientOps(ops: seq<Op>): map<nat, ToolCall> {
    if ops == [] then map[]
    else
      var before := ClientOps(ops[..|ops| - 1]);
      var op := ops[|ops| - 1];
      if op.streamed then Place(before, ToolCallStreamIndex(MergedOps(ops), op.call), op.call) else before
  }

  predicate AllHaveIds(ops: seq<Op>) {
    forall i :: 0 <= i < |ops| ==> ops[i].call.id != ""
  }

  // No id is streamed twice.
  predicate StreamedOnce(ops: seq<Op>) {
    forall i, j :: 0 <= i < j < |ops| && ops[i].streamed && ops[j].streamed ==> ops[i].call.id != ops[j].call.id
  }

  predicate IsStreamed(ops: seq<Op>, c: ToolCall) {
    exists k :: 0 <= k < |ops| && ops[k].streamed && ops[k].call == c
  }

  predicate IdIsStreamed(ops: seq<Op>, id: string) {
    exists k :: 0 <= k < |ops| && ops[k].streamed && ops[k].call.id == id
  }

  predicate DistinctIds(calls: seq<ToolCall>) {
    forall i, j :: 0 <= i < j < |calls| ==> calls[i].id != calls[j].id
  }

  // The client has, at the place of each id that was streamed, the call that was streamed.
  ghost predicate ClientIs(ops: seq<Op>, client: map<nat, ToolCall>, merged: seq<ToolCall>) {
    && DistinctIds(merged)
    && (forall k :: 0 <= k < |ops| ==> FindId(merged, ops[k].call.id) < |merged|)
    && (forall i: nat :: i in client <==> i < |merged| && IdIsStreamed(ops, merged[i].id))
    && (forall i: nat :: i in client ==> IsStreamed(ops, client[i]) && client[i].id == merged[i].id)
  }

  lemma {:induction false} StreamedSnoc(ops: seq<Op>, op: Op, c: ToolCall, id: string)
    ensures IsStreamed(ops + [op], c) <==> IsStreamed(ops, c) || (op.streamed && op.call == c)
    ensures IdIsStreamed(ops + [op], id) <==> IdIsStreamed(ops, id) || (op.streamed && op.call.id == id)
  {
    var more := ops + [op];
    assert more[|ops|] == op;
    assert forall k :: 0 <= k < |ops| ==> more[k] == ops[k];
  }

  lemma {:induction false} IndexOfMerged(merged: seq<ToolCall>, c: ToolCall)
    requires DistinctIds(merged) && c.id != ""
    ensures var i := FindId(merged, c.id);
      && DistinctIds(MergeToolCall(merged, c))
      && ToolCallStreamIndex(MergeToolCall(merged, c), c) == i
      && MergeToolCall(merged, c) == if i < |merged| then merged[i := c] else merged + [c]
  {
    var i := FindId(merged, c.id);
    var out := MergeToolCall(merged, c);
    var j := FindId(out, c.id);
    assert out[i].id == c.id;
    assert !(j < i) && !(i < j);
  }

  lemma {:induction false} OpKeepsClient(ops: seq<Op>, client: map<nat, ToolCall>, merged: seq<ToolCall>, op: Op)
    requires ClientIs(ops, client, merged) && op.call.id != ""
    requires op.streamed ==> !IdIsStreamed(ops, op.call.id)
    ensures var merged' := MergeToolCall(merged, op.call);
      var client' := if op.streamed then Place(client, ToolCallStreamIndex(merged', op.call), op.call) else client;
      ClientIs(ops + [op], client', merged')
  {
    var merged' := MergeToolCall(merged, op.call);
    var client' := if op.streamed then Place(client, ToolCallStreamIndex(merged', op.call), op.call) else client;
    var at := FindId(merged, op.call.id);
    IndexOfMerged(merged, op.call);
    assert op.streamed ==> at !in client;
    forall k | 0 <= k < |ops + [op]|
      ensures FindId(merged', (ops + [op])[k].call.id) < |merged'|
    {
      var id := (ops + [op])[k].call.id;
      var was := if k < |ops| then FindId(merged, id) else at;
      assert merged'[was].id == id;
    }
    forall i: nat
      ensures i in client' <==> i < |merged'| && IdIsStreamed(ops + [op], merged'[i].id)
      ensures i in client' ==> IsStreamed(ops + [op], client'[i]) && client'[i].id == merged'[i].id
    {
      if i < |merged'| {
        StreamedSnoc(ops, op, merged'[i], merged'[i].id);
        assert i != at ==> merged'[i] == merged[i];
      }
      if i in client' {
        StreamedSnoc(ops, op, client'[i], client'[i].id);
      }
    }
  }

  lemma {:induction false} ClientOpsAre(ops: seq<Op>)
    requires AllHaveIds(ops) && StreamedOnce(ops)
    ensures ClientIs(ops, ClientOps(ops), MergedOps(ops))
  {
    if ops != [] {
      var before := ops[..|ops| - 1];
      var op := ops[|ops| - 1];
      ClientOpsAre(before);
      assert ops == before + [op];
      assert forall k :: 0 <= k < |before| ==> before[k] == ops[k];
      OpKeepsClient(before, ClientOps(before), MergedOps(before), op);
    }
  }

  lemma {:induction false} StreamedHasOneCall(ops: seq<Op>, c: ToolCall, d: ToolCall)
    requires StreamedOnce(ops) && IsStreamed(ops, c) && IsStreamed(ops, d) && c.id == d.id
    ensures c == d && IdIsStreamed(ops, c.id)
  {
  }

  predicate AllStreamed(ops: seq<Op>, calls: seq<ToolCall>) {
    forall i :: 0 <= i < |calls| ==> IsStreamed(ops, calls[i])
  }

  lemma {:induction false} ClientIsMerged(ops: seq<Op>, client: map<nat, ToolCall>, merged: seq<ToolCall>)
    requires StreamedOnce(ops) && ClientIs(ops, client, merged) && AllStreamed(ops, merged)
    ensures client == ByIndex(merged)
  {
    forall i: nat
      ensures i in client <==> i < |merged|
      ensures i in client ==> client[i] == merged[i]
    {
      if i < |merged| {
        StreamedHasOneCall(ops, merged[i], merged[i]);
      }
      if i in client {
        StreamedHasOneCall(ops, client[i], merged[i]);
      }
    }
  }

  /** When no id is streamed twice, the client has exactly the merged calls if and only if
      each merged call is one that was streamed. */
  lemma {:induction false} ClientCallsExactly(ops: seq<Op>)
    requires AllHaveIds(ops) && StreamedOnce(ops)
    ensures ClientOps(ops) == ByIndex(MergedOps(ops)) <==> AllStreamed(ops, MergedOps(ops))
  {
    var client, merged := ClientOps(ops), MergedOps(ops);
    ClientOpsAre(ops);
    if client == ByIndex(merged) {
      forall i | 0 <= i < |merged|
        ensures IsStreamed(ops, merged[i])
      {
        assert i in client && client[i] == merged[i];
      }
    } else if AllStreamed(ops, merged) {
      ClientIsMerged(ops, client, merged);
    }
  }
}
