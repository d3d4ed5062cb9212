/**
 What a streaming client of the Codex bridge puts together, against what a client that
 waits receives.
 */
module CodexClient {
  import opened Wrappers
  import opened BridgeTools
  import opened CodexBridge

  // The text of all deltas.
  function DeltaText(events: seq<Event>): string {
    if events == [] then ""
    else
      var e := events[|events| - 1];
      DeltaText(events[..|events| - 1]) + if e.TextDelta? then e.delta else ""
  }

  // The parser and its client stand where these operations and deltas put them.
  predicate Follows(st: State, ops: seq<Op>, text: string) {
    && st.calls == MergedOps(ops)
    && ClientView(st.out).calls == ClientOps(ops)
    && ClientView(st.out).content == text
    && (st.contentEmitted <==> text != "")
  }

  lemma {:induction false} OpsOfNext(ops: seq<Op>, op: Op)
    ensures MergedOps(ops + [op]) == MergeToolCall(MergedOps(ops), op.call)
    ensures ClientOps(ops + [op]) ==
      if op.streamed then Place(ClientOps(ops), ToolCallStreamIndex(MergedOps(ops + [op]), op.call), op.call)
      else ClientOps(ops)
  {
    assert (ops + [op])[..|ops|] == ops;
  }

  // Telling the client about a hosted tool changes nothing of this.
  lemma {:induction false} HostedChunkFollows(st: State, ops: seq<Op>, text: string, phase: string, ht: HostedTool)
    requires Follows(st, ops, text)
    ensures Follows(st.(hosted := MergeHostedTool(st.hosted, ht), out := st.out + [HostedChunk(phase, ht)]), ops, text)
  {
    ViewOfNext(st.out, HostedChunk(phase, ht));
  }

  lemma {:induction false} IngestFollows(st: State, ops: seq<Op>, text: string, item: Item, streaming: bool)
    requires Follows(st, ops, text)
    ensures Follows(Ingest(st, item, streaming), ops + OpsOfItem(item, false), text)
  {
    var ht := HostedFromItem(item);
    var tc := ToolCallFromItem(item);
    if ht.Some? && streaming {
      HostedChunkFollows(st, ops, text, Phase(item), ht.value);
    }
    if tc.Some? {
      OpsOfNext(ops, Op(tc.value, false));
    } else {
      assert ops + [] == ops;
    }
  }

  lemma {:induction false} Regrouped(a: seq<Op>, b: seq<Op>, c: seq<Op>)
    ensures (a + b) + c == a + (b + c)
  {
  }

  lemma {:induction false} IngestAllFollows(st: State, ops: seq<Op>, text: string, items: seq<Item>)
    requires Follows(st, ops, text)
    ensures Follows(IngestAll(st, items), ops + OpsOfItems(items), text)
    decreases |items|
  {
    if items == [] {
      assert ops + [] == ops;
    } else {
      var more := OpsOfItem(items[0], false);
      IngestFollows(st, ops, text, items[0], false);
      IngestAllFollows(Ingest(st, items[0], false), ops + more, text, items[1..]);
      Regrouped(ops, more, OpsOfItems(items[1..]));
    }
  }

  // A finished call, merged and streamed.
  lemma {:induction false} CallFollows(st: State, ops: seq<Op>, text: string, tc: ToolCall)
    requires Follows(st, ops, text)
    ensures var merged := MergeToolCall(st.calls, tc);
      Follows(st.(calls := merged, out := st.out + [ToolChunk(ToolCallStreamIndex(merged, tc), tc)]),
              ops + [Op(tc, true)], text)
  {
    OpsOfNext(ops, Op(tc, true));
    ViewOfNext(st.out, ToolChunk(ToolCallStreamIndex(MergeToolCall(st.calls, tc), tc), tc));
  }

  lemma {:induction false} FinishFollows(st: State, ops: seq<Op>, text: string, item: Item)
    requires Follows(st, ops, text)
    ensures Follows(Finish(st, item, true), ops + OpsOfItem(item, true), text)
  {
    var tc := ToolCallFromItem(item);
    if tc.Some? {
      assert HostedFromItem(item) == None;
      CallFollows(st, ops, text, tc.value);
    } else {
      IngestFollows(st, ops, text, item, true);
    }
  }

  lemma {:induction false} StepFollows(st: State, ops: seq<Op>, text: string, e: Event)
    requires Follows(st, ops, text)
    ensures Follows(Step(st, e, true), ops + OpsOfEvent(e), text + if e.TextDelta? then e.delta else "")
  {
    assert ops + [] == ops && text + "" == text;
    match e
    case TextDelta(d) => ViewOfNext(st.out, ContentChunk(d));
    case ItemAdded(item) =>
      if item.Some? {
        IngestFollows(st, ops, text, item.value, true);
      }
    case OtherEvent(item) =>
      if item.Some? {
        IngestFollows(st, ops, text, item.value, true);
      }
    case ItemDone(item) =>
      if item.Some? {
        FinishFollows(st, ops, text, item.value);
      }
    case Completed(r) =>
      if r.Some? {
        var counted :=
          if r.value.usage.Some? then st.(tin := r.value.usage.value.0, tout := r.value.usage.value.1) else st;
        IngestAllFollows(counted, ops, text, r.value.output);
      }
  }

  /** Every event leaves the client with the deltas so far and with the calls streamed so
      far, each at its place among the merged calls. */
  lemma {:induction false} StreamFollows(events: seq<Event>)
    ensures Follows(Parse(events, true), OpsOf(events), DeltaText(events))
  {
    if events != [] {
      var before := events[..|events| - 1];
      StreamFollows(before);
      StepFollows(Parse(before, true), OpsOf(before), DeltaText(before), events[|events| - 1]);
    }
  }

  lemma {:induction false} FinaleIsSeen(st: State, ops: seq<Op>, text: string)
    requires Follows(st, ops, text)
    ensures ClientView(Finale(st).out)
         == CompletionOf(st).(content := if text != "" then text else st.text, calls := ClientOps(ops))
  {
    var usage := if st.tin + st.tout > 0 then Some((st.tin, st.tout)) else None;
    var backfill := if !st.contentEmitted && st.text != "" then [ContentChunk(st.text)] else [];
    var final := FinalChunk(FinishReason(st.calls), usage, st.hosted);
    assert st.out + [] == st.out && "" + st.text == st.text;
    ViewOfNext(st.out, ContentChunk(st.text));
    ViewOfNext(st.out + backfill, final);
    ViewOfNext(st.out + backfill + [final], DoneMarker);
    assert st.out + backfill + [final, DoneMarker] == (st.out + backfill + [final]) + [DoneMarker];
  }

  // ---------------------------------------------------------------------------
  // A stream that ends with the completed response
  // ---------------------------------------------------------------------------

  predicate NoCompletion(events: seq<Event>) {
    forall i :: 0 <= i < |events| ==> !events[i].Completed?
  }

  lemma {:induction false} TextIsDeltas(events: seq<Event>, streaming: bool)
    requires NoCompletion(events)
    ensures Parse(events, streaming).text == DeltaText(events)
  {
    if events != [] {
      var before := events[..|events| - 1];
      assert forall i :: 0 <= i < |before| ==> before[i] == events[i];
      TextIsDeltas(before, streaming);
      assert DeltaText(before) + "" == DeltaText(before);
    }
  }

  lemma {:induction false} IngestAllKeepsText(st: State, items: seq<Item>)
    ensures IngestAll(st, items).text == st.text
    decreases |items|
  {
    if items != [] {
      IngestAllKeepsText(Ingest(st, items[0], false), items[1..]);
    }
  }

  lemma {:induction false} CompletedTextWins(body: seq<Event>, r: Response, streaming: bool)
    requires NoCompletion(body)
    ensures Parse(body + [Completed(Some(r))], streaming).text
         == if CompletedText(r.output) != "" then CompletedText(r.output) else DeltaText(body)
  {
    var st := Parse(body, streaming);
    TextIsDeltas(body, streaming);
    assert (body + [Completed(Some(r))])[..|body|] == body;
    IngestAllKeepsText(if r.usage.Some? then st.(tin := r.usage.value.0, tout := r.usage.value.1) else st, r.output);
  }

  // The completed output repeats exactly the calls that were streamed, and every call seen
  // on the way was streamed.
  ghost predicate Repeats(body: seq<Op>, completed: seq<Op>) {
    && (forall k :: 0 <= k < |body| ==> IdIsStreamed(body, body[k].call.id))
    && (forall k :: 0 <= k < |completed| ==> IsStreamed(body, completed[k].call) && !completed[k].streamed)
    && (forall k :: 0 <= k < |body| && body[k].streamed ==>
          exists j :: 0 <= j < |completed| && completed[j].call == body[k].call)
  }

  // The merged call of an id is the last one taken in.
  predicate IsLast(ops: seq<Op>, k: int, c: ToolCall) {
    && 0 <= k < |ops| && ops[k].call == c
    && forall l :: k < l < |ops| ==> ops[l].call.id != c.id
  }

  lemma {:induction false} MergedIsLast(ops: seq<Op>, i: nat) returns (k: nat)
    requires AllHaveIds(ops) && i < |MergedOps(ops)|
    ensures IsLast(ops, k, MergedOps(ops)[i])
  {
    var before := ops[..|ops| - 1];
    var op := ops[|ops| - 1];
    var merged := MergedOps(before);
    assert forall l :: 0 <= l < |before| ==> before[l] == ops[l];
    MergedHasDistinctIds(before);
    IndexOfMerged(merged, op.call);
    if MergedOps(ops)[i] == op.call {
      k := |ops| - 1;
    } else {
      k := MergedIsLast(before, i);
      assert merged[i].id != op.call.id;
    }
  }

  lemma {:induction false} MergedHasDistinctIds(ops: seq<Op>)
    requires AllHaveIds(ops)
    ensures DistinctIds(MergedOps(ops))
  {
    if ops != [] {
      var before := ops[..|ops| - 1];
      assert forall l :: 0 <= l < |before| ==> before[l] == ops[l];
      MergedHasDistinctIds(before);
      IndexOfMerged(MergedOps(before), ops[|ops| - 1].call);
    }
  }

  lemma {:induction false} RepeatedLater(body: seq<Op>, completed: seq<Op>, k: nat) returns (j: nat)
    requires Repeats(body, completed) && k < |body|
    ensures |body| <= j < |body + completed| && (body + completed)[j].call.id == body[k].call.id
  {
    var s :| 0 <= s < |body| && body[s].streamed && body[s].call.id == body[k].call.id;
    var i :| 0 <= i < |completed| && completed[i].call == body[s].call;
    j := |body| + i;
  }

  lemma {:induction false} LastIsCompleted(body: seq<Op>, completed: seq<Op>, k: nat, c: ToolCall)
    requires Repeats(body, completed) && IsLast(body + completed, k, c)
    ensures k >= |body|
  {
    if k < |body| {
      var j := RepeatedLater(body, completed, k);
    }
  }

  lemma {:induction false} RepeatedCallsAreStreamed(body: seq<Op>, completed: seq<Op>)
    requires AllHaveIds(body + completed) && Repeats(body, completed)
    ensures forall i :: 0 <= i < |MergedOps(body + completed)| ==> IsStreamed(body, MergedOps(body + completed)[i])
  {
    var ops := body + completed;
    forall i | 0 <= i < |MergedOps(ops)|
      ensures IsStreamed(body, MergedOps(ops)[i])
    {
      var c := MergedOps(ops)[i];
      var k := MergedIsLast(ops, i);
      LastIsCompleted(body, completed, k, c);
      assert completed[k - |body|] == ops[k];
    }
  }

  lemma {:induction false} StreamedInWhole(body: seq<Op>, completed: seq<Op>)
    requires StreamedOnce(body) && forall k :: 0 <= k < |completed| ==> !completed[k].streamed
    ensures StreamedOnce(body + completed)
    ensures forall c :: IsStreamed(body, c) ==> IsStreamed(body + completed, c)
  {
    var ops := body + completed;
    forall c | IsStreamed(body, c)
      ensures IsStreamed(ops, c)
    {
      var k :| 0 <= k < |body| && body[k].streamed && body[k].call == c;
      assert ops[k] == body[k];
    }
  }

  lemma {:induction false} OpsOfStream(body: seq<Event>, r: Response)
    ensures OpsOf(body + [Completed(Some(r))]) == OpsOf(body) + OpsOfItems(r.output)
  {
    assert (body + [Completed(Some(r))])[..|body|] == body;
  }

  lemma {:induction false} RepeatedOpsReachClient(body: seq<Op>, completed: seq<Op>)
    requires AllHaveIds(body + completed) && StreamedOnce(body) && Repeats(body, completed)
    ensures ClientOps(body + completed) == ByIndex(MergedOps(body + completed))
  {
    RepeatedCallsAreStreamed(body, completed);
    StreamedInWhole(body, completed);
    ClientCallsExactly(body + completed);
  }

  /** A streaming client has the calls of a waiting client when each call has an id and is
      streamed once, and the completed output repeats the calls. */
  lemma {:induction false} ClientHasCalls(body: seq<Event>, r: Response)
    requires AllHaveIds(OpsOf(body) + OpsOfItems(r.output)) && StreamedOnce(OpsOf(body))
    requires Repeats(OpsOf(body), OpsOfItems(r.output))
    ensures var ops := OpsOf(body + [Completed(Some(r))]); ClientOps(ops) == ByIndex(MergedOps(ops))
  {
    OpsOfStream(body, r);
    RepeatedOpsReachClient(OpsOf(body), OpsOfItems(r.output));
  }

  /** For such a stream the client ends with exactly the aggregate completion if and only
      if there were no deltas, or no completed text, or the two are equal. */
  lemma {:induction false} StreamedEqualsAggregateExactly(body: seq<Event>, r: Response)
    requires NoCompletion(body)
    requires AllHaveIds(OpsOf(body) + OpsOfItems(r.output)) && StreamedOnce(OpsOf(body))
    requires Repeats(OpsOf(body), OpsOfItems(r.output))
    ensures var events := body + [Completed(Some(r))];
      ClientView(Finale(Parse(events, true)).out) == CompletionOf(Parse(events, false))
      <==> DeltaText(body) == "" || CompletedText(r.output) == "" || DeltaText(body) == CompletedText(r.output)
  {
    var events := body + [Completed(Some(r))];
    var st := Parse(events, true);
    StreamFollows(events);
    FinaleIsSeen(st, OpsOf(events), DeltaText(events));
    ClientHasCalls(body, r);
    StreamingKeepsCore(events);
    CompletedTextWins(body, r, true);
    assert events[..|body|] == body;
    assert DeltaText(events) == DeltaText(body) + "" == DeltaText(body);
  }
}
