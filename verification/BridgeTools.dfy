/**
 Tool calls and hosted tools, as both protocol bridges merge them, and the client that
 reassembles a stream of them.
 */
module BridgeTools {
  import opened Wrappers
  import opened Json

  // A client-visible tool call; the id may be empty.
  datatype ToolCall = ToolCall(id: string, name: string, args: string)

  // A hosted tool entry. An empty id and a None stand for absent keys.
  datatype HostedTool = HostedTool(
    id: string,
    name: string,
    status: Option<string>,
    action: Option<Json>,
    result: Option<string>)

  // The first call with this id, or the length of the list.
  function FindId(calls: seq<ToolCall>, id: string): (i: nat)
    ensures i <= |calls|
    ensures i < |calls| ==> calls[i].id == id
    ensures forall k :: 0 <= k < i ==> calls[k].id != id
  {
    if calls == [] || calls[0].id == id then 0 else FindId(calls[1..], id) + 1
  }

  function MergeToolCall(existing: seq<ToolCall>, tc: ToolCall): seq<ToolCall> {
    var i := FindId(existing, tc.id);
    if tc.id != "" && i < |existing| then existing[i := tc] else existing + [tc]
  }

  // Where a streamed call stands among the merged calls.
  function ToolCallStreamIndex(calls: seq<ToolCall>, tc: ToolCall): nat {
    var i := FindId(calls, tc.id);
    if tc.id != "" && i < |calls| then i else if |calls| > 0 then |calls| - 1 else 0
  }

  predicate SameHosted(h: HostedTool, entry: HostedTool) {
    (entry.id != "" && h.id == entry.id) || (entry.id == "" && entry.name != "" && h.name == entry.name)
  }

  function FindHosted(tools: seq<HostedTool>, entry: HostedTool): (i: nat)
    ensures i <= |tools|
    ensures i < |tools| ==> SameHosted(tools[i], entry)
    ensures forall k :: 0 <= k < i ==> !SameHosted(tools[k], entry)
  {
    if tools == [] || SameHosted(tools[0], entry) then 0 else FindHosted(tools[1..], entry) + 1
  }

  // Key by key, what the newer entry has wins.
  function Overlay(h: HostedTool, entry: HostedTool): HostedTool {
    HostedTool(
      if entry.id != "" then entry.id else h.id,
      entry.name,
      if entry.status.Some? then entry.status else h.status,
      if entry.action.Some? then entry.action else h.action,
      if entry.result.Some? then entry.result else h.result)
  }

  function MergeHostedTool(existing: seq<HostedTool>, entry: HostedTool): seq<HostedTool> {
    var i := FindHosted(existing, entry);
    if i < |existing| then existing[i := Overlay(existing[i], entry)] else existing + [entry]
  }

  method MergeCall(existing: seq<ToolCall>, tc: ToolCall) returns (out: seq<ToolCall>)
    ensures out == MergeToolCall(existing, tc)
  {
    for i := 0 to |existing|
      invariant tc.id != "" ==> forall k :: 0 <= k < i ==> existing[k].id != tc.id
    {
      if tc.id != "" && existing[i].id == tc.id {
        return existing[i := tc];
      }
    }
    out := existing + [tc];
  }

  method MergeHosted(existing: seq<HostedTool>, entry: HostedTool) returns (out: seq<HostedTool>)
    ensures out == MergeHostedTool(existing, entry)
  {
    for i := 0 to |existing|
      invariant forall k :: 0 <= k < i ==> !SameHosted(existing[k], entry)
    {
      if SameHosted(existing[i], entry) {
        return existing[i := Overlay(existing[i], entry)];
      }
    }
    out := existing + [entry];
  }

  method StreamIndex(calls: seq<ToolCall>, tc: ToolCall) returns (index: nat)
    ensures index == ToolCallStreamIndex(calls, tc)
  {
    for i := 0 to |calls|
      invariant tc.id != "" ==> forall k :: 0 <= k < i ==> calls[k].id != tc.id
    {
      if tc.id != "" && calls[i].id == tc.id {
        return i;
      }
    }
    index := if |calls| > 0 then |calls| - 1 else 0;
  }

  // ---------------------------------------------------------------------------
  // The client's side
  // ---------------------------------------------------------------------------

  // A client puts a streamed call at its index, appending the arguments to those it has there.
  function Place(calls: map<nat, ToolCall>, index: nat, tc: ToolCall): map<nat, ToolCall> {
    calls[index := if index in calls then tc.(args := calls[index].args + tc.args) else tc]
  }

  // A list of calls, by index.
  function ByIndex(calls: seq<ToolCall>): map<nat, ToolCall> {
    map i: nat | i < |calls| :: calls[i]
  }

  // All these calls merged, oldest first.
  function Merged(tcs: seq<ToolCall>): seq<ToolCall> {
    if tcs == [] then [] else MergeToolCall(Merged(tcs[..|tcs| - 1]), tcs[|tcs| - 1])
  }

  // What a client has after each of these calls was streamed at its index.
  function Reassembled(tcs: seq<ToolCall>): map<nat, ToolCall> {
    if tcs == [] then map[]
    else
      var tc := tcs[|tcs| - 1];
      Place(Reassembled(tcs[..|tcs| - 1]), ToolCallStreamIndex(Merged(tcs), tc), tc)
  }

  predicate DistinctOrEmptyIds(tcs: seq<ToolCall>) {
    forall i, j :: 0 <= i < j < |tcs| && tcs[i].id != "" ==> tcs[i].id != tcs[j].id
  }

  predicate HasArguments(tcs: seq<ToolCall>) {
    forall i :: 0 <= i < |tcs| ==> tcs[i].args != ""
  }

  predicate Seen(calls: seq<ToolCall>, id: string) {
    exists k :: 0 <= k < |calls| && calls[k].id == id
  }

  lemma {:induction false} MergeKeepsIds(existing: seq<ToolCall>, tc: ToolCall)
    requires DistinctOrEmptyIds(existing) && HasArguments(existing) && tc.args != ""
    ensures DistinctOrEmptyIds(MergeToolCall(existing, tc)) && HasArguments(MergeToolCall(existing, tc))
    ensures Seen(MergeToolCall(existing, tc), tc.id)
    ensures forall id :: Seen(existing, id) ==> Seen(MergeToolCall(existing, tc), id)
  {
    var out := MergeToolCall(existing, tc);
    var i := FindId(existing, tc.id);
    assert out[if tc.id != "" && i < |existing| then i else |existing|].id == tc.id;
    forall id | Seen(existing, id)
      ensures Seen(out, id)
    {
      var k :| 0 <= k < |existing| && existing[k].id == id;
      assert out[k].id == id;
    }
  }

  // The merged calls have distinct ids, among them every id that was seen.
  lemma {:induction false} MergedIds(tcs: seq<ToolCall>)
    requires HasArguments(tcs)
    ensures DistinctOrEmptyIds(Merged(tcs)) && HasArguments(Merged(tcs))
    ensures forall i :: 0 <= i < |tcs| ==> Seen(Merged(tcs), tcs[i].id)
  {
    if tcs != [] {
      var before := tcs[..|tcs| - 1];
      MergedIds(before);
      MergeKeepsIds(Merged(before), tcs[|tcs| - 1]);
      forall i | 0 <= i < |tcs|
        ensures Seen(Merged(tcs), tcs[i].id)
      {
        assert i < |before| ==> before[i] == tcs[i];
      }
    }
  }

  // The first calls of their ids, and the calls without one.
  function Heads(tcs: seq<ToolCall>): (heads: seq<nat>)
    ensures forall j :: 0 <= j < |heads| ==> heads[j] < |tcs|
  {
    if tcs == [] then []
    else
      var n := |tcs| - 1;
      Heads(tcs[..n]) + if tcs[n].id == "" || !Seen(tcs[..n], tcs[n].id) then [n as nat] else []
  }

  // The last call with the id of the k-th.
  predicate IsLatest(tcs: seq<ToolCall>, k: nat, l: nat) {
    && k <= l < |tcs|
    && (if tcs[k].id == "" then l == k
        else tcs[l].id == tcs[k].id && forall m :: l < m < |tcs| ==> tcs[m].id != tcs[k].id)
  }

  // These are the calls merged by id: one for each first call, and the latest of its id.
  ghost predicate MergedById(tcs: seq<ToolCall>, merged: seq<ToolCall>) {
    && |merged| == |Heads(tcs)|
    && forall j :: 0 <= j < |merged| ==> LatestOf(tcs, Heads(tcs)[j], merged[j])
  }

  // The calls seen are those merged, each id once.
  ghost predicate SameIds(tcs: seq<ToolCall>, merged: seq<ToolCall>) {
    DistinctOrEmptyIds(merged) && forall id :: Seen(merged, id) <==> Seen(tcs, id)
  }

  lemma {:induction false} SeenNext(tcs: seq<ToolCall>, tc: ToolCall, id: string)
    ensures Seen(tcs + [tc], id) <==> Seen(tcs, id) || tc.id == id
  {
    var more := tcs + [tc];
    assert more[|tcs|] == tc;
    if Seen(tcs, id) {
      var k :| 0 <= k < |tcs| && tcs[k].id == id;
      assert more[k].id == id;
    }
  }

  lemma {:induction false} SeenAfterMerge(merged: seq<ToolCall>, tc: ToolCall, id: string)
    ensures Seen(MergeToolCall(merged, tc), id) <==> Seen(merged, id) || tc.id == id
  {
    var i := FindId(merged, tc.id);
    if tc.id != "" && i < |merged| {
      var out := merged[i := tc];
      assert out[i].id == tc.id;
      if Seen(merged, id) {
        var k :| 0 <= k < |merged| && merged[k].id == id;
        assert out[k].id == id;
      }
    } else {
      SeenNext(merged, tc, id);
    }
  }

  lemma {:induction false} MergeKeepsSameIds(tcs: seq<ToolCall>, merged: seq<ToolCall>, tc: ToolCall)
    requires SameIds(tcs, merged)
    ensures SameIds(tcs + [tc], MergeToolCall(merged, tc))
  {
    forall id
      ensures Seen(MergeToolCall(merged, tc), id) <==> Seen(tcs + [tc], id)
    {
      SeenNext(tcs, tc, id);
      SeenAfterMerge(merged, tc, id);
    }
  }

  // The last call moves only the latest of its own id.
  lemma {:induction false} LatestNext(tcs: seq<ToolCall>, tc: ToolCall, k: nat, l: nat)
    requires IsLatest(tcs, k, l)
    ensures tcs[k].id == "" || tcs[k].id != tc.id ==> IsLatest(tcs + [tc], k, l)
    ensures tcs[k].id != "" && tcs[k].id == tc.id ==> IsLatest(tcs + [tc], k, |tcs|)
  {
  }

  // The j-th merged call is the latest of the j-th first one's id.
  ghost predicate LatestOf(tcs: seq<ToolCall>, k: nat, c: ToolCall) {
    exists l: nat :: IsLatest(tcs, k, l) && c == tcs[l]
  }

  lemma {:induction false} LatestOfNext(tcs: seq<ToolCall>, tc: ToolCall, k: nat, c: ToolCall)
    requires LatestOf(tcs, k, c) && k < |tcs|
    ensures c.id == tcs[k].id
    ensures c.id == "" || c.id != tc.id ==> LatestOf(tcs + [tc], k, c)
    ensures c.id != "" && c.id == tc.id ==> LatestOf(tcs + [tc], k, tc)
  {
    var l: nat :| IsLatest(tcs, k, l) && c == tcs[l];
    LatestNext(tcs, tc, k, l);
    assert (tcs + [tc])[|tcs|] == tc && (tcs + [tc])[l] == tcs[l];
  }

  lemma {:induction false} HeadsNext(tcs: seq<ToolCall>, tc: ToolCall)
    ensures Heads(tcs + [tc]) == Heads(tcs) + if tc.id == "" || !Seen(tcs, tc.id) then [|tcs|] else []
  {
    assert (tcs + [tc])[..|tcs|] == tcs && (tcs + [tc])[|tcs|] == tc;
  }

  lemma {:induction false} MergeKeepsById(tcs: seq<ToolCall>, merged: seq<ToolCall>, tc: ToolCall)
    requires MergedById(tcs, merged) && SameIds(tcs, merged)
    ensures MergedById(tcs + [tc], MergeToolCall(merged, tc))
  {
    var more, out := tcs + [tc], MergeToolCall(merged, tc);
    var heads := Heads(more);
    var i := FindId(merged, tc.id);
    assert Seen(merged, tc.id) <==> i < |merged|;
    HeadsNext(tcs, tc);
    forall j | 0 <= j < |out|
      ensures LatestOf(more, heads[j], out[j])
    {
      if j < |merged| {
        LatestOfNext(tcs, tc, Heads(tcs)[j], merged[j]);
        MergedAt(merged, tc, j);
      } else {
        assert more[|tcs|] == tc && IsLatest(more, |tcs|, |tcs|);
      }
    }
  }

  // Merging changes the call of the same id only.
  lemma {:induction false} MergedAt(merged: seq<ToolCall>, tc: ToolCall, j: nat)
    requires DistinctOrEmptyIds(merged) && j < |merged|
    ensures MergeToolCall(merged, tc)[j] == if tc.id != "" && merged[j].id == tc.id then tc else merged[j]
  {
  }

  /** Merging keeps one call for each id, in the order in which the ids came first, with the
      latest call of the id; and every call without an id. */
  lemma {:induction false} MergedExactly(tcs: seq<ToolCall>)
    ensures MergedById(tcs, Merged(tcs)) && SameIds(tcs, Merged(tcs))
  {
    if tcs != [] {
      var before := tcs[..|tcs| - 1];
      var tc := tcs[|tcs| - 1];
      MergedExactly(before);
      MergeKeepsById(before, Merged(before), tc);
      MergeKeepsSameIds(before, Merged(before), tc);
      assert tcs == before + [tc];
    }
  }

  lemma {:induction false} NewCallIsNew(before: seq<ToolCall>, tc: ToolCall)
    requires DistinctOrEmptyIds(before + [tc])
    ensures DistinctOrEmptyIds(before) && (tc.id == "" || FindId(before, tc.id) == |before|)
    ensures ByIndex(before)[|before| := tc] == ByIndex(before + [tc])
  {
    var tcs := before + [tc];
    assert forall i :: 0 <= i < |before| ==> before[i] == tcs[i];
    assert tcs[|before|] == tc;
  }

  // Calls that repeat no id are merged one after the other.
  lemma {:induction false} DistinctCallsMergeInOrder(tcs: seq<ToolCall>)
    requires DistinctOrEmptyIds(tcs)
    ensures Merged(tcs) == tcs && Reassembled(tcs) == ByIndex(tcs)
  {
    if tcs == [] {
      assert ByIndex(tcs) == map[];
    } else {
      var before := tcs[..|tcs| - 1];
      var tc := tcs[|tcs| - 1];
      assert tcs == before + [tc];
      NewCallIsNew(before, tc);
      DistinctCallsMergeInOrder(before);
      NewCallComesLast(ByIndex(before), before, tc);
    }
  }

  // Index by index, the client has the merged call with arguments that may be too long.
  ghost predicate Overfull(client: map<nat, ToolCall>, merged: seq<ToolCall>) {
    && (forall i: nat :: i in client <==> i < |merged|)
    && (forall i: nat :: i < |merged| ==>
          client[i].id == merged[i].id && |client[i].args| >= |merged[i].args|)
  }

  predicate TooLong(client: map<nat, ToolCall>, merged: seq<ToolCall>) {
    exists i: nat :: i < |merged| && i in client && |client[i].args| > |merged[i].args|
  }

  lemma {:induction false} FirstOfId(calls: seq<ToolCall>, id: string, i: nat)
    requires i < |calls| && calls[i].id == id && forall k :: 0 <= k < i ==> calls[k].id != id
    ensures FindId(calls, id) == i
  {
    var j := FindId(calls, id);
    assert !(j < i) && !(i < j);
  }

  // A repeated call overfills the client, and a new one is added at the end.
  lemma {:induction false} RepeatOverfills(client: map<nat, ToolCall>, merged: seq<ToolCall>, tc: ToolCall)
    requires Overfull(client, merged) && HasArguments(merged)
    requires tc.id != "" && FindId(merged, tc.id) < |merged|
    ensures var client' := Place(client, ToolCallStreamIndex(MergeToolCall(merged, tc), tc), tc);
      Overfull(client', MergeToolCall(merged, tc)) && TooLong(client', MergeToolCall(merged, tc))
  {
    var i := FindId(merged, tc.id);
    var merged' := merged[i := tc];
    FirstOfId(merged', tc.id, i);
    var client' := Place(client, i, tc);
    assert |client'[i].args| > |merged'[i].args|;
  }

  lemma {:induction false} NewKeepsOverfull(client: map<nat, ToolCall>, merged: seq<ToolCall>, tc: ToolCall)
    requires Overfull(client, merged) && (tc.id == "" || FindId(merged, tc.id) == |merged|)
    ensures MergeToolCall(merged, tc) == merged + [tc]
    ensures var client' := Place(client, ToolCallStreamIndex(merged + [tc], tc), tc);
      && Overfull(client', merged + [tc])
      && (TooLong(client, merged) ==> TooLong(client', merged + [tc]))
  {
    NewCallComesLast(client, merged, tc);
    if TooLong(client, merged) {
      var k: nat :| k < |merged| && k in client && |client[k].args| > |merged[k].args|;
      assert client[|merged| := tc][k] == client[k] && (merged + [tc])[k] == merged[k];
    }
  }

  lemma {:induction false} ClientIsOverfull(tcs: seq<ToolCall>)
    requires HasArguments(tcs)
    ensures Overfull(Reassembled(tcs), Merged(tcs))
    ensures !DistinctOrEmptyIds(tcs) ==> TooLong(Reassembled(tcs), Merged(tcs))
  {
    if tcs != [] {
      var before := tcs[..|tcs| - 1];
      var tc := tcs[|tcs| - 1];
      ClientIsOverfull(before);
      MergedIds(before);
      if tc.id != "" && FindId(Merged(before), tc.id) < |Merged(before)| {
        RepeatOverfills(Reassembled(before), Merged(before), tc);
      } else {
        NewKeepsOverfull(Reassembled(before), Merged(before), tc);
        if !DistinctOrEmptyIds(tcs) {
          RepeatIsOld(tcs, Merged(before));
        }
      }
    }
  }

  lemma {:induction false} NewCallComesLast(client: map<nat, ToolCall>, merged: seq<ToolCall>, tc: ToolCall)
    requires |merged| !in client && (tc.id == "" || FindId(merged, tc.id) == |merged|)
    ensures Place(client, ToolCallStreamIndex(merged + [tc], tc), tc) == client[|merged| := tc]
  {
    if tc.id != "" {
      assert (merged + [tc])[|merged|] == tc;
      assert FindId(merged + [tc], tc.id) == |merged|;
    }
  }

  // If the last call is new, a repeated id was repeated before.
  lemma {:induction false} RepeatIsOld(tcs: seq<ToolCall>, merged: seq<ToolCall>)
    requires HasArguments(tcs) && tcs != [] && !DistinctOrEmptyIds(tcs) && merged == Merged(tcs[..|tcs| - 1])
    requires var tc := tcs[|tcs| - 1]; tc.id == "" || FindId(merged, tc.id) == |merged|
    ensures !DistinctOrEmptyIds(tcs[..|tcs| - 1])
  {
    var before := tcs[..|tcs| - 1];
    MergedIds(before);
    var i, j :| 0 <= i < j < |tcs| && tcs[i].id != "" && tcs[i].id == tcs[j].id;
    assert before[i] == tcs[i] && Seen(merged, tcs[i].id);
    if j == |tcs| - 1 {
      assert false;
    }
    assert before[i].id == before[j].id;
  }

  /** A client that places streamed calls by index has exactly the merged calls when, and
      only when, no non-empty id is repeated. */
  lemma {:induction false} ReassembledExactly(tcs: seq<ToolCall>)
    requires HasArguments(tcs)
    ensures Reassembled(tcs) == ByIndex(Merged(tcs)) <==> DistinctOrEmptyIds(tcs)
  {
    if DistinctOrEmptyIds(tcs) {
      DistinctCallsMergeInOrder(tcs);
    } else {
      ClientIsOverfull(tcs);
    }
  }

  // ---------------------------------------------------------------------------
  // Chunks
  // ---------------------------------------------------------------------------

  // A chunk written to a streaming client.
  datatype Chunk =
    | ContentChunk(text: string)
    | ToolChunk(index: nat, call: ToolCall)
    | HostedChunk(phase: string, tool: HostedTool)
    | FinalChunk(finish: string, usage: Option<(int, int)>, hosted: seq<HostedTool>)
    | DoneMarker

  // The completion a client sees; null content reads as the empty string.
  datatype Completion = Completion(content: string, calls: map<nat, ToolCall>, finish: string, hosted: seq<HostedTool>)

  // What a client has put together after these chunks.
  function ClientView(out: seq<Chunk>): Completion {
    if out == [] then Completion("", map[], "", [])
    else
      var before := ClientView(out[..|out| - 1]);
      match out[|out| - 1]
      case ContentChunk(t) => before.(content := before.content + t)
      case ToolChunk(index, tc) => before.(calls := Place(before.calls, index, tc))
      case HostedChunk(_, _) => before
      case FinalChunk(finish, _, hosted) => before.(finish := finish, hosted := hosted)
      case DoneMarker => before
  }

  lemma {:induction false} ViewOfNext(out: seq<Chunk>, c: Chunk)
    ensures ClientView(out + [c]) ==
      var before := ClientView(out);
      match c
      case ContentChunk(t) => before.(content := before.content + t)
      case ToolChunk(index, tc) => before.(calls := Place(before.calls, index, tc))
      case FinalChunk(finish, _, hosted) => before.(finish := finish, hosted := hosted)
      case _ => before
  {
    assert (out + [c])[..|out|] == out;
  }

  // The calls streamed, in order.
  function StreamedCalls(out: seq<Chunk>): seq<ToolCall> {
    if out == [] then []
    else
      var last := out[|out| - 1];
      StreamedCalls(out[..|out| - 1]) + if last.ToolChunk? then [last.call] else []
  }

  lemma {:induction false} StreamedCallsOfNext(out: seq<Chunk>, c: Chunk)
    ensures StreamedCalls(out + [c]) == StreamedCalls(out) + if c.ToolChunk? then [c.call] else []
  {
    assert (out + [c])[..|out|] == out;
  }

  // The chunks written so far carry this text and these merged calls.
  predicate Carried(out: seq<Chunk>, text: string, calls: seq<ToolCall>) {
    && ClientView(out).content == text
    && ClientView(out).calls == Reassembled(StreamedCalls(out))
    && calls == Merged(StreamedCalls(out))
    && HasArguments(StreamedCalls(out))
  }

  lemma {:induction false} CallsOfNext(tcs: seq<ToolCall>, tc: ToolCall)
    ensures Merged(tcs + [tc]) == MergeToolCall(Merged(tcs), tc)
    ensures Reassembled(tcs + [tc]) == Place(Reassembled(tcs), ToolCallStreamIndex(Merged(tcs + [tc]), tc), tc)
  {
    assert (tcs + [tc])[..|tcs|] == tcs;
  }

  // Merges a call and streams it at its index.
  lemma {:induction false} StreamingACall(out: seq<Chunk>, text: string, calls: seq<ToolCall>, tc: ToolCall)
    requires Carried(out, text, calls) && tc.args != ""
    ensures var merged := MergeToolCall(calls, tc);
            Carried(out + [ToolChunk(ToolCallStreamIndex(merged, tc), tc)], text, merged)
  {
    var merged := MergeToolCall(calls, tc);
    var c := ToolChunk(ToolCallStreamIndex(merged, tc), tc);
    ViewOfNext(out, c);
    StreamedCallsOfNext(out, c);
    CallsOfNext(StreamedCalls(out), tc);
  }

  lemma {:induction false} StreamingText(out: seq<Chunk>, text: string, calls: seq<ToolCall>, t: string)
    requires Carried(out, text, calls)
    ensures Carried(out + [ContentChunk(t)], text + t, calls)
  {
    ViewOfNext(out, ContentChunk(t));
    StreamedCallsOfNext(out, ContentChunk(t));
    assert StreamedCalls(out) + [] == StreamedCalls(out);
  }

  lemma {:induction false} StreamingAHostedTool(
    out: seq<Chunk>, text: string, calls: seq<ToolCall>, phase: string, ht: HostedTool)
    requires Carried(out, text, calls)
    ensures Carried(out + [HostedChunk(phase, ht)], text, calls)
    ensures StreamedCalls(out + [HostedChunk(phase, ht)]) == StreamedCalls(out)
  {
    ViewOfNext(out, HostedChunk(phase, ht));
    StreamedCallsOfNext(out, HostedChunk(phase, ht));
    assert StreamedCalls(out) + [] == StreamedCalls(out);
  }

  // After the last chunks the client has the whole completion.
  lemma {:induction false} StreamingTheEnd(
    out: seq<Chunk>, text: string, calls: seq<ToolCall>, finish: string, usage: Option<(int, int)>,
    hosted: seq<HostedTool>)
    requires Carried(out, text, calls)
    ensures ClientView(out + [FinalChunk(finish, usage, hosted), DoneMarker])
         == Completion(text, Reassembled(StreamedCalls(out)), finish, hosted)
  {
    var final := FinalChunk(finish, usage, hosted);
    ViewOfNext(out, final);
    ViewOfNext(out + [final], DoneMarker);
    assert out + [final, DoneMarker] == (out + [final]) + [DoneMarker];
  }

  // ---------------------------------------------------------------------------
  // Hosted tools
  // ---------------------------------------------------------------------------

  // The entry belongs to the tool: it has its id, or for want of an id its name.
  predicate Belongs(tool: HostedTool, entry: HostedTool) {
    if entry.id != "" then tool.id == entry.id else entry.name != "" && tool.name == entry.name
  }

  // What the entry knows replaces what the tool knew.
  predicate Updated(tool: HostedTool, entry: HostedTool, out: HostedTool) {
    && (entry.id != "" ==> out.id == entry.id) && (entry.id == "" ==> out.id == tool.id) && out.name == entry.name
    && (entry.status.Some? ==> out.status == entry.status) && (entry.status.None? ==> out.status == tool.status)
    && (entry.action.Some? ==> out.action == entry.action) && (entry.action.None? ==> out.action == tool.action)
    && (entry.result.Some? ==> out.result == entry.result) && (entry.result.None? ==> out.result == tool.result)
  }

  /** Merging an entry updates the first tool it belongs to, or adds it at the end. */
  lemma {:induction false} HostedMergedExactly(tools: seq<HostedTool>, entry: HostedTool)
    ensures var out := MergeHostedTool(tools, entry);
      if exists k :: 0 <= k < |tools| && Belongs(tools[k], entry) then
        && |out| == |tools|
        && exists i :: 0 <= i < |tools| && Belongs(tools[i], entry)
             && (forall k :: 0 <= k < i ==> !Belongs(tools[k], entry))
             && Updated(tools[i], entry, out[i]) && forall k :: 0 <= k < |tools| && k != i ==> out[k] == tools[k]
      else out == tools + [entry]
  {
    var i := FindHosted(tools, entry);
    if i < |tools| {
      assert Belongs(tools[i], entry);
    }
  }

  // All these entries merged, oldest first.
  function MergedHosted(entries: seq<HostedTool>): seq<HostedTool> {
    if entries == [] then []
    else MergeHostedTool(MergedHosted(entries[..|entries| - 1]), entries[|entries| - 1])
  }

  // The hosted tools told of in these chunks, in order.
  function Announced(out: seq<Chunk>): seq<(string, HostedTool)> {
    if out == [] then []
    else
      var c := out[|out| - 1];
      Announced(out[..|out| - 1]) + if c.HostedChunk? then [(c.phase, c.tool)] else []
  }

  lemma {:induction false} AnnouncedNext(out: seq<Chunk>, c: Chunk)
    ensures Announced(out + [c]) == Announced(out) + if c.HostedChunk? then [(c.phase, c.tool)] else []
  {
    assert (out + [c])[..|out|] == out;
  }

  /** A call with an id stands where the first call of that id does, any other at the end. */
  lemma {:induction false} StreamIndexIs(calls: seq<ToolCall>, tc: ToolCall, i: nat)
    requires i < |calls|
    requires if tc.id != "" && Seen(calls, tc.id)
             then calls[i].id == tc.id && !Seen(calls[..i], tc.id) else i == |calls| - 1
    ensures ToolCallStreamIndex(calls, tc) == i
  {
    var j := FindId(calls, tc.id);
    if tc.id != "" && Seen(calls, tc.id) {
      assert forall k :: 0 <= k < i ==> calls[..i][k] == calls[k];
      assert !(j < i) && !(i < j);
    }
  }
}
