/**
 What a Codex completion says, in terms of the items and counts that the events carried.
 */
module CodexLaws {
  import opened Wrappers
  import opened Text
  import opened BridgeTools
  import opened CodexBridge
  import opened CodexClient

  // The items of one event, and of all events in order.
  function ItemsOf(e: Event): seq<Item> {
    match e
    case TextDelta(_) => []
    case Completed(r) => if r.Some? then r.value.output else []
    case ItemAdded(item) => if item.Some? then [item.value] else []
    case ItemDone(item) => if item.Some? then [item.value] else []
    case OtherEvent(item) => if item.Some? then [item.value] else []
  }

  function AllItems(events: seq<Event>): seq<Item> {
    if events == [] then [] else AllItems(events[..|events| - 1]) + ItemsOf(events[|events| - 1])
  }

  // The item is a call of a named tool.
  predicate IsCall(item: Item) {
    item.FunctionCall? && item.name != ""
  }

  // The tool calls of these items; the id of a call is its call id, or else its own.
  function CallsIn(items: seq<Item>): seq<ToolCall> {
    if items == [] then []
    else
      var item := items[|items| - 1];
      CallsIn(items[..|items| - 1])
      + if !IsCall(item) then []
        else [ToolCall(if item.callId == "" then item.id else item.callId, item.name, item.args)]
  }

  lemma {:induction false} CallsInNext(items: seq<Item>, item: Item)
    ensures CallsIn(items + [item]) == CallsIn(items) + CallsIn([item])
  {
    assert (items + [item])[..|items|] == items && [item][..0] == [];
    assert CallsIn([]) == [];
  }

  lemma {:induction false} MergedNext(tcs: seq<ToolCall>, tc: ToolCall)
    ensures Merged(tcs + [tc]) == MergeToolCall(Merged(tcs), tc)
  {
    assert (tcs + [tc])[..|tcs|] == tcs;
  }

  // The parser's calls are those of these items, merged.
  predicate Took(st: State, items: seq<Item>) {
    st.calls == Merged(CallsIn(items))
  }

  lemma {:induction false} IngestTakes(st: State, items: seq<Item>, item: Item, streaming: bool)
    requires Took(st, items)
    ensures Took(Ingest(st, item, streaming), items + [item])
  {
    CallsInNext(items, item);
    assert [item][..0] == [] && CallsIn([]) == [];
    if IsCall(item) {
      MergedNext(CallsIn(items), ToolCallFromItem(item).value);
    } else {
      assert CallsIn(items) + [] == CallsIn(items);
    }
  }

  lemma {:induction false} IngestAllTakes(st: State, items: seq<Item>, more: seq<Item>)
    requires Took(st, items)
    ensures Took(IngestAll(st, more), items + more)
    decreases |more|
  {
    if more == [] {
      assert items + more == items;
    } else {
      IngestTakes(st, items, more[0], false);
      IngestAllTakes(Ingest(st, more[0], false), items + [more[0]], more[1..]);
      assert items + [more[0]] + more[1..] == items + more;
    }
  }

  // A finished item is taken in like any other.
  lemma {:induction false} FinishTakes(st: State, items: seq<Item>, item: Item, streaming: bool)
    requires Took(st, items)
    ensures Took(Finish(st, item, streaming), items + [item])
  {
    IngestTakes(st, items, item, streaming);
  }

  lemma {:induction false} CompleteTakes(st: State, items: seq<Item>, r: Response)
    requires Took(st, items)
    ensures Took(Complete(st, r), items + r.output)
  {
    IngestAllTakes(if r.usage.Some? then st.(tin := r.usage.value.0, tout := r.usage.value.1) else st, items, r.output);
  }

  lemma {:induction false} StepTakes(st: State, items: seq<Item>, e: Event, streaming: bool)
    requires Took(st, items)
    ensures Took(Step(st, e, streaming), items + ItemsOf(e))
  {
    if ItemsOf(e) == [] {
      assert items + ItemsOf(e) == items;
    }
    match e
    case ItemAdded(Some(item)) => IngestTakes(st, items, item, streaming);
    case OtherEvent(Some(item)) => IngestTakes(st, items, item, streaming);
    case ItemDone(Some(item)) => FinishTakes(st, items, item, streaming);
    case Completed(Some(r)) => CompleteTakes(st, items, r);
    case _ =>
  }

  /** The calls are those that the items carried, merged by id in order. */
  lemma {:induction false} CallsAreTaken(events: seq<Event>, streaming: bool)
    ensures Parse(events, streaming).calls == Merged(CallsIn(AllItems(events)))
    ensures MergedById(CallsIn(AllItems(events)), Parse(events, streaming).calls)
  {
    MergedExactly(CallsIn(AllItems(events)));
    if events != [] {
      var before := events[..|events| - 1];
      CallsAreTaken(before, streaming);
      StepTakes(Parse(before, streaming), AllItems(before), events[|events| - 1], streaming);
    }
  }

  predicate SomeCall(items: seq<Item>) {
    exists i :: 0 <= i < |items| && IsCall(items[i])
  }

  lemma {:induction false} NoCallsExactly(items: seq<Item>)
    ensures CallsIn(items) == [] <==> !SomeCall(items)
  {
    if items != [] {
      var n := |items| - 1;
      NoCallsExactly(items[..n]);
      assert forall i :: 0 <= i < n ==> items[..n][i] == items[i];
    }
  }

  lemma {:induction false} MergedNone(tcs: seq<ToolCall>)
    ensures Merged(tcs) == [] <==> tcs == []
  {
  }

  // The counts of the last completed response that has any.
  function Counted(events: seq<Event>): (int, int) {
    if events == [] then (0, 0)
    else
      var e := events[|events| - 1];
      if e.Completed? && e.response.Some? && e.response.value.usage.Some? then e.response.value.usage.value
      else Counted(events[..|events| - 1])
  }

  lemma {:induction false} IngestAllKeepsCounts(st: State, items: seq<Item>)
    ensures IngestAll(st, items).tin == st.tin && IngestAll(st, items).tout == st.tout
    decreases |items|
  {
    if items != [] {
      IngestAllKeepsCounts(Ingest(st, items[0], false), items[1..]);
    }
  }

  lemma {:induction false} CountsAreLast(events: seq<Event>, streaming: bool)
    ensures (Parse(events, streaming).tin, Parse(events, streaming).tout) == Counted(events)
  {
    if events != [] {
      var before := events[..|events| - 1];
      var st := Parse(before, streaming);
      var e := events[|events| - 1];
      CountsAreLast(before, streaming);
      if e.Completed? && e.response.Some? {
        var u := e.response.value.usage;
        IngestAllKeepsCounts(if u.Some? then st.(tin := u.value.0, tout := u.value.1) else st, e.response.value.output);
      }
    }
  }

  // The finish reason by the items that came.
  predicate FinishesBy(events: seq<Event>, finish: string) {
    if SomeCall(AllItems(events)) then finish == "tool_calls" else finish == "stop"
  }

  // The last chunks: the text if none was streamed, how it finished, and the end marker.
  predicate LastChunks(events: seq<Event>, st: State, last: State) {
    var out := last.out;
    var n := |out| - 2;
    && (last.contentEmitted <==> st.contentEmitted || st.text != "")
    && n >= |st.out|
    && out[n].FinalChunk? && FinishesBy(events, out[n].finish) && out[n].hosted == st.hosted
    && (out[n].usage.Some? <==> Counted(events).0 + Counted(events).1 > 0)
    && (out[n].usage.Some? ==> out[n].usage.value == Counted(events))
    && out[n + 1] == DoneMarker
    && out[..n] == st.out + if st.contentEmitted || st.text == "" then [] else [ContentChunk(st.text)]
  }

  /** The last chunks of every stream say tool_calls if and only if some event carried a
      call, and otherwise stop; they have the last counts that came. */
  lemma {:induction false} StreamFinishes(events: seq<Event>)
    ensures LastChunks(events, Parse(events, true), Finale(Parse(events, true)))
  {
    var st := Parse(events, true);
    var backfill := if st.contentEmitted || st.text == "" then [] else [ContentChunk(st.text)];
    CallsAreTaken(events, true);
    NoCallsExactly(AllItems(events));
    MergedNone(CallsIn(AllItems(events)));
    CountsAreLast(events, true);
    var out := Finale(st).out;
    assert out == (st.out + backfill) + [out[|st.out + backfill|], DoneMarker];
  }

  /** So does the completion for a client that waits, and a streaming client reads the same
      reason from its chunks. */
  lemma {:induction false} CompletionFinishes(events: seq<Event>)
    ensures FinishesBy(events, CompletionOf(Parse(events, false)).finish)
    ensures FinishesBy(events, ClientView(Finale(Parse(events, true)).out).finish)
    ensures CompletionOf(Parse(events, false)).calls == ByIndex(Merged(CallsIn(AllItems(events))))
  {
    var st := Parse(events, true);
    CallsAreTaken(events, true);
    CallsAreTaken(events, false);
    NoCallsExactly(AllItems(events));
    MergedNone(CallsIn(AllItems(events)));
    StreamFollows(events);
    FinaleIsSeen(st, OpsOf(events), DeltaText(events));
  }

  // ---------------------------------------------------------------------------
  // Hosted tools and text
  // ---------------------------------------------------------------------------

  // The text, if there is any.
  predicate Known(s: string, o: Option<string>) {
    if s == "" then o == None else o == Some(s)
  }

  // The entry of an item that is a hosted tool.
  predicate IsEntry(item: Item, entry: HostedTool) {
    match item
    case WebSearchCall(id, status, action) =>
      entry.id == id && entry.name == "web_search" && Known(status, entry.status) && entry.action == action
      && entry.result == None
    case ImageCall(id, status, result) =>
      && entry.id == id && entry.name == "generate_image"
      && (if status == "" then entry.status == Some("completed") else entry.status == Some(status))
      && entry.action == None && Known(Trim(result), entry.result)
    case _ => false
  }

  // The entry is told of as completed exactly when the item says so.
  predicate IsPhase(item: Item, phase: string) {
    if (item.WebSearchCall? && item.status == "completed") || (item.ImageCall? && item.status == "completed")
    then phase == "completed" else phase == "started"
  }

  // The entries of these items' hosted tools, in order.
  predicate AreEntries(items: seq<Item>, entries: seq<HostedTool>)
    decreases |items|
  {
    if items == [] then entries == []
    else
      var item := items[|items| - 1];
      if !item.WebSearchCall? && !item.ImageCall? then AreEntries(items[..|items| - 1], entries)
      else
        && entries != [] && IsEntry(item, entries[|entries| - 1])
        && AreEntries(items[..|items| - 1], entries[..|entries| - 1])
  }

  // The same, each with its phase.
  predicate AreTold(items: seq<Item>, told: seq<(string, HostedTool)>)
    decreases |items|
  {
    if items == [] then told == []
    else
      var item := items[|items| - 1];
      if !item.WebSearchCall? && !item.ImageCall? then AreTold(items[..|items| - 1], told)
      else
        && told != [] && IsPhase(item, told[|told| - 1].0) && IsEntry(item, told[|told| - 1].1)
        && AreTold(items[..|items| - 1], told[..|told| - 1])
  }

  lemma {:induction false} EntryIs(item: Item)
    ensures HostedFromItem(item).Some? <==> item.WebSearchCall? || item.ImageCall?
    ensures HostedFromItem(item).Some? ==> IsEntry(item, HostedFromItem(item).value) && IsPhase(item, Phase(item))
  {
  }

  // The hosted tools are those of these items, merged; the client was told of those of these.
  ghost predicate Hosts(st: State, items: seq<Item>, told: seq<Item>) {
    AreTold(told, Announced(st.out)) && HostsOf(items, st.hosted)
  }

  ghost predicate HostsOf(items: seq<Item>, hosted: seq<HostedTool>) {
    exists entries: seq<HostedTool> :: AreEntries(items, entries) && hosted == MergedHosted(entries)
  }

  lemma {:induction false} EntriesNext(items: seq<Item>, entries: seq<HostedTool>, item: Item)
    requires AreEntries(items, entries)
    ensures var ht := HostedFromItem(item);
            AreEntries(items + [item], if ht.Some? then entries + [ht.value] else entries)
  {
    var more := items + [item];
    assert more[..|items|] == items && more[|items|] == item;
    EntryIs(item);
    var ht := HostedFromItem(item);
    if ht.Some? {
      assert (entries + [ht.value])[..|entries|] == entries;
    }
  }

  lemma {:induction false} MergedHostedNext(entries: seq<HostedTool>, entry: HostedTool)
    ensures MergedHosted(entries + [entry]) == MergeHostedTool(MergedHosted(entries), entry)
  {
    assert (entries + [entry])[..|entries|] == entries;
  }

  lemma {:induction false} MoreEntries(items: seq<Item>, hosted: seq<HostedTool>, item: Item)
    requires HostsOf(items, hosted)
    ensures var ht := HostedFromItem(item);
            HostsOf(items + [item], if ht.Some? then MergeHostedTool(hosted, ht.value) else hosted)
  {
    var entries :| AreEntries(items, entries) && hosted == MergedHosted(entries);
    EntriesNext(items, entries, item);
    if HostedFromItem(item).Some? {
      MergedHostedNext(entries, HostedFromItem(item).value);
    }
  }

  lemma {:induction false} MoreTold(items: seq<Item>, out: seq<Chunk>, item: Item)
    requires AreTold(items, Announced(out))
    ensures var ht := HostedFromItem(item);
            AreTold(items + [item], Announced(out + if ht.Some? then [HostedChunk(Phase(item), ht.value)] else []))
  {
    var more := items + [item];
    assert more[..|items|] == items && more[|items|] == item;
    EntryIs(item);
    var ht := HostedFromItem(item);
    if ht.Some? {
      AnnouncedNext(out, HostedChunk(Phase(item), ht.value));
    } else {
      assert out + [] == out;
    }
  }

  lemma {:induction false} IngestHosts(st: State, items: seq<Item>, told: seq<Item>, item: Item, streaming: bool)
    requires Hosts(st, items, told)
    ensures Hosts(Ingest(st, item, streaming), items + [item], if streaming then told + [item] else told)
  {
    MoreEntries(items, st.hosted, item);
    if streaming {
      MoreTold(told, st.out, item);
      assert HostedFromItem(item).None? ==> st.out + [] == st.out;
    }
  }

  lemma {:induction false} IngestAllHosts(st: State, items: seq<Item>, told: seq<Item>, more: seq<Item>)
    requires Hosts(st, items, told)
    ensures Hosts(IngestAll(st, more), items + more, told)
    decreases |more|
  {
    if more == [] {
      assert items + more == items;
    } else {
      IngestHosts(st, items, told, more[0], false);
      IngestAllHosts(Ingest(st, more[0], false), items + [more[0]], told, more[1..]);
      assert items + [more[0]] + more[1..] == items + more;
    }
  }

  // The items that a streaming client is told of: all but those of the completed output.
  function ToldItems(events: seq<Event>): seq<Item> {
    if events == [] then []
    else
      var e := events[|events| - 1];
      ToldItems(events[..|events| - 1]) + if e.Completed? then [] else ItemsOf(e)
  }

  lemma {:induction false} FinishHosts(st: State, items: seq<Item>, told: seq<Item>, item: Item, streaming: bool)
    requires Hosts(st, items, told)
    ensures Hosts(Finish(st, item, streaming), items + [item], if streaming then told + [item] else told)
  {
    IngestHosts(st, items, told, item, streaming);
    var ingested := Ingest(st, item, streaming);
    var tc := ToolCallFromItem(item);
    if streaming && tc.Some? {
      AnnouncedNext(ingested.out, ToolChunk(ToolCallStreamIndex(ingested.calls, tc.value), tc.value));
      assert Announced(ingested.out) + [] == Announced(ingested.out);
    }
  }

  lemma {:induction false} CompleteHosts(st: State, items: seq<Item>, told: seq<Item>, r: Response)
    requires Hosts(st, items, told)
    ensures Hosts(Complete(st, r), items + r.output, told)
  {
    var counted := if r.usage.Some? then st.(tin := r.usage.value.0, tout := r.usage.value.1) else st;
    IngestAllHosts(counted, items, told, r.output);
  }

  lemma {:induction false} StepHosts(st: State, items: seq<Item>, told: seq<Item>, e: Event)
    requires Hosts(st, items, told)
    ensures Hosts(Step(st, e, true), items + ItemsOf(e), told + if e.Completed? then [] else ItemsOf(e))
  {
    assert items + [] == items && told + [] == told;
    match e
    case ItemAdded(Some(item)) => IngestHosts(st, items, told, item, true);
    case OtherEvent(Some(item)) => IngestHosts(st, items, told, item, true);
    case ItemDone(Some(item)) => FinishHosts(st, items, told, item, true);
    case Completed(Some(r)) => CompleteHosts(st, items, told, r);
    case TextDelta(d) => AnnouncedNext(st.out, ContentChunk(d));
      assert Announced(st.out) + [] == Announced(st.out);
    case _ =>
  }

  /** The hosted tools of a completion are those of all items, merged; a streaming client is
      told of each, with its phase, as it comes. */
  lemma {:induction false} HostedAreTold(events: seq<Event>)
    ensures Hosts(Parse(events, true), AllItems(events), ToldItems(events))
    ensures Parse(events, true).hosted == Parse(events, false).hosted
  {
    StreamingKeepsCore(events);
    if events == [] {
      assert AreEntries([], []) && MergedHosted([]) == [];
    } else {
      var before := events[..|events| - 1];
      HostedAreTold(before);
      StepHosts(Parse(before, true), AllItems(before), ToldItems(before), events[|events| - 1]);
    }
  }

  // The texts of all message items, in order.
  function MessageTexts(output: seq<Item>): seq<string> {
    if output == [] then []
    else
      var item := output[|output| - 1];
      MessageTexts(output[..|output| - 1]) + if item.MessageItem? then item.texts else []
  }

  lemma {:induction false} CompletedTextNext(output: seq<Item>, item: Item)
    ensures CompletedText(output + [item]) == CompletedText(output) + ItemText(item)
  {
    var more := output + [item];
    assert more[0] == if output == [] then item else output[0];
    if output == [] {
      assert more[1..] == [];
      assert CompletedText(more) == ItemText(item) + "" == "" + ItemText(item);
    } else {
      CompletedTextNext(output[1..], item);
      assert more[1..] == output[1..] + [item];
      Joins(ItemText(output[0]), CompletedText(output[1..]), ItemText(item));
    }
  }

  /** The completed text is the text of the message items, joined. */
  lemma {:induction false} CompletedTextIs(output: seq<Item>)
    ensures CompletedText(output) == Concat(MessageTexts(output))
  {
    if output != [] {
      var n := |output| - 1;
      var item := output[n];
      CompletedTextIs(output[..n]);
      CompletedTextNext(output[..n], item);
      assert output == output[..n] + [item];
      ConcatOfTwo(MessageTexts(output[..n]), if item.MessageItem? then item.texts else []);
    }
  }

  lemma {:induction false} IngestAllIsQuiet(st: State, items: seq<Item>)
    ensures IngestAll(st, items).out == st.out && IngestAll(st, items).contentEmitted == st.contentEmitted
    decreases |items|
  {
    if items != [] {
      IngestAllIsQuiet(Ingest(st, items[0], false), items[1..]);
    }
  }

  /** Without a streaming client nothing is written. */
  lemma {:induction false} QuietWithoutClient(events: seq<Event>)
    ensures Parse(events, false).out == [] && !Parse(events, false).contentEmitted
  {
    if events != [] {
      var before, e := events[..|events| - 1], events[|events| - 1];
      var st := Parse(before, false);
      QuietWithoutClient(before);
      if e.Completed? && e.response.Some? {
        var u := e.response.value.usage;
        IngestAllIsQuiet(if u.Some? then st.(tin := u.value.0, tout := u.value.1) else st, e.response.value.output);
      }
    }
  }
}
