/** The Codex parser over its mutable state, proved against the functions of `CodexBridge`. */
module CodexParser {
  import opened Wrappers
  import opened Text
  import opened BridgeTools
  import opened CodexBridge

  // extractCompletedText: the text of every message item.
  method ExtractCompletedText(output: seq<Item>) returns (text: string)
    ensures text == CompletedText(output)
  {
    text := "";
    for i := 0 to |output|
      invariant CompletedText(output) == text + CompletedText(output[i..])
    {
      assert output[i..][0] == output[i] && output[i..][1..] == output[i + 1..];
      var t := MessageItemText(output[i]);
      assert (text + t) + CompletedText(output[i + 1..]) == text + (t + CompletedText(output[i + 1..]));
      text := text + t;
    }
  }

  method MessageItemText(item: Item) returns (text: string)
    ensures text == ItemText(item)
  {
    text := "";
    if item.MessageItem? {
      for i := 0 to |item.texts|
        invariant Concat(item.texts) == text + Concat(item.texts[i..])
      {
        assert item.texts[i..][0] == item.texts[i] && item.texts[i..][1..] == item.texts[i + 1..];
        assert (text + item.texts[i]) + Concat(item.texts[i + 1..])
            == text + (item.texts[i] + Concat(item.texts[i + 1..]));
        text := text + item.texts[i];
      }
    }
  }

  class Parser {
    var text: string
    var tin: int
    var tout: int
    var hostedTools: seq<HostedTool>
    var toolCalls: seq<ToolCall>
    var contentEmitted: bool
    var out: seq<Chunk>

    constructor ()
      ensures View() == INITIAL
    {
      text, tin, tout, hostedTools, toolCalls, contentEmitted, out := "", 0, 0, [], [], false, [];
    }

    function View(): State
      reads this
    {
      State(text, tin, tout, hostedTools, toolCalls, contentEmitted, out)
    }

    method IngestOutputItem(item: Item, streaming: bool)
      modifies this
      ensures View() == Ingest(old(View()), item, streaming)
    {
      var ht := HostedFromItem(item);
      if ht.Some? {
        hostedTools := MergeHosted(hostedTools, ht.value);
        if streaming {
          out := out + [HostedChunk(Phase(item), ht.value)];
        }
      }
      var tc := ToolCallFromItem(item);
      if tc.Some? {
        toolCalls := MergeCall(toolCalls, tc.value);
      }
    }

    // A finished item; its call is streamed once its arguments are whole.
    method FinishItem(item: Item, streaming: bool)
      modifies this
      ensures View() == Finish(old(View()), item, streaming)
    {
      IngestOutputItem(item, streaming);
      if streaming {
        var tc := ToolCallFromItem(item);
        if tc.Some? {
          var at := StreamIndex(toolCalls, tc.value);
          out := out + [ToolChunk(at, tc.value)];
        }
      }
    }

    // The completed output: tools first, then its text in place of the deltas'.
    method ParseCompletedOutput(r: Response)
      modifies this
      ensures View() == Complete(old(View()), r)
    {
      if r.usage.Some? {
        tin, tout := r.usage.value.0, r.usage.value.1;
      }
      ghost var counted := View();
      for i := 0 to |r.output|
        invariant IngestAll(counted, r.output) == IngestAll(View(), r.output[i..])
      {
        assert r.output[i..][0] == r.output[i] && r.output[i..][1..] == r.output[i + 1..];
        IngestOutputItem(r.output[i], false);
      }
      var final := ExtractCompletedText(r.output);
      if final != "" {
        text := final;
      }
    }

    method Handle(e: Event, streaming: bool)
      modifies this
      ensures View() == Step(old(View()), e, streaming)
    {
      match e
      case TextDelta(d) =>
        if d != "" {
          text := text + d;
          if streaming {
            contentEmitted := true;
            out := out + [ContentChunk(d)];
          }
        }
      case ItemAdded(item) =>
        if item.Some? {
          IngestOutputItem(item.value, streaming);
        }
      case ItemDone(item) =>
        if item.Some? {
          FinishItem(item.value, streaming);
        }
      case Completed(r) =>
        if r.Some? {
          ParseCompletedOutput(r.value);
        }
      case OtherEvent(item) =>
        if item.Some? {
          IngestOutputItem(item.value, streaming);
        }
    }

    /** The event stream from the start. */
    method ReadStream(events: seq<Event>, streaming: bool)
      requires View() == INITIAL
      modifies this
      ensures View() == Parse(events, streaming)
    {
      for i := 0 to |events|
        invariant View() == Parse(events[..i], streaming)
      {
        assert events[..i + 1][..i] == events[..i];
        Handle(events[i], streaming);
      }
      assert events[..|events|] == events;
    }

    method WriteFinale()
      modifies this
      ensures View() == Finale(old(View()))
    {
      if !contentEmitted && text != "" {
        contentEmitted := true;
        out := out + [ContentChunk(text)];
      }
      var usage := if tin + tout > 0 then Some((tin, tout)) else None;
      assert old(out) + [] == old(out);
      out := out + [FinalChunk(FinishReason(toolCalls), usage, hostedTools), DoneMarker];
    }
  }
}
