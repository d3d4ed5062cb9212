/** The Anthropic parser over its mutable state, proved against the functions of `AnthropicBridge`. */
module AnthropicParser {
  import opened Wrappers
  import opened Json
  import opened BridgeTools
  import opened AnthropicBridge

  class Parser {
    var text: string
    var tin: int
    var tout: int
    var hostedTools: seq<HostedTool>
    var toolCalls: seq<ToolCall>
    var pendingSearch: map<string, HostedTool>
    var blockStarts: map<int, Block>
    var blockInputJSON: map<int, string>
    var stopReason: string
    var contentEmitted: bool
    var out: seq<Chunk>

    constructor ()
      ensures View() == INITIAL
    {
      text, tin, tout, hostedTools, toolCalls, pendingSearch, stopReason := "", 0, 0, [], [], map[], "";
      blockStarts, blockInputJSON, contentEmitted, out := map[], map[], false, [];
    }

    function Means(): Meaning
      reads this
    {
      Meaning(text, tin, tout, hostedTools, toolCalls, pendingSearch, stopReason)
    }

    function View(): State
      reads this
    {
      State(Means(), blockStarts, blockInputJSON, contentEmitted, out)
    }

    // One content block; a streaming parser tells its client about hosted tools.
    method IngestContentBlock(codec: Codec, block: Block, streaming: bool)
      modifies this
      ensures View() == old(View()).(
        m := Ingest(codec, old(Means()), block),
        out := if streaming then old(out) + HostedChunks(codec, old(Means()), block) else old(out))
    {
      match block
      case TextBlock(t) =>
        if t != "" {
          text := text + t;
        } else {
          assert text + t == text;
        }
      case ToolUse(_, _, _) =>
        var tc := ToolCallFromBlock(codec, block);
        if tc.Some? {
          toolCalls := MergeCall(toolCalls, tc.value);
        }
      case ServerToolUse(_, _, _) =>
        var ht := HostedFromServerUse(codec, block);
        if ht.Some? {
          if ht.value.id != "" {
            pendingSearch := pendingSearch[ht.value.id := ht.value];
          }
          hostedTools := MergeHosted(hostedTools, ht.value);
          if streaming {
            out := out + [HostedChunk("started", ht.value)];
          }
        }
      case SearchResult(_) =>
        var ht := HostedFromSearchResult(block, pendingSearch);
        hostedTools := MergeHosted(hostedTools, ht.value);
        if streaming {
          out := out + [HostedChunk("completed", ht.value)];
        }
      case OtherBlock =>
    }

    /** The whole message in one pass. */
    method ReadMessage(codec: Codec, msg: Message)
      modifies this
      ensures View() == old(View()).(m := IngestMessage(codec, old(Means()), msg))
    {
      if msg.usage.Some? {
        tin, tout := msg.usage.value.0, msg.usage.value.1;
      }
      if msg.stopReason != "" {
        stopReason := msg.stopReason;
      }
      ghost var begun := View();
      for i := 0 to |msg.blocks|
        invariant View() == begun.(m := Means())
        invariant IngestAll(codec, begun.m, msg.blocks) == IngestAll(codec, Means(), msg.blocks[i..])
      {
        assert msg.blocks[i..][0] == msg.blocks[i] && msg.blocks[i..][1..] == msg.blocks[i + 1..];
        IngestContentBlock(codec, msg.blocks[i], false);
      }
    }

    method CloseBlock(index: int)
      modifies this`blockStarts, this`blockInputJSON
      ensures View() == Close(old(View()), index)
    {
      blockStarts := blockStarts - {index};
      blockInputJSON := blockInputJSON - {index};
    }

    method StartBlock(codec: Codec, index: int, block: Block, streaming: bool)
      modifies this
      ensures View() == OnStart(codec, old(View()), index, block, streaming)
    {
      blockStarts := blockStarts[index := block];
      if block.ServerToolUse? || block.SearchResult? {
        IngestContentBlock(codec, block, streaming);
      }
    }

    method ApplyDelta(index: int, delta: Delta, streaming: bool)
      modifies this
      ensures View() == OnDelta(old(View()), index, delta, streaming)
    {
      match delta
      case TextDelta(t) =>
        if t == "" {
          return;
        }
        text := text + t;
        if streaming {
          contentEmitted := true;
          out := out + [ContentChunk(t)];
        }
      case JsonDelta(partial) =>
        var before := if index in blockInputJSON then blockInputJSON[index] else "";
        blockInputJSON := blockInputJSON[index := before + partial];
      case OtherDelta =>
    }

    // The end of a tool call. When streaming, the chunk is written and the block is left open.
    method StopTool(index: int, tc: Option<ToolCall>, streaming: bool)
      modifies this
      ensures View() == Called(old(View()), index, tc, streaming)
    {
      if tc.Some? {
        toolCalls := MergeCall(toolCalls, tc.value);
        if streaming {
          var at := StreamIndex(toolCalls, tc.value);
          out := out + [ToolChunk(at, tc.value)];
          return;
        }
      }
      CloseBlock(index);
    }

    method StopSearch(id: string, action: Option<Json>)
      modifies this
      ensures View() == old(View()).(m := WithAction(old(Means()), id, action))
    {
      if action.Some? && id != "" && id in pendingSearch {
        var ht := pendingSearch[id].(action := action);
        pendingSearch := pendingSearch[id := ht];
        hostedTools := MergeHosted(hostedTools, ht);
      }
    }

    method StopBlock(codec: Codec, index: int, streaming: bool)
      modifies this
      ensures View() == OnStop(codec, old(View()), index, streaming)
    {
      if index in blockStarts {
        var start := blockStarts[index];
        var input := if index in blockInputJSON then blockInputJSON[index] else "";
        if start.ToolUse? {
          var whole := ToolUse(start.id, start.name, FinalInput(codec, start.input, input));
          StopTool(index, ToolCallFromBlock(codec, whole), streaming);
          return;
        }
        if start.ServerToolUse? {
          StopSearch(start.id, SearchAction(codec, Str(input)));
        }
      }
      CloseBlock(index);
    }

    // One event; false when the vendor reports an error.
    method Handle(codec: Codec, e: Event, streaming: bool) returns (ok: bool)
      modifies this
      ensures ok == Step(codec, old(View()), e, streaming).Some?
      ensures View() == if ok then Step(codec, old(View()), e, streaming).value else old(View())
    {
      ok := true;
      match e
      case MessageStart(count) =>
        if count.Some? {
          tin := count.value;
        }
      case BlockStart(index, block) =>
        if block.Some? {
          StartBlock(codec, index, block.value, streaming);
        }
      case BlockDelta(index, delta) => ApplyDelta(index, delta, streaming);
      case BlockStop(index) => StopBlock(codec, index, streaming);
      case MessageDelta(stop, count) =>
        if stop != "" {
          stopReason := stop;
        }
        if count.Some? {
          tout := count.value;
        }
      case ErrorEvent(message) => ok := message == "";
      case Ignored =>
    }

    /** The event stream, to its end or to the vendor's error. */
    method ReadStream(codec: Codec, events: seq<Event>, streaming: bool) returns (ok: bool)
      modifies this
      ensures ok == Parse(codec, old(View()), events, streaming).Some?
      ensures ok ==> View() == Parse(codec, old(View()), events, streaming).value
    {
      for i := 0 to |events|
        invariant Parse(codec, old(View()), events, streaming) == Parse(codec, View(), events[i..], streaming)
      {
        assert events[i..][0] == events[i] && events[i..][1..] == events[i + 1..];
        ok := Handle(codec, events[i], streaming);
        if !ok {
          return;
        }
      }
      ok := true;
    }

    method WriteFinale()
      modifies this
      ensures View() == Finale(old(View()))
    {
      if !contentEmitted && text != "" {
        contentEmitted := true;
        out := out + [ContentChunk(text)];
      }
      var finish := FinishReason(stopReason, toolCalls != []);
      var usage := if tin + tout > 0 then Some((tin, tout)) else None;
      assert old(out) + [] == old(out);
      out := out + [FinalChunk(finish, usage, hostedTools), DoneMarker];
    }
  }
}
