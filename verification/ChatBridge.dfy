/**
 Chat histories turned into Anthropic messages: consecutive blocks of one role become one
 message. And tool calls on their way to the client and back.
 */
module ChatBridge {
  import opened Wrappers
  import opened Text
  import opened Json
  import opened BridgeTools
  import AnthropicBridge
  import CodexBridge

  // One part of a message's content.
  datatype Part = TextPart(typ: string, text: string) | ImagePart(url: string) | OtherPart

  // A message's content: none, a string, a list of parts, or other JSON as text.
  datatype Content = Absent | Plain(s: string) | Parts(parts: seq<Part>) | Raw(text: string)

  datatype ChatMessage = ChatMessage(role: string, content: Content, toolCalls: seq<ToolCall>, toolCallId: string)

  datatype Role = User | Assistant

  datatype Block =
    | Text(text: string)
    | Image(url: string)
    | Use(id: string, name: string, input: Json)
    | ToolResult(toolUseId: string, content: string)

  datatype Turn = Turn(role: Role, blocks: seq<Block>)

  predicate IsTextPart(p: Part) {
    p.TextPart? && Lower(Trim(p.typ)) in {"text", "input_text", "output_text", ""} && p.text != ""
  }

  function PartTexts(parts: seq<Part>): seq<string> {
    if parts == [] then []
    else (if IsTextPart(parts[0]) then [parts[0].text] else []) + PartTexts(parts[1..])
  }

  function PartImages(parts: seq<Part>): seq<string> {
    if parts == [] then []
    else (if parts[0].ImagePart? then [parts[0].url] else []) + PartImages(parts[1..])
  }

  function Texts(c: Content): seq<string> {
    match c
    case Absent => []
    case Plain(s) => if s != "" then [s] else []
    case Parts(parts) => PartTexts(parts)
    case Raw(text) => if Trim(text) in {"", "null"} then [] else [Trim(text)]
  }

  function Images(c: Content): seq<string> {
    if c.Parts? then PartImages(c.parts) else []
  }

  function TextBlocks(texts: seq<string>): (blocks: seq<Block>)
    ensures |blocks| == |texts|
  {
    seq(|texts|, i requires 0 <= i < |texts| => Text(texts[i]))
  }

  function ImageBlocks(urls: seq<string>): (blocks: seq<Block>)
    ensures |blocks| == |urls|
  {
    seq(|urls|, i requires 0 <= i < |urls| => Image(urls[i]))
  }

  // The tool_use block of one tool call; calls without a name are dropped.
  function UseOf(codec: AnthropicBridge.Codec, tc: ToolCall): Option<Block> {
    if Trim(tc.name) == "" then None
    else
      var args := Trim(tc.args);
      var parsed := if args != "" then codec.unmarshal(args) else None;
      Some(Use(tc.id, Trim(tc.name), if parsed.Some? then parsed.value else Obj(map[])))
  }

  // Maps a list, dropping what maps to nothing.
  function Keep<A, B>(f: A -> Option<B>, xs: seq<A>): seq<B> {
    if xs == [] then []
    else
      var y := f(xs[|xs| - 1]);
      Keep(f, xs[..|xs| - 1]) + if y.Some? then [y.value] else []
  }

  function ToUse(codec: AnthropicBridge.Codec): ToolCall -> Option<Block> {
    (tc: ToolCall) => UseOf(codec, tc)
  }

  function UseBlocks(codec: AnthropicBridge.Codec, calls: seq<ToolCall>): seq<Block> {
    Keep(ToUse(codec), calls)
  }

  predicate IsSystem(m: ChatMessage) {
    Lower(Trim(m.role)) in {"system", "developer"}
  }

  function RoleOf(m: ChatMessage): Role {
    if Lower(Trim(m.role)) == "assistant" then Assistant else User
  }

  // The blocks of one message. An assistant's images are dropped.
  function BlocksOf(codec: AnthropicBridge.Codec, m: ChatMessage): seq<Block> {
    if IsSystem(m) then []
    else if Lower(Trim(m.role)) == "tool" then [ToolResult(Trim(m.toolCallId), Concat(Texts(m.content)))]
    else if RoleOf(m) == Assistant then TextBlocks(Texts(m.content)) + UseBlocks(codec, m.toolCalls)
    else TextBlocks(Texts(m.content)) + ImageBlocks(Images(m.content))
  }

  // Adds blocks to the last turn when it has the same role.
  function Append(turns: seq<Turn>, role: Role, blocks: seq<Block>): seq<Turn> {
    if blocks == [] then turns
    else if turns != [] && turns[|turns| - 1].role == role then
      turns[..|turns| - 1] + [Turn(role, turns[|turns| - 1].blocks + blocks)]
    else turns + [Turn(role, blocks)]
  }

  function Coalesce(codec: AnthropicBridge.Codec, messages: seq<ChatMessage>): seq<Turn> {
    if messages == [] then []
    else
      var m := messages[|messages| - 1];
      Append(Coalesce(codec, messages[..|messages| - 1]), RoleOf(m), BlocksOf(codec, m))
  }

  // The system text: every system message on a line of its own.
  function SystemText(messages: seq<ChatMessage>): string {
    if messages == [] then ""
    else
      var before := SystemText(messages[..|messages| - 1]);
      var m := messages[|messages| - 1];
      var text := if IsSystem(m) then Concat(Texts(m.content)) else "";
      if text == "" then before else before + (if before == "" then "" else "\n") + text
  }

  // ---------------------------------------------------------------------------
  // Coalescing preserves meaning
  // ---------------------------------------------------------------------------

  // Blocks with their role.
  function Tagged(role: Role, blocks: seq<Block>): (tagged: seq<(Role, Block)>)
    ensures |tagged| == |blocks|
    ensures forall i :: 0 <= i < |tagged| ==> tagged[i] == (role, blocks[i])
  {
    seq(|blocks|, i requires 0 <= i < |blocks| => (role, blocks[i]))
  }

  // All blocks of a conversation in order, with their roles.
  function Flatten(turns: seq<Turn>): seq<(Role, Block)> {
    if turns == [] then []
    else Flatten(turns[..|turns| - 1]) + Tagged(turns[|turns| - 1].role, turns[|turns| - 1].blocks)
  }

  // The same from the chat history, message by message.
  function Spoken(codec: AnthropicBridge.Codec, messages: seq<ChatMessage>): seq<(Role, Block)> {
    if messages == [] then []
    else
      var m := messages[|messages| - 1];
      Spoken(codec, messages[..|messages| - 1]) + Tagged(RoleOf(m), BlocksOf(codec, m))
  }

  // No empty message, and strictly alternating roles.
  predicate Alternating(turns: seq<Turn>) {
    && (forall i :: 0 <= i < |turns| ==> turns[i].blocks != [])
    && (forall i :: 0 < i < |turns| ==> turns[i - 1].role != turns[i].role)
  }

  lemma {:induction false} FlattenSnoc(turns: seq<Turn>, t: Turn)
    ensures Flatten(turns + [t]) == Flatten(turns) + Tagged(t.role, t.blocks)
  {
    assert (turns + [t])[..|turns|] == turns;
  }

  lemma {:induction false} ExtendMeans(init: seq<Turn>, last: Turn, blocks: seq<Block>)
    requires Alternating(init + [last])
    ensures Alternating(init + [Turn(last.role, last.blocks + blocks)])
    ensures Flatten(init + [Turn(last.role, last.blocks + blocks)])
         == Flatten(init + [last]) + Tagged(last.role, blocks)
  {
    var more := Turn(last.role, last.blocks + blocks);
    FlattenSnoc(init, more);
    FlattenSnoc(init, last);
    assert Tagged(last.role, last.blocks + blocks) == Tagged(last.role, last.blocks) + Tagged(last.role, blocks);
    forall i | 0 < i < |init + [more]|
      ensures (init + [more])[i - 1].role != (init + [more])[i].role
    {
      assert (init + [last])[i - 1].role != (init + [last])[i].role;
    }
    forall i | 0 <= i < |init + [more]|
      ensures (init + [more])[i].blocks != []
    {
      assert (init + [last])[i].blocks != [];
    }
  }

  lemma {:induction false} AddMeans(turns: seq<Turn>, t: Turn)
    requires Alternating(turns) && t.blocks != [] && (turns != [] ==> turns[|turns| - 1].role != t.role)
    ensures Alternating(turns + [t])
  {
  }

  lemma {:induction false} AppendMeans(turns: seq<Turn>, role: Role, blocks: seq<Block>)
    requires Alternating(turns)
    ensures Alternating(Append(turns, role, blocks))
    ensures Flatten(Append(turns, role, blocks)) == Flatten(turns) + Tagged(role, blocks)
  {
    if blocks == [] {
      assert Flatten(turns) + Tagged(role, blocks) == Flatten(turns);
    } else if turns != [] && turns[|turns| - 1].role == role {
      var init, last := turns[..|turns| - 1], turns[|turns| - 1];
      assert turns == init + [last];
      ExtendMeans(init, last, blocks);
    } else {
      FlattenSnoc(turns, Turn(role, blocks));
      AddMeans(turns, Turn(role, blocks));
    }
  }

  /** Every chat history becomes non-empty messages with strictly alternating roles, whose
      blocks in order are those of the history's messages, tool results included. */
  lemma {:induction false} CoalescingKeepsMeaning(codec: AnthropicBridge.Codec, messages: seq<ChatMessage>)
    ensures Alternating(Coalesce(codec, messages))
    ensures Flatten(Coalesce(codec, messages)) == Spoken(codec, messages)
  {
    if messages != [] {
      var before := messages[..|messages| - 1];
      var m := messages[|messages| - 1];
      CoalescingKeepsMeaning(codec, before);
      AppendMeans(Coalesce(codec, before), RoleOf(m), BlocksOf(codec, m));
    }
  }

  // Alternating turns can be read off their blocks: the last turn is the longest run of
  // its role at the end.
  lemma {:induction false} LastRun(turns: seq<Turn>)
    requires Alternating(turns) && turns != []
    ensures var f := Flatten(turns);
      var n := |turns[|turns| - 1].blocks|;
      && 0 < n <= |f|
      && (forall i :: |f| - n <= i < |f| ==> f[i].0 == turns[|turns| - 1].role)
      && (n < |f| ==> f[|f| - n - 1].0 != turns[|turns| - 1].role)
      && (n == |f| <==> |turns| == 1)
  {
    var init := turns[..|turns| - 1];
    if init != [] {
      LastRun(init);
      assert init[|init| - 1] == turns[|turns| - 2];
    }
  }

  lemma {:induction false} PeelLast(turns: seq<Turn>)
    requires turns != []
    ensures var f, last := Flatten(turns), turns[|turns| - 1];
      && |last.blocks| <= |f|
      && f[|f| - |last.blocks|..] == Tagged(last.role, last.blocks)
      && f[..|f| - |last.blocks|] == Flatten(turns[..|turns| - 1])
  {
  }

  lemma {:induction false} SameLast(a: seq<Turn>, b: seq<Turn>)
    requires Alternating(a) && Alternating(b) && a != [] && b != [] && Flatten(a) == Flatten(b)
    ensures a[|a| - 1] == b[|b| - 1] && Flatten(a[..|a| - 1]) == Flatten(b[..|b| - 1])
  {
    var s, t := a[|a| - 1], b[|b| - 1];
    LastRun(a);
    LastRun(b);
    SameRun(Flatten(a), s.role, |s.blocks|, t.role, |t.blocks|);
    PeelLast(a);
    PeelLast(b);
    TaggedInjective(s.role, s.blocks, t.blocks);
  }

  /** There is only one way to do it: alternating messages with the same blocks are equal. */
  lemma {:induction false} AlternatingIsUnique(a: seq<Turn>, b: seq<Turn>)
    requires Alternating(a) && Alternating(b) && Flatten(a) == Flatten(b)
    ensures a == b
    decreases |a|
  {
    if a == [] || b == [] {
      if a != [] {
        LastRun(a);
      }
      if b != [] {
        LastRun(b);
      }
    } else {
      SameLast(a, b);
      AlternatingIsUnique(a[..|a| - 1], b[..|b| - 1]);
      assert a == a[..|a| - 1] + [a[|a| - 1]] && b == b[..|b| - 1] + [b[|b| - 1]];
    }
  }

  // The longest run of one role at the end is unique.
  lemma {:induction false} SameRun(f: seq<(Role, Block)>, r: Role, m: nat, q: Role, n: nat)
    requires 0 < m <= |f| && 0 < n <= |f|
    requires (forall i :: |f| - m <= i < |f| ==> f[i].0 == r) && (m < |f| ==> f[|f| - m - 1].0 != r)
    requires (forall i :: |f| - n <= i < |f| ==> f[i].0 == q) && (n < |f| ==> f[|f| - n - 1].0 != q)
    ensures m == n && r == q
  {
    assert f[|f| - 1].0 == r == q;
  }

  lemma {:induction false} TaggedInjective(role: Role, a: seq<Block>, b: seq<Block>)
    requires Tagged(role, a) == Tagged(role, b)
    ensures a == b
  {
    forall i | 0 <= i < |a|
      ensures a[i] == b[i]
    {
      assert Tagged(role, a)[i] == Tagged(role, b)[i];
    }
  }

  // ---------------------------------------------------------------------------
  // Tool calls there and back
  // ---------------------------------------------------------------------------

  // What is assumed of the JSON library for one value: it parses what it prints of it, and
  // prints no white space around it.
  predicate PrintsBack(codec: AnthropicBridge.Codec, j: Json) {
    var text := codec.marshal(j);
    codec.unmarshal(text) == Some(j) && text != "" && Trimmed(text)
  }

  // It reads the empty object, which stands for a missing input.
  predicate ReadsEmptyObject(codec: AnthropicBridge.Codec) {
    codec.unmarshal("{}") == Some(Obj(map[]))
  }

  // The inputs of these blocks are values of the library.
  predicate InputsPrintBack(codec: AnthropicBridge.Codec, uses: seq<Block>) {
    forall i :: 0 <= i < |uses| && uses[i].Use? && uses[i].input != Null ==> PrintsBack(codec, uses[i].input)
  }

  predicate Clean(s: string) {
    s != "" && Trimmed(s)
  }

  function Compose<A, B, C>(f: A -> Option<B>, g: B -> Option<C>): A -> Option<C> {
    (x: A) => var y := f(x); if y.Some? then g(y.value) else None
  }

  lemma {:induction false} KeepTwice<A, B, C>(f: A -> Option<B>, g: B -> Option<C>, xs: seq<A>)
    ensures Keep(g, Keep(f, xs)) == Keep(Compose(f, g), xs)
  {
    if xs != [] {
      var init, x := xs[..|xs| - 1], xs[|xs| - 1];
      KeepTwice(f, g, init);
      var kept := Keep(f, init);
      if f(x).Some? {
        assert (kept + [f(x).value])[..|kept|] == kept;
      } else {
        assert kept + [] == kept;
      }
    }
  }

  lemma {:induction false} KeepShrinks<A, B>(f: A -> Option<B>, xs: seq<A>)
    ensures |Keep(f, xs)| <= |xs|
  {
    if xs != [] {
      KeepShrinks(f, xs[..|xs| - 1]);
    }
  }

  function Each<A, B>(g: A -> B, xs: seq<A>): (ys: seq<B>)
    ensures |ys| == |xs|
    ensures forall i :: 0 <= i < |xs| ==> ys[i] == g(xs[i])
  {
    seq(|xs|, i requires 0 <= i < |xs| => g(xs[i]))
  }

  // A list comes out as `g` of each element exactly when each element does.
  lemma {:induction false} KeepsAllExactly<A, B>(f: A -> Option<B>, g: A -> B, xs: seq<A>)
    ensures Keep(f, xs) == Each(g, xs) <==> forall i :: 0 <= i < |xs| ==> f(xs[i]) == Some(g(xs[i]))
  {
    if xs != [] {
      var init, x := xs[..|xs| - 1], xs[|xs| - 1];
      KeepsAllExactly(f, g, init);
      KeepShrinks(f, init);
      assert Each(g, xs) == Each(g, init) + [g(x)];
      if Keep(f, xs) == Each(g, xs) {
        assert |Keep(f, init)| == |init| && f(x).Some?;
        assert Keep(f, init) == Keep(f, xs)[..|init|] == Each(g, init);
        assert f(x) == Some(Keep(f, xs)[|init|]);
      }
      if forall i :: 0 <= i < |xs| ==> f(xs[i]) == Some(g(xs[i])) {
        assert forall i :: 0 <= i < |init| ==> init[i] == xs[i];
        assert f(xs[|xs| - 1]) == Some(g(x));
      }
    }
  }

  // A tool_use block as the bridge from Anthropic sees it.
  function ToCall(codec: AnthropicBridge.Codec): Block -> Option<ToolCall> {
    (b: Block) =>
      if b.Use? then AnthropicBridge.ToolCallFromBlock(codec, AnthropicBridge.ToolUse(b.id, b.name, b.input)) else None
  }

  lemma {:induction false} UseOfPrinted(codec: AnthropicBridge.Codec, id: string, name: string, input: Json)
    requires Trim(name) != "" && if input == Null then ReadsEmptyObject(codec) else PrintsBack(codec, input)
    ensures UseOf(codec, ToolCall(id, name, if input == Null then "{}" else codec.marshal(input)))
         == Some(Use(id, Trim(name), if input == Null then Obj(map[]) else input))
  {
    var args := if input == Null then "{}" else codec.marshal(input);
    TrimOfTrimmed(args);
  }

  predicate SurvivingUse(b: Block) {
    b.Use? && Clean(b.name) && b.input != Null
  }

  lemma {:induction false} UseSurvivesExactly(codec: AnthropicBridge.Codec, b: Block)
    requires ReadsEmptyObject(codec) && (b.Use? && b.input != Null ==> PrintsBack(codec, b.input))
    ensures Compose(ToCall(codec), ToUse(codec))(b) == Some(b) <==> SurvivingUse(b)
  {
    if b.Use? {
      TrimIsTrimmed(b.name);
      if Trimmed(b.name) {
        TrimOfTrimmed(b.name);
      }
      if Trim(b.name) != "" {
        UseOfPrinted(codec, b.id, b.name, b.input);
      }
    }
  }

  function Same<A>(): A -> A {
    x => x
  }

  lemma {:induction false} EachSame<A>(xs: seq<A>)
    ensures Each(Same(), xs) == xs
  {
  }

  /** Tool_use blocks turned into a client's tool calls and back are unchanged exactly when
      each has a trimmed, non-empty name and a non-null input; for lists of any length, when
      the library parses what it prints of these inputs. */
  lemma {:induction false} UsesSurviveExactly(codec: AnthropicBridge.Codec, uses: seq<Block>)
    requires ReadsEmptyObject(codec) && InputsPrintBack(codec, uses)
    ensures UseBlocks(codec, Keep(ToCall(codec), uses)) == uses
            <==> forall i :: 0 <= i < |uses| ==> SurvivingUse(uses[i])
  {
    KeepTwice(ToCall(codec), ToUse(codec), uses);
    KeepsAllExactly(Compose(ToCall(codec), ToUse(codec)), Same(), uses);
    EachSame(uses);
    forall i | 0 <= i < |uses|
      ensures Compose(ToCall(codec), ToUse(codec))(uses[i]) == Some(uses[i]) <==> SurvivingUse(uses[i])
    {
      UseSurvivesExactly(codec, uses[i]);
    }
  }

  // The function_call item of one tool call; calls without a name or an id are dropped.
  function FunctionCallOf(tc: ToolCall): Option<CodexBridge.Item> {
    if Trim(tc.name) == "" || Trim(tc.id) == "" then None
    else Some(CodexBridge.FunctionCall(
      Trim(tc.id), "", Trim(tc.name), if Trim(tc.args) == "" then "{}" else Trim(tc.args)))
  }

  function ToFunctionCall(): ToolCall -> Option<CodexBridge.Item> {
    (tc: ToolCall) => FunctionCallOf(tc)
  }

  function FunctionCalls(calls: seq<ToolCall>): seq<CodexBridge.Item> {
    Keep(ToFunctionCall(), calls)
  }

  function FromItem(): CodexBridge.Item -> Option<ToolCall> {
    (item: CodexBridge.Item) => CodexBridge.ToolCallFromItem(item)
  }

  // A call whose call id, name and arguments are trimmed and not empty.
  predicate CleanItem(item: CodexBridge.Item) {
    item.FunctionCall? && Clean(item.callId) && Clean(item.name) && Clean(item.args)
  }

  // The item without the id of its own, which a client never sees beside a call id.
  function CallPart(): CodexBridge.Item -> CodexBridge.Item {
    (item: CodexBridge.Item) =>
      if item.FunctionCall? then CodexBridge.FunctionCall(item.callId, "", item.name, item.args) else item
  }

  lemma {:induction false} TrimSameExactly(s: string)
    ensures Trim(s) == s <==> Trimmed(s)
  {
    TrimIsTrimmed(s);
    if Trimmed(s) {
      TrimOfTrimmed(s);
    }
  }

  lemma {:induction false} ItemSurvivesExactly(item: CodexBridge.Item)
    ensures Compose(FromItem(), ToFunctionCall())(item) == Some(CallPart()(item)) <==> CleanItem(item)
  {
    if item.FunctionCall? {
      TrimSameExactly(item.callId);
      TrimSameExactly(item.name);
      TrimSameExactly(item.args);
    }
  }

  /** Codex function_call items turned into a client's tool calls and back come out with
      their call ids, names and arguments, but without the ids of their own, exactly when
      each call id, name and arguments is trimmed and not empty; for lists of any length. */
  lemma {:induction false} ItemsSurviveExactly(items: seq<CodexBridge.Item>)
    ensures FunctionCalls(Keep(FromItem(), items)) == Each(CallPart(), items)
            <==> forall i :: 0 <= i < |items| ==> CleanItem(items[i])
  {
    KeepTwice(FromItem(), ToFunctionCall(), items);
    KeepsAllExactly(Compose(FromItem(), ToFunctionCall()), CallPart(), items);
    forall i | 0 <= i < |items|
      ensures Compose(FromItem(), ToFunctionCall())(items[i]) == Some(CallPart()(items[i])) <==> CleanItem(items[i])
    {
      ItemSurvivesExactly(items[i]);
    }
  }

  /** They are unchanged altogether exactly when, besides, none has an id of its own. */
  lemma {:induction false} ItemsUnchangedExactly(items: seq<CodexBridge.Item>)
    ensures FunctionCalls(Keep(FromItem(), items)) == items
            <==> forall i :: 0 <= i < |items| ==> CleanItem(items[i]) && items[i].id == ""
  {
    KeepTwice(FromItem(), ToFunctionCall(), items);
    KeepsAllExactly(Compose(FromItem(), ToFunctionCall()), Same(), items);
    EachSame(items);
    forall i | 0 <= i < |items|
      ensures Compose(FromItem(), ToFunctionCall())(items[i]) == Some(items[i])
              <==> CleanItem(items[i]) && items[i].id == ""
    {
      ItemSurvivesExactly(items[i]);
    }
  }

  // ---------------------------------------------------------------------------
  // The loops
  // ---------------------------------------------------------------------------

  method AppendAnthropicMessage(turns: seq<Turn>, role: Role, blocks: seq<Block>) returns (out: seq<Turn>)
    ensures out == Append(turns, role, blocks)
  {
    if blocks == [] {
      return turns;
    }
    if turns != [] {
      var last := turns[|turns| - 1];
      if last.role == role {
        out := turns[|turns| - 1 := last.(blocks := last.blocks + blocks)];
        assert out == turns[..|turns| - 1] + [Turn(role, last.blocks + blocks)];
        return;
      }
    }
    out := turns + [Turn(role, blocks)];
  }

  method AnthropicToolUseBlocks(codec: AnthropicBridge.Codec, calls: seq<ToolCall>) returns (out: seq<Block>)
    ensures out == UseBlocks(codec, calls)
  {
    out := [];
    for i := 0 to |calls|
      invariant out == UseBlocks(codec, calls[..i])
    {
      assert calls[..i + 1][..i] == calls[..i];
      var use := UseOf(codec, calls[i]);
      if use.Some? {
        out := out + [use.value];
      }
    }
    assert calls[..|calls|] == calls;
  }

  method ResponsesFunctionCalls(calls: seq<ToolCall>) returns (out: seq<CodexBridge.Item>)
    ensures out == FunctionCalls(calls)
  {
    out := [];
    for i := 0 to |calls|
      invariant out == FunctionCalls(calls[..i])
    {
      assert calls[..i + 1][..i] == calls[..i];
      var item := FunctionCallOf(calls[i]);
      if item.Some? {
        out := out + [item.value];
      }
    }
    assert calls[..|calls|] == calls;
  }

  /** The conversion of a chat history. It fails exactly when no message has a block to send. */
  method ChatToAnthropicMessages(codec: AnthropicBridge.Codec, messages: seq<ChatMessage>)
    returns (r: Result<(string, seq<Turn>), string>)
    ensures r.Err? <==> Spoken(codec, messages) == []
    ensures r.Ok? ==> r.value.0 == Trim(SystemText(messages)) && r.value.1 == Coalesce(codec, messages)
  {
    var system := "";
    var turns: seq<Turn> := [];
    for i := 0 to |messages|
      invariant system == SystemText(messages[..i]) && turns == Coalesce(codec, messages[..i])
    {
      assert messages[..i + 1][..i] == messages[..i];
      var m := messages[i];
      if IsSystem(m) {
        var text := Concat(Texts(m.content));
        if text != "" {
          system := system + (if system == "" then "" else "\n") + text;
        }
      } else {
        turns := AppendAnthropicMessage(turns, RoleOf(m), BlocksOf(codec, m));
      }
    }
    assert messages[..|messages|] == messages;
    CoalescingKeepsMeaning(codec, messages);
    if turns == [] {
      return Err("no user/assistant messages");
    }
    SomethingSpoken(codec, messages);
    r := Ok((Trim(system), turns));
  }

  lemma {:induction false} SomethingSpoken(codec: AnthropicBridge.Codec, messages: seq<ChatMessage>)
    requires Coalesce(codec, messages) != []
    ensures Spoken(codec, messages) != []
  {
    CoalescingKeepsMeaning(codec, messages);
    LastRun(Coalesce(codec, messages));
  }

  // ---------------------------------------------------------------------------
  // What each message says
  // ---------------------------------------------------------------------------

  // The non-empty texts of a content, in order.
  ghost predicate HasTexts(c: Content, texts: seq<string>) {
    match c
    case Absent => texts == []
    case Plain(s) => texts == if s == "" then [] else [s]
    case Parts(parts) => IsTextsOf(parts, texts)
    case Raw(text) => texts == if Trim(text) == "" || Trim(text) == "null" then [] else [Trim(text)]
  }

  predicate CountsAsText(p: Part) {
    p.TextPart? && p.text != "" &&
    var typ := Lower(Trim(p.typ));
    typ == "" || typ == "text" || typ == "input_text" || typ == "output_text"
  }

  predicate IsTextsOf(parts: seq<Part>, texts: seq<string>)
    decreases |parts|
  {
    if parts == [] then texts == []
    else if CountsAsText(parts[0]) then texts != [] && texts[0] == parts[0].text && IsTextsOf(parts[1..], texts[1..])
    else IsTextsOf(parts[1..], texts)
  }

  predicate IsImagesOf(parts: seq<Part>, urls: seq<string>)
    decreases |parts|
  {
    if parts == [] then urls == []
    else if parts[0].ImagePart? then urls != [] && urls[0] == parts[0].url && IsImagesOf(parts[1..], urls[1..])
    else IsImagesOf(parts[1..], urls)
  }

  lemma {:induction false} PartTextsAre(parts: seq<Part>)
    ensures IsTextsOf(parts, PartTexts(parts)) && IsImagesOf(parts, PartImages(parts))
    decreases |parts|
  {
    if parts != [] {
      PartTextsAre(parts[1..]);
      assert [] + PartTexts(parts[1..]) == PartTexts(parts[1..]);
      assert [] + PartImages(parts[1..]) == PartImages(parts[1..]);
      assert CountsAsText(parts[0]) ==> PartTexts(parts)[1..] == PartTexts(parts[1..]);
      assert parts[0].ImagePart? ==> PartImages(parts)[1..] == PartImages(parts[1..]);
    }
  }

  lemma {:induction false} TextsAre(c: Content)
    ensures HasTexts(c, Texts(c)) && IsImagesOf(if c.Parts? then c.parts else [], Images(c))
  {
    if c.Parts? {
      PartTextsAre(c.parts);
    }
  }

  predicate AreTexts(blocks: seq<Block>, texts: seq<string>) {
    |blocks| == |texts| && forall i :: 0 <= i < |blocks| ==> blocks[i] == Text(texts[i])
  }

  predicate AreImages(blocks: seq<Block>, urls: seq<string>) {
    |blocks| == |urls| && forall i :: 0 <= i < |blocks| ==> blocks[i] == Image(urls[i])
  }

  // The tool_use blocks of these calls: of each with a name, its input, or an empty object
  // for arguments that are none.
  predicate AreUses(codec: AnthropicBridge.Codec, calls: seq<ToolCall>, blocks: seq<Block>)
    decreases |calls|
  {
    if calls == [] then blocks == []
    else
      var tc := calls[|calls| - 1];
      if Trim(tc.name) == "" then AreUses(codec, calls[..|calls| - 1], blocks)
      else
        && blocks != []
        && (var b := blocks[|blocks| - 1];
            && b.Use? && b.id == tc.id && b.name == Trim(tc.name)
            && (if Trim(tc.args) != "" && codec.unmarshal(Trim(tc.args)).Some?
                then Some(b.input) == codec.unmarshal(Trim(tc.args)) else b.input == Obj(map[])))
        && AreUses(codec, calls[..|calls| - 1], blocks[..|blocks| - 1])
  }

  lemma {:induction false} UsesAre(codec: AnthropicBridge.Codec, calls: seq<ToolCall>)
    ensures AreUses(codec, calls, UseBlocks(codec, calls))
    decreases |calls|
  {
    if calls != [] {
      var before := calls[..|calls| - 1];
      var tc := calls[|calls| - 1];
      UsesAre(codec, before);
      assert ToUse(codec)(tc) == UseOf(codec, tc);
      if Trim(tc.name) == "" {
        assert UseBlocks(codec, before) + [] == UseBlocks(codec, before);
      } else {
        assert UseBlocks(codec, calls)[..|UseBlocks(codec, calls)| - 1] == UseBlocks(codec, before);
      }
    }
  }

  // What one message adds to the conversation, and as whom.
  ghost predicate Says(codec: AnthropicBridge.Codec, m: ChatMessage, said: seq<(Role, Block)>) {
    var role := Lower(Trim(m.role));
    exists speaker: Role, blocks: seq<Block> ::
      && said == Tagged(speaker, blocks)
      && (speaker == Assistant <==> role == "assistant")
      && SaidBy(codec, m, role, blocks)
  }

  ghost predicate SaidBy(codec: AnthropicBridge.Codec, m: ChatMessage, role: string, blocks: seq<Block>) {
    if role == "system" || role == "developer" then blocks == []
    else if role == "tool" then
      exists texts: seq<string> ::
        HasTexts(m.content, texts) && blocks == [ToolResult(Trim(m.toolCallId), Concat(texts))]
    else
      exists texts: seq<string>, rest: seq<Block>, n: nat ::
        HasTexts(m.content, texts) && Followed(codec, m, role, blocks, texts, rest, n)
  }

  // Texts first, then an assistant's tool calls, or another's images.
  ghost predicate Followed(
    codec: AnthropicBridge.Codec, m: ChatMessage, role: string, blocks: seq<Block>, texts: seq<string>,
    rest: seq<Block>, n: nat)
  {
    && n <= |blocks| && AreTexts(blocks[..n], texts) && blocks[n..] == rest
    && (if role == "assistant" then AreUses(codec, m.toolCalls, rest)
        else
          exists urls: seq<string> ::
            IsImagesOf(if m.content.Parts? then m.content.parts else [], urls) && AreImages(rest, urls))
  }

  /** Each message adds to the conversation what its role lets it say: nothing for system
      and developer, a tool's result, an assistant's texts and calls, another's texts and
      images; as the assistant for that role alone. */
  lemma {:induction false} MessageSays(codec: AnthropicBridge.Codec, messages: seq<ChatMessage>, m: ChatMessage)
    ensures exists said: seq<(Role, Block)> ::
      Says(codec, m, said) && Spoken(codec, messages + [m]) == Spoken(codec, messages) + said
  {
    var said := Tagged(RoleOf(m), BlocksOf(codec, m));
    assert (messages + [m])[..|messages|] == messages;
    BlocksAreSaid(codec, m);
    assert Says(codec, m, said);
  }

  lemma {:induction false} BlocksAreSaid(codec: AnthropicBridge.Codec, m: ChatMessage)
    ensures SaidBy(codec, m, Lower(Trim(m.role)), BlocksOf(codec, m))
  {
    var role := Lower(Trim(m.role));
    var texts := Texts(m.content);
    var blocks := BlocksOf(codec, m);
    TextsAre(m.content);
    UsesAre(codec, m.toolCalls);
    if !IsSystem(m) && role != "tool" {
      var n := |texts|;
      assert blocks[..n] == TextBlocks(texts);
      assert role != "assistant" ==> AreImages(blocks[n..], Images(m.content));
      assert Followed(codec, m, role, blocks, texts, blocks[n..], n);
    }
  }

  predicate SpeaksAsSystem(m: ChatMessage) {
    var role := Lower(Trim(m.role));
    role == "system" || role == "developer"
  }

  // The texts of the system messages that have any, in order.
  ghost predicate AreSystemLines(messages: seq<ChatMessage>, lines: seq<string>)
    decreases |messages|
  {
    if messages == [] then lines == []
    else
      var before, m := messages[..|messages| - 1], messages[|messages| - 1];
      exists texts: seq<string> :: HasTexts(m.content, texts) &&
        if SpeaksAsSystem(m) && Concat(texts) != ""
        then lines != [] && lines[|lines| - 1] == Concat(texts) && AreSystemLines(before, lines[..|lines| - 1])
        else AreSystemLines(before, lines)
  }

  // The lines, with a line break between each two.
  function JoinLines(lines: seq<string>): string {
    if lines == [] then ""
    else if |lines| == 1 then lines[0]
    else JoinLines(lines[..|lines| - 1]) + "\n" + lines[|lines| - 1]
  }

  // None of the lines is empty.
  predicate NoneEmpty(lines: seq<string>) {
    forall i :: 0 <= i < |lines| ==> lines[i] != ""
  }

  lemma {:induction false} JoinLinesNext(lines: seq<string>, line: string)
    requires NoneEmpty(lines)
    ensures JoinLines(lines) == "" <==> lines == []
    ensures JoinLines(lines + [line]) == if lines == [] then line else JoinLines(lines) + "\n" + line
  {
    assert (lines + [line])[..|lines|] == lines;
    if lines != [] {
      assert lines[|lines| - 1] != "";
      assert |JoinLines(lines)| > 0;
    }
  }

  // The lines with those of one more message.
  function MoreLines(lines: seq<string>, m: ChatMessage): seq<string> {
    if SpeaksAsSystem(m) && Concat(Texts(m.content)) != "" then lines + [Concat(Texts(m.content))] else lines
  }

  lemma {:induction false} SystemTextNext(messages: seq<ChatMessage>, lines: seq<string>, m: ChatMessage)
    requires NoneEmpty(lines) && SystemText(messages) == JoinLines(lines)
    ensures NoneEmpty(MoreLines(lines, m)) && SystemText(messages + [m]) == JoinLines(MoreLines(lines, m))
  {
    assert (messages + [m])[..|messages|] == messages;
    JoinLinesNext(lines, Concat(Texts(m.content)));
  }

  lemma {:induction false} SystemLinesNext(messages: seq<ChatMessage>, lines: seq<string>, m: ChatMessage)
    requires AreSystemLines(messages, lines)
    ensures AreSystemLines(messages + [m], MoreLines(lines, m))
  {
    var text := Concat(Texts(m.content));
    assert (messages + [m])[..|messages|] == messages && (lines + [text])[..|lines|] == lines;
    TextsAre(m.content);
  }

  /** The system text is the texts of the system and developer messages, each on a line. */
  lemma {:induction false} SystemTextIs(messages: seq<ChatMessage>) returns (lines: seq<string>)
    ensures AreSystemLines(messages, lines) && NoneEmpty(lines) && SystemText(messages) == JoinLines(lines)
    decreases |messages|
  {
    if messages == [] {
      lines := [];
    } else {
      var before, m := messages[..|messages| - 1], messages[|messages| - 1];
      var some := SystemTextIs(before);
      SystemTextNext(before, some, m);
      SystemLinesNext(before, some, m);
      assert messages == before + [m];
      lines := MoreLines(some, m);
    }
  }

  // The item of a call with a name and an id, with an empty object for no arguments.
  predicate IsItemOf(tc: ToolCall, item: CodexBridge.Item) {
    && item.FunctionCall? && item.callId == Trim(tc.id) && item.id == "" && item.name == Trim(tc.name)
    && (if Trim(tc.args) != "" then item.args == Trim(tc.args) else item.args == "{}")
  }

  predicate AreItems(calls: seq<ToolCall>, items: seq<CodexBridge.Item>)
    decreases |calls|
  {
    if calls == [] then items == []
    else
      var tc := calls[|calls| - 1];
      if Trim(tc.name) == "" || Trim(tc.id) == "" then AreItems(calls[..|calls| - 1], items)
      else
        && items != [] && IsItemOf(tc, items[|items| - 1])
        && AreItems(calls[..|calls| - 1], items[..|items| - 1])
  }

  /** A client's tool calls become items one by one; those without a name or an id are
      dropped. */
  lemma {:induction false} ItemsAre(calls: seq<ToolCall>)
    ensures AreItems(calls, FunctionCalls(calls))
    decreases |calls|
  {
    if calls != [] {
      var before := calls[..|calls| - 1];
      var tc := calls[|calls| - 1];
      ItemsAre(before);
      assert ToFunctionCall()(tc) == FunctionCallOf(tc);
      if FunctionCallOf(tc).None? {
        assert FunctionCalls(before) + [] == FunctionCalls(before);
      } else {
        assert FunctionCalls(calls)[..|FunctionCalls(calls)| - 1] == FunctionCalls(before);
      }
    }
  }
}
