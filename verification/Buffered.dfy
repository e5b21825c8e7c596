// The buffered answer, and its agreement with the streamed one.
module Buffered {
  import opened Wrappers
  import opened Text
  import opened StreamEvents

  datatype Block = Block(kind: string, text: string)

  // A decoded messages response, as far as it is read.
  datatype Message = Message(id: string, model: string, createdAt: int, content: seq<Block>,
                             stopReason: string, inputTokens: int, outputTokens: int)

  datatype Completion = Completion(id: string, model: string, created: int, content: string, finishReason: string,
                                   promptTokens: int, completionTokens: int, totalTokens: int)

  // The text of the text blocks, in order.
  function ContentText(content: seq<Block>): string {
    if content == [] then ""
    else (if content[0].kind == "text" then content[0].text else "") + ContentText(content[1..])
  }

  lemma {:induction false} ContentTextSnoc(content: seq<Block>, b: Block)
    ensures ContentText(content + [b]) == ContentText(content) + (if b.kind == "text" then b.text else "")
  {
    if content == [] {
      assert content + [b] == [b] && [b][1..] == [];
    } else {
      assert (content + [b])[1..] == content[1..] + [b];
      ContentTextSnoc(content[1..], b);
    }
  }

  method ContentTextLoop(content: seq<Block>) returns (b: string)
    ensures b == ContentText(content)
  {
    b := "";
    for k := 0 to |content|
      invariant b == ContentText(content[..k])
    {
      assert content[..k + 1] == content[..k] + [content[k]];
      ContentTextSnoc(content[..k], content[k]);
      if content[k].kind == "text" { b := b + content[k].text; } else { AppendEmpty(b); }
    }
    assert content[..|content|] == content;
  }

  method NormalizeResponse(m: Message) returns (c: Completion)
    ensures c.content == ContentText(m.content) && c.finishReason == MapStopReason(m.stopReason)
    ensures c.id == m.id && c.model == m.model && c.created == m.createdAt
    ensures c.promptTokens == m.inputTokens && c.completionTokens == m.outputTokens
    ensures c.totalTokens == c.promptTokens + c.completionTokens
    ensures c.finishReason == (if m.stopReason == "max_tokens" then "length"
                               else if m.stopReason == "tool_use" then "tool_calls" else "stop")
  {
    var content := ContentTextLoop(m.content);
    c := Completion(m.id, m.model, m.createdAt, content, MapStopReason(m.stopReason),
                    m.inputTokens, m.outputTokens, m.inputTokens + m.outputTokens);
  }

  // --- The same message as a stream ---

  // One block on the wire: the payloads of its start, its deltas and its stop.
  datatype BlockStream = BlockStream(start: string, deltas: seq<string>, stop: string)

  // One message on the wire.
  datatype MessageStream = MessageStream(start: string, blocks: seq<BlockStream>, delta: string, stop: string)

  function DeltaTextOf(env: Env, deltas: seq<string>): string {
    if deltas == [] then ""
    else TextOf(env, Event("content_block_delta", deltas[0])) + DeltaTextOf(env, deltas[1..])
  }

  // A text block is cut into text deltas that concatenate to it, empty ones included;
  // the deltas of any other block are not text deltas.
  predicate CarriesBlock(env: Env, b: Block, s: BlockStream) {
    && (forall d :: d in s.deltas ==> d != "" && env.deltaOf(d).Some?)
    && (b.kind == "text" ==> (forall d :: d in s.deltas ==> env.deltaOf(d).value.kind == "text_delta")
                             && DeltaTextOf(env, s.deltas) == b.text)
    && (b.kind != "text" ==> forall d :: d in s.deltas ==> env.deltaOf(d).value.kind != "text_delta")
  }

  predicate Carries(env: Env, m: Message, s: MessageStream) {
    && s.start != "" && env.startOf(s.start) == Some(Start(m.id, m.model))
    && |s.blocks| == |m.content|
    && (forall i :: 0 <= i < |s.blocks| ==> CarriesBlock(env, m.content[i], s.blocks[i]))
    && s.delta != "" && env.stopOf(s.delta) == Some(m.stopReason)
  }

  function DeltaEvents(deltas: seq<string>): seq<Event> {
    if deltas == [] then [] else [Event("content_block_delta", deltas[0])] + DeltaEvents(deltas[1..])
  }

  function BlockEvents(s: BlockStream): seq<Event> {
    [Event("content_block_start", s.start)] + DeltaEvents(s.deltas) + [Event("content_block_stop", s.stop)]
  }

  function BlocksEvents(blocks: seq<BlockStream>): seq<Event> {
    if blocks == [] then [] else BlockEvents(blocks[0]) + BlocksEvents(blocks[1..])
  }

  function MessageEvents(s: MessageStream): seq<Event> {
    [Event("message_start", s.start)] + BlocksEvents(s.blocks)
      + [Event("message_delta", s.delta), Event("message_stop", s.stop)]
  }

  lemma {:induction false} DeltasText(env: Env, deltas: seq<string>)
    ensures DeltaText(env, DeltaEvents(deltas)) == DeltaTextOf(env, deltas)
    ensures forall e :: e in DeltaEvents(deltas) ==> e.name == "content_block_delta" && e.data in deltas
  {
    if deltas != [] {
      DeltasText(env, deltas[1..]);
      assert DeltaEvents(deltas)[1..] == DeltaEvents(deltas[1..]);
    }
  }

  lemma {:induction false} NoText(env: Env, deltas: seq<string>)
    requires forall d :: d in deltas ==> env.deltaOf(d).Some? && env.deltaOf(d).value.kind != "text_delta"
    ensures DeltaTextOf(env, deltas) == ""
  {
    if deltas != [] {
      NoText(env, deltas[1..]);
    }
  }

  lemma SilentEvent(env: Env, e: Event)
    requires e.name != "content_block_delta"
    ensures DeltaText(env, [e]) == ""
  {
    assert [e][1..] == [];
  }

  lemma BlockText(env: Env, b: Block, s: BlockStream)
    requires CarriesBlock(env, b, s)
    ensures DeltaText(env, BlockEvents(s)) == if b.kind == "text" then b.text else ""
  {
    var start, stop := Event("content_block_start", s.start), Event("content_block_stop", s.stop);
    DeltasText(env, s.deltas);
    if b.kind != "text" { NoText(env, s.deltas); }
    SilentEvent(env, start);
    SilentEvent(env, stop);
    DeltaTextAppend(env, [start], DeltaEvents(s.deltas));
    DeltaTextAppend(env, [start] + DeltaEvents(s.deltas), [stop]);
    AppendEmpty(DeltaTextOf(env, s.deltas));
  }

  // The events between message_start and message_delta decode, and finish nothing.
  predicate Inner(env: Env, e: Event) {
    Decodes(env, e) && e.name != "message_delta" && e.name != "error"
  }

  lemma BlockInner(env: Env, b: Block, s: BlockStream)
    requires CarriesBlock(env, b, s)
    ensures forall e :: e in BlockEvents(s) ==> Inner(env, e)
  {
    DeltasText(env, s.deltas);
    forall e | e in BlockEvents(s)
      ensures Inner(env, e)
    {
      if e in DeltaEvents(s.deltas) {
        assert e.name == "content_block_delta" && e.data in s.deltas;
      } else {
        assert e.name == "content_block_start" || e.name == "content_block_stop";
      }
    }
  }

  lemma {:induction false} BlocksText(env: Env, content: seq<Block>, blocks: seq<BlockStream>)
    requires |blocks| == |content|
    requires forall i :: 0 <= i < |blocks| ==> CarriesBlock(env, content[i], blocks[i])
    ensures DeltaText(env, BlocksEvents(blocks)) == ContentText(content)
    ensures forall e :: e in BlocksEvents(blocks) ==> Inner(env, e)
    decreases |blocks|
  {
    if blocks != [] {
      BlockText(env, content[0], blocks[0]);
      BlockInner(env, content[0], blocks[0]);
      BlocksText(env, content[1..], blocks[1..]);
      DeltaTextAppend(env, BlockEvents(blocks[0]), BlocksEvents(blocks[1..]));
    }
  }

  // Only message_delta and error events finish a stream.
  lemma {:induction false} NoFinish(env: Env, meta: Meta, events: seq<Event>)
    requires forall e :: e in events ==> e.name != "message_delta" && e.name != "error"
    ensures FinishReason(Fold(Anthropic(env), meta, events).chunks) == None
    decreases |events|
  {
    if events != [] {
      var v := Meaning(env, meta, events[0]);
      SingleFinish(v.chunks);
      if v.err.None? {
        NoFinish(env, v.meta, events[1..]);
        FinishAppend(v.chunks, Fold(Anthropic(env), v.meta, events[1..]).chunks);
      }
    }
  }

  lemma SingleFinish(chunks: seq<Chunk>)
    requires |chunks| <= 1
    ensures FinishReason(chunks) == if |chunks| == 1 then chunks[0].finishReason else None
  {
    if |chunks| == 1 { assert chunks[..0] == []; }
  }

  lemma LastEvents(env: Env, meta: Meta, delta: string, stop: string, reason: string)
    requires delta != "" && env.stopOf(delta) == Some(reason)
    ensures
      var v := Fold(Anthropic(env), meta, [Event("message_delta", delta), Event("message_stop", stop)]);
      v.err.None? && FinishReason(v.chunks) == if reason == "" then None else Some(MapStopReason(reason))
  {
    var a, b := Event("message_delta", delta), Event("message_stop", stop);
    assert [a, b][1..] == [b] && [b][1..] == [];
    var va := Meaning(env, meta, a);
    assert Fold(Anthropic(env), va.meta, [b]) == Verdict(va.meta, [], None);
    AppendEmpty(va.chunks);
    SingleFinish(va.chunks);
  }

  // The streamed answer has the buffered answer's content; and it has its finish reason
  // exactly when the upstream gives a stop reason.
  lemma StreamedAgreesWithBuffered(env: Env, meta: Meta, m: Message, s: MessageStream)
    requires Carries(env, m, s)
    ensures
      var v := Fold(Anthropic(env), meta, MessageEvents(s));
      && v.err.None?
      && Content(v.chunks) == ContentText(m.content)
      && (FinishReason(v.chunks) == Some(MapStopReason(m.stopReason)) <==> m.stopReason != "")
  {
    var start := Event("message_start", s.start);
    var body := BlocksEvents(s.blocks);
    var last := [Event("message_delta", s.delta), Event("message_stop", s.stop)];
    var events := MessageEvents(s);
    BlocksText(env, m.content, s.blocks);
    FoldSucceedsIff(env, meta, events);
    ContentIsDeltaText(env, meta, events);
    DeltaTextAppend(env, [start] + body, last);
    DeltaTextAppend(env, [start], body);
    SilentEvent(env, start);
    SilentEvent(env, last[0]);
    SilentEvent(env, last[1]);
    DeltaTextAppend(env, [last[0]], [last[1]]);
    assert last == [last[0]] + [last[1]];
    AppendEmpty(ContentText(m.content));
    FoldAppend(Anthropic(env), meta, [start] + body, last);
    NoFinish(env, meta, [start] + body);
    var v1 := Fold(Anthropic(env), meta, [start] + body);
    LastEvents(env, v1.meta, s.delta, s.stop, m.stopReason);
    FinishAppend(v1.chunks, Fold(Anthropic(env), v1.meta, last).chunks);
  }

  // --- Who the chunks say they are from ---

  // A chunk behind the first: same message, same model, same time, no role.
  predicate Follower(c: Chunk, id: string, model: string, created: int) {
    c.id == id && c.model == model && c.created == created && c.role == ""
  }

  lemma {:induction false} KeepsIdentity(env: Env, meta: Meta, events: seq<Event>)
    requires forall e :: e in events ==> e.name != "message_start"
    ensures
      var v := Fold(Anthropic(env), meta, events);
      v.meta == meta && forall i :: 0 <= i < |v.chunks| ==> Follower(v.chunks[i], meta.id, meta.model, meta.created)
    decreases |events|
  {
    if events != [] {
      KeepsIdentity(env, meta, events[1..]);
    }
  }

  lemma NoStartInBlock(env: Env, s: BlockStream)
    ensures forall e :: e in BlockEvents(s) ==> e.name != "message_start"
  {
    DeltasText(env, s.deltas);
    forall e | e in BlockEvents(s)
      ensures e.name != "message_start"
    {
      if e !in DeltaEvents(s.deltas) {
        assert e.name == "content_block_start" || e.name == "content_block_stop";
      }
    }
  }

  lemma {:induction false} NoStartInBlocks(env: Env, blocks: seq<BlockStream>)
    ensures forall e :: e in BlocksEvents(blocks) ==> e.name != "message_start"
  {
    if blocks != [] {
      NoStartInBlock(env, blocks[0]);
      NoStartInBlocks(env, blocks[1..]);
    }
  }

  // The first chunk, and only it, announces the assistant; all chunks carry the message's id
  // and model and the one reading of the clock.
  lemma StreamedIdentity(env: Env, meta: Meta, m: Message, s: MessageStream)
    requires Carries(env, m, s)
    ensures
      var chunks := Fold(Anthropic(env), meta, MessageEvents(s)).chunks;
      var now := env.clock(meta.clockReads);
      && chunks != [] && chunks[0] == Chunk(m.id, m.model, now, "assistant", "", None)
      && forall i :: 0 < i < |chunks| ==> Follower(chunks[i], m.id, m.model, now)
  {
    var start := Event("message_start", s.start);
    var last := [Event("message_delta", s.delta), Event("message_stop", s.stop)];
    var rest := BlocksEvents(s.blocks) + last;
    Associate([start], BlocksEvents(s.blocks), last);
    assert MessageEvents(s)[1..] == rest;
    NoStartInBlocks(env, s.blocks);
    assert forall e :: e in last ==> e.name != "message_start";
    KeepsIdentity(env, Meaning(env, meta, start).meta, rest);
  }

  // --- The chunks themselves ---

  // One chunk for each piece of text that is not empty.
  function TextChunks(env: Env, id: string, model: string, now: int, deltas: seq<string>): seq<Chunk> {
    if deltas == [] then []
    else
      var d := env.deltaOf(deltas[0]);
      (if d.Some? && d.value.kind == "text_delta" && d.value.text != ""
       then [Chunk(id, model, now, "", d.value.text, None)] else [])
      + TextChunks(env, id, model, now, deltas[1..])
  }

  function BlocksChunks(env: Env, id: string, model: string, now: int, blocks: seq<BlockStream>): seq<Chunk> {
    if blocks == [] then []
    else TextChunks(env, id, model, now, blocks[0].deltas) + BlocksChunks(env, id, model, now, blocks[1..])
  }

  function FinishChunks(id: string, model: string, now: int, stopReason: string): seq<Chunk> {
    if stopReason == "" then []
    else
      var finish := if stopReason == "max_tokens" then "length"
                    else if stopReason == "tool_use" then "tool_calls" else "stop";
      [Chunk(id, model, now, "", "", Some(finish))]
  }

  lemma {:induction false} DeltasFold(env: Env, meta: Meta, deltas: seq<string>)
    requires forall d :: d in deltas ==> d != "" && env.deltaOf(d).Some?
    ensures Fold(Anthropic(env), meta, DeltaEvents(deltas)) ==
            Verdict(meta, TextChunks(env, meta.id, meta.model, meta.created, deltas), None)
  {
    if deltas != [] {
      assert forall d :: d in deltas[1..] ==> d in deltas;
      DeltasFold(env, meta, deltas[1..]);
      assert DeltaEvents(deltas)[1..] == DeltaEvents(deltas[1..]);
    }
  }

  lemma BlockFold(env: Env, meta: Meta, s: BlockStream)
    requires forall d :: d in s.deltas ==> d != "" && env.deltaOf(d).Some?
    ensures Fold(Anthropic(env), meta, BlockEvents(s)) ==
            Verdict(meta, TextChunks(env, meta.id, meta.model, meta.created, s.deltas), None)
  {
    var start, stop := Event("content_block_start", s.start), Event("content_block_stop", s.stop);
    var deltas := DeltaEvents(s.deltas);
    SilentChangesNothing(env, meta, [], start, deltas);
    SilentChangesNothing(env, meta, [start] + deltas, stop, []);
    AppendEmpty([start]);
    AppendEmpty(deltas);
    AppendEmpty([start] + deltas);
    AppendEmpty([start] + deltas + [stop]);
    DeltasFold(env, meta, s.deltas);
  }

  lemma {:induction false} BlocksFold(env: Env, meta: Meta, content: seq<Block>, blocks: seq<BlockStream>)
    requires |blocks| == |content|
    requires forall i :: 0 <= i < |blocks| ==> CarriesBlock(env, content[i], blocks[i])
    ensures Fold(Anthropic(env), meta, BlocksEvents(blocks)) ==
            Verdict(meta, BlocksChunks(env, meta.id, meta.model, meta.created, blocks), None)
    decreases |blocks|
  {
    if blocks != [] {
      assert CarriesBlock(env, content[0], blocks[0]);
      BlockFold(env, meta, blocks[0]);
      BlocksFold(env, meta, content[1..], blocks[1..]);
      FoldAppend(Anthropic(env), meta, BlockEvents(blocks[0]), BlocksEvents(blocks[1..]));
    }
  }

  lemma LastFold(env: Env, meta: Meta, delta: string, stop: string, reason: string)
    requires delta != "" && env.stopOf(delta) == Some(reason)
    ensures Fold(Anthropic(env), meta, [Event("message_delta", delta), Event("message_stop", stop)]) ==
            Verdict(meta, FinishChunks(meta.id, meta.model, meta.created, reason), None)
  {
    var a, b := Event("message_delta", delta), Event("message_stop", stop);
    assert [a, b][1..] == [b] && [b][1..] == [];
    assert Fold(Anthropic(env), meta, [b]) == Verdict(meta, [], None);
    AppendEmpty(Meaning(env, meta, a).chunks);
    StopReasons(reason);
  }

  // A message in any deltas is translated into exactly these chunks: the role, one for each piece of
  // text, and the finish reason if there is one.
  lemma StreamedChunks(env: Env, meta: Meta, m: Message, s: MessageStream)
    requires Carries(env, m, s)
    ensures
      var now := env.clock(meta.clockReads);
      Fold(Anthropic(env), meta, MessageEvents(s)).chunks ==
      [Chunk(m.id, m.model, now, "assistant", "", None)]
      + (BlocksChunks(env, m.id, m.model, now, s.blocks) + FinishChunks(m.id, m.model, now, m.stopReason))
  {
    var start := Event("message_start", s.start);
    var blocks, last := BlocksEvents(s.blocks), [Event("message_delta", s.delta), Event("message_stop", s.stop)];
    var v := Meaning(env, meta, start);
    BlocksFold(env, v.meta, m.content, s.blocks);
    LastFold(env, v.meta, s.delta, s.stop, m.stopReason);
    FoldAppend(Anthropic(env), v.meta, blocks, last);
    Associate([start], blocks, last);
    assert MessageEvents(s)[1..] == blocks + last;
  }
}
