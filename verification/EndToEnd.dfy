// The gateway's output read back by the client: what was translated is what is yielded.
module EndToEnd {
  import opened Wrappers
  import opened Text
  import opened StreamEvents
  import P = Proxy
  import C = ClientParser

  // The client's side of the wire: JSON.parse into a chunk, and the streaming text
  // decoder, as the text it has put out once it has been fed some bytes.
  datatype Client = Client(parse: string -> Option<Chunk>, text: string -> string)

  predicate PlainObject(body: string) {
    "{" <= body && '\n' !in body && '\r' !in body
  }

  // The decoder never takes text back.
  ghost predicate Incremental(client: Client) {
    && client.text("") == ""
    && (forall a, b :: client.text(a) <= client.text(a + b))
  }

  // What whole frames decode to: the frames of the decoded bodies.
  function TextFrames(env: Env, client: Client, chunks: seq<Chunk>): string {
    if chunks == [] then "" else Frame(client.text(env.encode(chunks[0]))) + TextFrames(env, client, chunks[1..])
  }

  // The decoder is exact on whole streams of frames, finished or not. Nothing is asked about other
  // bytes, so a decoder may drop a leading byte order mark.
  ghost predicate DecodesFrames(env: Env, client: Client) {
    && (forall chunks: seq<Chunk> :: client.text(Frames(env, chunks)) == TextFrames(env, client, chunks))
    && (forall chunks: seq<Chunk> ::
          client.text(Frames(env, chunks) + DONE_FRAME) == TextFrames(env, client, chunks) + DONE_FRAME)
  }

  ghost predicate GoodDecoder(env: Env, client: Client) { Incremental(client) && DecodesFrames(env, client) }

  // A chunk is encoded as a one-line JSON object that parses back.
  predicate RoundTrips(env: Env, client: Client, c: Chunk) {
    PlainObject(client.text(env.encode(c))) && client.parse(client.text(env.encode(c))) == Some(c)
  }

  // The chunks in question do; others, say with a number that JSON.parse rounds, need not.
  ghost predicate GoodCodec(env: Env, client: Client, chunks: seq<Chunk>) {
    forall i :: 0 <= i < |chunks| ==> RoundTrips(env, client, chunks[i])
  }

  // What the decoder hands over for each piece of a cut byte stream.
  function Decoded(client: Client, before: string, cuts: seq<string>): seq<string>
    decreases |cuts|
  {
    if cuts == [] then []
    else
      var upto := before + cuts[0];
      var skip := |client.text(before)|;
      [if skip <= |client.text(upto)| then client.text(upto)[skip..] else ""]
        + Decoded(client, upto, cuts[1..])
  }

  // The pieces together are the text of the bytes, however they were cut.
  lemma {:induction false} DecodedConcat(client: Client, before: string, cuts: seq<string>)
    requires Incremental(client)
    ensures client.text(before) + Concat(Decoded(client, before, cuts)) == client.text(before + Concat(cuts))
    decreases |cuts|
  {
    if cuts == [] {
      AppendEmpty(before);
      AppendEmpty(client.text(before));
    } else {
      var upto := before + cuts[0];
      DecodedConcat(client, upto, cuts[1..]);
      Associate(before, cuts[0], Concat(cuts[1..]));
      assert client.text(before) <= client.text(before + cuts[0]);
      var piece := client.text(upto)[|client.text(before)|..];
      assert client.text(before) + piece == client.text(upto);
      assert Decoded(client, before, cuts)[1..] == Decoded(client, upto, cuts[1..]);
      Associate(client.text(before), piece, Concat(Decoded(client, upto, cuts[1..])));
    }
  }

  // --- Parsing one frame ---

  lemma FrameBoundary(body: string, rest: string)
    requires '\n' !in body && '\r' !in body
    ensures
      var s := Frame(body) + rest;
      var i := |body| + 6;
      C.IndexOfEventBoundary(s) == i && C.LfLf(s, i)
      && s[..i] == "data: " + body && s[i + 2..] == rest
  {
    var i := |body| + 6;
    var head := "data: " + body;
    assert |head| == i && '\n' !in head && '\r' !in head;
    HeadBoundary(head, rest);
    assert Frame(body) == head + "\n\n";
  }

  lemma HeadBoundary(head: string, rest: string)
    requires '\n' !in head && '\r' !in head
    ensures
      var s := head + "\n\n" + rest;
      C.IndexOfEventBoundary(s) == |head| && C.LfLf(s, |head|)
      && s[..|head|] == head && s[|head| + 2..] == rest
  {
    var s := head + "\n\n" + rest;
    assert s[..|head|] == head;
    assert s[|head|] == '\n' && s[|head| + 1] == '\n';
    assert C.Boundary(s, |head|);
    forall j | 0 <= j < |head|
      ensures !C.Boundary(s, j)
    {
      assert s[j] == head[j];
    }
  }

  lemma FramePayload(body: string)
    requires '\n' !in body && '\r' !in body
    ensures C.Payload("data: " + body) == Some(body)
  {
    var line := "data: " + body;
    assert forall j :: 0 <= j < |line| ==> line[j] == if j < 6 then "data: "[j] else body[j - 6];
    assert '\n' !in line;
    assert C.SplitLines(line) == [line];
    assert line[5..] == " " + body;
    assert line[..5] == "data:" && "data:" <= line;
    assert TrimSpace(line[5..]) == body;
    assert [line][1..] == [];
    assert Payloads([line]) == [body] + Payloads([]);
    assert Payloads([line]) == [body];
  }

  // One frame in front of a text is one parsed payload in front of its parse.
  lemma ParseFrame(client: Client, body: string, rest: string)
    requires '\n' !in body && '\r' !in body
    ensures C.ParseWhole(client.parse, Frame(body) + rest) ==
            if body == "[DONE]" then []
            else C.ItemsOf(client.parse, Some(body)) + C.ParseWhole(client.parse, rest)
  {
    var s := Frame(body) + rest;
    var i := |body| + 6;
    FrameBoundary(body, rest);
    FramePayload(body);
    var read := C.ReaderOf(client.parse);
    assert C.Blocks(s) == [s[..i]] + C.Blocks(rest);
    assert read(s[..i]) == C.ReadPayload(client.parse, Some(body));
    assert C.Blocks(s)[1..] == C.Blocks(rest);
  }

  lemma ParseChunk(env: Env, client: Client, c: Chunk, rest: string)
    requires RoundTrips(env, client, c)
    ensures C.ParseWhole(client.parse, Frame(client.text(env.encode(c))) + rest) ==
            [c] + C.ParseWhole(client.parse, rest)
  {
    var body := client.text(env.encode(c));
    assert body[0] == '{' && "[DONE]"[0] == '[';
    ParseFrame(client, body, rest);
  }

  lemma GoodCodecTail(env: Env, client: Client, chunks: seq<Chunk>)
    requires chunks != [] && GoodCodec(env, client, chunks)
    ensures RoundTrips(env, client, chunks[0]) && GoodCodec(env, client, chunks[1..])
  {
  }

  // The claim below for one more frame in front.
  lemma ParseFrameCons(env: Env, client: Client, c: Chunk, chunks: seq<Chunk>, tail: string, rest: string)
    requires RoundTrips(env, client, c)
    requires C.ParseWhole(client.parse, tail + rest) == chunks + C.ParseWhole(client.parse, rest)
    ensures C.ParseWhole(client.parse, Frame(client.text(env.encode(c))) + tail + rest) ==
            [c] + chunks + C.ParseWhole(client.parse, rest)
  {
    Associate(Frame(client.text(env.encode(c))), tail, rest);
    ParseChunk(env, client, c, tail + rest);
    Associate([c], chunks, C.ParseWhole(client.parse, rest));
  }

  lemma {:induction false} ParseFrames(env: Env, client: Client, chunks: seq<Chunk>, rest: string)
    requires GoodCodec(env, client, chunks)
    ensures C.ParseWhole(client.parse, TextFrames(env, client, chunks) + rest) ==
            chunks + C.ParseWhole(client.parse, rest)
    decreases |chunks|
  {
    if chunks == [] {
      AppendEmpty(rest);
      AppendEmpty(C.ParseWhole(client.parse, rest));
    } else {
      GoodCodecTail(env, client, chunks);
      ParseFrames(env, client, chunks[1..], rest);
      ParseFrameCons(env, client, chunks[0], chunks[1..], TextFrames(env, client, chunks[1..]), rest);
      assert chunks == [chunks[0]] + chunks[1..];
    }
  }

  lemma ParseSentinel(client: Client, rest: string)
    ensures C.ParseWhole(client.parse, DONE_FRAME + rest) == []
  {
    assert DONE_FRAME == Frame("[DONE]");
    ParseFrame(client, "[DONE]", rest);
  }

  // Frames and then [DONE], or only frames, with anything behind the [DONE].
  lemma ParseDone(env: Env, client: Client, chunks: seq<Chunk>, more: string)
    requires GoodDecoder(env, client) && GoodCodec(env, client, chunks)
    ensures C.ParseWhole(client.parse, client.text(Frames(env, chunks) + (DONE_FRAME + more))) == chunks
  {
    var head := Frames(env, chunks) + DONE_FRAME;
    Associate(Frames(env, chunks), DONE_FRAME, more);
    assert client.text(head) <= client.text(head + more);
    var rest := client.text(head + more)[|client.text(head)|..];
    assert client.text(head + more) == client.text(head) + rest;
    Associate(TextFrames(env, client, chunks), DONE_FRAME, rest);
    ParseFrames(env, client, chunks, DONE_FRAME + rest);
    ParseSentinel(client, rest);
    AppendEmpty(chunks);
  }

  lemma ParseUndone(env: Env, client: Client, chunks: seq<Chunk>)
    requires GoodDecoder(env, client) && GoodCodec(env, client, chunks)
    ensures C.ParseWhole(client.parse, client.text(Frames(env, chunks))) == chunks
  {
    ParseFrames(env, client, chunks, "");
    ParseNothing(client);
    AppendEmpty(TextFrames(env, client, chunks));
    AppendEmpty(chunks);
  }

  lemma ParseNothing(client: Client)
    ensures C.ParseWhole(client.parse, "") == []
  {
    var read := C.ReaderOf(client.parse);
    assert C.Blocks("") == [""];
    assert C.SplitLines("") == [""];
    assert [""][1..] == [];
    assert Payloads([""]) == [] + Payloads([]);
    assert C.Payload("") == None;
    assert read("") == C.ReadPayload(client.parse, None);
  }

  // Frames on the wire, with [DONE] and anything behind it or without, cut in any way.
  lemma ParseWire(env: Env, client: Client, chunks: seq<Chunk>, done: bool, cuts: seq<string>, more: string)
    requires GoodDecoder(env, client) && GoodCodec(env, client, chunks)
    requires Concat(cuts) == if done then Frames(env, chunks) + DONE_FRAME + more else Frames(env, chunks)
    ensures C.ParseWhole(client.parse, Concat(Decoded(client, "", cuts))) == chunks
  {
    DecodedConcat(client, "", cuts);
    AppendEmpty(Concat(Decoded(client, "", cuts)));
    AppendEmpty(Concat(cuts));
    if done {
      Associate(Frames(env, chunks), DONE_FRAME, more);
      ParseDone(env, client, chunks, more);
    } else {
      ParseUndone(env, client, chunks);
    }
  }

  // An upstream body, cut into reads in any way and relayed; the bytes written, cut again in
  // any way and parsed. The client yields exactly the chunks of the one-shot translation,
  // whether or not the relay failed. If it did not, whatever follows on the wire is ignored.
  lemma EndToEnd(env: Env, client: Client, body: seq<P.Read>, cuts: seq<string>, more: string)
    requires GoodDecoder(env, client) && GoodCodec(env, client, Translation(env, P.Received(body)).chunks)
    requires P.Ends(body)
    requires Concat(cuts) == P.Relay(env, body).bytes + more
    requires P.Relay(env, body).err.Some? ==> more == ""
    ensures C.ParseWhole(client.parse, Concat(Decoded(client, "", cuts))) ==
            Translation(env, P.Received(body)).chunks
  {
    var chunks := Translation(env, P.Received(body)).chunks;
    AppendEmpty(Frames(env, chunks));
    ParseWire(env, client, chunks, P.Relay(env, body).err.None?, cuts, more);
  }

  // The same run as a user sees it: the content is the text of the upstream's text deltas.
  lemma EndToEndText(env: Env, client: Client, body: seq<P.Read>, cuts: seq<string>)
    requires GoodDecoder(env, client) && GoodCodec(env, client, Translation(env, P.Received(body)).chunks)
    requires P.Ends(body) && P.Ending(body) == P.Eof
    requires forall e :: e in Events(P.Received(body)) ==> Decodes(env, e)
    requires Concat(cuts) == P.Relay(env, body).bytes
    ensures Content(C.ParseWhole(client.parse, Concat(Decoded(client, "", cuts)))) ==
            DeltaText(env, Events(P.Received(body)))
  {
    var events := Events(P.Received(body));
    FoldSucceedsIff(env, NO_META, events);
    ContentIsDeltaText(env, NO_META, events);
    AppendEmpty(P.Relay(env, body).bytes);
    EndToEnd(env, client, body, cuts, "");
  }

  // An upstream that reports an error in its stream, behind events that decode: the client is told,
  // by the finish reason of the last chunk it reads.
  lemma ErrorReachesClient(
      env: Env, client: Client, body: seq<P.Read>, cuts: seq<string>, events: seq<Event>, d: string)
    requires GoodDecoder(env, client) && GoodCodec(env, client, Translation(env, P.Received(body)).chunks)
    requires P.Ends(body) && P.Ending(body) == P.Eof && Concat(cuts) == P.Relay(env, body).bytes
    requires Events(P.Received(body)) == events + [Event("error", d)] && d != ""
    requires forall e :: e in events ==> Decodes(env, e)
    ensures FinishReason(C.ParseWhole(client.parse, Concat(Decoded(client, "", cuts)))) == Some("error")
  {
    FoldSucceedsIff(env, NO_META, events);
    ErrorEvent(env, NO_META, events, d);
    var v := Fold(Anthropic(env), NO_META, events);
    LastFinishes(v.chunks, Chunk(v.meta.id, v.meta.model, v.meta.created, "", "", Some("error")));
    AppendEmpty(P.Relay(env, body).bytes);
    EndToEnd(env, client, body, cuts, "");
  }

  // One block in front of a text, ended by a blank line in either spelling.
  lemma ParseBlock(client: Client, block: string, eol: string, rest: string)
    requires '\n' !in block && '\r' !in block && (eol == "\n" || eol == "\r\n")
    ensures
      var data := C.Payload(block);
      C.ParseWhole(client.parse, block + eol + eol + rest) ==
      if data == Some("[DONE]") then [] else C.ItemsOf(client.parse, data) + C.ParseWhole(client.parse, rest)
  {
    var s, i := block + eol + eol + rest, |block|;
    var read := C.ReaderOf(client.parse);
    BlockBoundary(block, eol, rest);
    assert C.Blocks(s) == [block] + C.Blocks(rest);
    assert read(block) == C.ReadPayload(client.parse, C.Payload(block));
    assert C.Blocks(s)[1..] == C.Blocks(rest);
  }

  // The first boundary of a text, in front of which there is no line end.
  lemma FirstBoundary(s: string, i: nat)
    requires C.Boundary(s, i) && forall k :: 0 <= k < i ==> s[k] != '\n' && s[k] != '\r'
    ensures C.IndexOfEventBoundary(s) == i
  {
    var f := C.IndexOfEventBoundary(s);
    assert f >= 0 && C.Boundary(s, f);
  }

  lemma Behind(block: string, end: string, rest: string)
    ensures
      var s := block + end + rest;
      && s[..|block|] == block && s[|block| + |end|..] == rest && s[|block|..][..|end|] == end
      && forall k :: 0 <= k < |end| ==> s[|block| + k] == end[k]
  {
  }

  lemma BlockBoundary(block: string, eol: string, rest: string)
    requires '\n' !in block && '\r' !in block && (eol == "\n" || eol == "\r\n")
    ensures
      var s, i := block + eol + eol + rest, |block|;
      && C.IndexOfEventBoundary(s) == i && C.BoundaryLength(s, i) == 2 * |eol|
      && s[..i] == block && s[i + 2 * |eol|..] == rest
  {
    var s, i, end := block + eol + eol + rest, |block|, eol + eol;
    Associate(block, eol, eol);
    Behind(block, end, rest);
    assert if eol == "\n" then C.LfLf(s, i) else C.CrLfCrLf(s, i) && !C.LfLf(s, i);
    assert forall k :: 0 <= k < i ==> s[k] == block[k];
    FirstBoundary(s, i);
  }

  // Events whose lines end in CR LF are read as those whose lines end in LF.
  lemma CrLfIsRead(client: Client, body: string, rest: string)
    requires '\n' !in body && '\r' !in body && body != "[DONE]"
    ensures C.ParseWhole(client.parse, "data: " + body + "\r\n" + "\r\n" + rest) ==
            C.ItemsOf(client.parse, Some(body)) + C.ParseWhole(client.parse, rest)
  {
    FramePayload(body);
    ParseBlock(client, "data: " + body, "\r\n", rest);
  }

  // Comments and other fields are passed over.
  lemma NoDataIsSkipped(client: Client, line: string, rest: string)
    requires '\n' !in line && '\r' !in line && !("data:" <= line)
    ensures C.ParseWhole(client.parse, line + "\n" + "\n" + rest) == C.ParseWhole(client.parse, rest)
  {
    assert C.SplitLines(line) == [line] && [line][1..] == [];
    assert Payloads([line]) == [] + Payloads([]);
    ParseBlock(client, line, "\n", rest);
    AppendEmpty(C.ParseWhole(client.parse, rest));
  }

  // A payload that does not parse is passed over, and what is behind it is still read.
  lemma MalformedIsSkipped(client: Client, body: string, rest: string)
    requires '\n' !in body && '\r' !in body && body != "[DONE]" && client.parse(body) == None
    ensures C.ParseWhole(client.parse, Frame(body) + rest) == C.ParseWhole(client.parse, rest)
  {
    ParseFrame(client, body, rest);
    AppendEmpty(C.ParseWhole(client.parse, rest));
  }

  // A last event that no blank line ends is read too.
  lemma UnterminatedIsRead(client: Client, body: string, c: Chunk)
    requires '\n' !in body && '\r' !in body && body != "[DONE]" && client.parse(body) == Some(c)
    ensures C.ParseWhole(client.parse, "data: " + body) == [c]
  {
    var text := "data: " + body;
    var read := C.ReaderOf(client.parse);
    assert '\n' !in text;
    FramePayload(body);
    assert read(text) == C.ReadPayload(client.parse, Some(body));
    C.DrainThenFlush(read, text);
    AppendEmpty([c]);
  }
}
