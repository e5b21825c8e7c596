// How a provider frames its events, and that the one-shot reading undoes it.
module StreamFraming {
  import opened Wrappers
  import opened Text
  import opened StreamEvents
  import T = Translator
  import P = Proxy
  import C = ClientParser
  import E = EndToEnd
  import B = Buffered
  import S = SampleCodec

  predicate OneLine(s: string) { '\n' !in s && '\r' !in s }

  predicate LineEnding(eol: string) { eol == "\n" || eol == "\r\n" }

  function WireEvent(eol: string, e: Event): string {
    "event: " + e.name + eol + ("data: " + e.data + eol + eol)
  }

  function Wire(eol: string, events: seq<Event>): string {
    if events == [] then "" else WireEvent(eol, events[0]) + Wire(eol, events[1..])
  }

  lemma FirstLine(line: string, eol: string, rest: string)
    requires OneLine(line) && LineEnding(eol)
    ensures Lines(line + eol + rest) == [line] + Lines(rest)
  {
    var s := line + eol + rest;
    var i := |line| + |eol| - 1;
    assert s[i] == '\n';
    assert forall k :: 0 <= k < |line| ==> s[k] == line[k];
    assert forall k :: 0 <= k < i ==> s[k] != '\n';
    assert IndexOf(s, '\n') == i;
    assert s[i + 1..] == rest;
    if eol == "\n" {
      assert s[..i] == line;
      assert StripCr(line) == line;
    } else {
      assert s[..i] == line + "\r";
      assert StripCr(line + "\r") == line;
    }
  }

  lemma FieldLines(name: string, data: string)
    ensures EventOf(["event: " + name, "data: " + data]) == Event(name, data)
  {
    var a, b := "event: " + name, "data: " + data;
    var g := [a, b];
    assert a[0] == 'e' && b[0] == 'd';
    assert a[6..] == " " + name && b[5..] == " " + data;
    assert a[..6] == "event:" && b[..5] == "data:";
    assert g[..1] == [a] && g[1..] == [b];
    assert EventName([a]) == name;
    assert EventName(g) == name;
    assert Payloads([b]) == [data] + Payloads([]);
    assert Payloads(g) == Payloads([b]);
    assert DropLeadingEmpty([data]) == if data == "" then DropLeadingEmpty([]) else [data];
  }

  lemma ThreeLines(a: string, b: string, eol: string, rest: string)
    requires LineEnding(eol) && OneLine(a) && OneLine(b)
    ensures Lines(a + eol + (b + eol + eol) + rest) == [a, b] + [""] + Lines(rest)
  {
    FirstLine("", eol, rest);
    AppendEmpty(eol);
    FirstLine(b, eol, eol + rest);
    FirstLine(a, eol, b + eol + (eol + rest));
    Associate(b + eol, eol, rest);
    Associate(a + eol, b + eol + eol, rest);
    Regroup(a, b, Lines(rest));
  }

  lemma Regroup(a: string, b: string, tail: seq<string>)
    ensures [a] + ([b] + ([""] + tail)) == [a, b] + [""] + tail
  {
  }

  lemma FramedEvent(eol: string, e: Event, rest: string)
    requires LineEnding(eol) && OneLine(e.name) && OneLine(e.data)
    ensures Events(WireEvent(eol, e) + rest) == [e] + Events(rest)
  {
    var a, b := "event: " + e.name, "data: " + e.data;
    ThreeLines(a, b, eol, rest);
    FieldLines(e.name, e.data);
    GroupedEvent([a, b], Lines(rest));
  }

  lemma GroupedEvent(group: seq<string>, lines: seq<string>)
    requires "" !in group
    ensures EventsOf(Groups(group + [""] + lines)) == [EventOf(group)] + EventsOf(Groups(lines))
  {
    T.BlankEndsGroup(group, lines);
    assert ([group] + Groups(lines))[1..] == Groups(lines);
  }

  predicate OneLineEvents(events: seq<Event>) {
    forall e :: e in events ==> OneLine(e.name) && OneLine(e.data)
  }

  // With LF or CR LF line ends, one-line names and one-line payloads survive the wire.
  lemma {:induction false} FramingRoundTrip(eol: string, events: seq<Event>)
    requires LineEnding(eol) && OneLineEvents(events)
    ensures Events(Wire(eol, events)) == events
    decreases |events|
  {
    if events != [] {
      FramingRoundTrip(eol, events[1..]);
      FramedEvent(eol, events[0], Wire(eol, events[1..]));
    }
  }

  predicate OneLineBlock(b: B.BlockStream) {
    OneLine(b.start) && OneLine(b.stop) && forall d :: d in b.deltas ==> OneLine(d)
  }

  predicate OneLinePayloads(s: B.MessageStream) {
    OneLine(s.start) && OneLine(s.delta) && OneLine(s.stop) && forall b :: b in s.blocks ==> OneLineBlock(b)
  }

  lemma EventNames()
    ensures OneLine("message_start") && OneLine("message_delta") && OneLine("message_stop")
    ensures OneLine("content_block_start") && OneLine("content_block_delta") && OneLine("content_block_stop")
  {
  }

  lemma {:induction false} OneLineDeltas(deltas: seq<string>)
    requires OneLine("content_block_delta") && forall d :: d in deltas ==> OneLine(d)
    ensures OneLineEvents(B.DeltaEvents(deltas))
  {
    if deltas != [] {
      OneLineDeltas(deltas[1..]);
    }
  }

  lemma {:induction false} OneLineBlocks(blocks: seq<B.BlockStream>)
    requires OneLine("content_block_start") && OneLine("content_block_delta") && OneLine("content_block_stop")
    requires forall b :: b in blocks ==> OneLineBlock(b)
    ensures OneLineEvents(B.BlocksEvents(blocks))
  {
    if blocks != [] {
      var b := blocks[0];
      assert OneLineBlock(b);
      OneLineDeltas(b.deltas);
      assert OneLineEvents([Event("content_block_start", b.start)] + B.DeltaEvents(b.deltas));
      assert OneLineEvents(B.BlockEvents(b));
      OneLineBlocks(blocks[1..]);
    }
  }

  // Payloads of one line make events of one line.
  lemma OneLineMessage(s: B.MessageStream)
    requires OneLinePayloads(s)
    ensures OneLineEvents(B.MessageEvents(s))
  {
    EventNames();
    OneLineBlocks(s.blocks);
  }

  // The body of a provider's answer: all of the message, framed, and then the end.
  ghost predicate Answer(env: Env, m: B.Message, s: B.MessageStream, eol: string, body: seq<P.Read>) {
    && B.Carries(env, m, s) && OneLinePayloads(s) && LineEnding(eol)
    && P.Ends(body) && P.Ending(body) == P.Eof && P.Received(body) == Wire(eol, B.MessageEvents(s))
  }

  // The whole path: a message framed by the provider, read in any pieces by the gateway,
  // relayed, received in any pieces by the client. The client ends up with the content of
  // the buffered answer, and with its finish reason exactly when there is a stop reason.
  lemma WholePath(env: Env, client: E.Client, m: B.Message, s: B.MessageStream, eol: string,
                  body: seq<P.Read>, cuts: seq<string>)
    requires E.GoodDecoder(env, client) && E.GoodCodec(env, client, Translation(env, P.Received(body)).chunks)
    requires Answer(env, m, s, eol, body)
    requires Concat(cuts) == P.Relay(env, body).bytes
    ensures
      var got := C.ParseWhole(client.parse, Concat(E.Decoded(client, "", cuts)));
      && Content(got) == B.ContentText(m.content)
      && (FinishReason(got) == Some(MapStopReason(m.stopReason)) <==> m.stopReason != "")
  {
    OneLineMessage(s);
    FramingRoundTrip(eol, B.MessageEvents(s));
    B.StreamedAgreesWithBuffered(env, NO_META, m, s);
    AppendEmpty(P.Relay(env, body).bytes);
    E.EndToEnd(env, client, body, cuts, "");
  }

  const SAMPLE_MESSAGE := B.Message("id", "model", 0, [B.Block("text", "Hi")], "end_turn", 1, 1)

  const SAMPLE_BLOCK := B.BlockStream("", ["H", "i"], "")

  const SAMPLE_STREAM := B.MessageStream("s", [SAMPLE_BLOCK], "end_turn", "")

  lemma SampleCarries()
    ensures B.Carries(S.SampleEnv(), SAMPLE_MESSAGE, SAMPLE_STREAM)
  {
    var env := S.SampleEnv();
    assert ["H", "i"][1..] == ["i"] && ["i"][1..] == [];
    assert B.DeltaTextOf(env, ["i"]) == "i" + B.DeltaTextOf(env, []);
    assert B.DeltaTextOf(env, ["H", "i"]) == "H" + "i" == "Hi";
    assert B.CarriesBlock(env, B.Block("text", "Hi"), SAMPLE_BLOCK);
  }

  lemma OneRead(data: string)
    ensures var body := [P.Read(data, P.Eof)];
            P.Ends(body) && P.Ending(body) == P.Eof && P.Received(body) == data
  {
    assert [P.Read(data, P.Eof)][0].end == P.Eof;
  }

  function SampleBody(eol: string): seq<P.Read> { [P.Read(Wire(eol, B.MessageEvents(SAMPLE_STREAM)), P.Eof)] }

  lemma SampleAnswer(eol: string)
    requires LineEnding(eol)
    ensures Answer(S.SampleEnv(), SAMPLE_MESSAGE, SAMPLE_STREAM, eol, SampleBody(eol))
  {
    SampleCarries();
    assert OneLinePayloads(SAMPLE_STREAM);
    OneRead(Wire(eol, B.MessageEvents(SAMPLE_STREAM)));
  }

  lemma OnePart(s: string)
    ensures Concat([s]) == s
  {
    assert [s][1..] == [];
  }

  // Such a run exists: the sample codec, a message of one text block in two deltas, one read by the
  // gateway and one by the client.
  lemma WholePathHappens(eol: string) returns (cuts: seq<string>)
    requires LineEnding(eol)
    ensures E.GoodDecoder(S.SampleEnv(), S.SampleClient())
    ensures E.GoodCodec(S.SampleEnv(), S.SampleClient(),
                        Translation(S.SampleEnv(), P.Received(SampleBody(eol))).chunks)
    ensures Answer(S.SampleEnv(), SAMPLE_MESSAGE, SAMPLE_STREAM, eol, SampleBody(eol))
    ensures Concat(cuts) == P.Relay(S.SampleEnv(), SampleBody(eol)).bytes
  {
    S.ContractsCanBeMet();
    SampleAnswer(eol);
    cuts := [P.Relay(S.SampleEnv(), SampleBody(eol)).bytes];
    OnePart(cuts[0]);
  }
}
