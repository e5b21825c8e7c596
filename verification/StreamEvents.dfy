// What an Anthropic event stream means, as values: the decoded payloads, the
// OpenAI chunks they become, and the one-shot reading of a whole stream.
module StreamEvents {
  import opened Wrappers
  import opened Text
  import Standard = EventStreamStandard

  // One chat.completion.chunk; `object` and the choice index are constants.
  datatype Chunk = Chunk(
    id: string, model: string, created: int,
    role: string, content: string, finishReason: Option<string>)

  datatype Start = Start(id: string, model: string)
  datatype Delta = Delta(kind: string, text: string)

  // The JSON package and the clock. `clock(n)` is the n-th reading of the wall clock.
  datatype Env = Env(
    encode: Chunk -> string,
    startOf: string -> Option<Start>,
    deltaOf: string -> Option<Delta>,
    stopOf: string -> Option<string>,
    clock: nat -> int)

  // State set by message_start; `clockReads` counts the clock readings so far.
  datatype Meta = Meta(id: string, model: string, created: int, clockReads: nat)

  const NO_META := Meta("", "", 0, 0)

  datatype Event = Event(name: string, data: string)

  datatype Verdict = Verdict(meta: Meta, chunks: seq<Chunk>, err: Option<string>)

  const DONE_FRAME := "data: [DONE]\n\n"

  function Frame(body: string): string { "data: " + body + "\n\n" }

  function Frames(env: Env, chunks: seq<Chunk>): string {
    if chunks == [] then "" else Frame(env.encode(chunks[0])) + Frames(env, chunks[1..])
  }

  lemma {:induction false} FramesAppend(env: Env, a: seq<Chunk>, b: seq<Chunk>)
    ensures Frames(env, a + b) == Frames(env, a) + Frames(env, b)
  {
    if a == [] {
      assert a + b == b;
    } else {
      assert (a + b)[1..] == a[1..] + b;
      FramesAppend(env, a[1..], b);
    }
  }

  function MapStopReason(s: string): string {
    match s
    case "max_tokens" => "length"
    case "tool_use" => "tool_calls"
    case _ => "stop"
  }

  lemma StopReasons(s: string)
    ensures MapStopReason(s) == "length" <==> s == "max_tokens"
    ensures MapStopReason(s) == "tool_calls" <==> s == "tool_use"
    ensures MapStopReason(s) == "stop" <==> s != "max_tokens" && s != "tool_use"
  {
  }

  function ChunkOf(meta: Meta, role: string, content: string, finish: string): Chunk {
    Chunk(meta.id, meta.model, meta.created, role, content,
          if finish == "" then None else Some(finish))
  }

  // One dispatched event: an unnamed or empty one is skipped, an undecodable one fails.
  function Meaning(env: Env, meta: Meta, event: Event): Verdict {
    if event.name == "" || event.data == "" then Verdict(meta, [], None)
    else if event.name == "message_start" then
      match env.startOf(event.data)
      case None => Verdict(meta, [], Some(event.name))
      case Some(start) =>
        var m := Meta(start.id, start.model, env.clock(meta.clockReads), meta.clockReads + 1);
        Verdict(m, [ChunkOf(m, "assistant", "", "")], None)
    else if event.name == "content_block_delta" then
      match env.deltaOf(event.data)
      case None => Verdict(meta, [], Some(event.name))
      case Some(d) =>
        Verdict(meta, if d.kind == "text_delta" && d.text != "" then [ChunkOf(meta, "", d.text, "")] else [], None)
    else if event.name == "message_delta" then
      match env.stopOf(event.data)
      case None => Verdict(meta, [], Some(event.name))
      case Some(stop) =>
        Verdict(meta, if stop != "" then [ChunkOf(meta, "", "", MapStopReason(stop))] else [], None)
    else if event.name == "error" then
      Verdict(meta, [ChunkOf(meta, "", "", "error")], None)
    else Verdict(meta, [], None)
  }

  // What a parser does with a finished event.
  type Handler = (Meta, Event) -> Verdict

  function Anthropic(env: Env): Handler { (meta, event) => Meaning(env, meta, event) }

  // Dispatches events in order and stops at the first failure.
  function Fold(h: Handler, meta: Meta, events: seq<Event>): Verdict
    decreases |events|
  {
    if events == [] then Verdict(meta, [], None)
    else
      var v := h(meta, events[0]);
      if v.err.Some? then v
      else
        var r := Fold(h, v.meta, events[1..]);
        Verdict(r.meta, v.chunks + r.chunks, r.err)
  }

  lemma {:induction false} FoldAppend(h: Handler, meta: Meta, a: seq<Event>, b: seq<Event>)
    ensures
      var va := Fold(h, meta, a);
      Fold(h, meta, a + b) ==
      if va.err.Some? then va
      else var vb := Fold(h, va.meta, b); Verdict(vb.meta, va.chunks + vb.chunks, vb.err)
    decreases |a|
  {
    if a == [] {
      assert a + b == b;
    } else {
      assert (a + b)[1..] == a[1..] + b;
      FoldAppend(h, h(meta, a[0]).meta, a[1..], b);
    }
  }

  predicate Decodes(env: Env, event: Event) {
    event.data == "" ||
    match event.name
    case "message_start" => env.startOf(event.data).Some?
    case "content_block_delta" => env.deltaOf(event.data).Some?
    case "message_delta" => env.stopOf(event.data).Some?
    case _ => true
  }

  // Exactly three kinds of event have to decode, each with its own decoder.
  lemma DecodesIff(env: Env, event: Event)
    ensures Decodes(env, event) <==>
      || event.data == ""
      || (&& (event.name == "message_start" ==> env.startOf(event.data).Some?)
          && (event.name == "content_block_delta" ==> env.deltaOf(event.data).Some?)
          && (event.name == "message_delta" ==> env.stopOf(event.data).Some?))
  {
  }

  // A stream is translated to its end exactly when every payload it needs decodes.
  lemma {:induction false} FoldSucceedsIff(env: Env, meta: Meta, events: seq<Event>)
    ensures Fold(Anthropic(env), meta, events).err.None? <==> forall e :: e in events ==> Decodes(env, e)
    decreases |events|
  {
    if events != [] {
      var v := Meaning(env, meta, events[0]);
      assert v.err.None? <==> Decodes(env, events[0]);
      FoldSucceedsIff(env, v.meta, events[1..]);
      assert forall e :: e in events <==> e == events[0] || e in events[1..];
    }
  }

  // A stream that fails does so at the first payload that does not decode, and has given out what
  // comes before it.
  lemma {:induction false} FailsAtFirst(env: Env, meta: Meta, events: seq<Event>, i: nat)
    requires i < |events| && !Decodes(env, events[i]) && forall j :: 0 <= j < i ==> Decodes(env, events[j])
    ensures
      var before, v := Fold(Anthropic(env), meta, events[..i]), Fold(Anthropic(env), meta, events);
      before.err == None && v.chunks == before.chunks && v.err == Some(events[i].name)
    decreases i
  {
    if i > 0 {
      var m := Meaning(env, meta, events[0]);
      assert m.err.None?;
      FailsAtFirst(env, m.meta, events[1..], i - 1);
      assert events[..i][1..] == events[1..][..i - 1];
    }
  }

  // Everything but the four events below, and those without a payload.
  predicate Silent(e: Event) {
    || e.data == ""
    || (&& e.name != "message_start" && e.name != "content_block_delta"
        && e.name != "message_delta" && e.name != "error")
  }

  // Block boundaries, pings, message_stop and unknown events can come anywhere and change nothing.
  lemma SilentChangesNothing(env: Env, meta: Meta, a: seq<Event>, e: Event, b: seq<Event>)
    requires Silent(e)
    ensures Fold(Anthropic(env), meta, a + [e] + b) == Fold(Anthropic(env), meta, a + b)
  {
    var h := Anthropic(env);
    var va := Fold(h, meta, a);
    Associate(a, [e], b);
    FoldAppend(h, meta, a, [e] + b);
    FoldAppend(h, meta, a, b);
    assert ([e] + b)[1..] == b;
    AppendEmpty(Fold(h, va.meta, b).chunks);
  }

  // An error event tells the client so: one more chunk, with the finish reason "error".
  lemma ErrorEvent(env: Env, meta: Meta, events: seq<Event>, d: string)
    requires Fold(Anthropic(env), meta, events).err.None? && d != ""
    ensures
      var v := Fold(Anthropic(env), meta, events);
      Fold(Anthropic(env), meta, events + [Event("error", d)]) ==
      Verdict(v.meta, v.chunks + [Chunk(v.meta.id, v.meta.model, v.meta.created, "", "", Some("error"))], None)
  {
    var h, e := Anthropic(env), Event("error", d);
    var v := Fold(h, meta, events);
    FoldAppend(h, meta, events, [e]);
    assert [e][1..] == [];
    AppendEmpty(Meaning(env, v.meta, e).chunks);
  }

  // --- The one-shot reading of a stream ---

  // Complete lines of `s`, each without its LF and one trailing CR.
  function Lines(s: string): (lines: seq<string>)
    decreases |s|
  {
    var i := IndexOf(s, '\n');
    if i < 0 then [] else [StripCr(s[..i])] + Lines(s[i + 1..])
  }

  // What follows the last LF.
  function Rest(s: string): string
    decreases |s|
  {
    var i := IndexOf(s, '\n');
    if i < 0 then s else Rest(s[i + 1..])
  }

  lemma {:induction false} RestHasNoLf(s: string)
    ensures '\n' !in Rest(s) && |Rest(s)| <= |s|
    decreases |s|
  {
    var i := IndexOf(s, '\n');
    if i >= 0 {
      RestHasNoLf(s[i + 1..]);
    }
  }

  // `r` is a suffix of `s`, and an LF stands in front of it unless it is all.
  predicate LastPiece(s: string, r: string, k: nat) {
    k <= |s| && r == s[k..] && (k > 0 ==> s[k - 1] == '\n')
  }

  lemma LastPieceOfTail(s: string, i: nat, r: string, j: nat)
    requires i < |s| && s[i] == '\n' && LastPiece(s[i + 1..], r, j)
    ensures LastPiece(s, r, i + 1 + j)
  {
    assert s[i + 1..][j..] == s[i + 1 + j..];
    if j > 0 {
      assert s[i + 1..][j - 1] == s[i + j];
    }
  }

  lemma {:induction false} RestFollowsLastLf(s: string) returns (k: nat)
    ensures LastPiece(s, Rest(s), k)
    decreases |s|
  {
    var i := IndexOf(s, '\n');
    if i < 0 {
      k := 0;
    } else {
      var j := RestFollowsLastLf(s[i + 1..]);
      LastPieceOfTail(s, i, Rest(s[i + 1..]), j);
      k := i + 1 + j;
    }
  }

  // Runs of non-blank lines that a blank line ends.
  function Groups(lines: seq<string>): seq<seq<string>> {
    var i := IndexOf(lines, "");
    if i < 0 then [] else [lines[..i]] + Groups(lines[i + 1..])
  }

  // The lines after the last blank one: an event that is still open.
  function OpenGroup(lines: seq<string>): seq<string> {
    var i := IndexOf(lines, "");
    if i < 0 then lines else OpenGroup(lines[i + 1..])
  }

  // The last `event:` value of a group wins.
  function EventName(group: seq<string>): string {
    if group == [] then ""
    else
      var last := group[|group| - 1];
      if "event:" <= last then TrimSpace(last[6..]) else EventName(group[..|group| - 1])
  }

  function DropLeadingEmpty(parts: seq<string>): seq<string> {
    if parts != [] && parts[0] == "" then DropLeadingEmpty(parts[1..]) else parts
  }

  // The translator separates data lines only once something has been accumulated,
  // so leading empty payloads leave no trace.
  function EventData(group: seq<string>): string {
    Join(DropLeadingEmpty(Payloads(group)), "\n")
  }

  function EventOf(group: seq<string>): Event { Event(EventName(group), EventData(group)) }

  function EventsOf(groups: seq<seq<string>>): seq<Event> {
    if groups == [] then [] else [EventOf(groups[0])] + EventsOf(groups[1..])
  }

  function Events(input: string): seq<Event> { EventsOf(Groups(Lines(input))) }

  // The whole stream read at once.
  function Translation(env: Env, input: string): Verdict { Fold(Anthropic(env), NO_META, Events(input)) }

  // Section 9.2.6 of the WHATWG HTML Standard joins the values of all data fields with LF, and a
  // line that is just `data` is one of them. The translator's payload is that string exactly when
  // there is one value at most, or no such line and a first value that is not empty.
  lemma DataAgreesWithStandard(group: seq<string>)
    ensures EventData(group) == Standard.Data(group)
            <==> |Standard.DataValues(group)| <= 1 || ("data" !in group && Standard.DataValues(group)[0] != "")
  {
    var parts := Payloads(group);
    DropLightens(parts);
    Standard.BareLinesWeigh(group);
    if |Standard.DataValues(group)| <= 1 {
      Standard.OneValue(group);
      if parts != [] && parts[0] == "" {
        assert parts == [""] && DropLeadingEmpty(parts) == DropLeadingEmpty([]);
      }
    } else if "data" in group {
      Standard.BareLineShows(group, DropLeadingEmpty(parts));
    } else if parts[0] == "" {
      DropLightens(parts[1..]);
      Standard.JoinWeight(parts);
      Standard.WeightCounts(parts);
      if DropLeadingEmpty(parts) != [] {
        Standard.JoinWeight(DropLeadingEmpty(parts));
      }
    }
  }

  lemma {:induction false} DropLightens(parts: seq<string>)
    ensures Standard.Weight(DropLeadingEmpty(parts)) <= Standard.Weight(parts)
  {
    if parts != [] && parts[0] == "" {
      DropLightens(parts[1..]);
    }
  }

  // The last line that gives a name.
  function LastNamed(group: seq<string>): (r: Option<string>)
    ensures r.Some? ==> "event:" <= r.value
  {
    if group == [] then None
    else if "event:" <= group[|group| - 1] then Some(group[|group| - 1])
    else LastNamed(group[..|group| - 1])
  }

  // There is no name to take back: no line gives one, or the last that does gives an empty one.
  predicate Unnamed(group: seq<string>) {
    LastNamed(group).Some? ==> TrimSpace(LastNamed(group).value[6..]) == ""
  }

  lemma {:induction false} UnnamedIff(group: seq<string>)
    ensures EventName(group) == "" <==> Unnamed(group)
  {
    if group != [] {
      UnnamedIff(group[..|group| - 1]);
    }
  }

  lemma {:induction false} BareEventTakesBack(group: seq<string>)
    ensures EventName(group) == Standard.Type(group)
            <==> Standard.LastEvent(group) != Some("event") || EventName(group) == ""
    ensures Standard.LastEvent(group) == None ==> EventName(group) == ""
  {
    if group != [] {
      var last := group[|group| - 1];
      Standard.NamesIff(last, "event");
      assert "event" + ":" == "event:";
      BareEventTakesBack(group[..|group| - 1]);
    }
  }

  // The name agrees exactly when the standard's last event field is not a bare `event`, or there is
  // no name for it to take back.
  lemma NameAgreesWithStandard(group: seq<string>)
    ensures EventName(group) == Standard.Type(group)
            <==> Standard.LastEvent(group) != Some("event") || Unnamed(group)
  {
    BareEventTakesBack(group);
    UnnamedIff(group);
  }

  // Where they differ: a trailing bare `data`, and a leading empty value.
  lemma StandardDiffers()
    ensures EventData(["data: a", "data"]) != Standard.Data(["data: a", "data"])
    ensures EventData(["data:", "data: b"]) != Standard.Data(["data:", "data: b"])
  {
    TwoValues("data: a", "data");
    DataAgreesWithStandard(["data: a", "data"]);
    TwoValues("data:", "data: b");
    DataAgreesWithStandard(["data:", "data: b"]);
    assert TrimSpace("data:"[5..]) == "";
  }

  lemma TwoValues(a: string, b: string)
    requires "data:" <= a && (b == "data" || "data:" <= b)
    ensures |Standard.DataValues([a, b])| == 2 && Standard.DataValues([a, b])[0] == TrimSpace(a[5..])
  {
    Standard.ValueHead(a, [b]);
    assert [a] + [b] == [a, b];
    if b == "data" {
      Standard.BareHead([]);
      AppendEmpty(["data"]);
    } else {
      Standard.ValueHead(b, []);
      AppendEmpty([b]);
    }
  }

  lemma {:induction false} DropSnoc(parts: seq<string>, x: string)
    ensures Join(DropLeadingEmpty(parts + [x]), "\n") ==
            if Join(DropLeadingEmpty(parts), "\n") == "" then x
            else Join(DropLeadingEmpty(parts), "\n") + "\n" + x
  {
    if parts == [] {
      assert parts + [x] == [x];
      assert DropLeadingEmpty([x]) == if x == "" then [] else [x];
    } else if parts[0] == "" {
      assert (parts + [x])[1..] == parts[1..] + [x];
      DropSnoc(parts[1..], x);
    } else {
      assert (parts + [x])[0] == parts[0];
      JoinSnoc(parts, "\n", x);
    }
  }

  // --- What a client reads off the chunks ---

  function Content(chunks: seq<Chunk>): string {
    if chunks == [] then "" else chunks[0].content + Content(chunks[1..])
  }

  function FinishReason(chunks: seq<Chunk>): Option<string> {
    if chunks == [] then None
    else if chunks[|chunks| - 1].finishReason.Some? then chunks[|chunks| - 1].finishReason
    else FinishReason(chunks[..|chunks| - 1])
  }

  lemma {:induction false} ContentAppend(a: seq<Chunk>, b: seq<Chunk>)
    ensures Content(a + b) == Content(a) + Content(b)
  {
    if a == [] {
      assert a + b == b;
    } else {
      assert (a + b)[1..] == a[1..] + b;
      ContentAppend(a[1..], b);
    }
  }

  lemma {:induction false} FinishAppend(a: seq<Chunk>, b: seq<Chunk>)
    ensures FinishReason(a + b) == if FinishReason(b).Some? then FinishReason(b) else FinishReason(a)
  {
    if b == [] {
      assert a + b == a;
    } else {
      assert (a + b)[..|a + b| - 1] == a + b[..|b| - 1];
      FinishAppend(a, b[..|b| - 1]);
    }
  }

  lemma LastFinishes(chunks: seq<Chunk>, c: Chunk)
    requires c.finishReason.Some?
    ensures FinishReason(chunks + [c]) == c.finishReason
  {
  }

  // The text one event carries: that of a text_delta.
  function TextOf(env: Env, event: Event): string {
    if event.name == "content_block_delta" && event.data != "" && env.deltaOf(event.data).Some?
       && env.deltaOf(event.data).value.kind == "text_delta"
    then env.deltaOf(event.data).value.text else ""
  }

  function DeltaText(env: Env, events: seq<Event>): string {
    if events == [] then "" else TextOf(env, events[0]) + DeltaText(env, events[1..])
  }

  lemma {:induction false} DeltaTextAppend(env: Env, a: seq<Event>, b: seq<Event>)
    ensures DeltaText(env, a + b) == DeltaText(env, a) + DeltaText(env, b)
    decreases |a|
  {
    if a == [] {
      assert a + b == b;
    } else {
      assert (a + b)[1..] == a[1..] + b;
      DeltaTextAppend(env, a[1..], b);
    }
  }

  lemma MeaningText(env: Env, meta: Meta, event: Event)
    requires Meaning(env, meta, event).err.None?
    ensures Content(Meaning(env, meta, event).chunks) == TextOf(env, event)
  {
    var chunks := Meaning(env, meta, event).chunks;
    assert |chunks| <= 1;
    if |chunks| == 1 {
      assert chunks[1..] == [] && Content(chunks) == chunks[0].content;
    }
  }

  // The content a client concatenates is the text of the text_delta events.
  lemma {:induction false} ContentIsDeltaText(env: Env, meta: Meta, events: seq<Event>)
    requires Fold(Anthropic(env), meta, events).err.None?
    ensures Content(Fold(Anthropic(env), meta, events).chunks) == DeltaText(env, events)
    decreases |events|
  {
    if events != [] {
      var v := Meaning(env, meta, events[0]);
      MeaningText(env, meta, events[0]);
      ContentIsDeltaText(env, v.meta, events[1..]);
      ContentAppend(v.chunks, Fold(Anthropic(env), v.meta, events[1..]).chunks);
    }
  }
}
