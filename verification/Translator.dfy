// The client side of a response, as far as the gateway writes to it.
module HttpWriter {
  class ResponseWriter {
    var status: int   // 0 until WriteHeader
    var written: string

    constructor ()
      ensures status == 0 && written == ""
    {
      status, written := 0, "";
    }

    // Only the first status line is sent.
    method WriteHeader(code: int)
      modifies this`status
      ensures status == if old(status) == 0 then code else old(status)
    {
      if status == 0 { status := code; }
    }

    method Write(bytes: string)
      modifies this`written
      ensures written == old(written) + bytes
    {
      written := written + bytes;
    }
  }
}

// The incremental translator, as a specification on values and as the class itself.
module Translator {
  import opened Wrappers
  import opened Text
  import opened StreamEvents
  import opened HttpWriter

  // The event being accumulated, and what earlier events set.
  datatype Fields = Fields(event: string, data: string, meta: Meta)

  datatype Progress = Progress(fields: Fields, chunks: seq<Chunk>, err: Option<string>)

  datatype State = State(lineBuf: string, fields: Fields)

  datatype Outcome = Outcome(st: State, chunks: seq<Chunk>, err: Option<string>)

  const FRESH := State("", Fields("", "", NO_META))

  function ConsumeLine(f: Fields, line: string): Fields {
    if "event:" <= line then f.(event := TrimSpace(line[6..]))
    else if "data:" <= line then
      f.(data := if f.data == "" then TrimSpace(line[5..]) else f.data + "\n" + TrimSpace(line[5..]))
    else f
  }

  // One complete line: a blank one dispatches the event, and resets it unless that fails.
  function Absorb(h: Handler, f: Fields, line: string): Progress {
    if line != "" then Progress(ConsumeLine(f, line), [], None)
    else
      var v := h(f.meta, Event(f.event, f.data));
      if v.err.Some? then Progress(f.(meta := v.meta), v.chunks, v.err)
      else Progress(Fields("", "", v.meta), v.chunks, None)
  }

  // Consumes the complete lines of the buffer.
  function Drain(h: Handler, buf: string, f: Fields): Outcome
    decreases |buf|
  {
    var i := IndexOf(buf, '\n');
    if i < 0 then Outcome(State(buf, f), [], None)
    else
      var p := Absorb(h, f, StripCr(buf[..i]));
      if p.err.Some? then Outcome(State(buf[i + 1..], p.fields), p.chunks, p.err)
      else
        var r := Drain(h, buf[i + 1..], p.fields);
        Outcome(r.st, p.chunks + r.chunks, r.err)
  }

  // One Translate call.
  function Feed(h: Handler, st: State, chunk: string): Outcome {
    Drain(h, st.lineBuf + chunk, st.fields)
  }

  // Successive Translate calls; the caller stops at the first error.
  function FeedAll(h: Handler, st: State, cuts: seq<string>): Outcome
    decreases |cuts|
  {
    if cuts == [] then Outcome(st, [], None)
    else
      var o := Feed(h, st, cuts[0]);
      if o.err.Some? then o
      else
        var r := FeedAll(h, o.st, cuts[1..]);
        Outcome(r.st, o.chunks + r.chunks, r.err)
  }

  // Between calls the carry-over holds no complete line.
  lemma {:induction false} DrainLeavesNoLine(h: Handler, buf: string, f: Fields)
    requires Drain(h, buf, f).err.None?
    ensures Drain(h, buf, f).st.lineBuf == Rest(buf)
    decreases |buf|
  {
    var i := IndexOf(buf, '\n');
    if i >= 0 {
      DrainLeavesNoLine(h, buf[i + 1..], Absorb(h, f, StripCr(buf[..i])).fields);
    }
  }

  // The chunks written so far, followed by what is still to come.
  ghost function After(done: seq<Chunk>, rest: Outcome): Outcome {
    Outcome(rest.st, done + rest.chunks, rest.err)
  }

  function Then(h: Handler, o: Outcome, more: string): Outcome {
    if o.err.Some? then Outcome(State(o.st.lineBuf + more, o.st.fields), o.chunks, o.err)
    else
      var r := Feed(h, o.st, more);
      Outcome(r.st, o.chunks + r.chunks, r.err)
  }

  // The first line of a buffer, and what is behind it.
  predicate FirstLineIs(buf: string, line: string, tail: string) {
    var i := IndexOf(buf, '\n');
    i >= 0 && buf[..i] == line && buf[i + 1..] == tail
  }

  // Appended bytes are behind the first line.
  lemma FirstLineStays(buf: string, line: string, tail: string, more: string)
    requires FirstLineIs(buf, line, tail)
    ensures FirstLineIs(buf + more, line, tail + more)
  {
    IndexOfAppend(buf, more, '\n');
    var i := IndexOf(buf, '\n');
    assert (buf + more)[..i] == buf[..i];
    assert (buf + more)[i + 1..] == buf[i + 1..] + more;
  }

  // One turn on the first line.
  lemma DrainTurn(h: Handler, buf: string, f: Fields, line: string, tail: string)
    requires FirstLineIs(buf, line, tail)
    ensures
      var p := Absorb(h, f, StripCr(line));
      Drain(h, buf, f) ==
      if p.err.Some? then Outcome(State(tail, p.fields), p.chunks, p.err)
      else After(p.chunks, Drain(h, tail, p.fields))
  {
  }

  lemma ThenAfter(h: Handler, chunks: seq<Chunk>, o: Outcome, more: string)
    ensures Then(h, After(chunks, o), more) == After(chunks, Then(h, o, more))
  {
    Associate(chunks, o.chunks, Feed(h, o.st, more).chunks);
  }

  // The claim below for a buffer follows from the claim for what is behind its first line.
  lemma DrainAppendTurn(h: Handler, buf: string, f: Fields, more: string, line: string, tail: string)
    requires FirstLineIs(buf, line, tail)
    requires
      var p := Absorb(h, f, StripCr(line));
      p.err.None? ==> Drain(h, tail + more, p.fields) == Then(h, Drain(h, tail, p.fields), more)
    ensures Drain(h, buf + more, f) == Then(h, Drain(h, buf, f), more)
  {
    var p := Absorb(h, f, StripCr(line));
    FirstLineStays(buf, line, tail, more);
    DrainTurn(h, buf, f, line, tail);
    DrainTurn(h, buf + more, f, line, tail + more);
    ThenAfter(h, p.chunks, Drain(h, tail, p.fields), more);
  }

  lemma NothingToDrain(h: Handler, buf: string, f: Fields, more: string)
    requires IndexOf(buf, '\n') < 0
    ensures Drain(h, buf + more, f) == Then(h, Drain(h, buf, f), more)
  {
    AppendEmpty(Drain(h, buf + more, f).chunks);
  }

  // Bytes behind the buffer are looked at only after the buffer is drained.
  lemma {:induction false} DrainAppend(h: Handler, buf: string, f: Fields, more: string)
    ensures Drain(h, buf + more, f) == Then(h, Drain(h, buf, f), more)
    decreases |buf|
  {
    var i := IndexOf(buf, '\n');
    if i < 0 {
      NothingToDrain(h, buf, f, more);
    } else {
      var p := Absorb(h, f, StripCr(buf[..i]));
      if p.err.None? {
        DrainAppend(h, buf[i + 1..], p.fields, more);
      }
      DrainAppendTurn(h, buf, f, more, buf[..i], buf[i + 1..]);
    }
  }

  // However the input is cut, the calls together give what one call on the whole gives:
  // the same chunks and error, and the same final state when there is no error.
  lemma {:induction false} TranslateIgnoresCuts(h: Handler, st: State, cuts: seq<string>)
    requires '\n' !in st.lineBuf
    ensures FeedAll(h, st, cuts).chunks == Feed(h, st, Concat(cuts)).chunks
    ensures FeedAll(h, st, cuts).err == Feed(h, st, Concat(cuts)).err
    ensures FeedAll(h, st, cuts).err.None? ==> FeedAll(h, st, cuts) == Feed(h, st, Concat(cuts))
    decreases |cuts|
  {
    if cuts == [] {
      assert st.lineBuf + "" == st.lineBuf;
    } else {
      var o := Feed(h, st, cuts[0]);
      var fed := st.lineBuf + cuts[0];
      DrainAppend(h, fed, st.fields, Concat(cuts[1..]));
      assert st.lineBuf + Concat(cuts) == fed + Concat(cuts[1..]);
      if o.err.None? {
        DrainLeavesNoLine(h, fed, st.fields);
        RestHasNoLf(fed);
        TranslateIgnoresCuts(h, o.st, cuts[1..]);
      }
    }
  }

  // --- Refinement of the one-shot reading ---

  function FieldsOf(group: seq<string>, meta: Meta): Fields {
    Fields(EventName(group), EventData(group), meta)
  }

  lemma ConsumeExtendsGroup(group: seq<string>, meta: Meta, line: string)
    ensures ConsumeLine(FieldsOf(group, meta), line) == FieldsOf(group + [line], meta)
  {
    assert (group + [line])[..|group|] == group;
    PayloadsSnoc(group, line);
    if "data:" <= line {
      assert Payloads([line]) == [TrimSpace(line[5..])];
      DropSnoc(Payloads(group), TrimSpace(line[5..]));
      assert line[0] == 'd';
    } else {
      assert Payloads([line]) == [];
      assert Payloads(group) + [] == Payloads(group);
    }
  }

  lemma BlankEndsGroup(group: seq<string>, lines: seq<string>)
    requires "" !in group
    ensures Groups(group + [""] + lines) == [group] + Groups(lines)
    ensures OpenGroup(group + [""] + lines) == OpenGroup(lines)
  {
    var all := group + [""] + lines;
    assert all[|group|] == "";
    assert forall k :: 0 <= k < |group| ==> all[k] == group[k];
    assert IndexOf(all, "") == |group|;
    assert all[..|group|] == group && all[|group| + 1..] == lines;
  }

  // Draining a buffer behind the lines of an open event.
  function OneShot(h: Handler, group: seq<string>, buf: string, meta: Meta): Outcome {
    var lines := group + Lines(buf);
    var v := Fold(h, meta, EventsOf(Groups(lines)));
    Outcome(State(Rest(buf), FieldsOf(OpenGroup(lines), v.meta)), v.chunks, v.err)
  }

  predicate Agree(o: Outcome, spec: Outcome) {
    o.chunks == spec.chunks && o.err == spec.err && (o.err.None? ==> o.st == spec.st)
  }

  lemma OneShotField(h: Handler, group: seq<string>, buf: string, meta: Meta, i: nat)
    requires i == IndexOf(buf, '\n') && StripCr(buf[..i]) != ""
    ensures OneShot(h, group, buf, meta) == OneShot(h, group + [StripCr(buf[..i])], buf[i + 1..], meta)
  {
    var line := StripCr(buf[..i]);
    assert group + ([line] + Lines(buf[i + 1..])) == (group + [line]) + Lines(buf[i + 1..]);
  }

  lemma OneShotBlank(h: Handler, group: seq<string>, buf: string, meta: Meta, i: nat)
    requires "" !in group && i == IndexOf(buf, '\n') && StripCr(buf[..i]) == ""
    ensures
      var v := h(meta, EventOf(group));
      var r := OneShot(h, [], buf[i + 1..], v.meta);
      Agree(OneShot(h, group, buf, meta),
            if v.err.Some? then Outcome(r.st, v.chunks, v.err) else Outcome(r.st, v.chunks + r.chunks, r.err))
  {
    var tail := Lines(buf[i + 1..]);
    assert [] + tail == tail;
    assert group + Lines(buf) == group + [""] + tail;
    BlankEndsGroup(group, tail);
    var events := EventsOf([group] + Groups(tail));
    assert events == [EventOf(group)] + EventsOf(Groups(tail));
    assert events[1..] == EventsOf(Groups(tail));
  }

  lemma DrainQuiet(h: Handler, buf: string, f: Fields, i: nat, next: Fields)
    requires i == IndexOf(buf, '\n') && Absorb(h, f, StripCr(buf[..i])) == Progress(next, [], None)
    ensures Drain(h, buf, f) == Drain(h, buf[i + 1..], next)
  {
    var r := Drain(h, buf[i + 1..], next);
    assert [] + r.chunks == r.chunks;
  }

  lemma DrainField(h: Handler, buf: string, group: seq<string>, meta: Meta, i: nat)
    requires i == IndexOf(buf, '\n') && StripCr(buf[..i]) != ""
    ensures Drain(h, buf, FieldsOf(group, meta)) ==
            Drain(h, buf[i + 1..], FieldsOf(group + [StripCr(buf[..i])], meta))
  {
    var line := StripCr(buf[..i]);
    ConsumeExtendsGroup(group, meta, line);
    DrainQuiet(h, buf, FieldsOf(group, meta), i, FieldsOf(group + [line], meta));
  }

  lemma DrainBlank(h: Handler, buf: string, group: seq<string>, meta: Meta, i: nat)
    requires i == IndexOf(buf, '\n') && StripCr(buf[..i]) == ""
    ensures
      var v := h(meta, EventOf(group));
      var r := Drain(h, buf[i + 1..], FieldsOf([], v.meta));
      Agree(Drain(h, buf, FieldsOf(group, meta)),
            if v.err.Some? then Outcome(r.st, v.chunks, v.err) else Outcome(r.st, v.chunks + r.chunks, r.err))
  {
    assert FieldsOf([], h(meta, EventOf(group)).meta) == Fields("", "", h(meta, EventOf(group)).meta);
  }

  lemma NoLineIsOneShot(h: Handler, buf: string, group: seq<string>, meta: Meta)
    requires "" !in group && IndexOf(buf, '\n') < 0
    ensures Agree(Drain(h, buf, FieldsOf(group, meta)), OneShot(h, group, buf, meta))
  {
    assert group + [] == group;
    assert Groups(group) == [] && OpenGroup(group) == group;
  }

  lemma {:induction false} DrainIsOneShot(h: Handler, buf: string, group: seq<string>, meta: Meta)
    requires "" !in group
    ensures Agree(Drain(h, buf, FieldsOf(group, meta)), OneShot(h, group, buf, meta))
    decreases |buf|
  {
    var i := IndexOf(buf, '\n');
    if i < 0 {
      NoLineIsOneShot(h, buf, group, meta);
    } else if StripCr(buf[..i]) != "" {
      DrainField(h, buf, group, meta, i);
      OneShotField(h, group, buf, meta, i);
      DrainIsOneShot(h, buf[i + 1..], group + [StripCr(buf[..i])], meta);
    } else {
      DrainBlank(h, buf, group, meta, i);
      OneShotBlank(h, group, buf, meta, i);
      var v := h(meta, EventOf(group));
      if v.err.None? {
        DrainIsOneShot(h, buf[i + 1..], [], v.meta);
      }
    }
  }

  // Behind no lines, the one-shot reading is the translation of the whole.
  lemma FreshIsOneShot(env: Env, input: string)
    ensures
      var v := Translation(env, input);
      OneShot(Anthropic(env), [], input, NO_META) ==
      Outcome(State(Rest(input), FieldsOf(OpenGroup(Lines(input)), v.meta)), v.chunks, v.err)
    ensures FieldsOf([], NO_META) == FRESH.fields && FRESH.lineBuf + input == input
  {
    AppendEmpty(Lines(input));
    AppendEmpty(input);
  }

  // However a stream is cut, the translator emits the one-shot translation of the whole,
  // fails where it fails, and otherwise keeps exactly the unfinished line and event.
  lemma TranslateIsOneShot(env: Env, cuts: seq<string>)
    ensures
      var o := FeedAll(Anthropic(env), FRESH, cuts);
      var input := Concat(cuts);
      var v := Translation(env, input);
      && o.chunks == v.chunks && o.err == v.err
      && (o.err.None? ==> o.st == State(Rest(input), FieldsOf(OpenGroup(Lines(input)), v.meta)))
  {
    var input := Concat(cuts);
    TranslateIgnoresCuts(Anthropic(env), FRESH, cuts);
    DrainIsOneShot(Anthropic(env), input, [], NO_META);
    FreshIsOneShot(env, input);
  }

  // --- The class ---

  lemma AfterAfter(done: seq<Chunk>, step: seq<Chunk>, rest: Outcome)
    ensures After(done, After(step, rest)) == After(done + step, rest)
  {
    assert done + (step + rest.chunks) == (done + step) + rest.chunks;
  }

  lemma WrittenAppend(env: Env, before: string, a: seq<Chunk>, b: seq<Chunk>)
    ensures before + Frames(env, a) + Frames(env, b) == before + Frames(env, a + b)
  {
    FramesAppend(env, a, b);
    assert before + (Frames(env, a) + Frames(env, b)) == before + Frames(env, a) + Frames(env, b);
  }

  lemma AfterAll(done: seq<Chunk>, st: State, err: Option<string>)
    ensures After(done, Outcome(st, [], err)) == Outcome(st, done, err)
  {
    assert done + [] == done;
  }

  // Translate's loop: what was to drain at the start is what has been written and what is left.
  ghost predicate Going(h: Handler, start: Outcome, done: seq<Chunk>, st: State) {
    start == After(done, Drain(h, st.lineBuf, st.fields))
  }

  // One turn: a line is taken in, with some chunks, and the rest is left; or it ends with an error.
  ghost predicate Turned(h: Handler, before: State, step: seq<Chunk>, st: State, err: Option<string>) {
    Drain(h, before.lineBuf, before.fields) ==
    After(step, if err.Some? then Outcome(st, [], err) else Drain(h, st.lineBuf, st.fields))
  }

  // Taking in the first line is one turn.
  lemma LineTurns(h: Handler, before: State, line: string, tail: string, p: Progress)
    requires FirstLineIs(before.lineBuf, line, tail) && p == Absorb(h, before.fields, StripCr(line))
    ensures Turned(h, before, p.chunks, State(tail, p.fields), p.err)
  {
    DrainTurn(h, before.lineBuf, before.fields, line, tail);
    AppendEmpty(p.chunks);
  }

  lemma TurnTaken(h: Handler, start: Outcome, done: seq<Chunk>, before: State, step: seq<Chunk>, st: State,
                  err: Option<string>)
    requires Going(h, start, done, before) && Turned(h, before, step, st, err)
    ensures if err.Some? then start == Outcome(st, done + step, err) else Going(h, start, done + step, st)
  {
    AfterAfter(done, step, if err.Some? then Outcome(st, [], err) else Drain(h, st.lineBuf, st.fields));
    AfterAll(done + step, st, err);
  }

  lemma NoTurnLeft(h: Handler, start: Outcome, done: seq<Chunk>, st: State)
    requires Going(h, start, done, st) && IndexOf(st.lineBuf, '\n') < 0
    ensures start == Outcome(st, done, None)
  {
    AfterAll(done, st, None);
  }

  class AnthropicStreamTranslator {
    const env: Env
    var lineBuf: string
    var currentEvent: string
    var currentData: string
    var id: string
    var model: string
    var created: int
    var clockReads: nat
    var roleEmitted: bool
    var finished: bool

    constructor (env: Env)
      ensures this.env == env && Abs() == FRESH && !finished && !roleEmitted
    {
      this.env := env;
      lineBuf, currentEvent, currentData := "", "", "";
      id, model, created, clockReads := "", "", 0, 0;
      roleEmitted, finished := false, false;
    }

    function MetaNow(): Meta
      reads this
    {
      Meta(id, model, created, clockReads)
    }

    function Abs(): State
      reads this
    {
      State(lineBuf, Fields(currentEvent, currentData, MetaNow()))
    }

    method Translate(chunk: string, w: ResponseWriter) returns (err: Option<string>)
      modifies this, w`written
      ensures var o := Feed(Anthropic(env), old(Abs()), chunk);
              && Abs() == o.st && err == o.err
              && w.written == old(w.written) + Frames(env, o.chunks)
              && roleEmitted == (old(roleEmitted) || o.chunks != [])
      ensures finished == old(finished)
    {
      lineBuf := lineBuf + chunk;
      ghost var h := Anthropic(env);
      ghost var start := Drain(h, lineBuf, Abs().fields);
      ghost var done: seq<Chunk> := [];
      AppendEmpty(start.chunks);
      AppendEmpty(w.written);
      var nl := IndexOf(lineBuf, '\n');
      while nl >= 0
        invariant nl == IndexOf(lineBuf, '\n') && finished == old(finished)
        invariant Going(h, start, done, Abs())
        invariant w.written == old(w.written) + Frames(env, done)
        invariant roleEmitted == (old(roleEmitted) || done != [])
        decreases |lineBuf|
      {
        ghost var before := Abs();
        ghost var step;
        err, step := TakeLine(nl, w);
        TurnTaken(h, start, done, before, step, Abs(), err);
        WrittenAppend(env, old(w.written), done, step);
        done := done + step;
        if err.Some? { return; }
        nl := IndexOf(lineBuf, '\n');
      }
      err := None;
      NoTurnLeft(h, start, done, Abs());
    }

    // The body of Translate's loop: cuts off the first line and takes it in.
    method TakeLine(nl: nat, w: ResponseWriter) returns (err: Option<string>, ghost step: seq<Chunk>)
      requires nl == IndexOf(lineBuf, '\n')
      modifies this, w`written
      ensures Turned(Anthropic(env), old(Abs()), step, Abs(), err)
      ensures w.written == old(w.written) + Frames(env, step)
      ensures roleEmitted == (old(roleEmitted) || step != [])
      ensures finished == old(finished) && |lineBuf| < old(|lineBuf|)
    {
      var line, tail := lineBuf[..nl], lineBuf[nl + 1..];
      ghost var p := Absorb(Anthropic(env), Abs().fields, StripCr(line));
      LineTurns(Anthropic(env), Abs(), line, tail, p);
      step := p.chunks;
      lineBuf := tail;
      err := AcceptLine(StripCr(line), w);
    }

    method AcceptLine(line: string, w: ResponseWriter) returns (err: Option<string>)
      modifies this, w`written
      ensures var p := Absorb(Anthropic(env), old(Abs().fields), line);
              && Abs().fields == p.fields && err == p.err
              && w.written == old(w.written) + Frames(env, p.chunks)
              && roleEmitted == (old(roleEmitted) || p.chunks != [])
      ensures unchanged(`lineBuf, `finished)
    {
      err := None;
      if line == "" {
        err := Dispatch(w);
        if err.Some? { return; }
        currentEvent, currentData := "", "";
      } else {
        ConsumeFieldLine(line);
      }
    }

    method ConsumeFieldLine(line: string)
      modifies this`currentEvent, this`currentData
      ensures Abs().fields == ConsumeLine(old(Abs()).fields, line)
    {
      if "event:" <= line {
        currentEvent := TrimSpace(line[6..]);
        return;
      }
      if "data:" <= line {
        if |currentData| > 0 { currentData := currentData + "\n"; }
        currentData := currentData + TrimSpace(line[5..]);
      }
    }

    method Dispatch(w: ResponseWriter) returns (err: Option<string>)
      modifies this, w`written
      ensures var v := Meaning(env, old(MetaNow()), Event(old(currentEvent), old(currentData)));
              && err == v.err && MetaNow() == v.meta
              && w.written == old(w.written) + Frames(env, v.chunks)
              && roleEmitted == (old(roleEmitted) || v.chunks != [])
      ensures unchanged(`lineBuf, `currentEvent, `currentData, `finished)
    {
      if currentEvent == "" || |currentData| == 0 { return None; }
      match currentEvent
      case "message_start" => err := HandleMessageStart(w);
      case "content_block_delta" => err := HandleContentBlockDelta(w);
      case "message_delta" => err := HandleMessageDelta(w);
      case "error" =>
        WriteChunk(w, "", "", "error");
        err := None;
      case _ => err := None;
    }

    method HandleMessageStart(w: ResponseWriter) returns (err: Option<string>)
      requires currentEvent == "message_start" && currentData != ""
      modifies this, w`written
      ensures var v := Meaning(env, old(MetaNow()), Event(old(currentEvent), old(currentData)));
              && err == v.err && MetaNow() == v.meta
              && w.written == old(w.written) + Frames(env, v.chunks)
              && roleEmitted == (old(roleEmitted) || v.chunks != [])
      ensures unchanged(`lineBuf, `currentEvent, `currentData, `finished)
    {
      var ev := env.startOf(currentData);
      if ev.None? { return Some(currentEvent); }
      id, model := ev.value.id, ev.value.model;
      created, clockReads := env.clock(clockReads), clockReads + 1;
      WriteChunk(w, "assistant", "", "");
      err := None;
    }

    method HandleContentBlockDelta(w: ResponseWriter) returns (err: Option<string>)
      requires currentEvent == "content_block_delta" && currentData != ""
      modifies this`roleEmitted, w`written
      ensures var v := Meaning(env, MetaNow(), Event(currentEvent, currentData));
              && err == v.err && MetaNow() == v.meta
              && w.written == old(w.written) + Frames(env, v.chunks)
              && roleEmitted == (old(roleEmitted) || v.chunks != [])
    {
      var ev := env.deltaOf(currentData);
      if ev.None? { return Some(currentEvent); }
      if ev.value.kind != "text_delta" || ev.value.text == "" { return None; }
      WriteChunk(w, "", ev.value.text, "");
      err := None;
    }

    method HandleMessageDelta(w: ResponseWriter) returns (err: Option<string>)
      requires currentEvent == "message_delta" && currentData != ""
      modifies this`roleEmitted, w`written
      ensures var v := Meaning(env, MetaNow(), Event(currentEvent, currentData));
              && err == v.err && MetaNow() == v.meta
              && w.written == old(w.written) + Frames(env, v.chunks)
              && roleEmitted == (old(roleEmitted) || v.chunks != [])
    {
      var ev := env.stopOf(currentData);
      if ev.None? { return Some(currentEvent); }
      if ev.value == "" { return None; }
      WriteChunk(w, "", "", MapStopReason(ev.value));
      err := None;
    }

    method WriteChunk(w: ResponseWriter, role: string, content: string, finish: string)
      modifies this`roleEmitted, w`written
      ensures w.written == old(w.written) + Frames(env, [ChunkOf(MetaNow(), role, content, finish)])
      ensures roleEmitted
    {
      var body := env.encode(ChunkOf(MetaNow(), role, content, finish));
      w.Write("data: ");
      w.Write(body);
      w.Write("\n\n");
      roleEmitted := true;
      assert w.written == old(w.written) + Frame(body);
      assert Frames(env, [ChunkOf(MetaNow(), role, content, finish)]) == Frame(body) + "";
    }

    method Close(w: ResponseWriter)
      modifies this`finished, w`written
      ensures finished
      ensures w.written == old(w.written) + if old(finished) then "" else DONE_FRAME
    {
      if finished { return; }
      finished := true;
      w.Write("data: [DONE]\n\n");
    }
  }
}
