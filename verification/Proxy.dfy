// The outbound side of the gateway: relaying one stream, and the fallback chain.
module Proxy {
  import opened Wrappers
  import opened Text
  import opened StreamEvents
  import opened HttpWriter
  import T = Translator

  // --- Relaying one stream ---

  // How a read ends: with nothing to report, at the end of the body, or with an error.
  datatype End = More | Eof | Failed(error: string)

  // One io.Reader.Read: data may be empty, and may come together with the end.
  datatype Read = Read(data: string, end: End)

  predicate Ends(body: seq<Read>) { exists i :: 0 <= i < |body| && body[i].end != More }

  // The bytes of a body, and how it ended. Reads behind the first end do not happen.
  function Received(body: seq<Read>): string {
    if body == [] then ""
    else if body[0].end != More then body[0].data
    else body[0].data + Received(body[1..])
  }

  function Ending(body: seq<Read>): (e: End)
    requires Ends(body)
    ensures e != More
  {
    if body[0].end != More then body[0].end else Ending(body[1..])
  }

  function EndError(e: End): Option<string> {
    if e.Failed? then Some(e.error) else None
  }

  datatype Relayed = Relayed(bytes: string, err: Option<string>)

  // The relay of a whole Anthropic body: the frames of its one-shot translation, and the
  // [DONE] frame exactly when the body ends without a translation or read error.
  function Relay(env: Env, body: seq<Read>): (r: Relayed)
    requires Ends(body)
  {
    var v := Translation(env, Received(body));
    var err := if v.err.Some? then v.err else EndError(Ending(body));
    Relayed(Frames(env, v.chunks) + (if err.None? then DONE_FRAME else ""), err)
  }

  lemma FeedIsTranslation(env: Env, input: string)
    ensures
      var o := T.Feed(Anthropic(env), T.FRESH, input);
      var v := Translation(env, input);
      o.chunks == v.chunks && o.err == v.err && (o.err.None? ==> '\n' !in o.st.lineBuf)
  {
    T.TranslateIsOneShot(env, [input]);
    RestHasNoLf(input);
    assert Concat([input]) == input;
    T.TranslateIgnoresCuts(Anthropic(env), T.FRESH, [input]);
  }

  // A relay reports no error exactly when the body ends at EOF and every payload it needs decodes.
  lemma RelaySucceedsIff(env: Env, body: seq<Read>)
    requires Ends(body)
    ensures Relay(env, body).err.None? <==>
            Ending(body) == Eof && forall e :: e in Events(Received(body)) ==> Decodes(env, e)
  {
    FoldSucceedsIff(env, NO_META, Events(Received(body)));
  }

  // Translating one more read continues the translation of what came before.
  lemma FeedMore(env: Env, before: string, data: string)
    ensures T.Feed(Anthropic(env), T.FRESH, before + data) ==
            T.Then(Anthropic(env), T.Feed(Anthropic(env), T.FRESH, before), data)
  {
    assert "" + before == before && "" + (before + data) == before + data;
    T.DrainAppend(Anthropic(env), before, T.FRESH.fields, data);
  }

  lemma FeedNothing(env: Env, st: T.State)
    requires '\n' !in st.lineBuf
    ensures T.Feed(Anthropic(env), st, "") == T.Outcome(st, [], None)
  {
    assert st.lineBuf + "" == st.lineBuf;
  }

  lemma ReceivedStep(body: seq<Read>, k: nat)
    requires k < |body| && forall i :: 0 <= i < k ==> body[i].end == More
    ensures Received(body[..k + 1]) == Received(body[..k]) + body[k].data
    ensures body[k].end != More ==>
              Received(body) == Received(body[..k + 1]) && Ends(body) && Ending(body) == body[k].end
    decreases k
  {
    if k > 0 {
      ReceivedStep(body[1..], k - 1);
      assert body[..k + 1][1..] == body[1..][..k];
      assert body[..k][1..] == body[1..][..k - 1];
    } else {
      assert body[..1] == [body[0]] && body[..0] == [];
    }
  }

  function Datas(body: seq<Read>): seq<string> {
    if body == [] then [] else Datas(body[..|body| - 1]) + [body[|body| - 1].data]
  }

  lemma {:induction false} PrefixIsReads(body: seq<Read>, n: nat)
    requires n <= |body| && forall i :: 0 <= i < n - 1 ==> body[i].end == More
    ensures Received(body[..n]) == Concat(Datas(body[..n]))
    decreases n
  {
    if n > 0 {
      PrefixIsReads(body, n - 1);
      ReceivedStep(body, n - 1);
      assert body[..n][..n - 1] == body[..n - 1];
      ConcatSnoc(Datas(body[..n - 1]), body[n - 1].data);
    }
  }

  // What is received is the data of all reads up to the first that ends the body, its own included.
  lemma ReceivedIsReads(body: seq<Read>, k: nat)
    requires k < |body| && body[k].end != More && forall i :: 0 <= i < k ==> body[i].end == More
    ensures Received(body) == Concat(Datas(body[..k + 1])) && Ends(body) && Ending(body) == body[k].end
  {
    PrefixIsReads(body, k + 1);
    ReceivedStep(body, k);
  }

  // The translator after the first k reads.
  ghost function SoFar(env: Env, body: seq<Read>, k: nat): T.Outcome
    requires k <= |body|
  {
    T.Feed(Anthropic(env), T.FRESH, Received(body[..k]))
  }

  lemma SoFarStart(env: Env, body: seq<Read>)
    ensures SoFar(env, body, 0) == T.Outcome(T.FRESH, [], None)
  {
    assert body[..0] == [];
    FeedNothing(env, T.FRESH);
  }

  // One turn of the relay loop, and what the whole relay is when the loop stops there.
  lemma RelayTurn(env: Env, body: seq<Read>, k: nat)
    requires Ends(body) && k < |body| && forall i :: 0 <= i < k ==> body[i].end == More
    requires SoFar(env, body, k).err.None?
    ensures '\n' !in SoFar(env, body, k).st.lineBuf
    ensures SoFar(env, body, k + 1) == T.Then(Anthropic(env), SoFar(env, body, k), body[k].data)
  {
    ReceivedStep(body, k);
    var before := Received(body[..k]);
    FeedMore(env, before, body[k].data);
    FeedIsTranslation(env, before);
  }

  // What the whole relay is when the loop stops behind read k.
  lemma RelayStops(env: Env, body: seq<Read>, k: nat, before: string)
    requires Ends(body) && k < |body| && forall i :: 0 <= i < k ==> body[i].end == More
    requires SoFar(env, body, k).err.None?
    requires SoFar(env, body, k + 1).err.Some? || body[k].end != More
    ensures
      var o := SoFar(env, body, k + 1);
      var err := if o.err.Some? then o.err else EndError(body[k].end);
      Relay(env, body).err == err &&
      before + Relay(env, body).bytes ==
        if err.Some? then before + Frames(env, o.chunks) else before + Frames(env, o.chunks) + DONE_FRAME
  {
    ReceivedStep(body, k);
    FeedIsTranslation(env, Received(body[..k + 1]));
    if SoFar(env, body, k + 1).err.Some? {
      LaterReadsUnseen(env, body, k);
    }
    var frames := Frames(env, SoFar(env, body, k + 1).chunks);
    Associate(before, frames, DONE_FRAME);
    AppendEmpty(frames);
  }

  lemma WrittenMore(env: Env, before: string, o: T.Outcome, data: string)
    requires o.err.None?
    ensures
      var h := Anthropic(env);
      before + Frames(env, o.chunks) + Frames(env, T.Feed(h, o.st, data).chunks) ==
      before + Frames(env, T.Then(h, o, data).chunks)
  {
    T.WrittenAppend(env, before, o.chunks, T.Feed(Anthropic(env), o.st, data).chunks);
  }

  // The relay loop in front of read k: nothing has ended or failed, `bytes` have been written.
  ghost predicate Reached(env: Env, body: seq<Read>, k: nat, st: T.State, bytes: string) {
    && k <= |body| && (forall i :: 0 <= i < k ==> body[i].end == More)
    && SoFar(env, body, k).err.None? && SoFar(env, body, k).st == st
    && bytes == Frames(env, SoFar(env, body, k).chunks)
  }

  lemma ReachedStart(env: Env, body: seq<Read>)
    ensures Reached(env, body, 0, T.FRESH, "")
  {
    SoFarStart(env, body);
  }

  lemma ReachedReads(env: Env, body: seq<Read>, k: nat, st: T.State, bytes: string)
    requires Ends(body) && Reached(env, body, k, st, bytes)
    ensures k < |body|
  {
  }

  // One turn: the loop goes on, or stops with the relay complete but for [DONE].
  lemma ReachedNext(env: Env, body: seq<Read>, k: nat, st: T.State, bytes: string)
    requires Ends(body) && Reached(env, body, k, st, bytes) && k < |body|
    ensures '\n' !in st.lineBuf
    ensures
      var o := T.Feed(Anthropic(env), st, body[k].data);
      var more := bytes + Frames(env, o.chunks);
      if o.err.None? && body[k].end == More then Reached(env, body, k + 1, o.st, more)
      else
        var err := if o.err.Some? then o.err else EndError(body[k].end);
        Relay(env, body) == Relayed(if err.Some? then more else more + DONE_FRAME, err)
  {
    RelayTurn(env, body, k);
    WrittenMore(env, "", SoFar(env, body, k), body[k].data);
    AppendEmpty(bytes);
    var o := T.Feed(Anthropic(env), st, body[k].data);
    AppendEmpty(Frames(env, SoFar(env, body, k + 1).chunks));
    if o.err.Some? || body[k].end != More {
      RelayStops(env, body, k, "");
      AppendEmpty(Relay(env, body).bytes);
    }
  }

  method StreamResponse(env: Env, body: seq<Read>, w: ResponseWriter) returns (err: Option<string>)
    requires Ends(body)
    modifies w`written
    ensures var r := Relay(env, body); err == r.err && w.written == old(w.written) + r.bytes
  {
    ghost var before := w.written;
    ghost var bytes := "";
    var translator := new T.AnthropicStreamTranslator(env);
    ReachedStart(env, body);
    AppendEmpty(before);
    var k := 0;
    while true
      invariant fresh(translator) && translator.env == env && !translator.finished
      invariant 0 <= k && Reached(env, body, k, translator.Abs(), bytes)
      invariant w.written == before + bytes
      decreases |body| - k
    {
      ReachedReads(env, body, k, translator.Abs(), bytes);
      ReachedNext(env, body, k, translator.Abs(), bytes);
      ghost var frames := Frames(env, T.Feed(Anthropic(env), translator.Abs(), body[k].data).chunks);
      Associate(before, bytes, frames);
      Associate(before, bytes + frames, DONE_FRAME);
      bytes := bytes + frames;
      err := WriteChunk(translator, body[k].data, w);
      if err.Some? { return; }
      if body[k].end == Eof {
        FinishStream(translator, w);
        return;
      }
      if body[k].end.Failed? { return Some(body[k].end.error); }
      k := k + 1;
    }
  }

  method WriteChunk(t: T.AnthropicStreamTranslator, chunk: string, w: ResponseWriter) returns (err: Option<string>)
    requires '\n' !in t.lineBuf
    modifies t, w`written
    ensures var o := T.Feed(Anthropic(t.env), old(t.Abs()), chunk);
            t.Abs() == o.st && err == o.err && w.written == old(w.written) + Frames(t.env, o.chunks)
    ensures t.finished == old(t.finished)
  {
    if |chunk| == 0 {
      FeedNothing(t.env, t.Abs());
      return None;
    }
    err := t.Translate(chunk, w);
  }

  method FinishStream(t: T.AnthropicStreamTranslator, w: ResponseWriter)
    modifies t`finished, w`written
    ensures t.finished && w.written == old(w.written) + if old(t.finished) then "" else DONE_FRAME
  {
    t.Close(w);
  }

  // A translation that fails on the reads so far is the translation of the whole body.
  lemma LaterReadsUnseen(env: Env, body: seq<Read>, k: nat)
    requires Ends(body) && k < |body| && forall i :: 0 <= i < k ==> body[i].end == More
    requires Translation(env, Received(body[..k + 1])).err.Some?
    ensures
      var v := Translation(env, Received(body[..k + 1]));
      Relay(env, body) == Relayed(Frames(env, v.chunks), v.err)
  {
    var head := Received(body[..k + 1]);
    ReceivedPrefix(body, k + 1);
    var more :| Received(body) == head + more;
    FeedMore(env, head, more);
    FeedIsTranslation(env, head);
    FeedIsTranslation(env, head + more);
    var v := Translation(env, head);
    assert Frames(env, v.chunks) + "" == Frames(env, v.chunks);
  }

  lemma ReceivedPrefix(body: seq<Read>, k: nat)
    requires k <= |body|
    ensures exists more :: Received(body) == Received(body[..k]) + more
    decreases k
  {
    if k == 0 {
      assert body[..0] == [];
      assert Received(body) == Received(body[..0]) + Received(body);
    } else if body[0].end != More {
      assert body[..k][0] == body[0];
      assert Received(body) == Received(body[..k]) + "";
    } else {
      ReceivedPrefix(body[1..], k - 1);
      assert body[..k][1..] == body[1..][..k - 1];
      var more :| Received(body[1..]) == Received(body[1..][..k - 1]) + more;
      assert Received(body) == Received(body[..k]) + more;
    }
  }

  // --- The fallback chain ---

  datatype Target = Target(provider: string, model: string)

  datatype Adapter = AnthropicAdapter | PassthroughAdapter

  datatype Reply = NoConnection(error: string) | Reply(status: int, body: seq<Read>)

  // What the world would do with one target: reject at the breaker, fail to build the
  // request, or answer.
  datatype Attempt = Attempt(rejected: bool, requestError: Option<string>, reply: Reply)

  // What a tried target sends to the client: a status line if it gets that far, body
  // bytes, and the error it ends with.
  datatype Sent = Sent(status: Option<int>, bytes: string, err: Option<SendError>)

  datatype SendError =
    | NoAdapter
    | BreakerOpen
    | NotConfigured
    | BadRequest(message: string)
    | ConnectionFailed(message: string)
    | ProviderStatus(status: int)
    | BodyFailed(message: string)

  datatype ChainError = UnknownModel | AllProvidersFailed(last: Option<SendError>)

  datatype Config = Config(
    env: Env,
    adapters: map<string, Adapter>,
    configured: set<string>,
    normalizeResponse: string -> Option<string>)

  // HTTP status codes are positive, and every body ends.
  predicate Answers(a: Attempt) { a.reply.Reply? ==> a.reply.status > 0 && Ends(a.reply.body) }

  predicate Retried(status: int) { status >= 500 || status == 429 }

  const NOT_NORMALIZED := "parse anthropic response"

  // The body part of a reply that is handed to the client.
  function Forwarded(cfg: Config, adapter: Adapter, body: seq<Read>, stream: bool): (r: Relayed)
    requires Ends(body)
  {
    var err := EndError(Ending(body));
    if stream then
      if adapter.AnthropicAdapter? then Relay(cfg.env, body) else Relayed(Received(body), err)
    else if err.Some? then Relayed("", err)
    else if adapter.PassthroughAdapter? then Relayed(Received(body), None)
    else match cfg.normalizeResponse(Received(body))
      case None => Relayed("", Some(NOT_NORMALIZED))
      case Some(out) => Relayed(out, None)
  }

  function BodyError(err: Option<string>): Option<SendError> {
    if err.Some? then Some(BodyFailed(err.value)) else None
  }

  function TryTarget(cfg: Config, target: Target, a: Attempt, stream: bool): (s: Sent)
    requires Answers(a)
    ensures s.status != Some(0)
    ensures s.status.None? ==> s.bytes == "" && s.err.Some?
  {
    if target.provider !in cfg.adapters then Sent(None, "", Some(NoAdapter))
    else if a.rejected then Sent(None, "", Some(BreakerOpen))
    else if target.provider !in cfg.configured then Sent(None, "", Some(NotConfigured))
    else if a.requestError.Some? then Sent(None, "", Some(BadRequest(a.requestError.value)))
    else if a.reply.NoConnection? then Sent(None, "", Some(ConnectionFailed(a.reply.error)))
    else if Retried(a.reply.status) then Sent(None, "", Some(ProviderStatus(a.reply.status)))
    else
      var r := Forwarded(cfg, cfg.adapters[target.provider], a.reply.body, stream);
      Sent(Some(a.reply.status), r.bytes, BodyError(r.err))
  }

  // What each target of a chain would send if it were tried.
  function Prospects(cfg: Config, chain: seq<Target>, world: seq<Attempt>, stream: bool): (sends: seq<Sent>)
    requires |world| == |chain| && forall i :: 0 <= i < |world| ==> Answers(world[i])
  {
    seq(|chain|, i requires 0 <= i < |chain| => TryTarget(cfg, chain[i], world[i], stream))
  }

  function SuccessFrom(sends: seq<Sent>, from: nat): (k: nat)
    requires from <= |sends|
    ensures from <= k <= |sends|
    ensures forall i :: from <= i < k ==> sends[i].err.Some?
    ensures k < |sends| ==> sends[k].err.None?
    decreases |sends| - from
  {
    if from == |sends| || sends[from].err.None? then from else SuccessFrom(sends, from + 1)
  }

  // The first target that succeeds, or |sends|.
  function FirstSuccess(sends: seq<Sent>): (k: nat)
    ensures k <= |sends|
    ensures forall i :: 0 <= i < k ==> sends[i].err.Some?
    ensures k < |sends| ==> sends[k].err.None?
  {
    SuccessFrom(sends, 0)
  }

  // How many targets are tried: all up to and including the first success.
  function NumTried(sends: seq<Sent>): (n: nat)
    ensures n <= |sends|
    ensures n == |sends| || (n > 0 && sends[n - 1].err.None?)
    ensures forall i :: 0 <= i < n - 1 ==> sends[i].err.Some?
  {
    var k := FirstSuccess(sends);
    if k < |sends| then k + 1 else k
  }

  function BytesOf(sends: seq<Sent>): string {
    if sends == [] then "" else sends[0].bytes + BytesOf(sends[1..])
  }

  function FirstStatus(sends: seq<Sent>): Option<int> {
    if sends == [] then None
    else if sends[0].status.Some? then sends[0].status
    else FirstStatus(sends[1..])
  }

  lemma {:induction false} BytesSnoc(sends: seq<Sent>, s: Sent)
    ensures BytesOf(sends + [s]) == BytesOf(sends) + s.bytes
  {
    if sends == [] {
      assert sends + [s] == [s] && [s][1..] == [];
    } else {
      assert (sends + [s])[1..] == sends[1..] + [s];
      BytesSnoc(sends[1..], s);
      Associate(sends[0].bytes, BytesOf(sends[1..]), s.bytes);
    }
  }

  lemma {:induction false} StatusSnoc(sends: seq<Sent>, s: Sent)
    ensures FirstStatus(sends + [s]) == if FirstStatus(sends).Some? then FirstStatus(sends) else s.status
  {
    if sends == [] {
      assert (sends + [s])[1..] == [];
    } else {
      assert (sends + [s])[1..] == sends[1..] + [s];
      StatusSnoc(sends[1..], s);
    }
  }

  // The status line is written once: later ones are ignored.
  function StatusAfter(status: int, s: Sent): int {
    if status == 0 && s.status.Some? then s.status.value else status
  }

  // What the client has after the first k targets were tried.
  ghost predicate Delivered(sends: seq<Sent>, k: nat, before: string, written: string, status: int)
    requires k <= |sends|
  {
    && written == before + BytesOf(sends[..k])
    && status == (match FirstStatus(sends[..k]) case None => 0 case Some(code) => code)
  }

  lemma DeliveredStep(sends: seq<Sent>, k: nat, before: string, written: string, status: int)
    requires k < |sends| && Delivered(sends, k, before, written, status)
    requires forall i :: 0 <= i < |sends| ==> sends[i].status != Some(0)
    ensures Delivered(sends, k + 1, before, written + sends[k].bytes, StatusAfter(status, sends[k]))
  {
    assert sends[..k + 1] == sends[..k] + [sends[k]];
    BytesSnoc(sends[..k], sends[k]);
    StatusSnoc(sends[..k], sends[k]);
    Associate(before, BytesOf(sends[..k]), sends[k].bytes);
    AppendEmpty(written);
    StatusAmong(sends[..k]);
  }

  lemma {:induction false} StatusAmong(sends: seq<Sent>)
    requires forall i :: 0 <= i < |sends| ==> sends[i].status != Some(0)
    ensures FirstStatus(sends) != Some(0)
  {
    if sends != [] {
      StatusAmong(sends[1..]);
    }
  }

  lemma DeliveredStart(sends: seq<Sent>, before: string)
    ensures Delivered(sends, 0, before, before, 0)
  {
    assert sends[..0] == [];
    AppendEmpty(before);
  }

  // The fallback loop in front of target k: every earlier one failed, the last one with lastErr.
  ghost predicate Trying(sends: seq<Sent>, k: nat, lastErr: Option<SendError>, before: string, written: string,
                         status: int) {
    && k <= |sends| && (forall i :: 0 <= i < k ==> sends[i].err.Some?)
    && lastErr == (if k == 0 then None else sends[k - 1].err)
    && Delivered(sends, k, before, written, status)
  }

  function ChainResult(sends: seq<Sent>): Option<ChainError> {
    if FirstSuccess(sends) < |sends| then None
    else Some(AllProvidersFailed(if |sends| == 0 then None else sends[|sends| - 1].err))
  }

  lemma TryingNext(sends: seq<Sent>, k: nat, lastErr: Option<SendError>, before: string, written: string, status: int)
    requires k < |sends| && Trying(sends, k, lastErr, before, written, status)
    requires forall i :: 0 <= i < |sends| ==> sends[i].status != Some(0)
    ensures
      var more, code := written + sends[k].bytes, StatusAfter(status, sends[k]);
      if sends[k].err.Some? then Trying(sends, k + 1, sends[k].err, before, more, code)
      else Delivered(sends, NumTried(sends), before, more, code) && ChainResult(sends) == None
  {
    DeliveredStep(sends, k, before, written, status);
  }

  lemma TryingEnds(sends: seq<Sent>, lastErr: Option<SendError>, before: string, written: string, status: int)
    requires Trying(sends, |sends|, lastErr, before, written, status)
    ensures Delivered(sends, NumTried(sends), before, written, status)
    ensures ChainResult(sends) == Some(AllProvidersFailed(lastErr))
  {
  }

  lemma ProspectsMeanStatuses(cfg: Config, chain: seq<Target>, world: seq<Attempt>, stream: bool)
    requires |world| == |chain| && forall i :: 0 <= i < |world| ==> Answers(world[i])
    ensures HaveStatuses(Prospects(cfg, chain, world, stream))
  {
  }

  lemma ProspectIs(cfg: Config, chain: seq<Target>, world: seq<Attempt>, stream: bool, k: nat)
    requires |world| == |chain| && k < |chain| && forall i :: 0 <= i < |world| ==> Answers(world[i])
    ensures Prospects(cfg, chain, world, stream)[k] == TryTarget(cfg, chain[k], world[k], stream)
  {
  }

  // The targets a breaker is asked to run: those with an adapter.
  function Called(cfg: Config, targets: seq<Target>): seq<Target> {
    if targets == [] then []
    else (if targets[0].provider in cfg.adapters then [targets[0]] else []) + Called(cfg, targets[1..])
  }

  lemma {:induction false} CalledSnoc(cfg: Config, targets: seq<Target>, t: Target)
    ensures Called(cfg, targets + [t]) == Called(cfg, targets) + if t.provider in cfg.adapters then [t] else []
  {
    if targets == [] {
      assert targets + [t] == [t] && [t][1..] == [];
    } else {
      assert (targets + [t])[1..] == targets[1..] + [t];
      CalledSnoc(cfg, targets[1..], t);
    }
  }

  // One more target of a chain is called, or skipped.
  lemma CalledNext(cfg: Config, chain: seq<Target>, k: nat, before: seq<Target>)
    requires k < |chain|
    ensures before + Called(cfg, chain[..k + 1]) ==
            before + Called(cfg, chain[..k]) + if chain[k].provider in cfg.adapters then [chain[k]] else []
  {
    SplitAt(chain, k);
    CalledSnoc(cfg, chain[..k], chain[k]);
  }

  // What can be seen of a request in progress.
  datatype Seen = Seen(written: string, status: int, calls: seq<Target>)

  // The fallback loop in front of target k, with its calls.
  ghost predicate Progress(cfg: Config, chain: seq<Target>, sends: seq<Sent>, k: nat, lastErr: Option<SendError>,
                           start: Seen, now: Seen) {
    && |sends| == |chain| && Trying(sends, k, lastErr, start.written, now.written, now.status)
    && now.calls == start.calls + Called(cfg, chain[..k])
  }

  // The request is over: everything seen is that of the targets tried.
  ghost predicate Finished(cfg: Config, chain: seq<Target>, sends: seq<Sent>, start: Seen, end: Seen) {
    && |sends| == |chain| && Delivered(sends, NumTried(sends), start.written, end.written, end.status)
    && end.calls == start.calls + Called(cfg, chain[..NumTried(sends)])
  }

  ghost predicate HaveStatuses(sends: seq<Sent>) {
    forall i :: 0 <= i < |sends| ==> sends[i].status != Some(0)
  }

  // What is seen behind target k.
  function SeenNext(cfg: Config, target: Target, s: Sent, now: Seen): Seen {
    Seen(now.written + s.bytes, StatusAfter(now.status, s),
         now.calls + if target.provider in cfg.adapters then [target] else [])
  }

  lemma ProgressNext(cfg: Config, chain: seq<Target>, sends: seq<Sent>, k: nat, lastErr: Option<SendError>, start: Seen,
                     now: Seen)
    requires k < |sends| && HaveStatuses(sends) && Progress(cfg, chain, sends, k, lastErr, start, now)
    ensures
      var next := SeenNext(cfg, chain[k], sends[k], now);
      if sends[k].err.Some? then Progress(cfg, chain, sends, k + 1, sends[k].err, start, next)
      else Finished(cfg, chain, sends, start, next) && ChainResult(sends) == None
  {
    TryingNext(sends, k, lastErr, start.written, now.written, now.status);
    CalledNext(cfg, chain, k, start.calls);
    Associate(start.calls, Called(cfg, chain[..k]), if chain[k].provider in cfg.adapters then [chain[k]] else []);
  }

  lemma ProgressEnds(cfg: Config, chain: seq<Target>, sends: seq<Sent>, lastErr: Option<SendError>, start: Seen,
                     now: Seen)
    requires Progress(cfg, chain, sends, |sends|, lastErr, start, now)
    ensures Finished(cfg, chain, sends, start, now) && ChainResult(sends) == Some(AllProvidersFailed(lastErr))
  {
    TryingEnds(sends, lastErr, start.written, now.written, now.status);
  }

  lemma ProgressStarts(cfg: Config, chain: seq<Target>, sends: seq<Sent>, start: Seen)
    requires |sends| == |chain| && start.status == 0
    ensures Progress(cfg, chain, sends, 0, None, start, start)
  {
    DeliveredStart(sends, start.written);
    assert chain[..0] == [];
    AppendEmpty(start.calls);
  }

  class Gateway {
    const cfg: Config
    // Every call of a breaker, in order.
    ghost var calls: seq<Target>

    constructor (cfg: Config)
      ensures this.cfg == cfg
    {
      this.cfg := cfg;
      calls := [];
    }

    // `chain` is the resolved primary followed by its fallbacks, None for an unknown model.
    method ChatCompletion(chain: Option<seq<Target>>, world: seq<Attempt>, stream: bool, w: ResponseWriter)
      returns (err: Option<ChainError>)
      requires chain.Some? ==> |world| == |chain.value|
      requires forall i :: 0 <= i < |world| ==> Answers(world[i])
      requires w.status == 0
      modifies this`calls, w
      ensures chain.None? ==> err == Some(UnknownModel) && unchanged(w) && unchanged(this)
      ensures chain.Some? ==>
        calls == old(calls) + Called(cfg, chain.value[..NumTried(Prospects(cfg, chain.value, world, stream))])
      ensures chain.Some? ==>
        var sends := Prospects(cfg, chain.value, world, stream);
        Delivered(sends, NumTried(sends), old(w.written), w.written, w.status) && err == ChainResult(sends)
      ensures chain.Some? && chain.value != [] && err.Some? ==>
        var last := |chain.value| - 1;
        err == Some(AllProvidersFailed(TryTarget(cfg, chain.value[last], world[last], stream).err))
    {
      if chain.None? { return Some(UnknownModel); }
      ghost var sends := Prospects(cfg, chain.value, world, stream);
      ghost var start := Seen(w.written, w.status, calls);
      ProspectsMeanStatuses(cfg, chain.value, world, stream);
      ProgressStarts(cfg, chain.value, sends, start);
      var lastErr := None;
      for k := 0 to |chain.value|
        invariant Progress(cfg, chain.value, sends, k, lastErr, start, Seen(w.written, w.status, calls))
      {
        var target := chain.value[k];
        ProspectIs(cfg, chain.value, world, stream, k);
        ProgressNext(cfg, chain.value, sends, k, lastErr, start, Seen(w.written, w.status, calls));
        if target.provider !in cfg.adapters {
          AppendEmpty(w.written);
          AppendEmpty(calls);
          lastErr := Some(NoAdapter);
          continue;
        }
        lastErr := Execute(target, cfg.adapters[target.provider], world[k], stream, w);
        if lastErr.None? { return None; }
      }
      ProgressEnds(cfg, chain.value, sends, lastErr, start, Seen(w.written, w.status, calls));
      err := Some(AllProvidersFailed(lastErr));
    }

    // The breaker: rejects without calling, or calls send and returns its result.
    method Execute(target: Target, adapter: Adapter, a: Attempt, stream: bool, w: ResponseWriter)
      returns (err: Option<SendError>)
      requires target.provider in cfg.adapters && adapter == cfg.adapters[target.provider] && Answers(a)
      modifies this`calls, w
      ensures calls == old(calls) + [target]
      ensures var s := TryTarget(cfg, target, a, stream);
              && err == s.err && w.written == old(w.written) + s.bytes
              && w.status == StatusAfter(old(w.status), s)
    {
      calls := calls + [target];
      if a.rejected {
        AppendEmpty(w.written);
        return Some(BreakerOpen);
      }
      err := Send(target, adapter, a, stream, w);
    }

    method Send(target: Target, adapter: Adapter, a: Attempt, stream: bool, w: ResponseWriter)
      returns (err: Option<SendError>)
      requires target.provider in cfg.adapters && adapter == cfg.adapters[target.provider] && Answers(a)
      requires !a.rejected
      modifies w
      ensures var s := TryTarget(cfg, target, a, stream);
              && err == s.err && w.written == old(w.written) + s.bytes
              && w.status == StatusAfter(old(w.status), s)
    {
      AppendEmpty(w.written);
      if target.provider !in cfg.configured { return Some(NotConfigured); }
      if a.requestError.Some? { return Some(BadRequest(a.requestError.value)); }
      if a.reply.NoConnection? { return Some(ConnectionFailed(a.reply.error)); }
      if a.reply.status >= 500 || a.reply.status == 429 { return Some(ProviderStatus(a.reply.status)); }
      w.WriteHeader(a.reply.status);
      var e := Forward(adapter, a.reply.body, stream, w);
      err := BodyError(e);
    }

    method Forward(adapter: Adapter, body: seq<Read>, stream: bool, w: ResponseWriter)
      returns (err: Option<string>)
      requires Ends(body)
      modifies w`written
      ensures var r := Forwarded(cfg, adapter, body, stream);
              err == r.err && w.written == old(w.written) + r.bytes
    {
      AppendEmpty(w.written);
      err := EndError(Ending(body));
      if stream {
        if adapter.AnthropicAdapter? {
          err := StreamResponse(cfg.env, body, w);
        } else {
          w.Write(Received(body));
        }
      } else {
        if err.Some? { return; }
        var normalized := if adapter.PassthroughAdapter? then Some(Received(body))
                          else cfg.normalizeResponse(Received(body));
        if normalized.None? { return Some(NOT_NORMALIZED); }
        w.Write(normalized.value);
      }
    }
  }

  // The attempt gets as far as the body of an answer.
  predicate ReachesBody(cfg: Config, target: Target, a: Attempt) {
    && target.provider in cfg.adapters && !a.rejected && target.provider in cfg.configured
    && a.requestError.None? && a.reply.Reply? && !Retried(a.reply.status)
  }

  // The attempt puts something on the wire before it can fail: it streams a body, and what it
  // receives translates into a chunk, or is passed through and not empty.
  predicate LeavesBytes(cfg: Config, target: Target, a: Attempt, stream: bool) {
    ReachesBody(cfg, target, a) && stream && BodyShows(cfg, cfg.adapters[target.provider], a.reply.body)
  }

  lemma NoFramesIff(env: Env, chunks: seq<Chunk>)
    ensures Frames(env, chunks) == "" <==> chunks == []
  {
    if chunks != [] {
      assert |Frame(env.encode(chunks[0]))| > 0;
    }
  }

  // What a body puts on the wire when it is streamed.
  predicate BodyShows(cfg: Config, adapter: Adapter, body: seq<Read>) {
    if adapter.AnthropicAdapter? then Translation(cfg.env, Received(body)).chunks != [] else Received(body) != ""
  }

  lemma ForwardedBytesIff(cfg: Config, adapter: Adapter, body: seq<Read>, stream: bool)
    requires Ends(body) && Forwarded(cfg, adapter, body, stream).err.Some?
    ensures Forwarded(cfg, adapter, body, stream).bytes != "" <==> stream && BodyShows(cfg, adapter, body)
  {
    if stream && adapter.AnthropicAdapter? {
      var chunks := Translation(cfg.env, Received(body)).chunks;
      NoFramesIff(cfg.env, chunks);
      AppendEmpty(Frames(cfg.env, chunks));
    }
  }

  lemma TriedBody(cfg: Config, target: Target, a: Attempt, stream: bool)
    requires Answers(a)
    ensures
      var s := TryTarget(cfg, target, a, stream);
      if ReachesBody(cfg, target, a) then
        var r := Forwarded(cfg, cfg.adapters[target.provider], a.reply.body, stream);
        s == Sent(Some(a.reply.status), r.bytes, BodyError(r.err))
      else s.bytes == "" && s.status == None && s.err.Some?
  {
  }

  // Which answers are handed on and which make the chain fall back: 429 and everything from 500 up is
  // retried, with nothing written; any other status is sent to the client.
  lemma StatusDecides(cfg: Config, target: Target, a: Attempt, stream: bool)
    requires Answers(a) && target.provider in cfg.adapters && target.provider in cfg.configured
    requires !a.rejected && a.requestError == None && a.reply.Reply?
    ensures
      var s, status := TryTarget(cfg, target, a, stream), a.reply.status;
      if status == 429 || status >= 500 then s == Sent(None, "", Some(ProviderStatus(status)))
      else s.status == Some(status)
  {
  }

  // Why a target fails before its answer is looked at, in this order.
  lemma EarlyFailures(cfg: Config, target: Target, a: Attempt, stream: bool)
    requires Answers(a)
    ensures
      var s := TryTarget(cfg, target, a, stream);
      if target.provider !in cfg.adapters then s == Sent(None, "", Some(NoAdapter))
      else if a.rejected then s == Sent(None, "", Some(BreakerOpen))
      else if target.provider !in cfg.configured then s == Sent(None, "", Some(NotConfigured))
      else if a.requestError.Some? then s == Sent(None, "", Some(BadRequest(a.requestError.value)))
      else a.reply.NoConnection? ==> s == Sent(None, "", Some(ConnectionFailed(a.reply.error)))
  {
  }

  // The winner of a chain was answered, with a status that is neither 429 nor 500 or above.
  lemma WinnerAnswered(cfg: Config, chain: seq<Target>, world: seq<Attempt>, stream: bool)
    requires |world| == |chain| && forall i :: 0 <= i < |world| ==> Answers(world[i])
    requires FirstSuccess(Prospects(cfg, chain, world, stream)) < |chain|
    ensures
      var k := FirstSuccess(Prospects(cfg, chain, world, stream));
      && chain[k].provider in cfg.adapters && chain[k].provider in cfg.configured
      && !world[k].rejected && world[k].requestError == None && world[k].reply.Reply?
      && world[k].reply.status != 429 && world[k].reply.status < 500
  {
    var k := FirstSuccess(Prospects(cfg, chain, world, stream));
    ProspectIs(cfg, chain, world, stream, k);
    EarlyFailures(cfg, chain[k], world[k], stream);
  }

  // A buffered answer is written whole or not at all, and an Anthropic one is normalised.
  lemma BufferedAnswer(cfg: Config, target: Target, a: Attempt)
    requires Answers(a) && target.provider in cfg.adapters && target.provider in cfg.configured
    requires !a.rejected && a.requestError == None && a.reply.Reply?
    requires a.reply.status != 429 && a.reply.status < 500
    ensures
      var s, body := TryTarget(cfg, target, a, false), a.reply.body;
      var out := if cfg.adapters[target.provider].AnthropicAdapter? then cfg.normalizeResponse(Received(body))
                 else Some(Received(body));
      if Ending(body) == Eof && out.Some? then s.bytes == out.value && s.err == None
      else s.bytes == "" && s.err.Some?
  {
  }

  // A streamed answer that is passed through is written as it is received.
  lemma PassedThrough(cfg: Config, target: Target, a: Attempt)
    requires Answers(a) && target.provider in cfg.adapters && target.provider in cfg.configured
    requires !a.rejected && a.requestError == None && a.reply.Reply?
    requires a.reply.status != 429 && a.reply.status < 500 && cfg.adapters[target.provider].PassthroughAdapter?
    ensures
      var s := TryTarget(cfg, target, a, true);
      s.bytes == Received(a.reply.body) && (s.err == None <==> Ending(a.reply.body) == Eof)
  {
  }

  // A target that fails has written something exactly when its attempt says so.
  lemma FailedLeavesBytesIff(cfg: Config, target: Target, a: Attempt, stream: bool)
    requires Answers(a) && TryTarget(cfg, target, a, stream).err.Some?
    ensures TryTarget(cfg, target, a, stream).bytes != "" <==> LeavesBytes(cfg, target, a, stream)
  {
    TriedBody(cfg, target, a, stream);
    if ReachesBody(cfg, target, a) {
      ForwardedBytesIff(cfg, cfg.adapters[target.provider], a.reply.body, stream);
    }
  }

  // When a target succeeds, the client's bytes are that target's alone exactly when no earlier
  // attempt streams a body that it translates, or passes on, any part of.
  lemma OnlyTheWinnersBytes(cfg: Config, chain: seq<Target>, world: seq<Attempt>, stream: bool)
    requires |world| == |chain| && forall i :: 0 <= i < |world| ==> Answers(world[i])
    requires FirstSuccess(Prospects(cfg, chain, world, stream)) < |chain|
    ensures
      var sends := Prospects(cfg, chain, world, stream);
      var k := FirstSuccess(sends);
      BytesOf(sends[..NumTried(sends)]) == sends[k].bytes
      <==> forall i :: 0 <= i < k ==> !LeavesBytes(cfg, chain[i], world[i], stream)
  {
    var sends := Prospects(cfg, chain, world, stream);
    var k := FirstSuccess(sends);
    OnlyTheLastSend(sends);
    forall i | 0 <= i < k
      ensures sends[i].bytes != "" <==> LeavesBytes(cfg, chain[i], world[i], stream)
    {
      assert sends[i] == TryTarget(cfg, chain[i], world[i], stream);
      FailedLeavesBytesIff(cfg, chain[i], world[i], stream);
    }
  }

  lemma OnlyTheLastSend(sends: seq<Sent>)
    requires FirstSuccess(sends) < |sends|
    ensures
      var k := FirstSuccess(sends);
      BytesOf(sends[..NumTried(sends)]) == sends[k].bytes <==> forall i :: 0 <= i < k ==> sends[i].bytes == ""
  {
    var k := FirstSuccess(sends);
    assert sends[..k + 1] == sends[..k] + [sends[k]];
    BytesSnoc(sends[..k], sends[k]);
    EmptyBytes(sends, k);
    OnlySuffix(BytesOf(sends[..k]), sends[k].bytes);
  }

  lemma OnlySuffix(a: string, b: string)
    ensures a + b == b <==> a == ""
  {
    assert |a + b| == |a| + |b|;
  }

  lemma {:induction false} EmptyBytes(sends: seq<Sent>, k: nat)
    requires k <= |sends|
    ensures BytesOf(sends[..k]) == "" <==> forall i :: 0 <= i < k ==> sends[i].bytes == ""
    decreases k
  {
    if k > 0 {
      assert sends[..k] == sends[..k - 1] + [sends[k - 1]];
      BytesSnoc(sends[..k - 1], sends[k - 1]);
      EmptyBytes(sends, k - 1);
    }
  }

  // If every failing send fails before the status line, the client gets the status and the
  // bytes of the first success and nothing else.
  lemma CleanFallback(cfg: Config, chain: seq<Target>, world: seq<Attempt>, stream: bool)
    requires |world| == |chain| && forall i :: 0 <= i < |world| ==> Answers(world[i])
    requires
      var sends := Prospects(cfg, chain, world, stream);
      && FirstSuccess(sends) < |sends|
      && forall i :: 0 <= i < FirstSuccess(sends) ==> sends[i].status.None?
    ensures
      var sends := Prospects(cfg, chain, world, stream);
      && BytesOf(sends[..NumTried(sends)]) == sends[FirstSuccess(sends)].bytes
      && FirstStatus(sends[..NumTried(sends)]) == sends[FirstSuccess(sends)].status
  {
    var sends := Prospects(cfg, chain, world, stream);
    OnlyTheLastSend(sends);
    var k := FirstSuccess(sends);
    NoStatus(sends[..k]);
    assert sends[..k + 1] == sends[..k] + [sends[k]];
    StatusSnoc(sends[..k], sends[k]);
  }

  // The first attempt that gets as far as a body, or |chain|.
  function FirstReaching(cfg: Config, chain: seq<Target>, world: seq<Attempt>, from: nat): (f: nat)
    requires from <= |chain| == |world|
    ensures from <= f <= |chain|
    ensures forall i :: from <= i < f ==> !ReachesBody(cfg, chain[i], world[i])
    ensures f < |chain| ==> ReachesBody(cfg, chain[f], world[f])
    decreases |chain| - from
  {
    if from == |chain| || ReachesBody(cfg, chain[from], world[from]) then from
    else FirstReaching(cfg, chain, world, from + 1)
  }

  lemma {:induction false} FirstStatusAt(sends: seq<Sent>, f: nat)
    requires f < |sends| && sends[f].status.Some? && forall i :: 0 <= i < f ==> sends[i].status.None?
    ensures FirstStatus(sends) == sends[f].status
    decreases f
  {
    if f > 0 {
      FirstStatusAt(sends[1..], f - 1);
    }
  }

  // The status the client sees is that of the first attempt that gets as far as a body; so it is the
  // winner's exactly when these two have the same one.
  lemma WinnersStatusIff(cfg: Config, chain: seq<Target>, world: seq<Attempt>, stream: bool)
    requires |world| == |chain| && forall i :: 0 <= i < |world| ==> Answers(world[i])
    requires FirstSuccess(Prospects(cfg, chain, world, stream)) < |chain|
    ensures
      var sends := Prospects(cfg, chain, world, stream);
      var k, f := FirstSuccess(sends), FirstReaching(cfg, chain, world, 0);
      && f <= k
      && FirstStatus(sends[..NumTried(sends)]) == Some(world[f].reply.status)
      && (FirstStatus(sends[..NumTried(sends)]) == sends[k].status <==>
          world[f].reply.status == world[k].reply.status)
  {
    var sends := Prospects(cfg, chain, world, stream);
    var k, f := FirstSuccess(sends), FirstReaching(cfg, chain, world, 0);
    forall i | 0 <= i < |chain|
      ensures sends[i].status == if ReachesBody(cfg, chain[i], world[i]) then Some(world[i].reply.status) else None
    {
      TriedBody(cfg, chain[i], world[i], stream);
    }
    TriedBody(cfg, chain[k], world[k], stream);
    FirstStatusAt(sends[..k + 1], f);
  }

  lemma {:induction false} NoStatus(sends: seq<Sent>)
    requires forall i :: 0 <= i < |sends| ==> sends[i].status.None?
    ensures FirstStatus(sends) == None
  {
    if sends != [] {
      NoStatus(sends[1..]);
    }
  }

  // A stream that breaks off behind its status line leaves its frames in front of the
  // fallback's answer.
  lemma BrokenStreamStaysVisible(cfg: Config, broken: seq<Read>, whole: seq<Read>)
    requires "anthropic" in cfg.adapters && cfg.adapters["anthropic"] == AnthropicAdapter
    requires "openai" in cfg.adapters && cfg.adapters["openai"] == PassthroughAdapter
    requires {"anthropic", "openai"} <= cfg.configured
    requires Ends(broken) && Ending(broken).Failed? && Translation(cfg.env, Received(broken)).chunks != []
    requires Ends(whole) && Ending(whole) == Eof
    ensures
      var chain := [Target("anthropic", "a"), Target("openai", "b")];
      var world := [Attempt(false, None, Reply(200, broken)), Attempt(false, None, Reply(200, whole))];
      var sends := Prospects(cfg, chain, world, true);
      && FirstSuccess(sends) == 1 && sends[1].bytes == Received(whole)
      && BytesOf(sends[..NumTried(sends)]) != sends[1].bytes
  {
    var chain := [Target("anthropic", "a"), Target("openai", "b")];
    var world := [Attempt(false, None, Reply(200, broken)), Attempt(false, None, Reply(200, whole))];
    var sends := Prospects(cfg, chain, world, true);
    var chunks := Translation(cfg.env, Received(broken)).chunks;
    assert Frames(cfg.env, chunks) != "";
    assert sends[0].bytes != "" && sends[0].err.Some? && sends[1].err.None?;
    assert FirstSuccess(sends) == 1;
    OnlyTheLastSend(sends);
  }
}
