// What the client reads off a whole fallback chain.
module FallbackPath {
  import opened Wrappers
  import opened Text
  import opened StreamEvents
  import P = Proxy
  import C = ClientParser
  import E = EndToEnd

  predicate AllAnthropic(cfg: P.Config, chain: seq<P.Target>) {
    forall i :: 0 <= i < |chain| && chain[i].provider in cfg.adapters ==>
      cfg.adapters[chain[i].provider].AnthropicAdapter?
  }

  // The chunks an attempt has to offer: those of its body, if it gets that far.
  function BodyChunks(cfg: P.Config, target: P.Target, a: P.Attempt): seq<Chunk> {
    if P.ReachesBody(cfg, target, a) then Translation(cfg.env, P.Received(a.reply.body)).chunks else []
  }

  // Those of the first n targets, in order.
  function ChainChunks(cfg: P.Config, chain: seq<P.Target>, world: seq<P.Attempt>, n: nat): seq<Chunk>
    requires n <= |chain| == |world|
  {
    if n == 0 then [] else ChainChunks(cfg, chain, world, n - 1) + BodyChunks(cfg, chain[n - 1], world[n - 1])
  }

  // A streamed attempt writes the frames of its chunks, and [DONE] if it succeeds.
  lemma AttemptBytes(cfg: P.Config, target: P.Target, a: P.Attempt)
    requires P.Answers(a)
    requires target.provider in cfg.adapters ==> cfg.adapters[target.provider].AnthropicAdapter?
    ensures
      var s := P.TryTarget(cfg, target, a, true);
      var frames := Frames(cfg.env, BodyChunks(cfg, target, a));
      s.bytes == if s.err.None? then frames + DONE_FRAME else frames
  {
    P.TriedBody(cfg, target, a, true);
    AppendEmpty(Frames(cfg.env, BodyChunks(cfg, target, a)));
  }

  lemma OneMoreBytes(env: Env, sends: seq<P.Sent>, n: nat, before: seq<Chunk>, last: seq<Chunk>)
    requires n < |sends| && P.BytesOf(sends[..n]) == Frames(env, before) && sends[n].bytes == Frames(env, last)
    ensures P.BytesOf(sends[..n + 1]) == Frames(env, before + last)
  {
    SplitAt(sends, n);
    P.BytesSnoc(sends[..n], sends[n]);
    FramesAppend(env, before, last);
  }

  lemma LastBytes(env: Env, sends: seq<P.Sent>, n: nat, before: seq<Chunk>, last: seq<Chunk>)
    requires n < |sends| && P.BytesOf(sends[..n]) == Frames(env, before)
    requires sends[n].bytes == Frames(env, last) + DONE_FRAME
    ensures P.BytesOf(sends[..n + 1]) == Frames(env, before + last) + DONE_FRAME
  {
    SplitAt(sends, n);
    P.BytesSnoc(sends[..n], sends[n]);
    FramesAppend(env, before, last);
    Associate(Frames(env, before), Frames(env, last), DONE_FRAME);
  }

  // A send that writes the frames of these chunks, and [DONE] when it succeeds.
  predicate SendsChunks(env: Env, s: P.Sent, chunks: seq<Chunk>) {
    s.bytes == if s.err.None? then Frames(env, chunks) + DONE_FRAME else Frames(env, chunks)
  }

  ghost predicate AllSendChunks(cfg: P.Config, chain: seq<P.Target>, world: seq<P.Attempt>, sends: seq<P.Sent>) {
    && |sends| == |chain| == |world|
    && forall i :: 0 <= i < |sends| ==> SendsChunks(cfg.env, sends[i], BodyChunks(cfg, chain[i], world[i]))
  }

  lemma ProspectsSendChunks(cfg: P.Config, chain: seq<P.Target>, world: seq<P.Attempt>)
    requires |world| == |chain| && forall i :: 0 <= i < |world| ==> P.Answers(world[i])
    requires AllAnthropic(cfg, chain)
    ensures AllSendChunks(cfg, chain, world, P.Prospects(cfg, chain, world, true))
  {
    var sends := P.Prospects(cfg, chain, world, true);
    forall i | 0 <= i < |sends|
      ensures SendsChunks(cfg.env, sends[i], BodyChunks(cfg, chain[i], world[i]))
    {
      AttemptBytes(cfg, chain[i], world[i]);
    }
  }

  // The targets before the first success have written the frames of their chunks.
  lemma {:induction false} FailedBytes(cfg: P.Config, chain: seq<P.Target>, world: seq<P.Attempt>, sends: seq<P.Sent>,
                                       n: nat)
    requires AllSendChunks(cfg, chain, world, sends) && n <= |sends|
    requires forall i :: 0 <= i < n ==> sends[i].err.Some?
    ensures P.BytesOf(sends[..n]) == Frames(cfg.env, ChainChunks(cfg, chain, world, n))
  {
    if n == 0 {
      assert sends[..0] == [];
    } else {
      var m := n - 1;
      var last := BodyChunks(cfg, chain[m], world[m]);
      FailedBytes(cfg, chain, world, sends, m);
      assert SendsChunks(cfg.env, sends[m], last);
      OneMoreBytes(cfg.env, sends, m, ChainChunks(cfg, chain, world, m), last);
    }
  }

  // All the targets tried: the frames of their chunks, and [DONE] exactly behind a success.
  lemma ChainBytes(cfg: P.Config, chain: seq<P.Target>, world: seq<P.Attempt>, sends: seq<P.Sent>)
    requires AllSendChunks(cfg, chain, world, sends)
    ensures
      var frames := Frames(cfg.env, ChainChunks(cfg, chain, world, P.NumTried(sends)));
      P.BytesOf(sends[..P.NumTried(sends)]) == if P.FirstSuccess(sends) < |sends| then frames + DONE_FRAME else frames
  {
    var k := P.FirstSuccess(sends);
    FailedBytes(cfg, chain, world, sends, k);
    if k < |sends| {
      var last := BodyChunks(cfg, chain[k], world[k]);
      assert SendsChunks(cfg.env, sends[k], last);
      LastBytes(cfg.env, sends, k, ChainChunks(cfg, chain, world, k), last);
    }
  }

  // A streamed request over a chain of Anthropic targets, failing and falling back in any way; the
  // bytes of all tried targets, cut in any way, with anything behind a success. The client yields
  // the chunks of every tried body, in order.
  lemma ChainEndToEnd(cfg: P.Config, client: E.Client, chain: seq<P.Target>, world: seq<P.Attempt>,
                      cuts: seq<string>, more: string)
    requires |world| == |chain| && forall i :: 0 <= i < |world| ==> P.Answers(world[i])
    requires AllAnthropic(cfg, chain) && E.GoodDecoder(cfg.env, client)
    requires
      var sends := P.Prospects(cfg, chain, world, true);
      && E.GoodCodec(cfg.env, client, ChainChunks(cfg, chain, world, P.NumTried(sends)))
      && Concat(cuts) == P.BytesOf(sends[..P.NumTried(sends)]) + more
      && (P.FirstSuccess(sends) == |sends| ==> more == "")
    ensures
      var sends := P.Prospects(cfg, chain, world, true);
      C.ParseWhole(client.parse, Concat(E.Decoded(client, "", cuts))) ==
      ChainChunks(cfg, chain, world, P.NumTried(sends))
  {
    var sends := P.Prospects(cfg, chain, world, true);
    var chunks := ChainChunks(cfg, chain, world, P.NumTried(sends));
    ProspectsSendChunks(cfg, chain, world);
    ChainBytes(cfg, chain, world, sends);
    AppendEmpty(Frames(cfg.env, chunks));
    E.ParseWire(cfg.env, client, chunks, P.FirstSuccess(sends) < |sends|, cuts, more);
  }
}
