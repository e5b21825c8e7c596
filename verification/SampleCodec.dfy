// A small codec and decoder that meet the contracts of EndToEnd, so that its theorems
// are about something. It stands for the JSON packages; it does not describe them.
module SampleCodec {
  import opened Wrappers
  import opened Text
  import opened StreamEvents
  import E = EndToEnd

  // A field ends at an unescaped ';'; CR and LF are spelled out.
  function EscapeChar(c: char): string {
    if c == '\n' then ['\\', 'n']
    else if c == '\r' then ['\\', 'r']
    else if c == '\\' || c == ';' then ['\\', c]
    else [c]
  }

  function Escape(s: string): string {
    if s == "" then ";" else EscapeChar(s[0]) + Escape(s[1..])
  }

  datatype Field = Field(value: string, rest: string)

  function Unescape(t: string): Option<Field> {
    if t == "" then None
    else if t[0] == ';' then Some(Field("", t[1..]))
    else if t[0] == '\\' then
      if |t| == 1 then None
      else
        var c := if t[1] == 'n' then '\n' else if t[1] == 'r' then '\r' else t[1];
        match Unescape(t[2..])
        case None => None
        case Some(f) => Some(Field([c] + f.value, f.rest))
    else
      match Unescape(t[1..])
      case None => None
      case Some(f) => Some(Field([t[0]] + f.value, f.rest))
  }

  lemma UnescapeChar(c: char, tail: string)
    requires Unescape(tail).Some?
    ensures Unescape(EscapeChar(c) + tail) ==
            Some(Field([c] + Unescape(tail).value.value, Unescape(tail).value.rest))
  {
    var t := EscapeChar(c) + tail;
    if |EscapeChar(c)| == 2 {
      assert t[0] == '\\' && t[1] == EscapeChar(c)[1] && t[2..] == tail;
    } else {
      assert t[0] == c && t[1..] == tail;
    }
  }

  lemma {:induction false} UnescapeEscape(s: string, rest: string)
    ensures Unescape(Escape(s) + rest) == Some(Field(s, rest))
  {
    if s == "" {
      assert (";" + rest)[1..] == rest;
    } else {
      UnescapeEscape(s[1..], rest);
      UnescapeChar(s[0], Escape(s[1..]) + rest);
      Associate(EscapeChar(s[0]), Escape(s[1..]), rest);
      assert [s[0]] + s[1..] == s;
    }
  }

  lemma {:induction false} EscapePlain(s: string)
    ensures '\n' !in Escape(s) && '\r' !in Escape(s)
  {
    if s != "" { EscapePlain(s[1..]); }
  }

  // Numbers in unary, the sign in front.
  function Digits(n: int): string
    decreases if n < 0 then -n else n
  {
    if n == 0 then "" else if n > 0 then "+" + Digits(n - 1) else "-" + Digits(n + 1)
  }

  function Value(s: string): int {
    if s == "" then 0 else (if s[0] == '+' then 1 else -1) + Value(s[1..])
  }

  lemma {:induction false} ValueDigits(n: int)
    ensures Value(Digits(n)) == n
    decreases if n < 0 then -n else n
  {
    if n > 0 {
      ValueDigits(n - 1);
      assert Digits(n)[1..] == Digits(n - 1);
    } else if n < 0 {
      ValueDigits(n + 1);
      assert Digits(n)[1..] == Digits(n + 1);
    }
  }

  function EncodeAll(fields: seq<string>): string {
    if fields == [] then "" else Escape(fields[0]) + EncodeAll(fields[1..])
  }

  function DecodeAll(n: nat, t: string): Option<seq<string>> {
    if n == 0 then Some([])
    else match Unescape(t)
      case None => None
      case Some(f) =>
        match DecodeAll(n - 1, f.rest) case None => None case Some(more) => Some([f.value] + more)
  }

  lemma {:induction false} DecodeEncode(fields: seq<string>)
    ensures DecodeAll(|fields|, EncodeAll(fields)) == Some(fields)
    ensures '\n' !in EncodeAll(fields) && '\r' !in EncodeAll(fields)
    decreases |fields|
  {
    if fields != [] {
      DecodeEncode(fields[1..]);
      UnescapeEscape(fields[0], EncodeAll(fields[1..]));
      EscapePlain(fields[0]);
      assert [fields[0]] + fields[1..] == fields;
    }
  }

  function FieldsOf(c: Chunk): seq<string> {
    [c.id, c.model, Digits(c.created), c.role, c.content,
     match c.finishReason case None => "" case Some(r) => "=" + r]
  }

  function Encode(c: Chunk): string { "{" + EncodeAll(FieldsOf(c)) }

  function ChunkFrom(f: seq<string>): Chunk
    requires |f| == 6
  {
    Chunk(f[0], f[1], Value(f[2]), f[3], f[4], if f[5] == "" then None else Some(f[5][1..]))
  }

  function Parse(t: string): Option<Chunk> {
    if t == "" then None
    else match DecodeAll(6, t[1..])
      case None => None
      case Some(f) => if |f| == 6 then Some(ChunkFrom(f)) else None
  }

  lemma ParseEncode(c: Chunk)
    ensures Parse(Encode(c)) == Some(c) && E.PlainObject(Encode(c))
  {
    DecodeEncode(FieldsOf(c));
    ValueDigits(c.created);
    assert Encode(c)[1..] == EncodeAll(FieldsOf(c));
    assert c.finishReason.Some? ==> ("=" + c.finishReason.value)[1..] == c.finishReason.value;
  }

  // A payload is its own text delta and its own stop reason.
  function SampleEnv(): Env {
    Env(c => Encode(c), (s: string) => Some(Start("id", "model")), (s: string) => Some(Delta("text_delta", s)),
        (s: string) => Some(s), (n: nat) => 0)
  }

  const BYTE_ORDER_MARK := "\U{00EF}\U{00BB}\U{00BF}"

  // A decoder that drops one leading byte order mark, and holds it back while it is incomplete.
  function DropMark(s: string): string {
    if BYTE_ORDER_MARK <= s then s[3..] else if s <= BYTE_ORDER_MARK then "" else s
  }

  function SampleClient(): E.Client { E.Client(t => Parse(t), (s: string) => DropMark(s)) }

  lemma DropMarkGrows(a: string, b: string)
    ensures DropMark(a) <= DropMark(a + b)
  {
    var m := BYTE_ORDER_MARK;
    if m <= a {
      assert (a + b)[..3] == a[..3] == m;
      assert (a + b)[3..] == a[3..] + b;
    }
  }

  lemma NoMark(s: string)
    requires s != "" && s[0] != '\U{00EF}'
    ensures DropMark(s) == s
  {
    assert BYTE_ORDER_MARK[0] == '\U{00EF}';
  }

  lemma {:induction false} FramesAreText(env: Env, client: E.Client, chunks: seq<Chunk>)
    requires forall c: Chunk :: client.text(env.encode(c)) == env.encode(c)
    ensures E.TextFrames(env, client, chunks) == Frames(env, chunks)
  {
    if chunks != [] {
      FramesAreText(env, client, chunks[1..]);
    }
  }

  lemma FramesStart(env: Env, chunks: seq<Chunk>)
    ensures chunks != [] ==> Frames(env, chunks) != "" && Frames(env, chunks)[0] == 'd'
    ensures Frames(env, chunks) + DONE_FRAME != "" && (Frames(env, chunks) + DONE_FRAME)[0] == 'd'
  {
    assert DONE_FRAME[0] == 'd';
    if chunks != [] {
      assert Frame(env.encode(chunks[0]))[0] == "data: "[0] == 'd';
    }
  }

  lemma SampleDecodesFrames(env: Env, client: E.Client, chunks: seq<Chunk>)
    requires client.text == ((s: string) => DropMark(s))
    requires forall c: Chunk :: client.text(env.encode(c)) == env.encode(c)
    ensures client.text(Frames(env, chunks)) == E.TextFrames(env, client, chunks)
    ensures client.text(Frames(env, chunks) + DONE_FRAME) == E.TextFrames(env, client, chunks) + DONE_FRAME
  {
    FramesAreText(env, client, chunks);
    FramesStart(env, chunks);
    if chunks != [] {
      NoMark(Frames(env, chunks));
    }
    NoMark(Frames(env, chunks) + DONE_FRAME);
  }

  lemma SampleRoundTrips(c: Chunk)
    ensures E.RoundTrips(SampleEnv(), SampleClient(), c)
    ensures SampleClient().text(SampleEnv().encode(c)) == SampleEnv().encode(c)
  {
    ParseEncode(c);
    NoMark(Encode(c));
  }

  // The contracts of the end-to-end theorem can be met, by a decoder that drops the mark.
  lemma ContractsCanBeMet()
    ensures E.GoodDecoder(SampleEnv(), SampleClient())
    ensures forall chunks :: E.GoodCodec(SampleEnv(), SampleClient(), chunks)
  {
    var env, client := SampleEnv(), SampleClient();
    forall c: Chunk
      ensures E.RoundTrips(env, client, c) && client.text(env.encode(c)) == env.encode(c)
    {
      SampleRoundTrips(c);
    }
    forall a, b
      ensures client.text(a) <= client.text(a + b)
    {
      DropMarkGrows(a, b);
    }
    forall chunks: seq<Chunk>
      ensures client.text(Frames(env, chunks)) == E.TextFrames(env, client, chunks)
      ensures client.text(Frames(env, chunks) + DONE_FRAME) == E.TextFrames(env, client, chunks) + DONE_FRAME
    {
      SampleDecodesFrames(env, client, chunks);
    }
  }
}
