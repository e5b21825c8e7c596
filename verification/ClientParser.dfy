// The command line client's server-sent-event parser.
module ClientParser {
  import opened Wrappers
  import opened Text
  import Standard = EventStreamStandard

  predicate At(s: string, pat: string, i: int) {
    0 <= i && i + |pat| <= |s| && s[i..i + |pat|] == pat
  }

  // First occurrence of a pattern at or after k, -1 when absent.
  function SubstringFrom(s: string, pat: string, k: nat): (i: int)
    requires k <= |s|
    ensures -1 <= i <= |s|
    ensures i >= 0 ==> k <= i && At(s, pat, i) && forall j :: k <= j < i ==> !At(s, pat, j)
    ensures i < 0 ==> forall j :: k <= j ==> !At(s, pat, j)
    decreases |s| - k
  {
    if k + |pat| > |s| then -1 else if At(s, pat, k) then k else SubstringFrom(s, pat, k + 1)
  }

  predicate LfLf(s: string, i: int) {
    0 <= i && i + 2 <= |s| && s[i] == '\n' && s[i + 1] == '\n'
  }

  predicate CrLfCrLf(s: string, i: int) {
    0 <= i && i + 4 <= |s| && s[i] == '\r' && s[i + 1] == '\n' && s[i + 2] == '\r' && s[i + 3] == '\n'
  }

  lemma Spellings(s: string, i: int)
    ensures At(s, "\n\n", i) <==> LfLf(s, i)
    ensures At(s, "\r\n\r\n", i) <==> CrLfCrLf(s, i)
  {
    if 0 <= i && i + 2 <= |s| {
      assert s[i..i + 2] == [s[i], s[i + 1]];
    }
    if 0 <= i && i + 4 <= |s| {
      assert s[i..i + 4] == [s[i], s[i + 1], s[i + 2], s[i + 3]];
    }
  }

  predicate Boundary(s: string, i: int) { LfLf(s, i) || CrLfCrLf(s, i) }

  // The first blank line, in either spelling.
  function IndexOfEventBoundary(s: string): (i: int)
    ensures -1 <= i < |s|
    ensures i >= 0 ==> Boundary(s, i) && forall j :: 0 <= j < i ==> !Boundary(s, j)
    ensures i < 0 ==> forall j :: !Boundary(s, j)
  {
    var a := SubstringFrom(s, "\n\n", 0);
    var b := SubstringFrom(s, "\r\n\r\n", 0);
    assert forall j :: Boundary(s, j) <==> At(s, "\n\n", j) || At(s, "\r\n\r\n", j) by {
      forall j
        ensures Boundary(s, j) <==> At(s, "\n\n", j) || At(s, "\r\n\r\n", j)
      {
        Spellings(s, j);
      }
    }
    if a == -1 then b else if b == -1 then a else if a < b then a else b
  }

  // One line end at the front: LF, or CR LF.
  function LineEnd(s: string): nat {
    if |s| >= 1 && s[0] == '\n' then 1
    else if |s| >= 2 && s[0] == '\r' && s[1] == '\n' then 2
    else 0
  }

  // replace(/^(\r?\n){2}|^\r{2}/, '')
  function StripBoundary(s: string): string {
    var n := LineEnd(s);
    var m := if n == 0 then 0 else LineEnd(s[n..]);
    if m > 0 then s[n + m..]
    else if |s| >= 2 && s[0] == '\r' && s[1] == '\r' then s[2..]
    else s
  }

  function BoundaryLength(s: string, i: nat): nat
    requires Boundary(s, i)
  {
    if LfLf(s, i) then 2 else 4
  }

  // At a boundary the pattern removes that boundary and nothing behind it.
  lemma StripAtBoundary(s: string, i: nat)
    requires Boundary(s, i)
    ensures StripBoundary(s[i..]) == s[i + BoundaryLength(s, i)..]
  {
    var t := s[i..];
    assert forall k :: 0 <= k < |t| ==> t[k] == s[i + k];
    if LfLf(s, i) {
      assert t[1..][0] == '\n';
    } else {
      assert t[2..][0] == '\r' && t[2..][1] == '\n';
    }
  }

  // Appending bytes never moves the first boundary.
  lemma BoundaryStays(a: string, b: string)
    requires IndexOfEventBoundary(a) >= 0
    ensures IndexOfEventBoundary(a + b) == IndexOfEventBoundary(a)
    ensures BoundaryLength(a + b, IndexOfEventBoundary(a)) == BoundaryLength(a, IndexOfEventBoundary(a))
  {
    var i := IndexOfEventBoundary(a);
    var s := a + b;
    assert forall k :: 0 <= k < |a| ==> s[k] == a[k];
    assert Boundary(s, i);
    forall j | 0 <= j < i
      ensures !Boundary(s, j)
    {
      assert !Boundary(a, j);
      if Boundary(s, j) {
        // It would have to end behind `a`, across the boundary at i.
        assert false;
      }
    }
  }

  // split(/\r?\n/)
  function SplitLines(s: string): seq<string>
    decreases |s|
  {
    var i := IndexOf(s, '\n');
    if i < 0 then [s] else [StripCr(s[..i])] + SplitLines(s[i + 1..])
  }

  // The payload of an event: the values of its `data:` lines, joined by LF.
  function Payload(event: string): Option<string> {
    var data := Payloads(SplitLines(event));
    if data == [] then None else Some(Join(data, "\n"))
  }

  // It is the data that section 9.2.6 of the WHATWG HTML Standard gives exactly when no line is just
  // `data`, or the standard sees one value at most.
  lemma PayloadAgreesWithStandard(event: string)
    ensures
      var lines := SplitLines(event);
      var data := match Payload(event) case None => "" case Some(d) => d;
      data == Standard.Data(lines) <==> "data" !in lines || |Standard.DataValues(lines)| <= 1
  {
    var lines := SplitLines(event);
    Standard.BareLinesWeigh(lines);
    if |Standard.DataValues(lines)| <= 1 {
      Standard.OneValue(lines);
    } else if "data" in lines {
      Standard.BareLineShows(lines, Payloads(lines));
    }
  }

  method ExtractDataPayload(event: string) returns (r: Option<string>)
    ensures r == Payload(event)
  {
    var lines := SplitLines(event);
    var data: seq<string> := [];
    for k := 0 to |lines|
      invariant data == Payloads(lines[..k])
    {
      assert lines[..k + 1] == lines[..k] + [lines[k]];
      PayloadsSnoc(lines[..k], lines[k]);
      if "data:" <= lines[k] {
        data := data + [TrimSpace(lines[k][5..])];
      }
    }
    assert lines[..|lines|] == lines;
    if |data| == 0 { return None; }
    r := Some(Join(data, "\n"));
  }

  // --- The specification: whole text in, parsed payloads out ---

  // What one block amounts to: the end of the stream, or what it yields.
  datatype Reading<V> = Stop | Items(items: seq<V>)

  type Reader<V> = string -> Reading<V>

  // The guarded `yield JSON.parse(data)`, with its swallowed exception.
  function ItemsOf<V>(parse: string -> Option<V>, data: Option<string>): seq<V> {
    if data.None? then []
    else match parse(data.value) case None => [] case Some(v) => [v]
  }

  // Nothing is yielded when a block has no payload or its payload does not parse.
  function ReadPayload<V>(parse: string -> Option<V>, data: Option<string>): Reading<V> {
    if data == Some("[DONE]") then Stop else Items(ItemsOf(parse, data))
  }

  function ReaderOf<V>(parse: string -> Option<V>): Reader<V> {
    block => ReadPayload(parse, Payload(block))
  }

  // A whole text, cut at its blank lines; the last element is the unterminated rest.
  function Blocks(s: string): (blocks: seq<string>)
    ensures |blocks| >= 1
    decreases |s|
  {
    var i := IndexOfEventBoundary(s);
    if i < 0 then [s] else [s[..i]] + Blocks(s[i + BoundaryLength(s, i)..])
  }

  function ReadBlocks<V>(read: Reader<V>, blocks: seq<string>): seq<V> {
    if blocks == [] || read(blocks[0]).Stop? then []
    else read(blocks[0]).items + ReadBlocks(read, blocks[1..])
  }

  function ParseWhole<V>(parse: string -> Option<V>, text: string): seq<V> {
    ReadBlocks(ReaderOf(parse), Blocks(text))
  }

  // --- The incremental parser ---

  datatype Scan<V> = Scan(yielded: seq<V>, done: bool, rest: string)

  // The inner loop on one buffer.
  function Drain<V>(read: Reader<V>, buffer: string): Scan<V>
    decreases |buffer|
  {
    var i := IndexOfEventBoundary(buffer);
    if i < 0 then Scan([], false, buffer)
    else if read(buffer[..i]).Stop? then Scan([], true, "")
    else After(read(buffer[..i]).items, Drain(read, buffer[i + BoundaryLength(buffer, i)..]))
  }

  function After<V>(items: seq<V>, r: Scan<V>): Scan<V> {
    Scan(items + r.yielded, r.done, r.rest)
  }

  lemma AfterAfter<V>(a: seq<V>, b: seq<V>, r: Scan<V>)
    ensures After(a, After(b, r)) == After(a + b, r)
  {
    assert a + (b + r.yielded) == (a + b) + r.yielded;
  }

  function Then<V>(read: Reader<V>, o: Scan<V>, more: string): Scan<V> {
    if o.done then o else After(o.yielded, Drain(read, o.rest + more))
  }

  // The first event of a buffer, and what is behind it.
  predicate FirstEventIs(buffer: string, event: string, tail: string) {
    var i := IndexOfEventBoundary(buffer);
    i >= 0 && buffer[..i] == event && buffer[i + BoundaryLength(buffer, i)..] == tail
  }

  // Appended text is behind the first event.
  lemma FirstEventStays(a: string, event: string, tail: string, b: string)
    requires FirstEventIs(a, event, tail)
    ensures FirstEventIs(a + b, event, tail + b)
  {
    BoundaryStays(a, b);
    var i := IndexOfEventBoundary(a);
    var n := i + BoundaryLength(a, i);
    assert (a + b)[..i] == a[..i] && (a + b)[n..] == a[n..] + b;
  }

  // One turn of the inner loop.
  lemma DrainTurn<V>(read: Reader<V>, s: string, event: string, tail: string)
    requires FirstEventIs(s, event, tail)
    ensures Drain(read, s) ==
            if read(event).Stop? then Scan([], true, "") else After(read(event).items, Drain(read, tail))
  {
  }

  lemma ThenAfter<V>(read: Reader<V>, items: seq<V>, o: Scan<V>, more: string)
    ensures Then(read, After(items, o), more) == After(items, Then(read, o, more))
  {
    AfterAfter(items, o.yielded, Drain(read, o.rest + more));
  }

  // The claim below for a buffer follows from the claim for what is behind its first event.
  lemma DrainAppendTurn<V>(read: Reader<V>, a: string, b: string, event: string, tail: string)
    requires FirstEventIs(a, event, tail)
    requires !read(event).Stop? ==> Drain(read, tail + b) == Then(read, Drain(read, tail), b)
    ensures Drain(read, a + b) == Then(read, Drain(read, a), b)
  {
    FirstEventStays(a, event, tail, b);
    DrainTurn(read, a, event, tail);
    DrainTurn(read, a + b, event, tail + b);
    if !read(event).Stop? {
      ThenAfter(read, read(event).items, Drain(read, tail), b);
    }
  }

  lemma NothingToDrain<V>(read: Reader<V>, a: string, b: string)
    requires IndexOfEventBoundary(a) < 0
    ensures Drain(read, a + b) == Then(read, Drain(read, a), b)
  {
    AppendEmpty(Drain(read, a + b).yielded);
  }

  lemma {:induction false} DrainAppend<V>(read: Reader<V>, a: string, b: string)
    ensures Drain(read, a + b) == Then(read, Drain(read, a), b)
    decreases |a|
  {
    var i := IndexOfEventBoundary(a);
    if i < 0 {
      NothingToDrain(read, a, b);
    } else {
      var event, tail := a[..i], a[i + BoundaryLength(a, i)..];
      if !read(event).Stop? {
        DrainAppend(read, tail, b);
      }
      DrainAppendTurn(read, a, b, event, tail);
    }
  }

  // The flush of an unterminated rest.
  function Flush<V>(read: Reader<V>, o: Scan<V>): seq<V> {
    if o.done || read(o.rest).Stop? then o.yielded else o.yielded + read(o.rest).items
  }

  lemma FlushAfter<V>(read: Reader<V>, items: seq<V>, o: Scan<V>)
    ensures Flush(read, After(items, o)) == items + Flush(read, o)
  {
    if !o.done && !read(o.rest).Stop? {
      assert items + (o.yielded + read(o.rest).items) == (items + o.yielded) + read(o.rest).items;
    }
  }

  // Draining and then flushing the rest is the specification.
  lemma {:induction false} DrainThenFlush<V>(read: Reader<V>, text: string)
    ensures ReadBlocks(read, Blocks(text)) == Flush(read, Drain(read, text))
    decreases |text|
  {
    var i := IndexOfEventBoundary(text);
    if i < 0 {
      assert Blocks(text)[1..] == [];
      if !read(text).Stop? {
        assert read(text).items + [] == [] + read(text).items;
      }
    } else {
      var tail := text[i + BoundaryLength(text, i)..];
      assert Blocks(text)[1..] == Blocks(tail);
      if !read(text[..i]).Stop? {
        DrainThenFlush(read, tail);
        FlushAfter(read, read(text[..i]).items, Drain(read, tail));
      }
    }
  }

  // Nothing behind the [DONE] event is parsed.
  lemma StopsAtDone<V>(read: Reader<V>, text: string, more: string)
    requires Drain(read, text).done
    ensures ReadBlocks(read, Blocks(text + more)) == Drain(read, text).yielded
  {
    DrainAppend(read, text, more);
    DrainThenFlush(read, text + more);
  }

  // The characters trim() removes: the JavaScript white space and line terminators.
  predicate IsSpace(c: char) {
    c in "\t\n\r \U{000B}\U{000C}\U{00A0}\U{1680}\U{2028}\U{2029}\U{202F}\U{205F}\U{3000}\U{FEFF}"
    || '\U{2000}' <= c <= '\U{200A}'
  }

  predicate Blank(s: string) { forall i :: 0 <= i < |s| ==> IsSpace(s[i]) }

  lemma BlankIsNoData(line: string)
    requires Blank(line)
    ensures !("data:" <= line)
  {
    assert !IsSpace('d') && "data:"[0] == 'd';
  }

  // The trim() guard before the final flush changes nothing: blank text has no payload.
  lemma {:induction false} BlankHasNoPayload(s: string)
    requires Blank(s)
    ensures Payload(s) == None
    decreases |s|
  {
    var i := IndexOf(s, '\n');
    if i < 0 {
      BlankIsNoData(s);
      assert SplitLines(s) == [s] && [s][1..] == [];
      assert Payloads([s]) == [] + Payloads([]);
    } else {
      BlankHasNoPayload(s[i + 1..]);
      BlankIsNoData(StripCr(s[..i]));
      assert SplitLines(s)[1..] == SplitLines(s[i + 1..]);
    }
  }

  // The generator behind its first k chunks: the text so far is drained, and is not done.
  ghost predicate Parsing<V>(read: Reader<V>, chunks: seq<string>, k: nat, yielded: seq<V>, buffer: string) {
    k <= |chunks| && Drain(read, Concat(chunks[..k])) == Scan(yielded, false, buffer)
  }

  // One more chunk: the generator goes on, or is done with the whole text.
  lemma ParsingNext<V>(read: Reader<V>, chunks: seq<string>, k: nat, yielded: seq<V>, buffer: string, step: Scan<V>)
    requires k < |chunks| && Parsing(read, chunks, k, yielded, buffer)
    requires step == Drain(read, buffer + chunks[k])
    ensures
      if step.done then yielded + step.yielded == ReadBlocks(read, Blocks(Concat(chunks)))
      else Parsing(read, chunks, k + 1, yielded + step.yielded, step.rest)
  {
    var before := Concat(chunks[..k]);
    CutAt(chunks, k);
    DrainAppend(read, before, chunks[k]);
    if step.done {
      StopsAtDone(read, before + chunks[k], Concat(chunks[k + 1..]));
    }
  }

  lemma ParsingEnds<V>(read: Reader<V>, chunks: seq<string>, yielded: seq<V>, buffer: string)
    requires Parsing(read, chunks, |chunks|, yielded, buffer)
    ensures ReadBlocks(read, Blocks(Concat(chunks))) ==
            if read(buffer).Stop? then yielded else yielded + read(buffer).items
  {
    assert chunks[..|chunks|] == chunks;
    DrainThenFlush(read, Concat(chunks));
  }

  // The generator. What it yields depends on the text only, not on how it was cut.
  method ParseSseChunks<V>(parse: string -> Option<V>, chunks: seq<string>) returns (yielded: seq<V>)
    ensures yielded == ParseWhole(parse, Concat(chunks))
  {
    ghost var read := ReaderOf(parse);
    yielded := [];
    var buffer := "";
    assert chunks[..0] == [];
    for k := 0 to |chunks|
      invariant Parsing(read, chunks, k, yielded, buffer)
    {
      var items, done, rest := ConsumeEvents(parse, buffer + chunks[k]);
      ParsingNext(read, chunks, k, yielded, buffer, Scan(items, done, rest));
      yielded, buffer := yielded + items, rest;
      if done { return; }
    }
    ParsingEnds(read, chunks, yielded, buffer);
    if !Blank(buffer) {
      var data := ExtractDataPayload(buffer);
      if data != Some("[DONE]") { yielded := yielded + ItemsOf(parse, data); }
    } else {
      BlankHasNoPayload(buffer);
      AppendEmpty(yielded);
    }
  }

  // The generator's inner loop.
  method ConsumeEvents<V>(parse: string -> Option<V>, text: string)
    returns (yielded: seq<V>, done: bool, buffer: string)
    ensures Scan(yielded, done, buffer) == Drain(ReaderOf(parse), text)
  {
    ghost var read := ReaderOf(parse);
    yielded, done, buffer := [], false, text;
    AppendEmpty(Drain(read, text).yielded);
    var idx := IndexOfEventBoundary(buffer);
    while idx != -1
      invariant idx == IndexOfEventBoundary(buffer) && !done
      invariant Drain(read, text) == After(yielded, Drain(read, buffer))
      decreases |buffer|
    {
      var event := buffer[..idx];
      var tail := StripBoundary(buffer[idx..]);
      StripAtBoundary(buffer, idx);
      var data := ExtractDataPayload(event);
      DrainEvent(parse, yielded, buffer, event, tail);
      if data == Some("[DONE]") { return yielded, true, ""; }
      yielded, buffer := yielded + ItemsOf(parse, data), tail;
      idx := IndexOfEventBoundary(buffer);
    }
    AppendEmpty(yielded);
  }

  // One turn of the inner loop, behind what has been yielded before it.
  lemma DrainEvent<V>(parse: string -> Option<V>, yielded: seq<V>, buffer: string, event: string, tail: string)
    requires FirstEventIs(buffer, event, tail)
    ensures
      var data := Payload(event);
      After(yielded, Drain(ReaderOf(parse), buffer)) ==
      if data == Some("[DONE]") then Scan(yielded, true, "")
      else After(yielded + ItemsOf(parse, data), Drain(ReaderOf(parse), tail))
  {
    var read := ReaderOf(parse);
    assert read(event) == ReadPayload(parse, Payload(event));
    DrainTurn(read, buffer, event, tail);
    AppendEmpty(yielded);
    if !read(event).Stop? {
      AfterAfter(yielded, read(event).items, Drain(read, tail));
    }
  }

  lemma CutAt(chunks: seq<string>, k: nat)
    requires k < |chunks|
    ensures Concat(chunks[..k + 1]) == Concat(chunks[..k]) + chunks[k]
    ensures Concat(chunks) == Concat(chunks[..k]) + chunks[k] + Concat(chunks[k + 1..])
  {
    SplitAt(chunks, k);
    ConcatSnoc(chunks[..k], chunks[k]);
    ConcatAppend(chunks[..k + 1], chunks[k + 1..]);
  }
}
