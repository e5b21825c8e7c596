// backend-python/app/repository/storage/s3_client.py: the file-like view of a chunked source.
module ByteReader {
  import opened Text

  newtype Byte = x: int | 0 <= x < 256

  // How many chunks a read of `size` pulls when it already holds `have` bytes.
  function Pulls(source: seq<seq<Byte>>, have: nat, size: nat): (k: nat)
    ensures k <= |source|
    decreases |source|
  {
    if have >= size || source == [] then 0 else 1 + Pulls(source[1..], have + |source[0]|, size)
  }

  function Min(a: nat, b: nat): nat {
    if a <= b then a else b
  }

  // What a file of contents `file` answers to read(size), and what is left of it.
  function FileRead(file: seq<Byte>, size: int): (r: (seq<Byte>, seq<Byte>))
    ensures r.0 + r.1 == file
  {
    var n := if size < 0 then |file| else Min(size, |file|);
    (file[..n], file[n..])
  }

  // The answers to a whole series of reads, and what is left.
  function FileReads(file: seq<Byte>, sizes: seq<int>): (seq<seq<Byte>>, seq<Byte>) {
    if sizes == [] then ([], file)
    else
      var (out, rest) := FileRead(file, sizes[0]);
      var (outs, end) := FileReads(rest, sizes[1..]);
      ([out] + outs, end)
  }

  // The least number of chunks that will do.
  lemma {:induction false} PullsOnlyWhatItNeeds(source: seq<seq<Byte>>, have: nat, size: nat)
    ensures var k := Pulls(source, have, size);
            && (have + |Concat(source[..k])| >= size || k == |source|)
            && forall j :: 0 <= j < k ==> have + |Concat(source[..j])| < size
    decreases |source|
  {
    if have < size && source != [] {
      var k := Pulls(source, have, size);
      PullsOnlyWhatItNeeds(source[1..], have + |source[0]|, size);
      forall j | 0 < j <= k ensures |Concat(source[..j])| == |source[0]| + |Concat(source[1..][..j - 1])| {
        assert source[..j][1..] == source[1..][..j - 1];
      }
    }
  }

  // Nothing is lost, repeated or reordered, whatever the sizes asked for.
  lemma {:induction false} ReadsConserveBytes(file: seq<Byte>, sizes: seq<int>)
    ensures var (outs, end) := FileReads(file, sizes); Concat(outs) + end == file
  {
    if sizes != [] {
      var (out, rest) := FileRead(file, sizes[0]);
      var (outs, end) := FileReads(rest, sizes[1..]);
      ReadsConserveBytes(rest, sizes[1..]);
      assert ([out] + outs)[1..] == outs;
      Associate(out, Concat(outs), end);
    }
  }

  // Every read of n >= 0 answers exactly n bytes, except that a short answer means the answers so
  // far are the whole file; so does a negative size.
  lemma {:induction false} ReadsAreExact(file: seq<Byte>, sizes: seq<int>, i: nat)
    requires i < |sizes|
    ensures var outs := FileReads(file, sizes).0;
            && |outs| == |sizes|
            && (sizes[i] >= 0 ==> |outs[i]| <= sizes[i])
            && (sizes[i] < 0 || |outs[i]| < sizes[i] ==> Concat(outs[..i + 1]) == file)
  {
    var (out, rest) := FileRead(file, sizes[0]);
    var (outs, end) := FileReads(rest, sizes[1..]);
    var all := FileReads(file, sizes).0;
    ReadsCount(rest, sizes[1..]);
    assert all == [out] + outs;
    assert all[..i + 1][1..] == outs[..i];
    if i > 0 {
      ReadsAreExact(rest, sizes[1..], i - 1);
    } else if sizes[0] < 0 || |out| < sizes[0] {
      assert rest == [] && all[..1] == [out];
      assert Concat([out]) == out;
    }
  }

  lemma {:induction false} ReadsCount(file: seq<Byte>, sizes: seq<int>)
    ensures |FileReads(file, sizes).0| == |sizes|
  {
    if sizes != [] {
      ReadsCount(FileRead(file, sizes[0]).1, sizes[1..]);
    }
  }

  class AsyncIterReader {
    var source: seq<seq<Byte>>
    var buffer: seq<Byte>

    // Everything not yet handed out.
    ghost function Unread(): seq<Byte>
      reads this
    {
      buffer + Concat(source)
    }

    constructor (chunks: seq<seq<Byte>>)
      ensures source == chunks && buffer == [] && Unread() == Concat(chunks)
    {
      source, buffer := chunks, [];
    }

    // The answer is the file's, however the source was chunked, and no chunk is pulled that the
    // answer can do without.
    method Read(size: int) returns (out: seq<Byte>)
      modifies this
      ensures (out, Unread()) == FileRead(old(Unread()), size)
      ensures source == if size < 0 then []
                        else old(source)[Pulls(old(source), |old(buffer)|, size)..]
    {
      if size < 0 {
        ghost var whole := Unread();
        out, buffer := buffer, [];
        while source != []
          invariant buffer == [] && out + Concat(source) == whole
          decreases |source|
        {
          Associate(out, source[0], Concat(source[1..]));
          out, source := out + source[0], source[1..];
        }
        assert out == whole && Unread() == [];
        assert whole[..|whole|] == whole;
        return;
      }
      while |buffer| < size && source != []
        invariant Unread() == old(Unread())
        invariant |source| <= |old(source)| && source == old(source)[|old(source)| - |source|..]
        invariant |old(source)| - |source| + Pulls(source, |buffer|, size) ==
                  Pulls(old(source), |old(buffer)|, size)
        decreases |source|
      {
        Associate(buffer, source[0], Concat(source[1..]));
        buffer, source := buffer + source[0], source[1..];
      }
      ghost var whole := Unread();
      var n := if |buffer| < size then |buffer| else size;
      out, buffer := buffer[..n], buffer[n..];
      assert out + Unread() == whole by {
        Associate(out, buffer, Concat(source));
      }
      assert |out| == if size < |whole| then size else |whole|;
      assert whole[..|out|] == out && whole[|out|..] == Unread();
    }
  }
}
