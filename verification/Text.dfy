// Byte and text helpers shared by the stream translator and the client parser.
// A byte is written as the character with the same code.
module Text {
  function Concat<T>(parts: seq<seq<T>>): seq<T> {
    if parts == [] then [] else parts[0] + Concat(parts[1..])
  }

  lemma {:induction false} ConcatAppend<T>(a: seq<seq<T>>, b: seq<seq<T>>)
    ensures Concat(a + b) == Concat(a) + Concat(b)
  {
    if a == [] {
      assert a + b == b;
    } else {
      assert (a + b)[1..] == a[1..] + b;
      ConcatAppend(a[1..], b);
    }
  }

  lemma ConcatSnoc<T>(a: seq<seq<T>>, x: seq<T>)
    ensures Concat(a + [x]) == Concat(a) + x
  {
    ConcatAppend(a, [x]);
    assert Concat([x]) == x;
  }

  function IndexFrom<T(==)>(s: seq<T>, x: T, k: nat): (i: int)
    requires k <= |s|
    ensures -1 <= i < |s|
    ensures i >= 0 ==> k <= i && s[i] == x && forall j :: k <= j < i ==> s[j] != x
    ensures i < 0 ==> forall j :: k <= j < |s| ==> s[j] != x
    decreases |s| - k
  {
    if k == |s| then -1 else if s[k] == x then k else IndexFrom(s, x, k + 1)
  }

  // bytes.IndexByte and String.indexOf of one element: -1 when absent.
  function IndexOf<T(==)>(s: seq<T>, x: T): (i: int)
    ensures -1 <= i < |s|
    ensures i >= 0 ==> s[i] == x && forall k :: 0 <= k < i ==> s[k] != x
    ensures i < 0 ==> x !in s
  {
    IndexFrom(s, x, 0)
  }

  // Appending never moves the first occurrence.
  lemma IndexOfAppend<T>(a: seq<T>, b: seq<T>, x: T)
    requires x in a
    ensures IndexOf(a + b, x) == IndexOf(a, x)
  {
    assert (a + b)[IndexOf(a, x)] == x;
  }

  // One CR at the end goes, and nothing else.
  function StripCr(line: string): (r: string)
    ensures line == r || line == r + "\r"
    ensures line != "" && line[|line| - 1] == '\r' ==> line == r + "\r"
  {
    if |line| > 0 && line[|line| - 1] == '\r' then line[..|line| - 1] else line
  }

  // Drops one leading space, as bytes.TrimPrefix(_, " ") and replace(/^ /, '') do.
  function TrimSpace(s: string): (r: string)
    ensures if s != "" && s[0] == ' ' then s == " " + r else s == r
  {
    if " " <= s then s[1..] else s
  }

  function Join(parts: seq<string>, sep: string): string {
    if |parts| == 0 then ""
    else if |parts| == 1 then parts[0]
    else parts[0] + sep + Join(parts[1..], sep)
  }

  lemma {:induction false} JoinSnoc(parts: seq<string>, sep: string, x: string)
    requires |parts| > 0
    ensures Join(parts + [x], sep) == Join(parts, sep) + sep + x
  {
    if |parts| == 1 {
      assert (parts + [x])[1..] == [x];
    } else {
      assert (parts + [x])[1..] == parts[1..] + [x];
      JoinSnoc(parts[1..], sep, x);
      assert Join(parts + [x], sep) == parts[0] + sep + (Join(parts[1..], sep) + sep + x);
    }
  }

  lemma SplitAt<T>(s: seq<T>, k: nat)
    requires k < |s|
    ensures s[..k + 1] == s[..k] + [s[k]] && s == s[..k + 1] + s[k + 1..]
  {
  }

  lemma Associate<T>(a: seq<T>, b: seq<T>, c: seq<T>)
    ensures a + b + c == a + (b + c)
  {
  }

  lemma AppendEmpty<T>(a: seq<T>)
    ensures a + [] == a && [] + a == a
  {
  }

  // The values of the `data:` lines among `lines`, in order.
  function Payloads(lines: seq<string>): seq<string> {
    if lines == [] then []
    else (if "data:" <= lines[0] then [TrimSpace(lines[0][5..])] else []) + Payloads(lines[1..])
  }

  lemma {:induction false} PayloadsSnoc(lines: seq<string>, line: string)
    ensures Payloads(lines + [line]) == Payloads(lines) + Payloads([line])
  {
    if lines == [] {
      assert lines + [line] == [line];
    } else {
      assert (lines + [line])[1..] == lines[1..] + [line];
      PayloadsSnoc(lines[1..], line);
    }
  }
}
