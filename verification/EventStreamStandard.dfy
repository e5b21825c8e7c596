// Section 9.2.6 of the WHATWG HTML Standard: what the lines of one event say.
module EventStreamStandard {
  import opened Wrappers
  import opened Text

  datatype Field = Field(name: string, value: string)

  // A line with a colon is a field name and a value; a line without one is a field name alone;
  // a line that starts with a colon is a comment.
  function FieldOf(line: string): Option<Field> {
    var i := IndexOf(line, ':');
    if i == 0 then None
    else if i < 0 then Some(Field(line, ""))
    else Some(Field(line[..i], TrimSpace(line[i + 1..])))
  }

  predicate Names(line: string, name: string) { FieldOf(line).Some? && FieldOf(line).value.name == name }

  // The values of the data fields, in order; the data of the event is these joined by LF.
  function DataValues(lines: seq<string>): seq<string> {
    if lines == [] then []
    else (if Names(lines[0], "data") then [FieldOf(lines[0]).value.value] else []) + DataValues(lines[1..])
  }

  function Data(lines: seq<string>): string { Join(DataValues(lines), "\n") }

  // The last line that is an event field.
  function LastEvent(lines: seq<string>): Option<string> {
    if lines == [] then None
    else if Names(lines[|lines| - 1], "event") then Some(lines[|lines| - 1])
    else LastEvent(lines[..|lines| - 1])
  }

  // The event type: the value of the last event field.
  function Type(lines: seq<string>): string {
    match LastEvent(lines) case None => "" case Some(line) => FieldValue(line)
  }

  function FieldValue(line: string): string {
    match FieldOf(line) case None => "" case Some(f) => f.value
  }

  // A field called `name`: name, colon and value, or the bare name.
  lemma NamesIff(line: string, name: string)
    requires name != "" && ':' !in name
    ensures Names(line, name) <==> line == name || name + ":" <= line
    ensures line == name ==> FieldValue(line) == ""
    ensures name + ":" <= line ==> FieldValue(line) == TrimSpace(line[|name| + 1..])
  {
    var i := IndexOf(line, ':');
    if name + ":" <= line {
      assert line[|name|] == (name + ":")[|name|] == ':';
      assert forall k :: 0 <= k < |name| ==> line[k] == (name + ":")[k] == name[k];
      assert i == |name| && line[..i] == name;
    }
    if i > 0 && line[..i] == name {
      assert line[..i + 1] == name + ":";
    }
  }

  // --- Lengths ---

  function Weight(parts: seq<string>): nat {
    if parts == [] then 0 else |parts[0]| + 1 + Weight(parts[1..])
  }

  lemma {:induction false} JoinWeight(parts: seq<string>)
    requires parts != []
    ensures |Join(parts, "\n")| + 1 == Weight(parts)
  {
    if |parts| > 1 {
      JoinWeight(parts[1..]);
    } else {
      assert parts[1..] == [];
    }
  }

  lemma {:induction false} WeightCounts(parts: seq<string>)
    ensures Weight(parts) >= |parts|
  {
    if parts != [] {
      WeightCounts(parts[1..]);
    }
  }

  lemma DataLine(line: string)
    ensures Names(line, "data") <==> line == "data" || "data:" <= line
    ensures line == "data" ==> FieldValue(line) == "" && !("data:" <= line)
    ensures "data:" <= line ==> FieldValue(line) == TrimSpace(line[5..])
  {
    assert "data" + ":" == "data:";
    NamesIff(line, "data");
  }

  // One more line in front, in the standard and among the `data:` lines: a bare one,
  lemma BareHead(rest: seq<string>)
    ensures DataValues(["data"] + rest) == [""] + DataValues(rest)
    ensures Payloads(["data"] + rest) == Payloads(rest)
  {
    DataLine("data");
    assert (["data"] + rest)[1..] == rest;
    AppendEmpty(Payloads(rest));
  }

  // one with a value,
  lemma ValueHead(line: string, rest: seq<string>)
    requires "data:" <= line
    ensures DataValues([line] + rest) == [TrimSpace(line[5..])] + DataValues(rest)
    ensures Payloads([line] + rest) == [TrimSpace(line[5..])] + Payloads(rest)
  {
    DataLine(line);
    assert ([line] + rest)[1..] == rest;
  }

  // and any other.
  lemma OtherHead(line: string, rest: seq<string>)
    requires line != "data" && !("data:" <= line)
    ensures DataValues([line] + rest) == DataValues(rest)
    ensures Payloads([line] + rest) == Payloads(rest)
  {
    DataLine(line);
    assert ([line] + rest)[1..] == rest;
    AppendEmpty(DataValues(rest));
    AppendEmpty(Payloads(rest));
  }

  lemma WeightCons(x: string, parts: seq<string>)
    ensures Weight([x] + parts) == |x| + 1 + Weight(parts)
  {
    assert ([x] + parts)[1..] == parts;
  }

  // What the bare `data` lines add.
  lemma {:induction false} BareLinesWeigh(lines: seq<string>)
    ensures "data" !in lines ==> DataValues(lines) == Payloads(lines)
    ensures Weight(Payloads(lines)) <= Weight(DataValues(lines))
    ensures "data" in lines ==> Weight(Payloads(lines)) < Weight(DataValues(lines))
  {
    if lines != [] {
      var line, rest := lines[0], lines[1..];
      assert lines == [line] + rest;
      BareLinesWeigh(rest);
      if line == "data" {
        BareHead(rest);
        WeightCons("", DataValues(rest));
      } else if "data:" <= line {
        ValueHead(line, rest);
        WeightCons(TrimSpace(line[5..]), DataValues(rest));
        WeightCons(TrimSpace(line[5..]), Payloads(rest));
      } else {
        OtherHead(line, rest);
      }
    }
  }

  // A shorter list of values joins to the standard's data only when there is one value at most.
  lemma BareLineShows(lines: seq<string>, parts: seq<string>)
    requires "data" in lines && Weight(parts) <= Weight(Payloads(lines))
    ensures |DataValues(lines)| > 1 ==> |Join(parts, "\n")| < |Data(lines)|
  {
    BareLinesWeigh(lines);
    JoinWeight(DataValues(lines));
    WeightCounts(DataValues(lines));
    if parts != [] {
      JoinWeight(parts);
    }
  }

  // With one value at most, a bare line adds the empty one.
  lemma {:induction false} OneValue(lines: seq<string>)
    requires |DataValues(lines)| <= 1
    ensures Join(Payloads(lines), "\n") == Data(lines)
    ensures |Payloads(lines)| <= 1
  {
    BareLinesWeigh(lines);
    WeightCounts(Payloads(lines));
    if "data" in lines {
      OnlyBare(lines);
    }
  }

  lemma {:induction false} OnlyBare(lines: seq<string>)
    requires "data" in lines && |DataValues(lines)| <= 1
    ensures DataValues(lines) == [""] && Payloads(lines) == []
  {
    var line, rest := lines[0], lines[1..];
    assert lines == [line] + rest;
    BareLinesWeigh(rest);
    if line == "data" {
      BareHead(rest);
      WeightCounts(Payloads(rest));
    } else if "data:" <= line {
      ValueHead(line, rest);
    } else {
      OtherHead(line, rest);
      OnlyBare(rest);
    }
  }
}
