// backend-python/app/service/guardrails/pipeline.py: the chain of guards.
module Guardrails {
  import opened Wrappers

  datatype GuardrailResult = GuardrailResult(
    blocked: bool, rule: Option<string>, detail: Option<string>, redacted: Option<string>)

  // A guard is a pure function of the payload.
  type Guard = string -> GuardrailResult

  const PASSED := GuardrailResult(false, None, None, None)

  function Rewrite(text: string, r: GuardrailResult): string {
    match r.redacted case Some(t) => t case None => text
  }

  // The text guard i is shown when none before it blocks.
  function TextAt(text: string, guards: seq<Guard>, i: nat): string
    requires i <= |guards|
  {
    if i == 0 then text
    else var before := TextAt(text, guards, i - 1); Rewrite(before, guards[i - 1](before))
  }

  predicate Blocks(text: string, guards: seq<Guard>, i: nat)
    requires i < |guards|
  {
    guards[i](TextAt(text, guards, i)).blocked
  }

  // Ok with the rewritten text, or the block.
  function Through(text: string, guards: seq<Guard>): Result<string, GuardrailResult>
    decreases |guards|
  {
    if guards == [] then Ok(text)
    else
      var r := guards[0](text);
      if r.blocked then Err(r) else Through(Rewrite(text, r), guards[1..])
  }

  function Report(text: string, end: Result<string, GuardrailResult>): GuardrailResult {
    match end
    case Err(r) => r
    case Ok(t) => if t != text then GuardrailResult(false, None, None, Some(t)) else PASSED
  }

  method Run(text: string, guards: seq<Guard>) returns (r: GuardrailResult)
    ensures r == Report(text, Through(text, guards))
    ensures r.blocked <==> exists i :: 0 <= i < |guards| && Blocks(text, guards, i)
    ensures r.blocked ==>
              exists i :: && 0 <= i < |guards| && Blocks(text, guards, i)
                          && (forall j :: 0 <= j < i ==> !Blocks(text, guards, j))
                          && r == guards[i](TextAt(text, guards, i))
    ensures !r.blocked ==>
              var last := TextAt(text, guards, |guards|);
              r == GuardrailResult(false, None, None, if last != text then Some(last) else None)
  {
    var current := text;
    for i := 0 to |guards|
      invariant current == TextAt(text, guards, i)
      invariant forall j :: 0 <= j < i ==> !Blocks(text, guards, j)
      invariant Through(text, guards) == Through(current, guards[i..])
    {
      var result := guards[i](current);
      if result.blocked {
        assert Blocks(text, guards, i);
        return result;
      }
      assert guards[i..][1..] == guards[i + 1..];
      if result.redacted.Some? {
        current := result.redacted.value;
      }
    }
    r := if current != text then GuardrailResult(false, None, None, Some(current)) else PASSED;
  }

  // The next guard is shown what this one redacts the text to, or the same text.
  lemma RedactionIsPassedOn(text: string, guards: seq<Guard>, i: nat)
    requires i < |guards|
    ensures TextAt(text, guards, 0) == text
    ensures
      var shown := TextAt(text, guards, i);
      match guards[i](shown).redacted
      case Some(t) => TextAt(text, guards, i + 1) == t
      case None => TextAt(text, guards, i + 1) == shown
  {
  }

  lemma {:induction false} ThroughConcat(text: string, g1: seq<Guard>, g2: seq<Guard>)
    ensures Through(text, g1 + g2) == match Through(text, g1) {
              case Err(r) => Err(r)
              case Ok(t) => Through(t, g2)
            }
    decreases |g1|
  {
    if g1 == [] {
      assert g1 + g2 == g2;
    } else {
      assert (g1 + g2)[1..] == g1[1..] + g2;
      ThroughConcat(Rewrite(text, g1[0](text)), g1[1..], g2);
    }
  }

  lemma {:induction false} ErrIsABlock(text: string, guards: seq<Guard>)
    ensures var end := Through(text, guards); end.Err? ==> end.error.blocked
    decreases |guards|
  {
    if guards != [] {
      ErrIsABlock(Rewrite(text, guards[0](text)), guards[1..]);
    }
  }

  // One pipeline of g1 + g2 against two pipelines in a row, the second fed what the first one's
  // report says the text is now. They block alike, for the same reason, and leave the same text.
  lemma PipelinesCompose(text: string, g1: seq<Guard>, g2: seq<Guard>)
    ensures var first := Report(text, Through(text, g1));
            var between := Rewrite(text, first);
            var second := Report(between, Through(between, g2));
            var whole := Report(text, Through(text, g1 + g2));
            && (first.blocked ==> whole == first)
            && (!first.blocked && second.blocked ==> whole == second)
            && (!first.blocked && !second.blocked ==>
                  !whole.blocked && Rewrite(text, whole) == Rewrite(between, second))
  {
    ThroughConcat(text, g1, g2);
    ErrIsABlock(text, g1);
    ErrIsABlock(Rewrite(text, Report(text, Through(text, g1))), g2);
  }

  // The two reports themselves differ when g2 undoes what g1 did, or leaves it alone: the second
  // pipeline compares with the text it was given, not with the original.
  lemma ReportsAgreeIff(text: string, g1: seq<Guard>, g2: seq<Guard>)
    requires !Report(text, Through(text, g1)).blocked
    ensures var between := Rewrite(text, Report(text, Through(text, g1)));
            var second := Report(between, Through(between, g2));
            var after := Rewrite(between, second);
            !second.blocked ==>
              (Report(text, Through(text, g1 + g2)) == second <==>
               between == text || (after != between && after != text))
  {
    ThroughConcat(text, g1, g2);
    ErrIsABlock(text, g1);
    ErrIsABlock(Rewrite(text, Report(text, Through(text, g1))), g2);
  }
}
