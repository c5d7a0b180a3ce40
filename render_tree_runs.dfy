/**
 * Facts about running call sequences: a run of concatenated sequences is the second run
 * started where the first one ended.
 */
module RenderTreeRuns {
  import opened Wrappers
  import opened RenderTreeFrames
  import opened RenderTreeSemantics

  /** Running `a + b` runs `a`, then `b` from where `a` ended; an error in `a` ends the run. */
  lemma {:induction false} RunConcat(s: State, a: seq<Call>, b: seq<Call>)
    ensures Run(s, a + b) == match Run(s, a)
                             case Err(e) => Err(e)
                             case Ok(t) => Run(t, b)
    decreases |a|
  {
    if a == [] {
      assert a + b == b;
    } else {
      assert (a + b)[0] == a[0] && (a + b)[1..] == a[1..] + b;
      if Step(s, a[0]).Ok? {
        RunConcat(Step(s, a[0]).value, a[1..], b);
      }
    }
  }

  lemma RunSingle(s: State, c: Call)
    ensures Run(s, [c]) == Step(s, c)
  {
    if Step(s, c).Ok? {
      assert Run(Step(s, c).value, []) == Ok(Step(s, c).value);
    }
  }

  /** A fragment runs its calls inside a fresh region, then closes that region; an error in the calls ends it. */
  lemma FragmentStepIs(s: State, sequence: int, calls: seq<Call>)
    ensures Run(Open(s, Region(sequence, 0)), calls).Err? ==>
              Step(s, AddContent(sequence, FragmentContent(calls))) == Err(Run(Open(s, Region(sequence, 0)), calls).error)
    ensures Run(Open(s, Region(sequence, 0)), calls).Ok? ==>
              Step(s, AddContent(sequence, FragmentContent(calls))) == Close(Run(Open(s, Region(sequence, 0)), calls).value, RegionKind)
  {
  }

  /** A bulk attribute call, where attributes are allowed, writes every pair with the pending flag set. */
  lemma BulkStepIs(s: State, sequence: int, attributes: seq<(string, Value)>)
    requires CanAddAttribute(s)
    ensures Step(s, AddMultipleAttributes(sequence, Some(attributes))) == Ok(WriteAll(s.(bulkPending := true), sequence, attributes))
  {
  }
}
