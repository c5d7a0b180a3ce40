/**
 * The builder's observable rules, stated over every starting state: where attributes and
 * reference captures may go, which attribute values an Element drops, how keys are set, how
 * content is normalised, and what the de-duplication pass keeps.
 */
module RenderTreeProperties {
  import opened Wrappers
  import opened RenderTreeFrames
  import opened AttributeDedup
  import opened RenderTreeSemantics
  import opened RenderTreeRuns

  /** Two calls run one after the other; the first error ends the run. */
  lemma RunTwo(s: State, c1: Call, c2: Call)
    ensures Step(s, c1).Err? ==> Run(s, [c1, c2]) == Err(Step(s, c1).error)
    ensures Step(s, c1).Ok? ==> Run(s, [c1, c2]) == Step(Step(s, c1).value, c2)
  {
    RunConcat(s, [c1], [c2]);
    assert [c1] + [c2] == [c1, c2];
    RunSingle(s, c1);
    if Step(s, c1).Ok? {
      RunSingle(Step(s, c1).value, c2);
    }
  }

  /** Three calls run one after the other; the first error ends the run. */
  lemma RunThree(s: State, c1: Call, c2: Call, c3: Call)
    ensures Step(s, c1).Err? ==> Run(s, [c1, c2, c3]) == Err(Step(s, c1).error)
    ensures Step(s, c1).Ok? ==> Run(s, [c1, c2, c3]) == Run(Step(s, c1).value, [c2, c3])
  {
    RunConcat(s, [c1], [c2, c3]);
    assert [c1] + [c2, c3] == [c1, c2, c3];
    RunSingle(s, c1);
  }

  /** Two calls whose steps are known: the run ends as the second step does. */
  lemma TwoStepsEnd(s: State, c1: Call, c2: Call, mid: State, r: Result<State, BuildError>)
    requires Step(s, c1) == Ok(mid) && Step(mid, c2) == r
    ensures Run(s, [c1, c2]) == r
  {
    RunTwo(s, c1, c2);
  }

  /** Three calls whose steps are known: the run ends as the third step does. */
  lemma ThreeStepsEnd(s: State, c1: Call, c2: Call, c3: Call, mid1: State, mid2: State, r: Result<State, BuildError>)
    requires Step(s, c1) == Ok(mid1) && Step(mid1, c2) == Ok(mid2) && Step(mid2, c3) == r
    ensures Run(s, [c1, c2, c3]) == r
  {
    RunThree(s, c1, c2, c3);
    RunTwo(mid1, c2, c3);
  }

  /**
   * Right after a container is opened, its frame is the last one: attributes are allowed exactly
   * when it is an Element or a Component, and a capture exactly when the kinds match.
   */
  lemma {:induction false} JustOpened(s: State, f: Frame)
    requires f.IsOpen()
    ensures CanAddAttribute(Open(s, f)) <==> f.IsAttributeOwner()
    ensures forall kind :: CanAddCapture(Open(s, f), kind) <==> f.Kind() == kind
  {
    var r := Open(s, f);
    assert OpenContainer(r) == Some(|r.frames| - 1);
    assert r.frames[|r.frames| - 1] == f;
  }

  // ----- Placement -----

  /** With no open container, attributes, bulk attributes and both captures are rejected. */
  lemma NothingAttachesAtRoot(s: State, sequence: int, name: string, value: Value,
                              attributes: Option<seq<(string, Value)>>, action: ObjectId)
    requires OpenContainer(s).None?
    ensures Step(s, AddAttribute(sequence, name, value)) == Err(AttributeNotAllowed)
    ensures Step(s, AddMultipleAttributes(sequence, attributes)) == Err(AttributeNotAllowed)
    ensures Step(s, AddElementReferenceCapture(sequence, action)) == Err(ElementCaptureNotAllowed)
    ensures Step(s, AddComponentReferenceCapture(sequence, action)) == Err(ComponentCaptureNotAllowed)
  {
  }

  /** On a new builder, an element reference capture is rejected. */
  lemma ElementCaptureAtRootRejected(q: int, action: ObjectId)
    ensures Run(Empty(), [AddElementReferenceCapture(q, action)]) == Err(ElementCaptureNotAllowed)
  {
    RunSingle(Empty(), AddElementReferenceCapture(q, action));
    assert OpenContainer(Empty()).None?;
  }

  /** On a new builder, a component reference capture is rejected. */
  lemma ComponentCaptureAtRootRejected(q: int, action: ObjectId)
    ensures Run(Empty(), [AddComponentReferenceCapture(q, action)]) == Err(ComponentCaptureNotAllowed)
  {
    RunSingle(Empty(), AddComponentReferenceCapture(q, action));
    assert OpenContainer(Empty()).None?;
  }

  /** The builder starts with no open container. */
  lemma EmptyHasNoContainer()
    ensures Empty().frames == [] && OpenContainer(Empty()).None?
  {
  }

  /** An attribute after a content frame is rejected, whatever came before the element. */
  lemma {:induction false} AttributeAfterTextRejected(s: State, q0: int, element: string, q1: int,
                                                       text: Option<string>, q2: int, name: string, value: Value)
    ensures Run(s, [OpenElement(q0, element), AddContent(q1, TextContent(text)), AddAttribute(q2, name, value)])
            == Err(AttributeNotAllowed)
  {
    var entered := Open(s, Element(q0, element, 0, None));
    var written := Append(entered, Text(q1, Normalize(text)));
    assert OpenContainer(written) == OpenContainer(entered) == Some(|entered.frames| - 1);
    assert !written.frames[|written.frames| - 1].Attribute?;
    assert !CanAddAttribute(written);
    ThreeStepsEnd(s, OpenElement(q0, element), AddContent(q1, TextContent(text)), AddAttribute(q2, name, value),
                  entered, written, Err(AttributeNotAllowed));
  }

  /** An attribute directly inside a region is rejected. */
  lemma {:induction false} AttributeInRegionRejected(s: State, q0: int, q1: int, name: string, value: Value)
    ensures Run(s, [OpenRegion(q0), AddAttribute(q1, name, value)]) == Err(AttributeNotAllowed)
  {
    RunTwo(s, OpenRegion(q0), AddAttribute(q1, name, value));
    JustOpened(s, Region(q0, 0));
  }

  /** An attribute after an element reference capture is rejected. */
  lemma {:induction false} AttributeAfterElementCaptureRejected(s: State, q0: int, element: string, q1: int,
                                                                 action: ObjectId, q2: int, name: string, value: Value)
    ensures Run(s, [OpenElement(q0, element), AddElementReferenceCapture(q1, action), AddAttribute(q2, name, value)])
            == Err(AttributeNotAllowed)
  {
    var entered := Open(s, Element(q0, element, 0, None));
    JustOpened(s, Element(q0, element, 0, None));
    var captured := Append(entered, ElementReferenceCapture(q1, action));
    assert OpenContainer(captured) == OpenContainer(entered) == Some(|entered.frames| - 1);
    assert !captured.frames[|captured.frames| - 1].Attribute?;
    ThreeStepsEnd(s, OpenElement(q0, element), AddElementReferenceCapture(q1, action), AddAttribute(q2, name, value),
                  entered, captured, Err(AttributeNotAllowed));
  }

  /** An attribute after a component reference capture is rejected. */
  lemma {:induction false} AttributeAfterComponentCaptureRejected(s: State, q0: int, componentType: ObjectId, q1: int,
                                                                   action: ObjectId, q2: int, name: string, value: Value)
    ensures Run(s, [OpenComponent(q0, componentType), AddComponentReferenceCapture(q1, action), AddAttribute(q2, name, value)])
            == Err(AttributeNotAllowed)
  {
    var entered := Open(s, Component(q0, componentType, 0, None));
    JustOpened(s, Component(q0, componentType, 0, None));
    var t := |entered.frames| - 1;
    var captured := Append(entered, ComponentReferenceCapture(q1, action, t));
    assert OpenContainer(captured) == OpenContainer(entered) == Some(t);
    assert !captured.frames[|captured.frames| - 1].Attribute?;
    ThreeStepsEnd(s, OpenComponent(q0, componentType), AddComponentReferenceCapture(q1, action), AddAttribute(q2, name, value),
                  entered, captured, Err(AttributeNotAllowed));
  }

  /** An element reference capture is rejected directly inside a component or a region. */
  lemma {:induction false} ElementCaptureOutsideElementRejected(s: State, q0: int, componentType: ObjectId, q1: int, action: ObjectId)
    ensures Run(s, [OpenComponent(q0, componentType), AddElementReferenceCapture(q1, action)]) == Err(ElementCaptureNotAllowed)
    ensures Run(s, [OpenRegion(q0), AddElementReferenceCapture(q1, action)]) == Err(ElementCaptureNotAllowed)
  {
    JustOpened(s, Component(q0, componentType, 0, None));
    TwoStepsEnd(s, OpenComponent(q0, componentType), AddElementReferenceCapture(q1, action),
                Open(s, Component(q0, componentType, 0, None)), Err(ElementCaptureNotAllowed));
    JustOpened(s, Region(q0, 0));
    TwoStepsEnd(s, OpenRegion(q0), AddElementReferenceCapture(q1, action), Open(s, Region(q0, 0)), Err(ElementCaptureNotAllowed));
  }

  /** A component reference capture is rejected directly inside an element or a region. */
  lemma {:induction false} ComponentCaptureOutsideComponentRejected(s: State, q0: int, element: string, q1: int, action: ObjectId)
    ensures Run(s, [OpenElement(q0, element), AddComponentReferenceCapture(q1, action)]) == Err(ComponentCaptureNotAllowed)
    ensures Run(s, [OpenRegion(q0), AddComponentReferenceCapture(q1, action)]) == Err(ComponentCaptureNotAllowed)
  {
    JustOpened(s, Element(q0, element, 0, None));
    TwoStepsEnd(s, OpenElement(q0, element), AddComponentReferenceCapture(q1, action),
                Open(s, Element(q0, element, 0, None)), Err(ComponentCaptureNotAllowed));
    JustOpened(s, Region(q0, 0));
    TwoStepsEnd(s, OpenRegion(q0), AddComponentReferenceCapture(q1, action), Open(s, Region(q0, 0)), Err(ComponentCaptureNotAllowed));
  }

  /** A capture is allowed right after its own kind of container is opened, and records it. */
  lemma {:induction false} CaptureAfterOpenAccepted(s: State, q0: int, element: string, componentType: ObjectId,
                                                     q1: int, action: ObjectId)
    ensures Run(s, [OpenElement(q0, element), AddElementReferenceCapture(q1, action)])
            == Ok(Append(Open(s, Element(q0, element, 0, None)), ElementReferenceCapture(q1, action)))
    ensures var entered := Open(s, Component(q0, componentType, 0, None));
            Run(s, [OpenComponent(q0, componentType), AddComponentReferenceCapture(q1, action)])
            == Ok(Append(entered, ComponentReferenceCapture(q1, action, |entered.frames| - 1)))
  {
    ElementCaptureAfterOpen(s, q0, element, q1, action);
    ComponentCaptureAfterOpen(s, q0, componentType, q1, action);
  }

  lemma ElementCaptureAfterOpen(s: State, q0: int, element: string, q1: int, action: ObjectId)
    ensures Run(s, [OpenElement(q0, element), AddElementReferenceCapture(q1, action)])
            == Ok(Append(Open(s, Element(q0, element, 0, None)), ElementReferenceCapture(q1, action)))
  {
    var entered := Open(s, Element(q0, element, 0, None));
    JustOpened(s, Element(q0, element, 0, None));
    TwoStepsEnd(s, OpenElement(q0, element), AddElementReferenceCapture(q1, action), entered,
                Ok(Append(entered, ElementReferenceCapture(q1, action))));
  }

  lemma ComponentCaptureAfterOpen(s: State, q0: int, componentType: ObjectId, q1: int, action: ObjectId)
    ensures var entered := Open(s, Component(q0, componentType, 0, None));
            Run(s, [OpenComponent(q0, componentType), AddComponentReferenceCapture(q1, action)])
            == Ok(Append(entered, ComponentReferenceCapture(q1, action, |entered.frames| - 1)))
  {
    var entered := Open(s, Component(q0, componentType, 0, None));
    JustOpened(s, Component(q0, componentType, 0, None));
    TwoStepsEnd(s, OpenComponent(q0, componentType), AddComponentReferenceCapture(q1, action), entered,
                Ok(Append(entered, ComponentReferenceCapture(q1, action, |entered.frames| - 1))));
  }

  // ----- Content -----

  /** Null text and a null object each still add one text frame, with empty content. */
  lemma NullTextIsEmpty(s: State, sequence: int)
    ensures Step(s, AddContent(sequence, TextContent(None))) == Ok(s.(frames := s.frames + [Text(sequence, "")]))
    ensures Step(s, AddContent(sequence, ObjectContent(None))) == Ok(s.(frames := s.frames + [Text(sequence, "")]))
  {
  }

  /** Null markup, given as a `MarkupString` or directly, still adds one markup frame, with empty content. */
  lemma NullMarkupIsEmpty(s: State, sequence: int)
    ensures Step(s, AddContent(sequence, MarkupStringContent(None))) == Ok(s.(frames := s.frames + [Markup(sequence, "")]))
    ensures Step(s, AddMarkupContent(sequence, None)) == Ok(s.(frames := s.frames + [Markup(sequence, "")]))
  {
  }

  /** A container that has been opened but not closed reports subtree length 0. */
  lemma UnclosedReportsZero(s: State, sequence: int, name: string)
    ensures var r := Step(s, OpenElement(sequence, name));
            r.Ok? && r.value.frames[|r.value.frames| - 1].subtreeLength == 0
            && r.value.frames[|r.value.frames| - 1].Element?
  {
  }

  // ----- Attribute values -----

  /**
   * On an Element, a dropped value (false, null, a callback without a delegate) adds no frame;
   * the write is only remembered so that a bulk de-duplication can delete the name.
   */
  lemma ElementDropsSuppressedValues(s: State, sequence: int, name: string, value: Value)
    requires CanAddAttribute(s) && s.frames[OpenContainer(s).value].Element?
    requires value.Null? || value == Bool(false) || (value.Callback? && !value.callback.HasDelegate())
    ensures Step(s, AddAttribute(sequence, name, value))
            == Ok(s.(silent := s.silent + [SilentWrite(name, |s.frames|)]))
  {
  }

  /** On an Element, any other value adds exactly one attribute frame, holding its stored form. */
  lemma ElementKeepsOtherValues(s: State, sequence: int, name: string, value: Value)
    requires CanAddAttribute(s) && s.frames[OpenContainer(s).value].Element?
    requires !(value.Null? || value == Bool(false) || (value.Callback? && !value.callback.HasDelegate()))
    ensures ElementValue(value).Some?
    ensures Step(s, AddAttribute(sequence, name, value))
            == Ok(s.(frames := s.frames + [Attribute(sequence, name, ElementValue(value).value)]))
  {
  }

  /** On a Component, every value is bound as given, including false and null. */
  lemma ComponentBindsEveryValue(s: State, sequence: int, name: string, value: Value)
    requires CanAddAttribute(s) && s.frames[OpenContainer(s).value].Component?
    ensures Step(s, AddAttribute(sequence, name, value))
            == Ok(s.(frames := s.frames + [Attribute(sequence, name, value)]))
  {
  }

  /** An element whose only attribute was dropped closes with subtree length 1. */
  lemma {:induction false} DroppedAttributeLeavesLengthOne(s: State, q0: int, element: string, q1: int, name: string)
    ensures var r := Run(s, [OpenElement(q0, element), AddAttribute(q1, name, Bool(false)), CloseElement]);
            var entered := Open(s, Element(q0, element, 0, None));
            r.Ok? && r.value.frames == entered.frames[..|entered.frames| - 1] + [Element(q0, element, 1, None)]
  {
    var f := Element(q0, element, 0, None);
    var entered := Open(s, f);
    JustOpened(s, f);
    var t := |entered.frames| - 1;
    var dropped := entered.(silent := entered.silent + [SilentWrite(name, |entered.frames|)]);
    RunThree(s, OpenElement(q0, element), AddAttribute(q1, name, Bool(false)), CloseElement);
    RunTwo(entered, AddAttribute(q1, name, Bool(false)), CloseElement);
    assert Step(entered, AddAttribute(q1, name, Bool(false))) == Ok(dropped);
    assert OpenContainer(dropped) == Some(t) && Settle(dropped).frames == entered.frames;
    assert entered.frames == entered.frames[..t] + [f];
  }

  // ----- Keys -----

  /** A null key is ignored wherever it is set. */
  lemma NullKeyIgnored(s: State)
    ensures Step(s, SetKey(None)) == Ok(s)
  {
  }

  /**
   * A key goes onto the open Element's or Component's frame; every other frame, the stack and
   * the attribute bookkeeping stay as they were, so attributes may still follow.
   */
  lemma KeyStoredOnOwner(s: State, key: ObjectId)
    requires OpenContainer(s).Some? && s.frames[OpenContainer(s).value].IsAttributeOwner()
    ensures var r := Step(s, SetKey(Some(key)));
            var t := OpenContainer(s).value;
            && r.Ok? && |r.value.frames| == |s.frames|
            && r.value.frames[t].key == Some(key) && r.value.frames[t].Kind() == s.frames[t].Kind()
            && (forall j :: 0 <= j < |s.frames| && j != t ==> r.value.frames[j] == s.frames[j])
            && r.value.stack == s.stack && r.value.silent == s.silent && r.value.bulkPending == s.bulkPending
            && (CanAddAttribute(r.value) <==> CanAddAttribute(s))
  {
    var t := OpenContainer(s).value;
    var r := Step(s, SetKey(Some(key))).value;
    assert OpenContainer(r) == Some(t);
  }

  /** A key at the root fails, with the runtime's message. */
  lemma KeyAtRootRejected(s: State, key: ObjectId)
    requires OpenContainer(s).None?
    ensures Step(s, SetKey(Some(key))) == Err(KeyOutsideContainer)
    ensures KeyErrorMessage(KeyOutsideContainer) == "Cannot set a key outside the scope of a component or element."
  {
  }

  /** A key directly inside a region fails, with the runtime's message naming the frame type. */
  lemma {:induction false} KeyInRegionRejected(s: State, q0: int, key: ObjectId)
    ensures Run(s, [OpenRegion(q0), SetKey(Some(key))]) == Err(KeyNotAllowed(RegionKind))
    ensures KeyErrorMessage(KeyNotAllowed(RegionKind)) == "Cannot set a key on a frame of type Region."
  {
    RunTwo(s, OpenRegion(q0), SetKey(Some(key)));
    var entered := Open(s, Region(q0, 0));
    assert OpenContainer(entered) == Some(|entered.frames| - 1);
  }

  // ----- Bulk attributes and de-duplication -----

  /** A null bulk set adds nothing, where attributes are allowed. */
  lemma NullBulkSetAddsNothing(s: State, sequence: int)
    requires CanAddAttribute(s)
    ensures Step(s, AddMultipleAttributes(sequence, None)) == Ok(s)
  {
  }

  /**
   * A bulk set whose values all bind appends one attribute frame per pair, in the order the
   * pairs are enumerated: on a Component each value as given, on an Element its stored form.
   */
  lemma {:induction false} BulkKeepsEnumerationOrder(s: State, sequence: int, attributes: seq<(string, Value)>)
    requires CanAddAttribute(s)
    requires s.frames[OpenContainer(s).value].Element? ==>
               forall i :: 0 <= i < |attributes| ==> ElementValue(attributes[i].1).Some?
    ensures var r := WriteAll(s, sequence, attributes);
            var owner := s.frames[OpenContainer(s).value];
            && |r.frames| == |s.frames| + |attributes| && r.frames[..|s.frames|] == s.frames
            && (forall i :: 0 <= i < |attributes| && owner.Component? ==>
                  r.frames[|s.frames| + i] == Attribute(sequence, attributes[i].0, attributes[i].1))
            && (forall i :: 0 <= i < |attributes| && owner.Element? ==>
                  r.frames[|s.frames| + i] == Attribute(sequence, attributes[i].0, ElementValue(attributes[i].1).value))
    decreases |attributes|
  {
    if attributes != [] {
      var prefix := attributes[..|attributes| - 1];
      var last := attributes[|attributes| - 1];
      BulkKeepsEnumerationOrder(s, sequence, prefix);
      var mid := WriteAll(s, sequence, prefix);
      var t := OpenContainer(s).value;
      assert mid.frames[t] == mid.frames[..|s.frames|][t] == s.frames[t];
      var r := WriteAll(s, sequence, attributes);
      assert r == WriteAttribute(mid, sequence, last.0, last.1);
      assert r.frames == mid.frames + [r.frames[|r.frames| - 1]];
    }
  }

  /** Without a bulk call, the de-duplication pass changes no frame, so duplicate names are all kept. */
  lemma NoBulkCallKeepsDuplicates(s: State)
    requires !s.bulkPending
    ensures Settle(s).frames == s.frames
  {
  }

  /**
   * After a bulk call, the pass replaces exactly the attribute run that follows the open
   * container's frame (up to the first frame that is not an attribute) by its last-write-wins
   * survivors: one frame per case-insensitive name, in the order of the winning writes, with
   * the last frame written under each name surviving unless a dropped write came after it.
   * Frames before the run and from the first non-attribute frame on are untouched.
   */
  lemma {:induction false} SettleCompactsRun(s: State) returns (end: nat, kept: seq<Frame>)
    requires s.bulkPending && OpenContainer(s).Some?
    ensures var t := OpenContainer(s).value;
            && t + 1 <= end <= |s.frames|
            && (forall j :: t + 1 <= j < end ==> s.frames[j].Attribute?)
            && (end < |s.frames| ==> !s.frames[end].Attribute?)
            && Settle(s).frames == s.frames[..t + 1] + kept + s.frames[end..]
    ensures SurvivorsOfRun(s.frames, OpenContainer(s).value, end, s.silent, kept)
    ensures kept == Dedup(s.frames[OpenContainer(s).value + 1..end], OpenContainer(s).value + 1, s.silent)
  {
    end, kept := SettleSplices(s);
    RunSurvivors(s.frames, OpenContainer(s).value, end, s.silent, kept);
  }

  /** After a bulk call, the pass splices the survivors of the open container's attribute run in place of the run. */
  lemma SettleSplices(s: State) returns (end: nat, kept: seq<Frame>)
    requires s.bulkPending && OpenContainer(s).Some?
    ensures var t := OpenContainer(s).value;
            && t + 1 <= end <= |s.frames|
            && (forall j :: t + 1 <= j < end ==> s.frames[j].Attribute?)
            && (end < |s.frames| ==> !s.frames[end].Attribute?)
            && kept == Dedup(s.frames[t + 1..end], t + 1, s.silent)
            && Settle(s).frames == s.frames[..t + 1] + kept + s.frames[end..]
  {
    var t := OpenContainer(s).value;
    end := RunEnd(s.frames, t + 1);
    kept := Dedup(s.frames[t + 1..end], t + 1, s.silent);
  }

  /**
   * `kept` is what survives of the attribute run `frames[t + 1..end]`: attributes only, no more
   * of them than the run has, one per case-insensitive name, in the run's order, holding
   * every frame of the run that no later write overwrites, and holding only such frames.
   */
  predicate SurvivorsOfRun(frames: seq<Frame>, t: nat, end: nat, silent: seq<SilentWrite>, kept: seq<Frame>)
    requires t + 1 <= end <= |frames| && (forall j :: t + 1 <= j < end ==> frames[j].Attribute?)
  {
    && (forall x :: x in kept ==> x.Attribute?)
    && |kept| <= end - (t + 1)
    && (forall a, b :: 0 <= a < b < |kept| ==> !SameName(kept[a].attributeName, kept[b].attributeName))
    && Subsequence(kept, frames[t + 1..end])
    && (forall i :: t + 1 <= i < end && !Overwritten(frames[t + 1..end], t + 1, silent, i - (t + 1))
          ==> frames[i] in kept)
    && (forall k :: 0 <= k < |kept| ==> UnoverwrittenFrame(frames, t, end, silent, kept[k]))
  }

  /** The survivors of the attribute run `frames[t + 1..end]`, stated by position in `frames`. */
  lemma RunSurvivors(frames: seq<Frame>, t: nat, end: nat, silent: seq<SilentWrite>, kept: seq<Frame>)
    requires t + 1 <= end <= |frames| && (forall j :: t + 1 <= j < end ==> frames[j].Attribute?)
    requires kept == Dedup(frames[t + 1..end], t + 1, silent)
    ensures SurvivorsOfRun(frames, t, end, silent, kept)
  {
    var run := frames[t + 1..end];
    assert AllAttributes(run) by {
      forall i | 0 <= i < |run| ensures run[i].Attribute? {
        assert run[i] == frames[t + 1 + i];
      }
    }
    KeptSurvivors(run, t + 1, silent, kept);
    SurvivorsByPosition(frames, t, end, silent, run, kept);
    OriginsByPosition(frames, t, end, silent, run, kept);
  }

  /** The survivors of an attribute run: attributes, no more of them, distinct names, in order, none lost. */
  lemma KeptSurvivors(run: seq<Frame>, first: nat, silent: seq<SilentWrite>, kept: seq<Frame>)
    requires AllAttributes(run) && kept == Dedup(run, first, silent)
    ensures forall x :: x in kept ==> x.Attribute?
    ensures |kept| <= |run|
    ensures forall a, b :: 0 <= a < b < |kept| ==> !SameName(kept[a].attributeName, kept[b].attributeName)
    ensures Subsequence(kept, run)
    ensures forall i :: 0 <= i < |run| && !Overwritten(run, first, silent, i) ==> run[i] in kept
    ensures forall k :: 0 <= k < |kept| ==>
              exists i :: 0 <= i < |run| && kept[k] == run[i] && !Overwritten(run, first, silent, i)
  {
    DedupKeeps(run, first, silent);
  }

  /** A frame of the run that no later write overwrites is kept, stated by its position in `frames`. */
  lemma SurvivorsByPosition(frames: seq<Frame>, t: nat, end: nat, silent: seq<SilentWrite>, run: seq<Frame>, kept: seq<Frame>)
    requires t + 1 <= end <= |frames| && run == frames[t + 1..end] && AllAttributes(run)
    requires forall i :: 0 <= i < |run| && !Overwritten(run, t + 1, silent, i) ==> run[i] in kept
    ensures forall i :: t + 1 <= i < end && !Overwritten(frames[t + 1..end], t + 1, silent, i - (t + 1))
              ==> frames[i] in kept
  {
    forall i | t + 1 <= i < end && !Overwritten(run, t + 1, silent, i - (t + 1))
      ensures frames[i] in kept
    {
      assert run[i - (t + 1)] == frames[i];
    }
  }

  /** `x` is a frame of the attribute run `frames[t + 1..end]` that no later write overwrites. */
  predicate UnoverwrittenFrame(frames: seq<Frame>, t: nat, end: nat, silent: seq<SilentWrite>, x: Frame)
    requires t + 1 <= end <= |frames| && AllAttributes(frames[t + 1..end])
  {
    exists i :: t + 1 <= i < end && x == frames[i] && !Overwritten(frames[t + 1..end], t + 1, silent, i - (t + 1))
  }

  /** Every kept frame is a frame of the run that no later write overwrites, stated by its position in `frames`. */
  lemma OriginsByPosition(frames: seq<Frame>, t: nat, end: nat, silent: seq<SilentWrite>, run: seq<Frame>, kept: seq<Frame>)
    requires t + 1 <= end <= |frames| && run == frames[t + 1..end] && AllAttributes(run)
    requires forall k :: 0 <= k < |kept| ==>
               exists i :: 0 <= i < |run| && kept[k] == run[i] && !Overwritten(run, t + 1, silent, i)
    ensures forall k :: 0 <= k < |kept| ==> UnoverwrittenFrame(frames, t, end, silent, kept[k])
  {
    forall k | 0 <= k < |kept|
      ensures UnoverwrittenFrame(frames, t, end, silent, kept[k])
    {
      var i :| 0 <= i < |run| && kept[k] == run[i] && !Overwritten(run, t + 1, silent, i);
      var j := t + 1 + i;
      assert run[i] == frames[j] && j - (t + 1) == i;
      assert !Overwritten(frames[t + 1..end], t + 1, silent, j - (t + 1));
    }
  }

  /** `Clear` empties the buffer, closes every container and forgets pending de-duplication. */
  lemma ClearEmpties(s: State)
    ensures Step(s, Clear) == Ok(State([], [], false, []))
  {
  }
}
