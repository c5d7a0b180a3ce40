/**
 * The render-tree builder as a mutable object: a frame buffer, a stack of open containers and
 * the bookkeeping for attribute de-duplication, updated in place by one method per builder call.
 * Every method is proved to do exactly what `Step` says the call does, and to keep the
 * structural invariant `WellFormed`.
 */
module RenderTreeBuilding {
  import opened Wrappers
  import opened RenderTreeFrames
  import opened AttributeDedup
  import opened RenderTreeSemantics
  import opened RenderTreeRuns
  import opened RenderTreeInvariants

  /**
   * A call ended as `Step` says: on success with the state `Step` computes, on failure with the
   * error `Step` reports.
   */
  predicate Completes(before: State, c: Call, r: Outcome<BuildError>, after: State) {
    match Step(before, c)
    case Ok(next) => r == Pass && after == next
    case Err(e) => r == Fail(e)
  }

  /** Writing a bulk attribute list completes the call and keeps the invariant. */
  lemma BulkCompletes(s: State, sequence: int, attributes: seq<(string, Value)>, after: State)
    requires WellFormed(s) && CanAddAttribute(s)
    requires after == WriteAll(s.(bulkPending := true), sequence, attributes)
    ensures Completes(s, AddMultipleAttributes(sequence, Some(attributes)), Pass, after) && WellFormed(after)
  {
    BulkStepIs(s, sequence, attributes);
    StepWellFormed(s, AddMultipleAttributes(sequence, Some(attributes)));
  }

  /** Closing the innermost container as `Close` says completes the matching close call. */
  lemma CloseCompletes(s: State, c: Call, kind: FrameKind, r: Outcome<BuildError>, after: State)
    requires WellFormed(s)
    requires (c == CloseElement && kind == ElementKind) || (c == CloseComponent && kind == ComponentKind)
          || (c == CloseRegion && kind == RegionKind)
    requires r.Pass? ==> Close(s, kind) == Ok(after)
    requires r.Fail? ==> Close(s, kind) == Err(r.error)
    ensures Completes(s, c, r, after) && (r.Pass? ==> WellFormed(after))
  {
    StepWellFormed(s, c);
  }

  /** Appending an element capture where one is allowed, and refusing it elsewhere, completes the call. */
  lemma ElementCaptureCompletes(s: State, sequence: int, action: ObjectId, r: Outcome<BuildError>, after: State)
    requires WellFormed(s)
    requires r.Pass? <==> CanAddCapture(s, ElementKind)
    requires r.Pass? ==> after == Append(s, ElementReferenceCapture(sequence, action))
    requires r.Fail? ==> r.error == ElementCaptureNotAllowed
    ensures Completes(s, AddElementReferenceCapture(sequence, action), r, after) && (r.Pass? ==> WellFormed(after))
  {
    StepWellFormed(s, AddElementReferenceCapture(sequence, action));
  }

  /** Appending a component capture where one is allowed, and refusing it elsewhere, completes the call. */
  lemma ComponentCaptureCompletes(s: State, sequence: int, action: ObjectId, r: Outcome<BuildError>, after: State)
    requires WellFormed(s)
    requires r.Pass? <==> CanAddCapture(s, ComponentKind)
    requires r.Pass? ==> after == Append(s, ComponentReferenceCapture(sequence, action, OpenContainer(s).value))
    requires r.Fail? ==> r.error == ComponentCaptureNotAllowed
    ensures Completes(s, AddComponentReferenceCapture(sequence, action), r, after) && (r.Pass? ==> WellFormed(after))
  {
    StepWellFormed(s, AddComponentReferenceCapture(sequence, action));
  }

  /** Setting a key as `SetKeyOn` says completes the call. */
  lemma KeyCompletes(s: State, keyValue: Option<ObjectId>, r: Outcome<BuildError>, after: State)
    requires WellFormed(s)
    requires SetKeyOn(s, keyValue) == (if r.Pass? then Ok(after) else Err(r.error))
    ensures Completes(s, SetKey(keyValue), r, after) && (r.Pass? ==> WellFormed(after))
  {
    StepWellFormed(s, SetKey(keyValue));
  }

  /** Running one more call of a sequence extends the run of the calls before it. */
  lemma RunPrefixStep(s: State, calls: seq<Call>, i: nat)
    requires i < |calls|
    ensures Run(s, calls[..i]).Err? ==> Run(s, calls[..i + 1]) == Run(s, calls[..i])
    ensures Run(s, calls[..i]).Ok? ==> Run(s, calls[..i + 1]) == Step(Run(s, calls[..i]).value, calls[i])
  {
    assert calls[..i + 1] == calls[..i] + [calls[i]];
    RunConcat(s, calls[..i], [calls[i]]);
    if Run(s, calls[..i]).Ok? {
      RunSingle(Run(s, calls[..i]).value, calls[i]);
    }
  }

  /** Once a prefix of a sequence fails, the whole sequence fails with the same error. */
  lemma RunFailsEarly(s: State, calls: seq<Call>, i: nat)
    requires i <= |calls| && Run(s, calls[..i]).Err?
    ensures Run(s, calls) == Run(s, calls[..i])
  {
    assert calls == calls[..i] + calls[i..];
    RunConcat(s, calls[..i], calls[i..]);
  }

  /** A fragment whose calls fail fails with the same error. */
  lemma FragmentFails(s: State, sequence: int, calls: seq<Call>, e: BuildError, after: State)
    requires Run(Open(s, Region(sequence, 0)), calls) == Err(e)
    ensures Completes(s, AddContent(sequence, FragmentContent(calls)), Fail(e), after)
  {
    FragmentStepIs(s, sequence, calls);
  }

  /** A fragment whose calls succeed ends with the close of its Region. */
  lemma FragmentCloses(s: State, sequence: int, calls: seq<Call>, inner: State, r: Outcome<BuildError>, after: State)
    requires Run(Open(s, Region(sequence, 0)), calls) == Ok(inner)
    requires r.Pass? ==> Close(inner, RegionKind) == Ok(after)
    requires r.Fail? ==> Close(inner, RegionKind) == Err(r.error)
    ensures Completes(s, AddContent(sequence, FragmentContent(calls)), r, after)
  {
    FragmentStepIs(s, sequence, calls);
  }

  class RenderTreeBuilder {
    /** The renderer the builder was created for; the model only needs it to be non-null. */
    const renderer: ObjectId
    /** The frame buffer. */
    var frames: seq<Frame>
    /** Buffer indices of the open containers, innermost last. */
    var openStack: seq<nat>
    /** Whether a bulk attribute call awaits de-duplication. */
    var bulkPending: bool
    /** Suppressed attribute writes since the innermost container was opened. */
    var silentWrites: seq<SilentWrite>

    function Current(): State
      reads this
    {
      State(frames, openStack, bulkPending, silentWrites)
    }

    ghost predicate Valid()
      reads this
    {
      WellFormed(Current())
    }

    constructor(renderer: ObjectId)
      ensures Valid() && Current() == Empty() && this.renderer == renderer
    {
      this.renderer := renderer;
      frames := [];
      openStack := [];
      bulkPending := false;
      silentWrites := [];
      EmptyWellFormed();
    }

    /** A builder needs a renderer: a null one is rejected. */
    static method Create(renderer: Option<ObjectId>) returns (b: Option<RenderTreeBuilder>)
      ensures b.None? <==> renderer.None?
      ensures b.Some? ==> fresh(b.value) && b.value.Valid() && b.value.Current() == Empty()
                          && b.value.renderer == renderer.value
    {
      if renderer.None? {
        return None;
      }
      var built := new RenderTreeBuilder(renderer.value);
      return Some(built);
    }

    /** The frames built so far. */
    method GetFrames() returns (result: seq<Frame>)
      ensures result == Current().frames
    {
      result := frames;
    }

    /** Whether an attribute may go next: found by scanning back over the trailing attribute frames. */
    method AttributesAllowed() returns (ok: bool)
      ensures ok == CanAddAttribute(Current())
    {
      if |openStack| == 0 || openStack[|openStack| - 1] >= |frames| {
        return false;
      }
      var t := openStack[|openStack| - 1];
      if !frames[t].IsAttributeOwner() {
        return false;
      }
      var j := |frames|;
      while j > t + 1 && frames[j - 1].Attribute?
        invariant t + 1 <= j <= |frames|
        invariant forall k :: j <= k < |frames| ==> frames[k].Attribute?
        decreases j
      {
        j := j - 1;
      }
      ok := j == t + 1;
    }

    /** Whether a reference capture for a container of `kind` may go next. */
    method CapturesAllowed(kind: FrameKind) returns (ok: bool)
      ensures ok == CanAddCapture(Current(), kind)
    {
      if |openStack| == 0 || openStack[|openStack| - 1] >= |frames| {
        return false;
      }
      var t := openStack[|openStack| - 1];
      if frames[t].Kind() != kind {
        return false;
      }
      var j := |frames|;
      while j > t + 1 && AttributeLike(frames[j - 1])
        invariant t + 1 <= j <= |frames|
        invariant forall k :: j <= k < |frames| ==> AttributeLike(frames[k])
        decreases j
      {
        j := j - 1;
      }
      ok := j == t + 1;
    }

    /**
     * The de-duplication pass: after a bulk call, the attribute run after the open container's
     * frame is compacted and the compacted run is spliced back into the buffer in its place;
     * the bookkeeping is reset either way.
     */
    method ProcessDuplicateAttributes()
      modifies this
      ensures Current() == Settle(old(Current()))
    {
      if bulkPending && |openStack| > 0 && openStack[|openStack| - 1] < |frames| {
        var t := openStack[|openStack| - 1];
        var end := t + 1;
        while end < |frames| && frames[end].Attribute?
          invariant t + 1 <= end <= |frames|
          invariant forall j :: t + 1 <= j < end ==> frames[j].Attribute?
          invariant RunEnd(frames, end) == RunEnd(frames, t + 1)
          decreases |frames| - end
        {
          end := end + 1;
        }
        var kept := Compact(frames[t + 1..end], t + 1, silentWrites);
        frames := frames[..t + 1] + kept + frames[end..];
      }
      bulkPending := false;
      silentWrites := [];
    }

    method OpenFrame(f: Frame)
      requires f.IsOpen()
      modifies this
      ensures Current() == Open(old(Current()), f)
    {
      ProcessDuplicateAttributes();
      frames := frames + [f];
      openStack := openStack + [|frames| - 1];
    }

    method CloseFrame(kind: FrameKind) returns (r: Outcome<BuildError>)
      requires kind == ElementKind || kind == ComponentKind || kind == RegionKind
      modifies this
      ensures r.Pass? ==> Close(old(Current()), kind) == Ok(Current())
      ensures r.Fail? ==> Close(old(Current()), kind) == Err(r.error) && Current() == old(Current())
    {
      if |openStack| == 0 || openStack[|openStack| - 1] >= |frames| {
        return Fail(NoOpenContainer);
      }
      var t := openStack[|openStack| - 1];
      if frames[t].Kind() != kind {
        return Fail(CloseMismatch(frames[t].Kind(), kind));
      }
      ghost var before := Current();
      ProcessDuplicateAttributes();
      assert frames[t] == frames[..t + 1][t] == before.frames[t];
      frames := frames[t := frames[t].(subtreeLength := |frames| - t)];
      openStack := openStack[..|openStack| - 1];
      return Pass;
    }

    /** One attribute write where attributes are allowed. */
    method WriteAttributeFrame(sequence: int, name: string, value: Value)
      requires CanAddAttribute(Current())
      modifies this
      ensures Current() == WriteAttribute(old(Current()), sequence, name, value)
    {
      var t := openStack[|openStack| - 1];
      var stored := if frames[t].Component? then Some(value) else ElementValue(value);
      if stored.Some? {
        frames := frames + [Attribute(sequence, name, stored.value)];
      } else {
        silentWrites := silentWrites + [SilentWrite(name, |frames|)];
      }
    }

    // ----- Structure -----

    method OpenElement(sequence: int, elementName: string)
      requires Valid()
      modifies this
      ensures Valid() && Current() == Open(old(Current()), Element(sequence, elementName, 0, None))
      ensures Completes(old(Current()), Call.OpenElement(sequence, elementName), Pass, Current())
    {
      ghost var before := Current();
      OpenFrame(Element(sequence, elementName, 0, None));
      StepWellFormed(before, Call.OpenElement(sequence, elementName));
    }

    method OpenComponent(sequence: int, componentType: ObjectId)
      requires Valid()
      modifies this
      ensures Valid() && Current() == Open(old(Current()), Component(sequence, componentType, 0, None))
      ensures Completes(old(Current()), Call.OpenComponent(sequence, componentType), Pass, Current())
    {
      ghost var before := Current();
      OpenFrame(Component(sequence, componentType, 0, None));
      StepWellFormed(before, Call.OpenComponent(sequence, componentType));
    }

    method OpenRegion(sequence: int)
      requires Valid()
      modifies this
      ensures Valid() && Current() == Open(old(Current()), Region(sequence, 0))
      ensures Completes(old(Current()), Call.OpenRegion(sequence), Pass, Current())
    {
      ghost var before := Current();
      OpenFrame(Region(sequence, 0));
      StepWellFormed(before, Call.OpenRegion(sequence));
    }

    method CloseElement() returns (r: Outcome<BuildError>)
      requires Valid()
      modifies this
      ensures Valid() && Completes(old(Current()), Call.CloseElement, r, Current())
      ensures r.Fail? ==> Current() == old(Current())
    {
      ghost var before := Current();
      r := CloseFrame(ElementKind);
      CloseCompletes(before, Call.CloseElement, ElementKind, r, Current());
    }

    method CloseComponent() returns (r: Outcome<BuildError>)
      requires Valid()
      modifies this
      ensures Valid() && Completes(old(Current()), Call.CloseComponent, r, Current())
      ensures r.Fail? ==> Current() == old(Current())
    {
      ghost var before := Current();
      r := CloseFrame(ComponentKind);
      CloseCompletes(before, Call.CloseComponent, ComponentKind, r, Current());
    }

    method CloseRegion() returns (r: Outcome<BuildError>)
      requires Valid()
      modifies this
      ensures Valid() && Completes(old(Current()), Call.CloseRegion, r, Current())
      ensures r.Fail? ==> Current() == old(Current())
    {
      ghost var before := Current();
      r := CloseFrame(RegionKind);
      CloseCompletes(before, Call.CloseRegion, RegionKind, r, Current());
    }

    /** Empties the buffer and forgets every open container. */
    method Clear()
      requires Valid()
      modifies this
      ensures Valid() && Current() == Empty()
      ensures Completes(old(Current()), Call.Clear, Pass, Current())
    {
      frames := [];
      openStack := [];
      bulkPending := false;
      silentWrites := [];
      EmptyWellFormed();
    }

    // ----- Content -----

    method AddContent(sequence: int, textContent: Option<string>)
      requires Valid()
      modifies this
      ensures Valid() && Current() == Append(old(Current()), Text(sequence, Normalize(textContent)))
      ensures Completes(old(Current()), Call.AddContent(sequence, TextContent(textContent)), Pass, Current())
    {
      ghost var before := Current();
      frames := frames + [Text(sequence, Normalize(textContent))];
      StepWellFormed(before, Call.AddContent(sequence, TextContent(textContent)));
    }

    /** Content given as an arbitrary object is shown through its text form; null shows as empty text. */
    method AddObjectContent(sequence: int, obj: Option<BoxedObject>)
      requires Valid()
      modifies this
      ensures Valid()
      ensures Current() == Append(old(Current()), Text(sequence, if obj.Some? then obj.value.display else ""))
      ensures Completes(old(Current()), Call.AddContent(sequence, ObjectContent(obj)), Pass, Current())
    {
      ghost var before := Current();
      frames := frames + [Text(sequence, if obj.Some? then obj.value.display else "")];
      StepWellFormed(before, Call.AddContent(sequence, ObjectContent(obj)));
    }

    /** Content given as a `MarkupString` becomes a markup frame. */
    method AddMarkupStringContent(sequence: int, markup: Option<string>)
      requires Valid()
      modifies this
      ensures Valid() && Current() == Append(old(Current()), Markup(sequence, Normalize(markup)))
      ensures Completes(old(Current()), Call.AddContent(sequence, MarkupStringContent(markup)), Pass, Current())
    {
      ghost var before := Current();
      frames := frames + [Markup(sequence, Normalize(markup))];
      StepWellFormed(before, Call.AddContent(sequence, MarkupStringContent(markup)));
    }

    method AddMarkupContent(sequence: int, markupContent: Option<string>)
      requires Valid()
      modifies this
      ensures Valid() && Current() == Append(old(Current()), Markup(sequence, Normalize(markupContent)))
      ensures Completes(old(Current()), Call.AddMarkupContent(sequence, markupContent), Pass, Current())
    {
      ghost var before := Current();
      frames := frames + [Markup(sequence, Normalize(markupContent))];
      StepWellFormed(before, Call.AddMarkupContent(sequence, markupContent));
    }

    /**
     * Content given as a fragment: a null fragment adds nothing; otherwise the fragment's calls
     * run inside a region of their own.
     */
    method AddFragment(sequence: int, fragment: Option<seq<Call>>) returns (r: Outcome<BuildError>)
      requires Valid()
      modifies this
      ensures Valid()
      ensures Completes(old(Current()),
                        Call.AddContent(sequence, if fragment.Some? then FragmentContent(fragment.value) else NullFragment),
                        r, Current())
    {
      if fragment.None? {
        return Pass;
      }
      r := RunFragment(sequence, fragment.value);
    }

    method RunFragment(sequence: int, calls: seq<Call>) returns (r: Outcome<BuildError>)
      requires Valid()
      modifies this
      ensures Valid() && Completes(old(Current()), Call.AddContent(sequence, FragmentContent(calls)), r, Current())
      decreases calls, 1
    {
      ghost var before := Current();
      OpenFrame(Region(sequence, 0));
      OpenWellFormed(before, Region(sequence, 0));
      r := RunCalls(calls);
      if r.Fail? {
        FragmentFails(before, sequence, calls, r.error, Current());
        return;
      }
      ghost var inner := Current();
      r := CloseFrame(RegionKind);
      if r.Pass? {
        CloseWellFormed(inner, RegionKind);
      }
      FragmentCloses(before, sequence, calls, inner, r, Current());
    }

    /** Applies the calls one by one, stopping at the first that fails. */
    method RunCalls(calls: seq<Call>) returns (r: Outcome<BuildError>)
      requires Valid()
      modifies this
      ensures Valid()
      ensures r.Pass? ==> Run(old(Current()), calls) == Ok(Current())
      ensures r.Fail? ==> Run(old(Current()), calls) == Err(r.error)
      decreases calls, 0
    {
      ghost var entered := Current();
      var i := 0;
      while i < |calls|
        invariant 0 <= i <= |calls|
        invariant Valid()
        invariant Run(entered, calls[..i]) == Ok(Current())
        decreases |calls| - i
      {
        var outcome := Apply(calls[i]);
        RunPrefixStep(entered, calls, i);
        if outcome.Fail? {
          RunFailsEarly(entered, calls, i + 1);
          return outcome;
        }
        i := i + 1;
      }
      assert calls[..|calls|] == calls;
      return Pass;
    }

    // ----- Attributes -----

    /**
     * Adds one attribute to the open Element or Component. A Component binds every value; an
     * Element drops false, null and an empty callback, and stores the rest in their stored form.
     */
    method AddAttribute(sequence: int, name: string, value: Value) returns (r: Outcome<BuildError>)
      requires Valid()
      modifies this
      ensures Valid() && Completes(old(Current()), Call.AddAttribute(sequence, name, value), r, Current())
      ensures r.Pass? <==> CanAddAttribute(old(Current()))
      ensures r.Pass? ==> Current() == WriteAttribute(old(Current()), sequence, name, value)
      ensures r.Fail? ==> Current() == old(Current())
    {
      ghost var before := Current();
      var allowed := AttributesAllowed();
      if !allowed {
        return Fail(AttributeNotAllowed);
      }
      WriteAttributeFrame(sequence, name, value);
      StepWellFormed(before, Call.AddAttribute(sequence, name, value));
      return Pass;
    }

    /**
     * Adds a set of attributes in enumeration order; a null set adds nothing. The attribute run
     * is then de-duplicated when the container's scope next changes.
     */
    method AddMultipleAttributes(sequence: int, attributes: Option<seq<(string, Value)>>) returns (r: Outcome<BuildError>)
      requires Valid()
      modifies this
      ensures Valid() && Completes(old(Current()), Call.AddMultipleAttributes(sequence, attributes), r, Current())
      ensures r.Pass? <==> CanAddAttribute(old(Current()))
      ensures r.Pass? && attributes.Some? ==>
                Current() == WriteAll(old(Current()).(bulkPending := true), sequence, attributes.value)
      ensures r.Pass? && attributes.None? ==> Current() == old(Current())
      ensures r.Fail? ==> Current() == old(Current())
    {
      ghost var before := Current();
      var allowed := AttributesAllowed();
      if !allowed {
        return Fail(AttributeNotAllowed);
      }
      if attributes.None? {
        return Pass;
      }
      var all := attributes.value;
      bulkPending := true;
      WriteAttributeFrames(sequence, all);
      BulkCompletes(before, sequence, all, Current());
      return Pass;
    }

    /** Writes the given attributes one after another on the innermost open container. */
    method WriteAttributeFrames(sequence: int, all: seq<(string, Value)>)
      requires CanAddAttribute(Current())
      modifies this
      ensures Current() == WriteAll(old(Current()), sequence, all)
    {
      ghost var start := Current();
      var i := 0;
      while i < |all|
        invariant 0 <= i <= |all|
        invariant Current() == WriteAll(start, sequence, all[..i])
        decreases |all| - i
      {
        assert all[..i + 1][..i] == all[..i];
        WriteAttributeFrame(sequence, all[i].0, all[i].1);
        i := i + 1;
      }
      assert all[..|all|] == all;
    }

    method AddElementReferenceCapture(sequence: int, elementCaptureAction: ObjectId) returns (r: Outcome<BuildError>)
      requires Valid()
      modifies this
      ensures Valid() && Completes(old(Current()), Call.AddElementReferenceCapture(sequence, elementCaptureAction), r, Current())
      ensures r.Pass? <==> CanAddCapture(old(Current()), ElementKind)
      ensures r.Pass? ==> Current() == Append(old(Current()), ElementReferenceCapture(sequence, elementCaptureAction))
      ensures r.Fail? ==> Current() == old(Current())
    {
      ghost var before := Current();
      var allowed := CapturesAllowed(ElementKind);
      if !allowed {
        r := Fail(ElementCaptureNotAllowed);
        ElementCaptureCompletes(before, sequence, elementCaptureAction, r, Current());
        return;
      }
      frames := frames + [ElementReferenceCapture(sequence, elementCaptureAction)];
      r := Pass;
      ElementCaptureCompletes(before, sequence, elementCaptureAction, r, Current());
    }

    /** A component capture records the buffer index of the Component it belongs to. */
    method AddComponentReferenceCapture(sequence: int, componentCaptureAction: ObjectId) returns (r: Outcome<BuildError>)
      requires Valid()
      modifies this
      ensures Valid() && Completes(old(Current()), Call.AddComponentReferenceCapture(sequence, componentCaptureAction), r, Current())
      ensures r.Pass? <==> CanAddCapture(old(Current()), ComponentKind)
      ensures r.Pass? ==> Current() == Append(old(Current()),
                ComponentReferenceCapture(sequence, componentCaptureAction, OpenContainer(old(Current())).value))
      ensures r.Fail? ==> Current() == old(Current())
    {
      ghost var before := Current();
      var allowed := CapturesAllowed(ComponentKind);
      if !allowed {
        r := Fail(ComponentCaptureNotAllowed);
        ComponentCaptureCompletes(before, sequence, componentCaptureAction, r, Current());
        return;
      }
      var parent := openStack[|openStack| - 1];
      frames := frames + [ComponentReferenceCapture(sequence, componentCaptureAction, parent)];
      r := Pass;
      ComponentCaptureCompletes(before, sequence, componentCaptureAction, r, Current());
    }

    /** Sets the key of the open Element or Component; a null key is ignored. */
    method SetKey(keyValue: Option<ObjectId>) returns (r: Outcome<BuildError>)
      requires Valid()
      modifies this
      ensures Valid() && Completes(old(Current()), Call.SetKey(keyValue), r, Current())
      ensures SetKeyOn(old(Current()), keyValue) == (if r.Pass? then Ok(Current()) else Err(r.error))
      ensures r.Fail? ==> Current() == old(Current())
    {
      ghost var before := Current();
      if keyValue.None? {
        return Pass;
      }
      if |openStack| == 0 || openStack[|openStack| - 1] >= |frames| {
        return Fail(KeyOutsideContainer);
      }
      var t := openStack[|openStack| - 1];
      if !frames[t].IsAttributeOwner() {
        return Fail(KeyNotAllowed(frames[t].Kind()));
      }
      frames := frames[t := frames[t].(key := keyValue)];
      r := Pass;
      KeyCompletes(before, keyValue, r, Current());
    }

    /** Performs any call, as a fragment's delegate would. */
    method Apply(c: Call) returns (r: Outcome<BuildError>)
      requires Valid()
      modifies this
      ensures Valid() && Completes(old(Current()), c, r, Current())
      decreases c, 1
    {
      match c {
        case OpenElement(sequence, name) =>
          OpenElement(sequence, name);
          r := Pass;
        case OpenComponent(sequence, componentType) =>
          OpenComponent(sequence, componentType);
          r := Pass;
        case OpenRegion(sequence) =>
          OpenRegion(sequence);
          r := Pass;
        case CloseElement =>
          r := CloseElement();
        case CloseComponent =>
          r := CloseComponent();
        case CloseRegion =>
          r := CloseRegion();
        case AddContent(sequence, content) =>
          match content {
            case TextContent(text) =>
              AddContent(sequence, text);
              r := Pass;
            case ObjectContent(obj) =>
              AddObjectContent(sequence, obj);
              r := Pass;
            case MarkupStringContent(markup) =>
              AddMarkupStringContent(sequence, markup);
              r := Pass;
            case NullFragment =>
              r := Pass;
            case FragmentContent(calls) =>
              r := RunFragment(sequence, calls);
          }
        case AddMarkupContent(sequence, markup) =>
          AddMarkupContent(sequence, markup);
          r := Pass;
        case AddAttribute(sequence, name, value) =>
          r := AddAttribute(sequence, name, value);
        case AddMultipleAttributes(sequence, attributes) =>
          r := AddMultipleAttributes(sequence, attributes);
        case AddElementReferenceCapture(sequence, action) =>
          r := AddElementReferenceCapture(sequence, action);
        case AddComponentReferenceCapture(sequence, action) =>
          r := AddComponentReferenceCapture(sequence, action);
        case SetKey(key) =>
          r := SetKey(key);
        case Clear =>
          Clear();
          r := Pass;
      }
    }
  }
}
