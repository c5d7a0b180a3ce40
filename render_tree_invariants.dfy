/**
 * The structural invariant of the builder's state, and its preservation by every call:
 * the stack lists exactly the open containers, closed containers span nested, closed frames,
 * attribute-like frames sit directly after their owner or each other, and a pending bulk
 * de-duplication has an attribute owner to work on.
 */
module RenderTreeInvariants {
  import opened Wrappers
  import opened RenderTreeFrames
  import opened AttributeDedup
  import opened RenderTreeSemantics

  /** The stack holds, innermost last, exactly the buffer indices of the open containers. */
  ghost predicate StackMatchesOpenFrames(s: State) {
    && (forall k :: 0 <= k < |s.stack| ==> s.stack[k] < |s.frames| && s.frames[s.stack[k]].IsOpen())
    && (forall k, m :: 0 <= k < m < |s.stack| ==> s.stack[k] < s.stack[m])
    && (forall p :: 0 <= p < |s.frames| && s.frames[p].IsOpen() ==> p in s.stack)
  }

  /**
   * A closed container's subtree lies inside the buffer, holds no open container, and every
   * closed container inside it ends no later than it does.
   */
  ghost predicate ClosedContainersNest(frames: seq<Frame>) {
    forall i :: 0 <= i < |frames| && frames[i].IsClosed() ==>
      && i + frames[i].subtreeLength <= |frames|
      && forall j :: i < j < i + frames[i].subtreeLength ==>
           && !frames[j].IsOpen()
           && (frames[j].IsClosed() ==> j + frames[j].subtreeLength <= i + frames[i].subtreeLength)
  }

  /** Where an attribute-like frame may follow the frame before it. */
  predicate MayFollow(prev: Frame, f: Frame) {
    prev.IsAttributeOwner() || (if f.Attribute? then prev.Attribute? else AttributeLike(prev))
  }

  /**
   * Attributes directly follow their owner's frame or another attribute; captures directly
   * follow their owner, an attribute or another capture; a component capture names an earlier
   * Component frame as its parent.
   */
  ghost predicate AttributesPlaced(frames: seq<Frame>) {
    && (forall i :: 0 <= i < |frames| && AttributeLike(frames[i]) ==> i > 0 && MayFollow(frames[i - 1], frames[i]))
    && (forall i :: 0 <= i < |frames| && frames[i].ComponentReferenceCapture? ==>
          frames[i].parentFrameIndex < i && frames[frames[i].parentFrameIndex].Component?)
  }

  /** A pending de-duplication belongs to an open Element or Component with no container after it. */
  ghost predicate BulkScope(s: State) {
    s.bulkPending ==>
      && OpenContainer(s).Some?
      && s.frames[OpenContainer(s).value].IsAttributeOwner()
      && forall j :: OpenContainer(s).value < j < |s.frames| ==> !s.frames[j].IsContainer()
  }

  ghost predicate WellFormed(s: State) {
    && StackMatchesOpenFrames(s)
    && ClosedContainersNest(s.frames)
    && AttributesPlaced(s.frames)
    && BulkScope(s)
  }

  lemma EmptyWellFormed()
    ensures WellFormed(Empty())
  {
  }

  /** In a well-formed state the top of the stack is the last open container in the buffer. */
  lemma TopIsLastOpen(s: State)
    requires StackMatchesOpenFrames(s) && |s.stack| > 0
    ensures OpenContainer(s) == Some(s.stack[|s.stack| - 1])
    ensures forall p :: s.stack[|s.stack| - 1] < p < |s.frames| ==> !s.frames[p].IsOpen()
  {
    var n := |s.stack|;
    forall p | s.stack[n - 1] < p < |s.frames|
      ensures !s.frames[p].IsOpen()
    {
    }
  }

  /** Appending a non-container frame, placed as the frame rules require, keeps the invariant. */
  lemma AppendWellFormed(s: State, f: Frame)
    requires WellFormed(s) && !f.IsContainer()
    requires AttributeLike(f) ==> |s.frames| > 0 && MayFollow(s.frames[|s.frames| - 1], f)
    requires f.ComponentReferenceCapture? ==>
               f.parentFrameIndex < |s.frames| && s.frames[f.parentFrameIndex].Component?
    ensures WellFormed(Append(s, f))
  {
    var r := Append(s, f);
    assert OpenContainer(r) == OpenContainer(s);
    AppendKeepsNesting(s.frames, f);
    AppendKeepsPlacement(s.frames, f);
  }

  lemma AppendKeepsNesting(frames: seq<Frame>, f: Frame)
    requires ClosedContainersNest(frames) && !f.IsClosed()
    ensures ClosedContainersNest(frames + [f])
  {
    var r := frames + [f];
    forall i | 0 <= i < |r| && r[i].IsClosed()
      ensures i + r[i].subtreeLength <= |r|
      ensures forall j :: i < j < i + r[i].subtreeLength ==>
                && !r[j].IsOpen()
                && (r[j].IsClosed() ==> j + r[j].subtreeLength <= i + r[i].subtreeLength)
    {
      assert r[i] == frames[i];
      forall j | i < j < i + r[i].subtreeLength
        ensures r[j] == frames[j]
      {
      }
    }
  }

  lemma AppendKeepsPlacement(frames: seq<Frame>, f: Frame)
    requires AttributesPlaced(frames)
    requires AttributeLike(f) ==> |frames| > 0 && MayFollow(frames[|frames| - 1], f)
    requires f.ComponentReferenceCapture? ==>
               f.parentFrameIndex < |frames| && frames[f.parentFrameIndex].Component?
    ensures AttributesPlaced(frames + [f])
  {
    var r := frames + [f];
    forall i | 0 <= i < |r| && AttributeLike(r[i])
      ensures i > 0 && MayFollow(r[i - 1], r[i])
    {
      if i < |frames| {
        assert r[i] == frames[i] && r[i - 1] == frames[i - 1];
      }
    }
    forall i | 0 <= i < |r| && r[i].ComponentReferenceCapture?
      ensures r[i].parentFrameIndex < i && r[r[i].parentFrameIndex].Component?
    {
      if i < |frames| {
        assert r[i] == frames[i];
      }
    }
  }

  /** A pending de-duplication replaces the attribute run after the container by its survivors. */
  lemma SettledFrames(s: State) returns (d: seq<Frame>)
    requires s.bulkPending && OpenContainer(s).Some?
    ensures var t := OpenContainer(s).value; var end := RunEnd(s.frames, t + 1);
      && AllAttributes(d) && |d| <= end - (t + 1)
      && Settle(s).frames == s.frames[..t + 1] + d + s.frames[end..]
  {
    var t := OpenContainer(s).value;
    var end := RunEnd(s.frames, t + 1);
    var run := s.frames[t + 1..end];
    DedupShrinks(run, t + 1, s.silent);
    d := Dedup(run, t + 1, s.silent);
  }

  /** Indexing into a buffer whose frames strictly between `t` and `end` were replaced by `d`. */
  lemma Splice(frames: seq<Frame>, t: nat, d: seq<Frame>, end: nat, r: seq<Frame>)
    requires t + 1 <= end <= |frames| && r == frames[..t + 1] + d + frames[end..]
    ensures |r| == t + 1 + |d| + (|frames| - end)
    ensures forall p :: 0 <= p <= t ==> r[p] == frames[p]
    ensures forall p :: t < p < t + 1 + |d| ==> r[p] == d[p - (t + 1)]
    ensures forall p :: t + 1 + |d| <= p < |r| ==> r[p] == frames[p - (t + 1 + |d|) + end]
  {}

  /** Removing and shifting frames after the innermost open container keeps the containers nested. */
  lemma TailEditKeepsNesting(frames: seq<Frame>, edited: seq<Frame>, t: nat)
    requires ClosedContainersNest(frames) && t < |frames| && frames[t].IsOpen()
    requires t < |edited| && forall p :: 0 <= p <= t ==> edited[p] == frames[p]
    requires forall p :: t < p < |edited| ==> !edited[p].IsContainer()
    ensures ClosedContainersNest(edited)
  {
    forall i | 0 <= i < |edited| && edited[i].IsClosed()
      ensures i + edited[i].subtreeLength <= |edited|
      ensures forall j :: i < j < i + edited[i].subtreeLength ==>
                && !edited[j].IsOpen()
                && (edited[j].IsClosed() ==> j + edited[j].subtreeLength <= i + edited[i].subtreeLength)
    {
      assert i < t && edited[i] == frames[i];
      assert i + frames[i].subtreeLength <= t;
      forall j | i < j < i + edited[i].subtreeLength
        ensures edited[j] == frames[j]
      {
      }
    }
  }

  /** The same edit keeps the stack in step with the open frames. */
  lemma TailEditKeepsStack(s: State, edited: seq<Frame>)
    requires StackMatchesOpenFrames(s) && |s.stack| > 0
    requires var t := s.stack[|s.stack| - 1];
      && t < |edited| && (forall p :: 0 <= p <= t ==> edited[p] == s.frames[p])
      && (forall p :: t < p < |edited| ==> !edited[p].IsContainer())
    ensures StackMatchesOpenFrames(s.(frames := edited))
  {
    var t := s.stack[|s.stack| - 1];
    var r := s.(frames := edited);
    forall k | 0 <= k < |s.stack|
      ensures s.stack[k] <= t
    {
      if k < |s.stack| - 1 {
        assert s.stack[k] < s.stack[|s.stack| - 1];
      }
    }
  }

  /** The compacted attribute run keeps every attribute-like frame behind a frame it may follow. */
  lemma CompactionKeepsPlacement(frames: seq<Frame>, r: seq<Frame>, t: nat, end: nat, kept: nat)
    requires AttributesPlaced(frames) && t < |frames| && frames[t].IsAttributeOwner()
    requires forall j :: t < j < |frames| ==> !frames[j].IsContainer()
    requires t + 1 <= end <= |frames| && |r| == t + 1 + kept + (|frames| - end)
    requires end < |frames| ==> !frames[end].Attribute?
    requires forall p :: 0 <= p <= t ==> r[p] == frames[p]
    requires forall p :: t < p < t + 1 + kept ==> r[p].Attribute?
    requires forall p :: t + 1 + kept <= p < |r| ==> r[p] == frames[p - (t + 1 + kept) + end]
    ensures AttributesPlaced(r)
  {
    var shift := t + 1 + kept;
    forall i | 0 <= i < |r| && AttributeLike(r[i])
      ensures i > 0 && MayFollow(r[i - 1], r[i])
    {
      if i <= t {
        assert r[i] == frames[i];
      } else if i < shift {
        if i > t + 1 {
          assert r[i - 1].Attribute?;
        }
      } else {
        var q := i - shift + end;
        assert r[i] == frames[q];
        if q > end {
          assert r[i - 1] == frames[q - 1];
        } else if kept > 0 {
          assert r[i - 1].Attribute?;
        } else {
          assert r[i - 1] == frames[t];
        }
      }
    }
    forall i | 0 <= i < |r| && r[i].ComponentReferenceCapture?
      ensures r[i].parentFrameIndex < i && r[r[i].parentFrameIndex].Component?
    {
      if i <= t {
        assert r[i] == frames[i];
      } else {
        var q := i - shift + end;
        assert r[i] == frames[q];
        var parent := frames[q].parentFrameIndex;
        assert frames[parent].IsContainer();
        assert r[parent] == frames[parent];
      }
    }
  }

  lemma SettleWellFormed(s: State)
    requires WellFormed(s)
    ensures WellFormed(Settle(s))
  {
    if s.bulkPending {
      var d := SettledFrames(s);
      var t := OpenContainer(s).value;
      CompactedWellFormed(s, t, RunEnd(s.frames, t + 1), d, Settle(s));
    } else {
      assert Settle(s).frames == s.frames;
    }
  }

  /** Replacing the attribute run after the open container by attribute frames keeps the invariant. */
  lemma CompactedWellFormed(s: State, t: nat, end: nat, d: seq<Frame>, r: State)
    requires WellFormed(s) && s.bulkPending && OpenContainer(s) == Some(t)
    requires t + 1 <= end <= |s.frames| && (end < |s.frames| ==> !s.frames[end].Attribute?)
    requires AllAttributes(d)
    requires r == State(s.frames[..t + 1] + d + s.frames[end..], s.stack, false, [])
    ensures WellFormed(r)
  {
    Splice(s.frames, t, d, end, r.frames);
    TopIsLastOpen(s);
    TailEditKeepsNesting(s.frames, r.frames, t);
    TailEditKeepsStack(s, r.frames);
    CompactionKeepsPlacement(s.frames, r.frames, t, end, |d|);
  }

  lemma OpenWellFormed(s: State, f: Frame)
    requires WellFormed(s) && f.IsOpen()
    ensures WellFormed(Open(s, f))
  {
    var u := Settle(s);
    SettleWellFormed(s);
    assert Open(s, f).frames == u.frames + [f];
    PushKeepsStack(u, f);
    AppendKeepsNesting(u.frames, f);
    AppendKeepsPlacement(u.frames, f);
  }

  /** Appending an open container and pushing its index keeps the stack matched to the buffer. */
  lemma PushKeepsStack(u: State, f: Frame)
    requires StackMatchesOpenFrames(u) && f.IsOpen()
    ensures StackMatchesOpenFrames(State(u.frames + [f], u.stack + [|u.frames|], false, []))
  {
    var r := State(u.frames + [f], u.stack + [|u.frames|], false, []);
    forall k | 0 <= k < |r.stack|
      ensures r.stack[k] < |r.frames| && r.frames[r.stack[k]].IsOpen()
    {
      if k < |u.stack| {
        assert r.stack[k] == u.stack[k] && r.frames[u.stack[k]] == u.frames[u.stack[k]];
      }
    }
    forall p | 0 <= p < |r.frames| && r.frames[p].IsOpen()
      ensures p in r.stack
    {
      if p < |u.frames| {
        assert u.frames[p] == r.frames[p];
        assert p in u.stack;
      }
    }
  }

  lemma CloseWellFormed(s: State, kind: FrameKind)
    requires WellFormed(s) && (kind == ElementKind || kind == ComponentKind || kind == RegionKind)
    requires Close(s, kind).Ok?
    ensures WellFormed(Close(s, kind).value)
  {
    var u := Settle(s);
    SettleWellFormed(s);
    var t := OpenContainer(s).value;
    TopIsLastOpen(u);
    var r := Close(s, kind).value;
    var patched := u.frames[t].(subtreeLength := |u.frames| - t);
    assert r.frames == u.frames[t := patched];
    PatchKeepsStack(u, r);
    PatchKeepsNesting(u.frames, r.frames, t);
    PatchKeepsPlacement(u.frames, r.frames, t);
  }

  /** Patching the innermost open container and popping it keeps the stack in step. */
  lemma PatchKeepsStack(u: State, r: State)
    requires StackMatchesOpenFrames(u) && |u.stack| > 0
    requires var t := u.stack[|u.stack| - 1];
      && t < |u.frames| && |r.frames| == |u.frames| && r.stack == u.stack[..|u.stack| - 1]
      && r.frames[t].IsClosed()
      && forall p :: 0 <= p < |u.frames| && p != t ==> r.frames[p] == u.frames[p]
    ensures StackMatchesOpenFrames(r)
  {
    var n := |u.stack|;
    var t := u.stack[n - 1];
    forall k | 0 <= k < |r.stack|
      ensures r.stack[k] < t
    {
      assert r.stack[k] == u.stack[k] < u.stack[n - 1];
    }
    forall p | 0 <= p < |r.frames| && r.frames[p].IsOpen()
      ensures p in r.stack
    {
      var k :| 0 <= k < n && u.stack[k] == p;
      assert r.stack[k] == p;
    }
  }

  /** Setting the innermost open container's length to the rest of the buffer nests it. */
  lemma PatchKeepsNesting(frames: seq<Frame>, r: seq<Frame>, t: nat)
    requires ClosedContainersNest(frames) && t < |frames| && frames[t].IsOpen()
    requires forall p :: t < p < |frames| ==> !frames[p].IsOpen()
    requires |r| == |frames| && r[t].IsClosed() && r[t].subtreeLength == |frames| - t
    requires forall p :: 0 <= p < |frames| && p != t ==> r[p] == frames[p]
    ensures ClosedContainersNest(r)
  {
    forall i | 0 <= i < |r| && r[i].IsClosed()
      ensures i + r[i].subtreeLength <= |r|
      ensures forall j :: i < j < i + r[i].subtreeLength ==>
                && !r[j].IsOpen()
                && (r[j].IsClosed() ==> j + r[j].subtreeLength <= i + r[i].subtreeLength)
    {
      if i != t {
        assert r[i] == frames[i];
        forall j | i < j < i + r[i].subtreeLength
          ensures j != t && r[j] == frames[j]
        {
        }
      }
    }
  }

  /** Patching a length changes no frame kind, so the placement rules still hold. */
  lemma PatchKeepsPlacement(frames: seq<Frame>, r: seq<Frame>, t: nat)
    requires AttributesPlaced(frames) && t < |frames| && frames[t].IsContainer()
    requires |r| == |frames| && r[t].Kind() == frames[t].Kind()
    requires forall p :: 0 <= p < |frames| && p != t ==> r[p] == frames[p]
    ensures AttributesPlaced(r)
  {
    forall i | 0 <= i < |r| && AttributeLike(r[i])
      ensures i > 0 && MayFollow(r[i - 1], r[i])
    {
      assert r[i] == frames[i];
      assert MayFollow(frames[i - 1], frames[i]);
    }
    forall i | 0 <= i < |r| && r[i].ComponentReferenceCapture?
      ensures r[i].parentFrameIndex < i && r[r[i].parentFrameIndex].Component?
    {
      assert r[i] == frames[i];
    }
  }

  lemma SetKeyWellFormed(s: State, key: Option<ObjectId>)
    requires WellFormed(s) && SetKeyOn(s, key).Ok?
    ensures WellFormed(SetKeyOn(s, key).value)
  {
    var r := SetKeyOn(s, key).value;
    if key.Some? {
      var t := OpenContainer(s).value;
      var keyed := r.frames[t];
      assert r.frames == s.frames[t := keyed];
      assert keyed.Kind() == s.frames[t].Kind() && keyed.IsOpen() == s.frames[t].IsOpen();
      assert keyed.IsClosed() == s.frames[t].IsClosed();
      assert keyed.IsContainer() ==> keyed.subtreeLength == s.frames[t].subtreeLength;
      assert AttributeLike(keyed) == AttributeLike(s.frames[t]);
      assert OpenContainer(r) == OpenContainer(s);
      forall i | 0 <= i < |r.frames| && AttributeLike(r.frames[i])
        ensures i > 0 && MayFollow(r.frames[i - 1], r.frames[i])
      {
        assert MayFollow(s.frames[i - 1], s.frames[i]);
      }
      forall i | 0 <= i < |r.frames| && r.frames[i].ComponentReferenceCapture?
        ensures r.frames[i].parentFrameIndex < i && r.frames[r.frames[i].parentFrameIndex].Component?
      {
        assert r.frames[i] == s.frames[i];
      }
    }
  }

  /** Where an attribute may be added, the last frame is its owner or another attribute. */
  lemma AttributeFollowsLastFrame(s: State)
    requires CanAddAttribute(s)
    ensures |s.frames| > 0 && MayFollow(s.frames[|s.frames| - 1], Attribute(0, "", Null))
  {
    var t := OpenContainer(s).value;
    if |s.frames| - 1 > t {
      assert s.frames[|s.frames| - 1].Attribute?;
    }
  }

  lemma WriteAttributeWellFormed(s: State, sequence: int, name: string, value: Value)
    requires WellFormed(s) && CanAddAttribute(s)
    ensures WellFormed(WriteAttribute(s, sequence, name, value))
  {
    var r := WriteAttribute(s, sequence, name, value);
    if |r.frames| != |s.frames| {
      var f := r.frames[|r.frames| - 1];
      assert r == Append(s, f);
      AttributeFollowsLastFrame(s);
      AppendWellFormed(s, f);
    } else {
      assert r.frames == s.frames;
    }
  }

  lemma {:induction false} WriteAllWellFormed(s: State, sequence: int, attributes: seq<(string, Value)>)
    requires WellFormed(s) && CanAddAttribute(s)
    ensures WellFormed(WriteAll(s, sequence, attributes))
    decreases |attributes|
  {
    if attributes != [] {
      var prefix := attributes[..|attributes| - 1];
      var last := attributes[|attributes| - 1];
      WriteAllWellFormed(s, sequence, prefix);
      WriteAttributeWellFormed(WriteAll(s, sequence, prefix), sequence, last.0, last.1);
    }
  }

  /** A capture may follow the last frame wherever the capture rules admit it. */
  lemma CaptureWellFormed(s: State, kind: FrameKind, f: Frame)
    requires WellFormed(s) && CanAddCapture(s, kind)
    requires (f.ElementReferenceCapture? && kind == ElementKind)
             || (f.ComponentReferenceCapture? && kind == ComponentKind && f.parentFrameIndex == OpenContainer(s).value)
    ensures WellFormed(Append(s, f))
  {
    var t := OpenContainer(s).value;
    if |s.frames| - 1 > t {
      assert AttributeLike(s.frames[|s.frames| - 1]);
    }
    AppendWellFormed(s, f);
  }

  /** Every accepted call keeps the state well formed. */
  lemma StepWellFormed(s: State, c: Call)
    requires WellFormed(s)
    ensures Step(s, c).Ok? ==> WellFormed(Step(s, c).value)
    decreases c
  {
    if c.AddContent? && c.content.FragmentContent? {
      var region := Open(s, Region(c.sequence, 0));
      OpenWellFormed(s, Region(c.sequence, 0));
      RunWellFormed(region, c.content.fragment);
      var inner := Run(region, c.content.fragment);
      if inner.Ok? && Close(inner.value, RegionKind).Ok? {
        CloseWellFormed(inner.value, RegionKind);
      }
    } else if c.AddContent? || c.AddMarkupContent? || c.SetKey? || c.Clear? {
      ContentStepWellFormed(s, c);
    } else if c.AddAttribute? || c.AddMultipleAttributes? || c.AddElementReferenceCapture? || c.AddComponentReferenceCapture? {
      AttributeStepWellFormed(s, c);
    } else {
      StructureStepWellFormed(s, c);
    }
  }

  lemma StructureStepWellFormed(s: State, c: Call)
    requires WellFormed(s)
    requires c.OpenElement? || c.OpenComponent? || c.OpenRegion? || c.CloseElement? || c.CloseComponent? || c.CloseRegion?
    ensures Step(s, c).Ok? ==> WellFormed(Step(s, c).value)
  {
    match c
    case OpenElement(sequence, name) => OpenWellFormed(s, Element(sequence, name, 0, None));
    case OpenComponent(sequence, componentType) => OpenWellFormed(s, Component(sequence, componentType, 0, None));
    case OpenRegion(sequence) => OpenWellFormed(s, Region(sequence, 0));
    case CloseElement => if Step(s, c).Ok? { CloseWellFormed(s, ElementKind); }
    case CloseComponent => if Step(s, c).Ok? { CloseWellFormed(s, ComponentKind); }
    case CloseRegion => if Step(s, c).Ok? { CloseWellFormed(s, RegionKind); }
  }

  lemma ContentStepWellFormed(s: State, c: Call)
    requires WellFormed(s)
    requires (c.AddContent? && !c.content.FragmentContent?) || c.AddMarkupContent? || c.SetKey? || c.Clear?
    ensures Step(s, c).Ok? ==> WellFormed(Step(s, c).value)
  {
    match c
    case AddContent(sequence, content) => {
      match content
      case TextContent(text) => AppendWellFormed(s, Text(sequence, Normalize(text)));
      case ObjectContent(obj) => AppendWellFormed(s, Text(sequence, if obj.Some? then obj.value.display else ""));
      case MarkupStringContent(markup) => AppendWellFormed(s, Markup(sequence, Normalize(markup)));
      case NullFragment =>
    }
    case AddMarkupContent(sequence, markup) => AppendWellFormed(s, Markup(sequence, Normalize(markup)));
    case SetKey(key) => if SetKeyOn(s, key).Ok? { SetKeyWellFormed(s, key); }
    case Clear => EmptyWellFormed();
  }

  lemma AttributeStepWellFormed(s: State, c: Call)
    requires WellFormed(s)
    requires c.AddAttribute? || c.AddMultipleAttributes? || c.AddElementReferenceCapture? || c.AddComponentReferenceCapture?
    ensures Step(s, c).Ok? ==> WellFormed(Step(s, c).value)
  {
    match c
    case AddAttribute(sequence, name, value) =>
      if CanAddAttribute(s) {
        WriteAttributeWellFormed(s, sequence, name, value);
      }
    case AddMultipleAttributes(sequence, attributes) =>
      if CanAddAttribute(s) && attributes.Some? {
        var bulk := s.(bulkPending := true);
        assert OpenContainer(bulk) == OpenContainer(s);
        WriteAllWellFormed(bulk, sequence, attributes.value);
      }
    case AddElementReferenceCapture(sequence, action) =>
      if CanAddCapture(s, ElementKind) {
        CaptureWellFormed(s, ElementKind, ElementReferenceCapture(sequence, action));
      }
    case AddComponentReferenceCapture(sequence, action) =>
      if CanAddCapture(s, ComponentKind) {
        CaptureWellFormed(s, ComponentKind, ComponentReferenceCapture(sequence, action, OpenContainer(s).value));
      }
  }

  /** Any run of accepted calls from a well-formed state ends in a well-formed state. */
  lemma RunWellFormed(s: State, calls: seq<Call>)
    requires WellFormed(s)
    ensures Run(s, calls).Ok? ==> WellFormed(Run(s, calls).value)
    decreases calls
  {
    if calls != [] {
      StepWellFormed(s, calls[0]);
      if Step(s, calls[0]).Ok? {
        RunWellFormed(Step(s, calls[0]).value, calls[1..]);
      }
    }
  }
}
