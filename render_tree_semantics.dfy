/**
 * The reference semantics of the render-tree builder: its state, the calls it accepts, and what
 * each call does to the state or why it is rejected. The builder class is proved against these
 * functions, and the structural invariants are proved about them.
 */
module RenderTreeSemantics {
  import opened Wrappers
  import opened RenderTreeFrames
  import opened AttributeDedup

  /**
   * The builder's state: the frame buffer, the buffer indices of the open containers
   * (innermost last), whether a bulk attribute call awaits de-duplication, and the suppressed
   * attribute writes seen since the innermost container was opened.
   */
  datatype State = State(frames: seq<Frame>, stack: seq<nat>, bulkPending: bool, silent: seq<SilentWrite>)

  function Empty(): State {
    State([], [], false, [])
  }

  /** What `AddContent` is given: a string, any other object, a `MarkupString`, or a fragment. */
  datatype Content =
    | TextContent(text: Option<string>)
    | ObjectContent(obj: Option<BoxedObject>)
    | MarkupStringContent(markup: Option<string>)
    | FragmentContent(fragment: seq<Call>)
    | NullFragment

  /** One call on the builder. A fragment is the list of calls its delegate would make. */
  datatype Call =
    | OpenElement(sequence: int, elementName: string)
    | CloseElement
    | OpenComponent(sequence: int, componentType: ObjectId)
    | CloseComponent
    | OpenRegion(sequence: int)
    | CloseRegion
    | AddContent(sequence: int, content: Content)
    | AddMarkupContent(sequence: int, markupContent: Option<string>)
    | AddAttribute(sequence: int, name: string, value: Value)
    | AddMultipleAttributes(sequence: int, attributes: Option<seq<(string, Value)>>)
    | AddElementReferenceCapture(sequence: int, elementCaptureAction: ObjectId)
    | AddComponentReferenceCapture(sequence: int, componentCaptureAction: ObjectId)
    | SetKey(keyValue: Option<ObjectId>)
    | Clear

  /** The structural errors the builder raises (an `InvalidOperationException` in the runtime). */
  datatype BuildError =
    | NoOpenContainer
    | CloseMismatch(open: FrameKind, requested: FrameKind)
    | AttributeNotAllowed
    | ElementCaptureNotAllowed
    | ComponentCaptureNotAllowed
    | KeyOutsideContainer
    | KeyNotAllowed(kind: FrameKind)

  /** The message of a key error, as the runtime words it. */
  function KeyErrorMessage(e: BuildError): (m: string)
    requires e.KeyOutsideContainer? || e.KeyNotAllowed?
    ensures e.KeyOutsideContainer? ==> m == "Cannot set a key outside the scope of a component or element."
    ensures e == KeyNotAllowed(RegionKind) ==> m == "Cannot set a key on a frame of type Region."
    ensures e.KeyNotAllowed? ==> m == "Cannot set a key on a frame of type " + KindName(e.kind) + "."
  {
    match e
    case KeyOutsideContainer => "Cannot set a key outside the scope of a component or element."
    case KeyNotAllowed(kind) => "Cannot set a key on a frame of type " + KindName(kind) + "."
  }

  /** The buffer index of the innermost open container, if any. */
  function OpenContainer(s: State): (r: Option<nat>)
    ensures r.Some? ==> r.value < |s.frames|
  {
    if |s.stack| > 0 && s.stack[|s.stack| - 1] < |s.frames| then Some(s.stack[|s.stack| - 1]) else None
  }

  predicate AttributeLike(f: Frame) {
    f.Attribute? || f.ElementReferenceCapture? || f.ComponentReferenceCapture?
  }

  /** Attributes go directly after an open Element's or Component's frame, or after other attributes. */
  predicate CanAddAttribute(s: State) {
    match OpenContainer(s)
    case None => false
    case Some(t) =>
      s.frames[t].IsAttributeOwner() && forall j :: t < j < |s.frames| ==> s.frames[j].Attribute?
  }

  /** Reference captures go after the container's frame, its attributes, or other captures. */
  predicate CanAddCapture(s: State, kind: FrameKind) {
    match OpenContainer(s)
    case None => false
    case Some(t) =>
      s.frames[t].Kind() == kind && forall j :: t < j < |s.frames| ==> AttributeLike(s.frames[j])
  }

  /** The end of the maximal run of attribute frames starting at `from`. */
  function RunEnd(frames: seq<Frame>, from: nat): (e: nat)
    requires from <= |frames|
    ensures from <= e <= |frames|
    ensures forall j :: from <= j < e ==> frames[j].Attribute?
    ensures e < |frames| ==> !frames[e].Attribute?
    decreases |frames| - from
  {
    if from < |frames| && frames[from].Attribute? then RunEnd(frames, from + 1) else from
  }

  /**
   * The de-duplication pass run before the innermost container's scope changes: if a bulk
   * attribute call happened, the attribute run right after the container's frame is replaced by
   * its last-write-wins survivors. Either way the pending flag and the silent writes are reset.
   */
  function Settle(s: State): (r: State)
    ensures r.stack == s.stack && !r.bulkPending && r.silent == []
    ensures |r.frames| <= |s.frames|
    ensures OpenContainer(s).Some? ==> OpenContainer(r) == OpenContainer(s)
                                       && r.frames[..OpenContainer(s).value + 1] == s.frames[..OpenContainer(s).value + 1]
    ensures !s.bulkPending ==> r.frames == s.frames
  {
    if s.bulkPending && OpenContainer(s).Some? then
      var t := OpenContainer(s).value;
      var end := RunEnd(s.frames, t + 1);
      DedupShrinks(s.frames[t + 1..end], t + 1, s.silent);
      var kept := Dedup(s.frames[t + 1..end], t + 1, s.silent);
      var r := State(s.frames[..t + 1] + kept + s.frames[end..], s.stack, false, []);
      assert r.frames[..t + 1] == s.frames[..t + 1];
      r
    else State(s.frames, s.stack, false, [])
  }

  /** Appends a frame under the current container. */
  function Append(s: State, f: Frame): (r: State)
    ensures r.frames == s.frames + [f] && r.stack == s.stack
    ensures r.bulkPending == s.bulkPending && r.silent == s.silent
  {
    s.(frames := s.frames + [f])
  }

  /** Opens a container: de-duplicates the enclosing scope, appends the frame and pushes its index. */
  function Open(s: State, f: Frame): (r: State)
    requires f.IsOpen()
    ensures |r.frames| > 0 && r.frames[|r.frames| - 1] == f
    ensures r.stack == s.stack + [|r.frames| - 1] && OpenContainer(r) == Some(|r.frames| - 1)
    ensures !r.bulkPending && r.silent == []
  {
    var u := Settle(s);
    State(u.frames + [f], u.stack + [|u.frames|], false, [])
  }

  /**
   * Closes the innermost container, which must be of the requested kind: de-duplicates its
   * scope, patches its subtree length to the number of frames from it to the end of the buffer
   * and pops it.
   */
  function Close(s: State, kind: FrameKind): (r: Result<State, BuildError>)
    requires kind == ElementKind || kind == ComponentKind || kind == RegionKind
    ensures OpenContainer(s).None? ==> r == Err(NoOpenContainer)
    ensures OpenContainer(s).Some? && s.frames[OpenContainer(s).value].Kind() != kind ==>
              r == Err(CloseMismatch(s.frames[OpenContainer(s).value].Kind(), kind))
    ensures r.Ok? ==> var t := OpenContainer(s).value;
              && r.value.stack == s.stack[..|s.stack| - 1]
              && t < |r.value.frames| && r.value.frames[t].Kind() == kind && r.value.frames[t].IsContainer()
              && r.value.frames[t].subtreeLength == |r.value.frames| - t
              && r.value.frames[..t] == s.frames[..t]
  {
    match OpenContainer(s)
    case None => Err(NoOpenContainer)
    case Some(t) =>
      if s.frames[t].Kind() != kind then Err(CloseMismatch(s.frames[t].Kind(), kind))
      else
        var u := Settle(s);
        assert u.frames[t] == u.frames[..t + 1][t] == s.frames[t];
        assert u.frames[..t] == u.frames[..t + 1][..t];
        var patched := u.frames[t].(subtreeLength := |u.frames| - t);
        assert patched.Kind() == kind;
        Ok(State(u.frames[t := patched], u.stack[..|u.stack| - 1], false, []))
  }

  /**
   * The value an Element stores for an attribute, or None when the write is suppressed:
   * false, null and a callback without a delegate add no frame, a callback is reduced to its
   * delegate unless its receiver must travel with it, and other objects are converted to text.
   */
  function ElementValue(v: Value): (r: Option<Value>)
    ensures r.None? <==> v.Null? || v == Bool(false) || (v.Callback? && !v.callback.HasDelegate())
    ensures r.Some? ==> !r.value.Null? && !r.value.Other? && r.value != Bool(false)
  {
    match v
    case Null => None
    case Bool(b) => if b then Some(Bool(true)) else None
    case Callback(cb) =>
      if !cb.HasDelegate() then None
      else if cb.RequiresExplicitReceiver() then Some(Callback(cb))
      else Some(Delegate(cb.delegate.value))
    case Other(obj) => Some(Str(obj.display))
    case _ => Some(v)
  }

  /**
   * One attribute write under the open container: a Component binds every value as given, an
   * Element stores `ElementValue(value)` or records a suppressed write.
   */
  function WriteAttribute(s: State, sequence: int, name: string, value: Value): (r: State)
    requires CanAddAttribute(s)
    ensures CanAddAttribute(r) && OpenContainer(r) == OpenContainer(s)
    ensures r.stack == s.stack && r.bulkPending == s.bulkPending
    ensures s.frames <= r.frames && |r.frames| <= |s.frames| + 1
  {
    var t := OpenContainer(s).value;
    var stored := if s.frames[t].Component? then Some(value) else ElementValue(value);
    match stored
    case Some(w) =>
      var r := Append(s, Attribute(sequence, name, w));
      assert r.frames[t] == s.frames[t];
      r
    case None => s.(silent := s.silent + [SilentWrite(name, |s.frames|)])
  }

  /** The writes of a bulk attribute call, in enumeration order. */
  function WriteAll(s: State, sequence: int, attributes: seq<(string, Value)>): (r: State)
    requires CanAddAttribute(s)
    ensures CanAddAttribute(r) && OpenContainer(r) == OpenContainer(s)
    ensures r.stack == s.stack && r.bulkPending == s.bulkPending
    ensures s.frames <= r.frames && |r.frames| <= |s.frames| + |attributes|
    decreases |attributes|
  {
    if attributes == [] then s
    else
      var last := attributes[|attributes| - 1];
      WriteAttribute(WriteAll(s, sequence, attributes[..|attributes| - 1]), sequence, last.0, last.1)
  }

  /**
   * Sets the key of the open Element or Component; a null key is ignored. Only the owner's key
   * changes: every other frame, the stack and the de-duplication bookkeeping stay.
   */
  function SetKeyOn(s: State, key: Option<ObjectId>): (r: Result<State, BuildError>)
    ensures key.None? ==> r == Ok(s)
    ensures key.Some? && OpenContainer(s).None? ==> r == Err(KeyOutsideContainer)
    ensures key.Some? && OpenContainer(s).Some? && !s.frames[OpenContainer(s).value].IsAttributeOwner() ==>
              r == Err(KeyNotAllowed(s.frames[OpenContainer(s).value].Kind()))
    ensures key.Some? && r.Ok? ==> var t := OpenContainer(s).value;
              && s.frames[t].IsAttributeOwner()
              && |r.value.frames| == |s.frames| && r.value.frames[t] == s.frames[t].(key := key)
              && (forall j :: 0 <= j < |s.frames| && j != t ==> r.value.frames[j] == s.frames[j])
              && r.value.stack == s.stack && r.value.bulkPending == s.bulkPending && r.value.silent == s.silent
  {
    match key
    case None => Ok(s)
    case Some(k) =>
      match OpenContainer(s)
      case None => Err(KeyOutsideContainer)
      case Some(t) =>
        if s.frames[t].IsAttributeOwner() then Ok(s.(frames := s.frames[t := s.frames[t].(key := Some(k))]))
        else Err(KeyNotAllowed(s.frames[t].Kind()))
  }

  /**
   * The errors a call can raise: the rule each builder call checks, and for a fragment whatever
   * one of the calls its delegate makes raises, or a close error when those calls leave its
   * region unbalanced. Opening a container and adding text or markup never fail.
   */
  predicate Raises(c: Call, e: BuildError)
    decreases c
  {
    match c
    case CloseElement => e.NoOpenContainer? || e.CloseMismatch?
    case CloseComponent => e.NoOpenContainer? || e.CloseMismatch?
    case CloseRegion => e.NoOpenContainer? || e.CloseMismatch?
    case AddAttribute(_, _, _) => e == AttributeNotAllowed
    case AddMultipleAttributes(_, _) => e == AttributeNotAllowed
    case AddElementReferenceCapture(_, _) => e == ElementCaptureNotAllowed
    case AddComponentReferenceCapture(_, _) => e == ComponentCaptureNotAllowed
    case SetKey(_) => e.KeyOutsideContainer? || e.KeyNotAllowed?
    case AddContent(_, content) =>
      content.FragmentContent?
      && ((exists i :: 0 <= i < |content.fragment| && Raises(content.fragment[i], e))
          || e.NoOpenContainer? || e.CloseMismatch?)
    case _ => false
  }

  /** The effect of one call; a call that fails raises an error its own rule names. */
  function Step(s: State, c: Call): (r: Result<State, BuildError>)
    ensures r.Err? ==> Raises(c, r.error)
    decreases c
  {
    match c
    case OpenElement(sequence, name) => Ok(Open(s, Element(sequence, name, 0, None)))
    case OpenComponent(sequence, componentType) => Ok(Open(s, Component(sequence, componentType, 0, None)))
    case OpenRegion(sequence) => Ok(Open(s, Region(sequence, 0)))
    case CloseElement => Close(s, ElementKind)
    case CloseComponent => Close(s, ComponentKind)
    case CloseRegion => Close(s, RegionKind)
    case AddContent(sequence, content) => (
      match content
      case TextContent(text) => Ok(Append(s, Text(sequence, Normalize(text))))
      case ObjectContent(obj) =>
        Ok(Append(s, Text(sequence, if obj.Some? then obj.value.display else "")))
      case MarkupStringContent(markup) => Ok(Append(s, Markup(sequence, Normalize(markup))))
      case NullFragment => Ok(s)
      case FragmentContent(calls) => (
        match Run(Open(s, Region(sequence, 0)), calls)
        case Err(e) => Err(e)
        case Ok(inner) => Close(inner, RegionKind)))
    case AddMarkupContent(sequence, markup) => Ok(Append(s, Markup(sequence, Normalize(markup))))
    case AddAttribute(sequence, name, value) =>
      if CanAddAttribute(s) then Ok(WriteAttribute(s, sequence, name, value)) else Err(AttributeNotAllowed)
    case AddMultipleAttributes(sequence, attributes) =>
      if !CanAddAttribute(s) then Err(AttributeNotAllowed)
      else if attributes.None? then Ok(s)
      else Ok(WriteAll(s.(bulkPending := true), sequence, attributes.value))
    case AddElementReferenceCapture(sequence, action) =>
      if CanAddCapture(s, ElementKind) then Ok(Append(s, ElementReferenceCapture(sequence, action)))
      else Err(ElementCaptureNotAllowed)
    case AddComponentReferenceCapture(sequence, action) =>
      if CanAddCapture(s, ComponentKind)
      then Ok(Append(s, ComponentReferenceCapture(sequence, action, OpenContainer(s).value)))
      else Err(ComponentCaptureNotAllowed)
    case SetKey(key) => SetKeyOn(s, key)
    case Clear => Ok(Empty())
  }

  /**
   * The effect of a sequence of calls; the first rejected call ends the run, and its error is
   * one that some call of the sequence raises.
   */
  function Run(s: State, calls: seq<Call>): (r: Result<State, BuildError>)
    ensures r.Err? ==> exists i :: 0 <= i < |calls| && Raises(calls[i], r.error)
    decreases calls
  {
    if calls == [] then Ok(s)
    else
      match Step(s, calls[0])
      case Err(e) => Err(e)
      case Ok(t) =>
        var r := Run(t, calls[1..]);
        assert r.Err? ==> exists i :: 1 <= i < |calls| && Raises(calls[i], r.error) by {
          if r.Err? {
            var j :| 0 <= j < |calls[1..]| && Raises(calls[1..][j], r.error);
            assert calls[1..][j] == calls[j + 1];
          }
        }
        r
  }
}
