/**
 * Concrete sessions stated on the call semantics: what `Run` produces for a whole session.
 * A session is proved backwards from its final state, one call at a time, with the `...Then`
 * lemmas below, each of which says that a call of one shape takes a state to a given next
 * state and leaves the rest of the session to run from there. By `RenderTreeBuilder.Apply`, a
 * builder object given the same calls ends in the same state.
 */
module RenderTreeSessions {
  import opened Wrappers
  import opened RenderTreeFrames
  import opened AttributeDedup
  import opened RenderTreeSemantics

  /** The empty session leaves the state as it is. */
  lemma Done(s: State)
    ensures Run(s, []) == Ok(s)
  {}

  /** Opening a container when no bulk call is pending appends its frame and pushes its index. */
  lemma OpenThen(s: State, c: Call, f: Frame, t: State, rest: seq<Call>, r: Result<State, BuildError>)
    requires !s.bulkPending
    requires || (c.OpenElement? && f == Element(c.sequence, c.elementName, 0, None))
             || (c.OpenComponent? && f == Component(c.sequence, c.componentType, 0, None))
             || (c.OpenRegion? && f == Region(c.sequence, 0))
    requires t == State(s.frames + [f], s.stack + [|s.frames|], false, [])
    requires Run(t, rest) == r
    ensures Run(s, [c] + rest) == r
  {
    assert ([c] + rest)[0] == c && ([c] + rest)[1..] == rest;
  }

  /** Closing the open container of the right kind patches its subtree length and pops it. */
  lemma CloseThen(s: State, c: Call, f: Frame, t: State, rest: seq<Call>, r: Result<State, BuildError>)
    requires !s.bulkPending && OpenContainer(s).Some?
    requires || (c == CloseElement && f.Element?)
             || (c == CloseComponent && f.Component?)
             || (c == CloseRegion && f.Region?)
    requires var p := OpenContainer(s).value;
             s.frames[p].Kind() == f.Kind() && f == s.frames[p].(subtreeLength := |s.frames| - p)
    requires t == State(s.frames[OpenContainer(s).value := f], s.stack[..|s.stack| - 1], false, [])
    requires Run(t, rest) == r
    ensures Run(s, [c] + rest) == r
  {
    assert ([c] + rest)[0] == c && ([c] + rest)[1..] == rest;
  }

  /** An attribute whose stored value is `w` appends one attribute frame. */
  lemma AttributeThen(s: State, c: Call, w: Value, t: State, rest: seq<Call>, r: Result<State, BuildError>)
    requires c.AddAttribute? && CanAddAttribute(s)
    requires (if s.frames[OpenContainer(s).value].Component? then Some(c.value) else ElementValue(c.value)) == Some(w)
    requires t == s.(frames := s.frames + [Attribute(c.sequence, c.name, w)])
    requires Run(t, rest) == r
    ensures Run(s, [c] + rest) == r
  {
    assert ([c] + rest)[0] == c && ([c] + rest)[1..] == rest;
  }

  /** An attribute an element suppresses adds no frame and is remembered as a silent write. */
  lemma SilentThen(s: State, c: Call, t: State, rest: seq<Call>, r: Result<State, BuildError>)
    requires c.AddAttribute? && CanAddAttribute(s)
    requires s.frames[OpenContainer(s).value].Element? && ElementValue(c.value).None?
    requires t == s.(silent := s.silent + [SilentWrite(c.name, |s.frames|)])
    requires Run(t, rest) == r
    ensures Run(s, [c] + rest) == r
  {
    assert ([c] + rest)[0] == c && ([c] + rest)[1..] == rest;
  }

  /** Text content appends one text frame. */
  lemma TextThen(s: State, sequence: int, text: string, t: State, rest: seq<Call>, r: Result<State, BuildError>)
    requires t == s.(frames := s.frames + [Text(sequence, text)])
    requires Run(t, rest) == r
    ensures Run(s, [AddContent(sequence, TextContent(Some(text)))] + rest) == r
  {
    var c := AddContent(sequence, TextContent(Some(text)));
    assert ([c] + rest)[0] == c && ([c] + rest)[1..] == rest;
  }

  /** Closing an element counts its own frame and the frames nested under it, and no later ones. */
  lemma ClosedElementsHaveCorrectSubtreeLength()
    ensures Run(Empty(), [
      OpenElement(0, "my element"),
      AddContent(0, TextContent(Some("child 1"))),
      AddContent(0, TextContent(Some("child 2"))),
      CloseElement,
      AddContent(0, TextContent(Some("unrelated item")))]) == Ok(State([
      Element(0, "my element", 3, None),
      Text(0, "child 1"),
      Text(0, "child 2"),
      Text(0, "unrelated item")], [], false, []))
  {
    var e0 := Element(0, "my element", 0, None);
    var t1 := Text(0, "child 1");
    var t2 := Text(0, "child 2");
    var s1 := State([e0], [0], false, []);
    var s2 := State([e0, t1], [0], false, []);
    var s3 := State([e0, t1, t2], [0], false, []);
    var s4 := State([Element(0, "my element", 3, None), t1, t2], [], false, []);
    var s5 := State([Element(0, "my element", 3, None), t1, t2, Text(0, "unrelated item")], [], false, []);
    Done(s5);
    TextThen(s4, 0, "unrelated item", s5, [], Ok(s5));
    CloseThen(s3, CloseElement, Element(0, "my element", 3, None), s4,
              [AddContent(0, TextContent(Some("unrelated item")))], Ok(s5));
    TextThen(s2, 0, "child 2", s3,
             [CloseElement, AddContent(0, TextContent(Some("unrelated item")))], Ok(s5));
    TextThen(s1, 0, "child 1", s2,
             [AddContent(0, TextContent(Some("child 2"))), CloseElement, AddContent(0, TextContent(Some("unrelated item")))], Ok(s5));
    OpenThen(Empty(), OpenElement(0, "my element"), e0, s1,
             [AddContent(0, TextContent(Some("child 1"))), AddContent(0, TextContent(Some("child 2"))),
              CloseElement, AddContent(0, TextContent(Some("unrelated item")))], Ok(s5));
  }

  /** On an element, `true` adds an attribute frame. */
  lemma ElementKeepsTrueAttribute()
    ensures Run(Empty(), [OpenElement(0, "elem"), AddAttribute(1, "attr", Bool(true)), CloseElement])
         == Ok(State([Element(0, "elem", 2, None), Attribute(1, "attr", Bool(true))], [], false, []))
  {
    var e := Element(0, "elem", 0, None);
    var a := Attribute(1, "attr", Bool(true));
    var s1 := State([e], [0], false, []);
    var s2 := State([e, a], [0], false, []);
    var s3 := State([Element(0, "elem", 2, None), a], [], false, []);
    Done(s3);
    CloseThen(s2, CloseElement, Element(0, "elem", 2, None), s3, [], Ok(s3));
    AttributeThen(s1, AddAttribute(1, "attr", Bool(true)), Bool(true), s2, [CloseElement], Ok(s3));
    OpenThen(Empty(), OpenElement(0, "elem"), e, s1, [AddAttribute(1, "attr", Bool(true)), CloseElement], Ok(s3));
  }

  /** On an element, `false` adds no frame, and the element spans only itself. */
  lemma ElementDropsFalseAttribute()
    ensures Run(Empty(), [OpenElement(0, "elem"), AddAttribute(1, "attr", Bool(false)), CloseElement])
         == Ok(State([Element(0, "elem", 1, None)], [], false, []))
  {
    var e := Element(0, "elem", 0, None);
    var s1 := State([e], [0], false, []);
    var s2 := State([e], [0], false, [SilentWrite("attr", 1)]);
    var s3 := State([Element(0, "elem", 1, None)], [], false, []);
    Done(s3);
    CloseThen(s2, CloseElement, Element(0, "elem", 1, None), s3, [], Ok(s3));
    SilentThen(s1, AddAttribute(1, "attr", Bool(false)), s2, [CloseElement], Ok(s3));
    OpenThen(Empty(), OpenElement(0, "elem"), e, s1, [AddAttribute(1, "attr", Bool(false)), CloseElement], Ok(s3));
  }

  /** On a component, `false` is bound like any other value. */
  lemma ComponentBindsFalse()
    ensures Run(Empty(), [OpenComponent(0, 3), AddAttribute(1, "attr", Bool(false)), CloseComponent])
         == Ok(State([Component(0, 3, 2, None), Attribute(1, "attr", Bool(false))], [], false, []))
  {
    var e := Component(0, 3, 0, None);
    var a := Attribute(1, "attr", Bool(false));
    var s1 := State([e], [0], false, []);
    var s2 := State([e, a], [0], false, []);
    var s3 := State([Component(0, 3, 2, None), a], [], false, []);
    Done(s3);
    CloseThen(s2, CloseComponent, Component(0, 3, 2, None), s3, [], Ok(s3));
    AttributeThen(s1, AddAttribute(1, "attr", Bool(false)), Bool(false), s2, [CloseComponent], Ok(s3));
    OpenThen(Empty(), OpenComponent(0, 3), e, s1, [AddAttribute(1, "attr", Bool(false)), CloseComponent], Ok(s3));
  }
}
