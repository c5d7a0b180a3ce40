/**
 * Balanced call sequences described as trees: building a forest of elements, components, regions
 * and text appends exactly the frames of the forest, with every container's subtree length equal to
 * one plus the number of frames nested under it. Fragments produce the same frames as an
 * explicit region.
 */
module RenderTreeShapes {
  import opened Wrappers
  import opened RenderTreeFrames
  import opened RenderTreeSemantics
  import opened RenderTreeRuns

  /** A tree of content written with balanced open and close calls. */
  datatype Node =
    | TextNode(sequence: int, text: string)
    | ElementNode(sequence: int, name: string, attributes: seq<(string, string)>, children: seq<Node>)
    | ComponentNode(sequence: int, componentType: ObjectId, parameters: seq<(string, Value)>)
    | RegionNode(sequence: int, children: seq<Node>)

  function AttributeCalls(sequence: int, attributes: seq<(string, string)>): seq<Call>
    decreases |attributes|
  {
    if attributes == [] then []
    else AttributeCalls(sequence, attributes[..|attributes| - 1])
         + [AddAttribute(sequence, attributes[|attributes| - 1].0, Str(attributes[|attributes| - 1].1))]
  }

  function AttributeFrames(sequence: int, attributes: seq<(string, string)>): (r: seq<Frame>)
    ensures |r| == |attributes|
    ensures forall i :: 0 <= i < |r| ==> r[i] == Attribute(sequence, attributes[i].0, Str(attributes[i].1))
    decreases |attributes|
  {
    if attributes == [] then []
    else AttributeFrames(sequence, attributes[..|attributes| - 1])
         + [Attribute(sequence, attributes[|attributes| - 1].0, Str(attributes[|attributes| - 1].1))]
  }

  /** A component's parameters, each bound as given, whatever its value. */
  function ParameterCalls(sequence: int, parameters: seq<(string, Value)>): seq<Call>
    decreases |parameters|
  {
    if parameters == [] then []
    else ParameterCalls(sequence, parameters[..|parameters| - 1])
         + [AddAttribute(sequence, parameters[|parameters| - 1].0, parameters[|parameters| - 1].1)]
  }

  function ParameterFrames(sequence: int, parameters: seq<(string, Value)>): (r: seq<Frame>)
    ensures |r| == |parameters|
    ensures forall i :: 0 <= i < |r| ==> r[i] == Attribute(sequence, parameters[i].0, parameters[i].1)
    decreases |parameters|
  {
    if parameters == [] then []
    else ParameterFrames(sequence, parameters[..|parameters| - 1])
         + [Attribute(sequence, parameters[|parameters| - 1].0, parameters[|parameters| - 1].1)]
  }

  /** The builder calls that write one node. */
  function NodeCalls(n: Node): seq<Call>
    decreases n
  {
    match n
    case TextNode(sequence, text) => [AddContent(sequence, TextContent(Some(text)))]
    case ElementNode(sequence, name, attributes, children) =>
      [OpenElement(sequence, name)] + (AttributeCalls(sequence, attributes) + CallsOf(children)) + [CloseElement]
    case ComponentNode(sequence, componentType, parameters) =>
      [OpenComponent(sequence, componentType)] + ParameterCalls(sequence, parameters) + [CloseComponent]
    case RegionNode(sequence, children) => [OpenRegion(sequence)] + CallsOf(children) + [CloseRegion]
  }

  /** The builder calls that write a forest, in document order. */
  function CallsOf(nodes: seq<Node>): seq<Call>
    decreases nodes
  {
    if nodes == [] then [] else NodeCalls(nodes[0]) + CallsOf(nodes[1..])
  }

  /**
   * The frames of one node, defined from the tree: a container's frame, with subtree length one
   * plus its attributes and descendants, then its attributes, then its children's frames.
   */
  function NodeFrames(n: Node): seq<Frame>
    decreases n
  {
    match n
    case TextNode(sequence, text) => [Text(sequence, text)]
    case ElementNode(sequence, name, attributes, children) =>
      [Element(sequence, name, 1 + |attributes| + |FramesOf(children)|, None)]
      + (AttributeFrames(sequence, attributes) + FramesOf(children))
    case ComponentNode(sequence, componentType, parameters) =>
      [Component(sequence, componentType, 1 + |parameters|, None)] + ParameterFrames(sequence, parameters)
    case RegionNode(sequence, children) => [Region(sequence, 1 + |FramesOf(children)|)] + FramesOf(children)
  }

  function FramesOf(nodes: seq<Node>): seq<Frame>
    decreases nodes
  {
    if nodes == [] then [] else NodeFrames(nodes[0]) + FramesOf(nodes[1..])
  }

  /** A state between balanced calls: no pending de-duplication and no suppressed writes. */
  predicate Quiet(s: State) {
    !s.bulkPending && s.silent == []
  }

  /** Runs that succeed one after the other make one run of the concatenated calls. */
  lemma RunChain(s: State, a: seq<Call>, b: seq<Call>, mid: State, r: State)
    requires Run(s, a) == Ok(mid) && Run(mid, b) == Ok(r)
    ensures Run(s, a + b) == Ok(r)
  {
    RunConcat(s, a, b);
  }

  /** The open container is an element that so far holds only attributes. */
  predicate InElementHead(s: State) {
    CanAddAttribute(s) && s.frames[OpenContainer(s).value].Element?
  }

  /** The open container is a component that so far holds only parameters. */
  predicate InComponentHead(s: State) {
    CanAddAttribute(s) && s.frames[OpenContainer(s).value].Component?
  }

  /** Three runs that succeed one after the other make one run of the concatenated calls. */
  lemma RunChain3(s: State, a: seq<Call>, b: seq<Call>, c: seq<Call>, s1: State, s2: State, s3: State)
    requires Run(s, a) == Ok(s1) && Run(s1, b) == Ok(s2) && Run(s2, c) == Ok(s3)
    ensures Run(s, a + b + c) == Ok(s3)
  {
    RunConcat(s1, b, c);
    RunConcat(s, a, b + c);
    assert a + b + c == a + (b + c);
  }

  /** Plain attribute writes right after an element's frame append one frame each, duplicates included. */
  lemma {:induction false} WritesAttributes(s: State, sequence: int, attributes: seq<(string, string)>)
    requires Quiet(s) && InElementHead(s)
    ensures Run(s, AttributeCalls(sequence, attributes))
            == Ok(s.(frames := s.frames + AttributeFrames(sequence, attributes)))
    decreases |attributes|
  {
    if attributes == [] {
      assert s.frames + [] == s.frames;
    } else {
      var prefix := attributes[..|attributes| - 1];
      var last := attributes[|attributes| - 1];
      WritesAttributes(s, sequence, prefix);
      var mid := s.(frames := s.frames + AttributeFrames(sequence, prefix));
      var t := OpenContainer(s).value;
      assert OpenContainer(mid) == Some(t) && mid.frames[t] == s.frames[t];
      assert forall j :: t < j < |mid.frames| ==> mid.frames[j].Attribute?;
      WritesOneAttribute(mid, sequence, last.0, last.1);
      RunChain(s, AttributeCalls(sequence, prefix), [AddAttribute(sequence, last.0, Str(last.1))], mid,
               mid.(frames := mid.frames + [Attribute(sequence, last.0, Str(last.1))]));
      assert s.frames + AttributeFrames(sequence, attributes)
             == mid.frames + [Attribute(sequence, last.0, Str(last.1))];
    }
  }

  lemma WritesOneAttribute(s: State, sequence: int, name: string, value: string)
    requires Quiet(s) && InElementHead(s)
    ensures Run(s, [AddAttribute(sequence, name, Str(value))])
            == Ok(s.(frames := s.frames + [Attribute(sequence, name, Str(value))]))
  {
    AttributeStepIs(s, sequence, name, Str(value));
    AppendsAttribute(s, sequence, name, value);
  }

  /** A component's parameters append one frame each, holding every value as given, false and null included. */
  lemma {:induction false} WritesParameters(s: State, sequence: int, parameters: seq<(string, Value)>)
    requires Quiet(s) && InComponentHead(s)
    ensures Run(s, ParameterCalls(sequence, parameters))
            == Ok(s.(frames := s.frames + ParameterFrames(sequence, parameters)))
    decreases |parameters|
  {
    if parameters == [] {
      assert s.frames + [] == s.frames;
    } else {
      var prefix := parameters[..|parameters| - 1];
      var last := parameters[|parameters| - 1];
      WritesParameters(s, sequence, prefix);
      var mid := s.(frames := s.frames + ParameterFrames(sequence, prefix));
      var t := OpenContainer(s).value;
      assert OpenContainer(mid) == Some(t) && mid.frames[t] == s.frames[t];
      assert forall j :: t < j < |mid.frames| ==> mid.frames[j].Attribute?;
      WritesOneParameter(mid, sequence, last.0, last.1);
      RunChain(s, ParameterCalls(sequence, prefix), [AddAttribute(sequence, last.0, last.1)], mid,
               mid.(frames := mid.frames + [Attribute(sequence, last.0, last.1)]));
      assert s.frames + ParameterFrames(sequence, parameters)
             == mid.frames + [Attribute(sequence, last.0, last.1)];
    }
  }

  lemma WritesOneParameter(s: State, sequence: int, name: string, value: Value)
    requires Quiet(s) && InComponentHead(s)
    ensures Run(s, [AddAttribute(sequence, name, value)])
            == Ok(s.(frames := s.frames + [Attribute(sequence, name, value)]))
  {
    AttributeStepIs(s, sequence, name, value);
  }

  /** One attribute call where attributes are allowed writes the attribute as `WriteAttribute` says. */
  lemma AttributeStepIs(s: State, sequence: int, name: string, value: Value)
    requires CanAddAttribute(s)
    ensures Run(s, [AddAttribute(sequence, name, value)]) == Ok(WriteAttribute(s, sequence, name, value))
  {
    RunSingle(s, AddAttribute(sequence, name, value));
  }

  /** A string attribute on an element's head is appended as it is. */
  lemma AppendsAttribute(s: State, sequence: int, name: string, value: string)
    requires Quiet(s) && InElementHead(s)
    ensures WriteAttribute(s, sequence, name, Str(value)) == s.(frames := s.frames + [Attribute(sequence, name, Str(value))])
  {
  }

  /** Building a forest from a quiet state appends exactly the forest's frames and leaves the state quiet. */
  lemma {:induction false} BuildsForest(s: State, nodes: seq<Node>)
    requires Quiet(s)
    ensures Run(s, CallsOf(nodes)) == Ok(s.(frames := s.frames + FramesOf(nodes)))
    decreases nodes, 0
  {
    if nodes == [] {
      assert s.frames + [] == s.frames;
    } else {
      var mid := s.(frames := s.frames + NodeFrames(nodes[0]));
      BuildsNode(s, nodes[0]);
      BuildsForest(mid, nodes[1..]);
      AppendTwice(s, NodeFrames(nodes[0]), FramesOf(nodes[1..]));
      RunChain(s, NodeCalls(nodes[0]), CallsOf(nodes[1..]), mid, mid.(frames := mid.frames + FramesOf(nodes[1..])));
    }
  }

  /** Building one node from a quiet state appends exactly the node's frames. */
  lemma {:induction false} BuildsNode(s: State, n: Node)
    requires Quiet(s)
    ensures Run(s, NodeCalls(n)) == Ok(s.(frames := s.frames + NodeFrames(n)))
    decreases n, 2
  {
    match n {
      case TextNode(sequence, text) =>
        BuildsText(s, sequence, text);
      case ElementNode(_, _, _, _) =>
        BuildsElementNode(s, n);
      case ComponentNode(_, _, _) =>
        BuildsComponentNode(s, n);
      case RegionNode(_, _) =>
        BuildsRegionNode(s, n);
    }
  }

  lemma {:induction false} BuildsElementNode(s: State, n: Node)
    requires Quiet(s) && n.ElementNode?
    ensures Run(s, NodeCalls(n)) == Ok(s.(frames := s.frames + NodeFrames(n)))
    decreases n, 1
  {
    BuildsElement(s, n.sequence, n.name, n.attributes, n.children);
    var body := AttributeFrames(n.sequence, n.attributes) + FramesOf(n.children);
    assert |body| == |n.attributes| + |FramesOf(n.children)|;
    assert s.frames + NodeFrames(n) == s.frames + [Element(n.sequence, n.name, 1 + |body|, None)] + body;
  }

  lemma BuildsComponentNode(s: State, n: Node)
    requires Quiet(s) && n.ComponentNode?
    ensures Run(s, NodeCalls(n)) == Ok(s.(frames := s.frames + NodeFrames(n)))
  {
    BuildsComponent(s, n.sequence, n.componentType, n.parameters);
    var body := ParameterFrames(n.sequence, n.parameters);
    var head := Component(n.sequence, n.componentType, 1 + |body|, None);
    assert NodeFrames(n) == [head] + body;
    AppendsHead(s.frames, head, body);
  }

  lemma {:induction false} BuildsRegionNode(s: State, n: Node)
    requires Quiet(s) && n.RegionNode?
    ensures Run(s, NodeCalls(n)) == Ok(s.(frames := s.frames + NodeFrames(n)))
    decreases n, 1
  {
    BuildsRegion(s, n.sequence, n.children);
    assert s.frames + NodeFrames(n) == s.frames + [Region(n.sequence, 1 + |FramesOf(n.children)|)] + FramesOf(n.children);
  }

  lemma BuildsText(s: State, sequence: int, text: string)
    ensures Run(s, [AddContent(sequence, TextContent(Some(text)))]) == Ok(s.(frames := s.frames + [Text(sequence, text)]))
  {
    RunSingle(s, AddContent(sequence, TextContent(Some(text))));
  }

  /** An element appends its frame, with the length patched on close, its attributes and its children. */
  lemma {:induction false} BuildsElement(s: State, sequence: int, name: string, attributes: seq<(string, string)>, children: seq<Node>)
    requires Quiet(s)
    ensures Run(s, [OpenElement(sequence, name)] + (AttributeCalls(sequence, attributes) + CallsOf(children)) + [CloseElement])
            == Ok(s.(frames := s.frames + [Element(sequence, name, 1 + |AttributeFrames(sequence, attributes) + FramesOf(children)|, None)]
                                        + (AttributeFrames(sequence, attributes) + FramesOf(children))))
    decreases children, 2
  {
    var body := AttributeFrames(sequence, attributes) + FramesOf(children);
    var entered := OpensQuietly(s, Element(sequence, name, 0, None), OpenElement(sequence, name));
    BuildsElementBody(entered, sequence, attributes, children);
    Encloses(s, Element(sequence, name, 0, None), OpenElement(sequence, name), CloseElement,
             AttributeCalls(sequence, attributes) + CallsOf(children), body);
  }

  /** A component appends its frame, with length one plus its parameters, then its parameters. */
  lemma BuildsComponent(s: State, sequence: int, componentType: ObjectId, parameters: seq<(string, Value)>)
    requires Quiet(s)
    ensures Run(s, [OpenComponent(sequence, componentType)] + ParameterCalls(sequence, parameters) + [CloseComponent])
            == Ok(s.(frames := s.frames + [Component(sequence, componentType, 1 + |ParameterFrames(sequence, parameters)|, None)]
                                        + ParameterFrames(sequence, parameters)))
  {
    var entered := OpensQuietly(s, Component(sequence, componentType, 0, None), OpenComponent(sequence, componentType));
    WritesParameters(entered, sequence, parameters);
    Encloses(s, Component(sequence, componentType, 0, None), OpenComponent(sequence, componentType), CloseComponent,
             ParameterCalls(sequence, parameters), ParameterFrames(sequence, parameters));
  }

  /** `open` is the call that opens a container whose frame is `frame`. */
  predicate OpensFrame(open: Call, frame: Frame) {
    || (open.OpenElement? && frame == Element(open.sequence, open.elementName, 0, None))
    || (open.OpenComponent? && frame == Component(open.sequence, open.componentType, 0, None))
    || (open.OpenRegion? && frame == Region(open.sequence, 0))
  }

  /** `close` is the call that closes what `open` opened. */
  predicate ClosesFrame(open: Call, close: Call) {
    || (open.OpenElement? && close == CloseElement)
    || (open.OpenComponent? && close == CloseComponent)
    || (open.OpenRegion? && close == CloseRegion)
  }

  /**
   * A container opened from a quiet state, whose content calls append `body`, is closed by the
   * matching call with its length patched to one plus the body.
   */
  lemma Encloses(s: State, frame: Frame, open: Call, close: Call, inner: seq<Call>, body: seq<Frame>)
    requires Quiet(s)
    requires OpensFrame(open, frame) && ClosesFrame(open, close)
    requires Run(Open(s, frame), inner) == Ok(Open(s, frame).(frames := Open(s, frame).frames + body))
    ensures Run(s, [open] + inner + [close]) == Ok(s.(frames := s.frames + [frame.(subtreeLength := 1 + |body|)] + body))
  {
    var entered := OpensQuietly(s, frame, open);
    var filled := entered.(frames := entered.frames + body);
    var done := s.(frames := s.frames + [frame.(subtreeLength := 1 + |body|)] + body);
    CloseFilled(s, frame, body);
    assert filled == State(s.frames + [frame] + body, s.stack + [|s.frames|], false, []);
    RunSingle(filled, close);
    RunChain3(s, [open], inner, [close], entered, filled, done);
  }

  /** Inside a freshly opened element, its attributes and then its children append their frames. */
  lemma {:induction false} BuildsElementBody(entered: State, sequence: int, attributes: seq<(string, string)>, children: seq<Node>)
    requires Quiet(entered) && InElementHead(entered)
    ensures Run(entered, AttributeCalls(sequence, attributes) + CallsOf(children))
            == Ok(entered.(frames := entered.frames + (AttributeFrames(sequence, attributes) + FramesOf(children))))
    decreases children, 1
  {
    WritesAttributes(entered, sequence, attributes);
    var written := entered.(frames := entered.frames + AttributeFrames(sequence, attributes));
    BuildsForest(written, children);
    AppendTwice(entered, AttributeFrames(sequence, attributes), FramesOf(children));
    RunChain(entered, AttributeCalls(sequence, attributes), CallsOf(children), written,
             written.(frames := written.frames + FramesOf(children)));
  }

  lemma CallsAssociate(a: seq<Call>, b: seq<Call>, c: seq<Call>)
    ensures a + b + c == a + (b + c)
  {
  }

  /** Appending two blocks of frames one after the other appends their concatenation. */
  lemma AppendTwice(s: State, a: seq<Frame>, b: seq<Frame>)
    ensures s.(frames := s.frames + a).(frames := s.frames + a + b) == s.(frames := s.frames + (a + b))
  {
    assert s.frames + a + b == s.frames + (a + b);
  }

  /** A region appends its frame, with the length patched on close, and its children. */
  lemma {:induction false} BuildsRegion(s: State, sequence: int, children: seq<Node>)
    requires Quiet(s)
    ensures Run(s, [OpenRegion(sequence)] + CallsOf(children) + [CloseRegion])
            == Ok(s.(frames := s.frames + [Region(sequence, 1 + |FramesOf(children)|)] + FramesOf(children)))
    decreases children, 1
  {
    var frame := Region(sequence, 0);
    var entered := OpensQuietly(s, frame, OpenRegion(sequence));
    BuildsForest(entered, children);
    var filled := entered.(frames := entered.frames + FramesOf(children));
    var done := s.(frames := s.frames + [Region(sequence, 1 + |FramesOf(children)|)] + FramesOf(children));
    ClosesRegion(s, sequence, FramesOf(children));
    RunChain(entered, CallsOf(children), [CloseRegion], filled, done);
    RunChain(s, [OpenRegion(sequence)], CallsOf(children) + [CloseRegion], entered, done);
    CallsAssociate([OpenRegion(sequence)], CallsOf(children), [CloseRegion]);
  }

  /** Opening a container from a quiet state appends its frame and pushes its index. */
  lemma OpensQuietly(s: State, frame: Frame, c: Call) returns (entered: State)
    requires Quiet(s)
    requires OpensFrame(c, frame)
    ensures entered == State(s.frames + [frame], s.stack + [|s.frames|], false, []) == Open(s, frame)
    ensures Run(s, [c]) == Ok(entered)
    ensures Quiet(entered) && frame.IsOpen()
    ensures c.OpenElement? ==> InElementHead(entered)
    ensures c.OpenComponent? ==> InComponentHead(entered)
  {
    entered := Open(s, frame);
    RunSingle(s, c);
  }

  /** The matching close of a region opened by `OpensQuietly`, after `body` was appended. */
  lemma ClosesRegion(s: State, sequence: int, body: seq<Frame>)
    requires Quiet(s)
    ensures Run(State(s.frames + [Region(sequence, 0)] + body, s.stack + [|s.frames|], false, []), [CloseRegion])
            == Ok(s.(frames := s.frames + [Region(sequence, 1 + |body|)] + body))
  {
    CloseFilled(s, Region(sequence, 0), body);
    RunSingle(State(s.frames + [Region(sequence, 0)] + body, s.stack + [|s.frames|], false, []), CloseRegion);
  }

  /**
   * Closing a container opened from a quiet state, after `body` was appended, patches its length
   * to one plus the body and restores the stack.
   */
  lemma CloseFilled(s: State, frame: Frame, body: seq<Frame>)
    requires Quiet(s) && frame.IsOpen()
    ensures Close(State(s.frames + [frame] + body, s.stack + [|s.frames|], false, []), frame.Kind())
            == Ok(s.(frames := s.frames + [frame.(subtreeLength := 1 + |body|)] + body))
  {
    var t := |s.frames|;
    var filled := State(s.frames + [frame] + body, s.stack + [t], false, []);
    assert OpenContainer(filled) == Some(t) && filled.frames[t] == frame;
    assert Settle(filled) == filled;
    PatchAt(s.frames, frame, frame.(subtreeLength := 1 + |body|), body);
    assert (s.stack + [t])[..|s.stack|] == s.stack;
  }

  lemma AppendsHead(frames: seq<Frame>, head: Frame, body: seq<Frame>)
    ensures frames + ([head] + body) == frames + [head] + body
  {
  }

  lemma PatchAt(prefix: seq<Frame>, f: Frame, g: Frame, suffix: seq<Frame>)
    ensures (prefix + [f] + suffix)[|prefix| := g] == prefix + [g] + suffix
  {
  }

  /**
   * Adding a fragment whose delegate builds a forest wraps the forest's frames in a region frame:
   * the same frames as an explicit region around the same forest.
   */
  lemma FragmentIsRegion(s: State, sequence: int, nodes: seq<Node>)
    requires Quiet(s)
    ensures Step(s, AddContent(sequence, FragmentContent(CallsOf(nodes))))
            == Run(s, NodeCalls(RegionNode(sequence, nodes)))
            == Ok(s.(frames := s.frames + NodeFrames(RegionNode(sequence, nodes))))
  {
    var done := FragmentBuildsRegion(s, sequence, nodes);
    BuildsNode(s, RegionNode(sequence, nodes));
  }

  lemma FragmentBuildsRegion(s: State, sequence: int, nodes: seq<Node>) returns (done: State)
    requires Quiet(s)
    ensures done == s.(frames := s.frames + NodeFrames(RegionNode(sequence, nodes)))
    ensures Step(s, AddContent(sequence, FragmentContent(CallsOf(nodes)))) == Ok(done)
  {
    var filled;
    filled, done := FillsRegion(s, sequence, nodes);
    FragmentStep(s, sequence, CallsOf(nodes), filled, done);
  }

  /** Inside a region opened from a quiet state, a forest appends its frames; the close then patches the region. */
  lemma FillsRegion(s: State, sequence: int, nodes: seq<Node>) returns (filled: State, done: State)
    requires Quiet(s)
    ensures Run(Open(s, Region(sequence, 0)), CallsOf(nodes)) == Ok(filled)
    ensures Close(filled, RegionKind) == Ok(done)
    ensures done == s.(frames := s.frames + NodeFrames(RegionNode(sequence, nodes)))
  {
    filled := EntersRegion(s, sequence, nodes);
    CloseFilled(s, Region(sequence, 0), FramesOf(nodes));
    var head := Region(sequence, 1 + |FramesOf(nodes)|);
    done := s.(frames := s.frames + [head] + FramesOf(nodes));
    assert NodeFrames(RegionNode(sequence, nodes)) == [head] + FramesOf(nodes);
    AppendsHead(s.frames, head, FramesOf(nodes));
  }

  /** A forest written inside a region opened from a quiet state appends its frames after the region's. */
  lemma EntersRegion(s: State, sequence: int, nodes: seq<Node>) returns (filled: State)
    requires Quiet(s)
    ensures Run(Open(s, Region(sequence, 0)), CallsOf(nodes)) == Ok(filled)
    ensures filled == State(s.frames + [Region(sequence, 0)] + FramesOf(nodes), s.stack + [|s.frames|], false, [])
  {
    var entered := OpensQuietly(s, Region(sequence, 0), OpenRegion(sequence));
    BuildsForest(entered, nodes);
    filled := entered.(frames := entered.frames + FramesOf(nodes));
  }

  /** A fragment runs its calls inside a fresh region and then closes that region. */
  lemma FragmentStep(s: State, sequence: int, calls: seq<Call>, inner: State, done: State)
    requires Run(Open(s, Region(sequence, 0)), calls) == Ok(inner)
    requires Close(inner, RegionKind) == Ok(done)
    ensures Step(s, AddContent(sequence, FragmentContent(calls))) == Ok(done)
  {
  }
}
