/**
 * The frame model of the render tree: the tagged frame variant, the attribute values a frame
 * can hold, and the case-insensitive comparison of attribute names.
 */
module RenderTreeFrames {
  import opened Wrappers

  /** The identity of an opaque runtime object (a delegate, a receiver, a key, a component type). */
  type ObjectId = nat

  /** An arbitrary object together with what its `ToString()` returns. */
  datatype BoxedObject = BoxedObject(id: ObjectId, display: string)

  /**
   * An `EventCallback` / `EventCallback<T>` struct. The default value has neither receiver
   * nor delegate. `delegateTarget` is the object the delegate is bound to, if any.
   */
  datatype EventCallback = EventCallback(receiver: Option<ObjectId>, delegate: Option<ObjectId>, delegateTarget: Option<ObjectId>)
  {
    predicate HasDelegate() { delegate.Some? }

    /** The receiver must be kept alongside the delegate when it is not the delegate's own target. */
    predicate RequiresExplicitReceiver() { receiver.Some? && receiver != delegateTarget }
  }

  /** The runtime value passed to, or stored by, an attribute. */
  datatype Value =
    | Null
    | Str(s: string)
    | Bool(b: bool)
    | Delegate(d: ObjectId)
    | Callback(callback: EventCallback)
    | Other(obj: BoxedObject)

  datatype FrameKind =
    | ElementKind | TextKind | MarkupKind | AttributeKind | ComponentKind | RegionKind
    | ElementReferenceCaptureKind | ComponentReferenceCaptureKind

  /** The name the runtime gives a frame kind in its messages. */
  function KindName(k: FrameKind): string {
    match k
    case ElementKind => "Element"
    case TextKind => "Text"
    case MarkupKind => "Markup"
    case AttributeKind => "Attribute"
    case ComponentKind => "Component"
    case RegionKind => "Region"
    case ElementReferenceCaptureKind => "ElementReferenceCapture"
    case ComponentReferenceCaptureKind => "ComponentReferenceCapture"
  }

  /**
   * One frame of the flat render tree. Containers (Element, Component, Region) carry the
   * number of frames their subtree spans, themselves included; 0 means "still open".
   */
  datatype Frame =
    | Element(sequence: int, elementName: string, subtreeLength: nat, key: Option<ObjectId>)
    | Text(sequence: int, textContent: string)
    | Markup(sequence: int, markupContent: string)
    | Attribute(sequence: int, attributeName: string, attributeValue: Value)
    | Component(sequence: int, componentType: ObjectId, subtreeLength: nat, key: Option<ObjectId>)
    | Region(sequence: int, subtreeLength: nat)
    | ElementReferenceCapture(sequence: int, elementCaptureAction: ObjectId)
    | ComponentReferenceCapture(sequence: int, componentCaptureAction: ObjectId, parentFrameIndex: nat)
  {
    function Kind(): FrameKind {
      match this
      case Element(_, _, _, _) => ElementKind
      case Text(_, _) => TextKind
      case Markup(_, _) => MarkupKind
      case Attribute(_, _, _) => AttributeKind
      case Component(_, _, _, _) => ComponentKind
      case Region(_, _) => RegionKind
      case ElementReferenceCapture(_, _) => ElementReferenceCaptureKind
      case ComponentReferenceCapture(_, _, _) => ComponentReferenceCaptureKind
    }

    predicate IsContainer() { Element? || Component? || Region? }

    /** A container whose subtree length has not been patched yet. */
    predicate IsOpen() { IsContainer() && subtreeLength == 0 }

    predicate IsClosed() { IsContainer() && subtreeLength > 0 }

    /** Elements and components may own attributes, captures and a key; regions may not. */
    predicate IsAttributeOwner() { Element? || Component? }
  }

  /** Null text or markup content is rendered as the empty string. */
  function Normalize(s: Option<string>): string {
    s.GetOr("")
  }

  /** ASCII case folding, the part of ordinal case-insensitive comparison this model covers. */
  function FoldChar(c: char): char {
    if 'A' <= c <= 'Z' then (c as int - 'A' as int + 'a' as int) as char else c
  }

  function FoldName(s: string): (r: string)
    ensures |r| == |s|
  {
    if s == [] then [] else [FoldChar(s[0])] + FoldName(s[1..])
  }

  /** Attribute names are compared case-insensitively. */
  predicate SameName(a: string, b: string) {
    FoldName(a) == FoldName(b)
  }
}
