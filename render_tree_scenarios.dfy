/**
 * Concrete sessions with a `RenderTreeBuilder` object and the frames they leave in its buffer.
 */
module RenderTreeScenarios {
  import opened Wrappers
  import opened RenderTreeFrames
  import opened RenderTreeSemantics
  import opened RenderTreeBuilding

  /** A fresh builder has no frames. */
  method StartsEmpty() returns (frames: seq<Frame>)
    ensures frames == []
  {
    var builder := new RenderTreeBuilder(1);
    frames := builder.GetFrames();
  }

  /** A builder cannot be created without a renderer. */
  method RequiresNonnullRenderer() returns (created: bool)
    ensures !created
  {
    var builder := RenderTreeBuilder.Create(None);
    created := builder.Some?;
  }

  /** An element left open reports subtree length 0. */
  method UnclosedElementsHaveNoSubtreeLength() returns (frames: seq<Frame>)
    ensures frames == [Element(0, "my element", 0, None)]
  {
    var builder := new RenderTreeBuilder(1);
    builder.OpenElement(0, "my element");
    frames := builder.GetFrames();
  }
}
