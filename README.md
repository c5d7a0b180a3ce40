# Render-tree builder and shared-memory batch reader, modelled in Dafny

This project models two pieces of the Blazor rendering core.

**The render-tree builder.** A component renders by calling a `RenderTreeBuilder`. The builder
appends tagged frames (Element, Component, Region, Text, Markup, Attribute, element and component
reference captures) to a growable buffer. It keeps a stack of open containers and patches each
container's subtree length when the container is closed. The builder's own source is not part of
this model. Its behaviour is taken from the test suite that pins it down call by call.

The model has three layers:

- **Reference semantics** (`RenderTreeSemantics`). `State` holds the frame buffer, the stack of open
  container indices, a bulk-call flag and the suppressed ("silent") attribute writes.
  - `Step` gives the effect of one call, as a new state or a `BuildError`.
  - `Run` gives the effect of a sequence of calls; the first rejected call ends the run.
  - `Settle` is the de-duplication pass run before the innermost container's scope changes.
    After a bulk `AddMultipleAttributes` call, it replaces the attribute run that follows the
    container's frame by its last-write-wins survivors (`AttributeDedup`).
- **The builder object** (`RenderTreeBuilding.RenderTreeBuilder`). A class whose fields are the
  buffer, the stack and the de-duplication bookkeeping. It has one method per builder call.
  - Every method is proved to end exactly as `Step` says (`Completes`).
  - Every method keeps the structural invariant `WellFormed` (`RenderTreeInvariants`): the stack
    lists exactly the open containers, closed containers nest, attributes and captures sit
    directly after their owner, and a pending bulk call has an owner.
  - The scans that decide placement, the compaction pass and the fragment loop are loops with
    invariants.
- **Properties.**
  - `RenderTreeProperties`: placement errors, value suppression, keys, normalisation and the
    de-duplication rules, stated over every starting state.
  - `RenderTreeShapes`: subtree lengths of arbitrary balanced trees, and fragments as regions.
  - `RenderTreeSessions` and `RenderTreeScenarios`: concrete sessions from the tests, with
    their exact frame sequences.

**The shared-memory batch reader** (`SharedMemoryRenderBatch`). Under Mono WebAssembly a render
batch is decoded straight out of the .NET heap.
- Each reader is a table: a struct length, and per accessor a byte offset and a field type.
- The platform's memory primitives are the fields of an abstract `Memory`.
- The model proves that every field fits its struct and that the batch's four ranges are disjoint.
- It proves that aliasing between accessors is confined to the fields the layout shares.
- Array entries are assumed to sit at `base + index * stride` (the platform's `getArrayEntryPtr`). From that formula it proves that entries are pairwise disjoint and lie inside their array.
- It proves that every read depends only on the bytes of its own field.

## Model

Paths are relative to the repository root.

| member | source | states |
|---|---|---|
| RenderTreeBuilding.RenderTreeBuilder.constructor | src/Components/Components/test/RenderTreeBuilderTest.cs:29-38 | a new builder holds no frames and no open container, and satisfies the structural invariant |
| RenderTreeBuilding.RenderTreeBuilder.Create | src/Components/Components/test/RenderTreeBuilderTest.cs:20-26 | creation fails exactly when the renderer is null; otherwise the builder is fresh, empty and well formed |
| RenderTreeBuilding.RenderTreeBuilder.GetFrames | src/Components/Components/test/RenderTreeBuilderTest.cs:29-38 | returns the frames built so far |
| RenderTreeBuilding.RenderTreeBuilder.OpenElement | src/Components/Components/test/RenderTreeBuilderTest.cs:134-145 | settles pending de-duplication, appends an Element frame with subtree length 0 and pushes its index; the invariant holds afterwards |
| RenderTreeBuilding.RenderTreeBuilder.OpenComponent | src/Components/Components/test/RenderTreeBuilderTest.cs:489-541 | the same for a Component frame carrying the component type |
| RenderTreeBuilding.RenderTreeBuilder.OpenRegion | src/Components/Components/test/RenderTreeBuilderTest.cs:544-569 | the same for a Region frame |
| RenderTreeBuilding.RenderTreeBuilder.CloseElement | src/Components/Components/test/RenderTreeBuilderTest.cs:148-181 | ends as `Close` says: the open element's subtree length becomes one plus the frames after it and the stack is popped; with no open container or another kind open it fails and changes nothing |
| RenderTreeBuilding.RenderTreeBuilder.CloseComponent | src/Components/Components/test/RenderTreeBuilderTest.cs:489-541 | the same for the open Component |
| RenderTreeBuilding.RenderTreeBuilder.CloseRegion | src/Components/Components/test/RenderTreeBuilderTest.cs:544-569 | the same for the open Region |
| RenderTreeBuilding.RenderTreeBuilder.Clear | src/Components/Components/test/RenderTreeBuilderTest.cs:777-791 | whatever the builder held, it ends empty with no open container |
| RenderTreeBuilding.RenderTreeBuilder.AddContent | src/Components/Components/test/RenderTreeBuilderTest.cs:41-58 | appends exactly one text frame; null text becomes the empty string |
| RenderTreeBuilding.RenderTreeBuilder.AddObjectContent | src/Components/Components/test/RenderTreeBuilderTest.cs:116-131 | appends one text frame holding the object's text form, empty for null |
| RenderTreeBuilding.RenderTreeBuilder.AddMarkupStringContent | src/Components/Components/test/RenderTreeBuilderTest.cs:81-98 | appends one markup frame; null markup becomes the empty string |
| RenderTreeBuilding.RenderTreeBuilder.AddMarkupContent | src/Components/Components/test/RenderTreeBuilderTest.cs:61-113 | appends one markup frame; null markup becomes the empty string |
| RenderTreeBuilding.RenderTreeBuilder.AddFragment | src/Components/Components/test/RenderTreeBuilderTest.cs:572-596 | a null fragment adds nothing; otherwise the fragment's calls run inside a fresh region, which is closed after them, and the first failing call's error is reported |
| RenderTreeBuilding.RenderTreeBuilder.RunFragment | src/Components/Components/test/RenderTreeBuilderTest.cs:572-596 | opens a region, runs the calls and closes the region, ending as `Step` says for fragment content |
| RenderTreeBuilding.RenderTreeBuilder.RunCalls | src/Components/Components/test/RenderTreeBuilderTest.cs:572-596 | applies the calls in order and ends where `Run` ends, or with the error of the first call that fails |
| RenderTreeBuilding.RenderTreeBuilder.Apply | src/Components/Components/test/RenderTreeBuilderTest.cs:572-596 | any call, as a fragment's delegate makes it, ends as `Step` says and keeps the invariant |
| RenderTreeBuilding.RenderTreeBuilder.AttributesAllowed | src/Components/Components/test/RenderTreeBuilderTest.cs:389-486 | the backward scan answers exactly whether an attribute may go next: an Element or Component is open and only attribute frames follow it |
| RenderTreeBuilding.RenderTreeBuilder.CapturesAllowed | src/Components/Components/test/RenderTreeBuilderTest.cs:621-659 | the backward scan answers exactly whether a capture of the given kind may go next |
| RenderTreeBuilding.RenderTreeBuilder.AddAttribute | src/Components/Components/test/RenderTreeBuilderTest.cs:224-248 | succeeds exactly when attributes are allowed, writing the value as an Element or a Component stores it; otherwise fails and changes nothing |
| RenderTreeBuilding.RenderTreeBuilder.AddMultipleAttributes | src/Components/Components/test/RenderTreeBuilderTest.cs:251-386 | succeeds exactly when attributes are allowed; a null set changes nothing; otherwise every pair is written in order and de-duplication becomes pending |
| RenderTreeBuilding.RenderTreeBuilder.AddElementReferenceCapture | src/Components/Components/test/RenderTreeBuilderTest.cs:599-685 | succeeds exactly when an Element is open with only attribute-like frames after it, appending the capture; otherwise fails and changes nothing |
| RenderTreeBuilding.RenderTreeBuilder.AddComponentReferenceCapture | src/Components/Components/test/RenderTreeBuilderTest.cs:688-774 | succeeds exactly when a Component is open with only attribute-like frames after it, appending a capture that records the component's buffer index |
| RenderTreeBuilding.RenderTreeBuilder.SetKey | src/Components/Components/test/RenderTreeBuilderTest.cs:1479-1600 | ends as `SetKeyOn` says: null is ignored, the key goes on the open Element or Component, and at the root or in a Region the call fails and changes nothing |
| RenderTreeBuilding.RenderTreeBuilder.ProcessDuplicateAttributes | src/Components/Components/test/RenderTreeBuilderTest.cs:1603-1809 | compacting the attribute run and splicing the compacted run back into the buffer leaves exactly the state `Settle` describes |
| RenderTreeBuilding.RenderTreeBuilder.OpenFrame | src/Components/Components/test/RenderTreeBuilderTest.cs:134-145 | settles pending de-duplication, appends the container frame and pushes its index, ending exactly in `Open` of the state before |
| RenderTreeBuilding.RenderTreeBuilder.CloseFrame | src/Components/Components/test/RenderTreeBuilderTest.cs:148-181 | closes the innermost container when it is of the given kind, ending as `Close` says; with no open container or another kind it fails with that error and changes nothing |
| RenderTreeBuilding.RenderTreeBuilder.WriteAttributeFrame | src/Components/Components/test/RenderTreeBuilderTest.cs:224-248 | one allowed attribute write ends exactly as `WriteAttribute` says: a frame holding the stored value, or a remembered suppressed write |
| RenderTreeBuilding.RenderTreeBuilder.WriteAttributeFrames | src/Components/Components/test/RenderTreeBuilderTest.cs:251-386 | the loop over a bulk set ends exactly as `WriteAll` says: the pairs written one by one in enumeration order |
| AttributeDedup.Compact | src/Components/Components/test/RenderTreeBuilderTest.cs:1777-1809 | the single backward scan keeps exactly the last-write-wins survivors `Dedup` defines |
| AttributeDedup.LatestSilentWrites | src/Components/Components/test/RenderTreeBuilderTest.cs:1724-1744 | the map holds, per case-insensitive name, a position beyond an index exactly when a suppressed write of that name came after it |
| AttributeDedup.SurvivorsOrigin | src/Components/Components/test/RenderTreeBuilderTest.cs:1777-1809 | every kept frame is a frame of the run that no later write overwrites |
| AttributeDedup.SurvivorsComplete | src/Components/Components/test/RenderTreeBuilderTest.cs:1677-1720 | every frame that no later write overwrites is kept |
| AttributeDedup.SurvivorsInOrder | src/Components/Components/test/RenderTreeBuilderTest.cs:269-309 | kept frames keep the relative order of their winning writes |
| AttributeDedup.SurvivorsDistinct | src/Components/Components/test/RenderTreeBuilderTest.cs:1677-1720 | no two kept frames share a case-insensitive name |
| AttributeDedup.LastFrameWriteSurvives | src/Components/Components/test/RenderTreeBuilderTest.cs:1724-1744 | a frame no later write overwrites is kept, and it is the only kept frame of its name, so name casing and value come from that last write |
| AttributeDedup.SuppressedLastWriteRemovesName | src/Components/Components/test/RenderTreeBuilderTest.cs:1777-1809 | a suppressed write after every frame of its name leaves no frame of that name |
| AttributeDedup.DedupShrinks | src/Components/Components/test/RenderTreeBuilderTest.cs:1777-1809 | de-duplication only removes attribute frames, so the run never grows |
| AttributeDedup.DedupKeeps | src/Components/Components/test/RenderTreeBuilderTest.cs:1677-1809 | the de-duplicated run is a distinct-name, order-keeping sub-sequence of the run that contains every frame no later write overwrites, and only such frames |
| RenderTreeSemantics.Open | src/Components/Components/test/RenderTreeBuilderTest.cs:134-145 | the opened frame is last in the buffer and on top of the stack, with no pending de-duplication |
| RenderTreeSemantics.Close | src/Components/Components/test/RenderTreeBuilderTest.cs:148-221 | fails with no open container or a kind mismatch; otherwise pops, sets the container's subtree length to the frames from it to the end of the buffer, and keeps earlier frames |
| RenderTreeSemantics.Settle | src/Components/Components/test/RenderTreeBuilderTest.cs:1603-1674 | the pass keeps the stack, resets the bookkeeping, never grows the buffer, keeps the frames up to the container, and changes nothing without a bulk call |
| RenderTreeSemantics.WriteAttribute | src/Components/Components/test/RenderTreeBuilderTest.cs:224-248 | one attribute write only appends, at most one frame, keeps the same open container and stack, and attributes are still allowed after it |
| RenderTreeSemantics.WriteAll | src/Components/Components/test/RenderTreeBuilderTest.cs:251-386 | a bulk set only appends, at most one frame per pair, keeps the container and stack, and attributes are still allowed after it |
| RenderTreeSemantics.SetKeyOn | src/Components/Components/test/RenderTreeBuilderTest.cs:1479-1600 | a null key changes nothing; at the root the call fails with `KeyOutsideContainer`; on a container that is not an Element or Component it fails naming that kind; otherwise only the owner frame's key changes and the stack and bookkeeping stay |
| RenderTreeSemantics.Step | src/Components/Components/test/RenderTreeBuilderTest.cs:389-774 | a rejected call fails with an error its own rule names: a close error for a close, `AttributeNotAllowed` for attributes, the matching capture error for captures, a key error for a key, and for a fragment an error of one of its calls or of its region's close; opening and adding text or markup never fail |
| RenderTreeSemantics.Run | src/Components/Components/test/RenderTreeBuilderTest.cs:184-221 | a run of calls that fails, fails with an error raised by one of its calls |
| RenderTreeSemantics.RunEnd | src/Components/Components/test/RenderTreeBuilderTest.cs:1625-1674 | the run scanned for de-duplication ends at the first frame that is not an attribute |
| RenderTreeSemantics.ElementValue | src/Components/Components/test/RenderTreeBuilderTest.cs:794-1476 | an Element drops exactly false, null and a callback without a delegate; what it keeps is never null or false |
| RenderTreeSemantics.KeyErrorMessage | src/Components/Components/test/RenderTreeBuilderTest.cs:1531-1558 | a key at the root gives "Cannot set a key outside the scope of a component or element.", and a key on a Region gives "Cannot set a key on a frame of type Region."; any other kind is named the same way |
| RenderTreeRuns.RunConcat | src/Components/Components/test/RenderTreeBuilderTest.cs:184-221 | a run of two call sequences is the second run started where the first ended; an error in the first ends it |
| RenderTreeInvariants.EmptyWellFormed | src/Components/Components/test/RenderTreeBuilderTest.cs:29-38 | the empty builder satisfies the structural invariant |
| RenderTreeInvariants.OpenWellFormed | src/Components/Components/test/RenderTreeBuilderTest.cs:184-221 | opening a container keeps the invariant |
| RenderTreeInvariants.CloseWellFormed | src/Components/Components/test/RenderTreeBuilderTest.cs:148-221 | a successful close keeps the invariant, so closed containers nest inside each other |
| RenderTreeInvariants.SettleWellFormed | src/Components/Components/test/RenderTreeBuilderTest.cs:1677-1809 | compacting the attribute run keeps the invariant |
| RenderTreeInvariants.SetKeyWellFormed | src/Components/Components/test/RenderTreeBuilderTest.cs:1479-1528 | storing a key keeps the invariant |
| RenderTreeInvariants.WriteAttributeWellFormed | src/Components/Components/test/RenderTreeBuilderTest.cs:224-248 | writing an allowed attribute keeps the invariant |
| RenderTreeInvariants.WriteAllWellFormed | src/Components/Components/test/RenderTreeBuilderTest.cs:312-386 | writing a bulk attribute set keeps the invariant |
| RenderTreeInvariants.CaptureWellFormed | src/Components/Components/test/RenderTreeBuilderTest.cs:599-774 | appending an allowed reference capture keeps the invariant |
| RenderTreeInvariants.StepWellFormed | src/Components/Components/test/RenderTreeBuilderTest.cs:184-221 | every accepted call keeps the invariant |
| RenderTreeInvariants.RunWellFormed | src/Components/Components/test/RenderTreeBuilderTest.cs:184-221 | every accepted call sequence keeps the invariant |
| RenderTreeProperties.JustOpened | src/Components/Components/test/RenderTreeBuilderTest.cs:599-707 | right after an open, attributes are allowed exactly for an Element or Component, and a capture exactly for its own kind |
| RenderTreeProperties.NothingAttachesAtRoot | src/Components/Components/test/RenderTreeBuilderTest.cs:389-412 | with no open container, attributes, bulk attributes and both captures fail; the bulk case follows the builder's documented rule that attributes need an open Element or Component, since no test exercises it |
| RenderTreeProperties.ElementCaptureAtRootRejected | src/Components/Components/test/RenderTreeBuilderTest.cs:621-631 | on a new builder, an element reference capture fails |
| RenderTreeProperties.ComponentCaptureAtRootRejected | src/Components/Components/test/RenderTreeBuilderTest.cs:710-720 | on a new builder, a component reference capture fails |
| RenderTreeProperties.AttributeAfterTextRejected | src/Components/Components/test/RenderTreeBuilderTest.cs:415-442 | an attribute after a text frame in an element fails |
| RenderTreeProperties.AttributeInRegionRejected | src/Components/Components/test/RenderTreeBuilderTest.cs:445-456 | an attribute directly inside a region fails |
| RenderTreeProperties.AttributeAfterElementCaptureRejected | src/Components/Components/test/RenderTreeBuilderTest.cs:459-471 | an attribute after an element reference capture fails |
| RenderTreeProperties.AttributeAfterComponentCaptureRejected | src/Components/Components/test/RenderTreeBuilderTest.cs:474-486 | an attribute after a component reference capture fails |
| RenderTreeProperties.ElementCaptureOutsideElementRejected | src/Components/Components/test/RenderTreeBuilderTest.cs:634-659 | an element capture directly inside a component or a region fails |
| RenderTreeProperties.ComponentCaptureOutsideComponentRejected | src/Components/Components/test/RenderTreeBuilderTest.cs:723-748 | a component capture directly inside an element or a region fails |
| RenderTreeProperties.CaptureAfterOpenAccepted | src/Components/Components/test/RenderTreeBuilderTest.cs:599-707 | a capture right after its own kind of container is appended, a component capture recording the component's index |
| RenderTreeProperties.NullTextIsEmpty | src/Components/Components/test/RenderTreeBuilderTest.cs:116-131 | null text and a null object each still add one text frame, with empty content |
| RenderTreeProperties.NullMarkupIsEmpty | src/Components/Components/test/RenderTreeBuilderTest.cs:101-113 | null markup, given either way, still adds one markup frame, with empty content |
| RenderTreeProperties.UnclosedReportsZero | src/Components/Components/test/RenderTreeBuilderTest.cs:134-145 | an element just opened reports subtree length 0 |
| RenderTreeProperties.ElementDropsSuppressedValues | src/Components/Components/test/RenderTreeBuilderTest.cs:812-975 | on an Element, false, null and an empty callback add no frame and are remembered as a silent write |
| RenderTreeProperties.ElementKeepsOtherValues | src/Components/Components/test/RenderTreeBuilderTest.cs:794-1476 | on an Element, every other value adds exactly one attribute frame holding its stored form |
| RenderTreeProperties.ComponentBindsEveryValue | src/Components/Components/test/RenderTreeBuilderTest.cs:831-1402 | on a Component, every value, false and null included, adds one frame holding it as given |
| RenderTreeProperties.DroppedAttributeLeavesLengthOne | src/Components/Components/test/RenderTreeBuilderTest.cs:812-826 | an element whose only attribute was false closes with subtree length 1 |
| RenderTreeProperties.NullKeyIgnored | src/Components/Components/test/RenderTreeBuilderTest.cs:1561-1600 | a null key leaves the state as it was |
| RenderTreeProperties.KeyStoredOnOwner | src/Components/Components/test/RenderTreeBuilderTest.cs:1479-1528 | a key goes onto the open Element or Component frame; every other frame, the stack and the bookkeeping stay, so attributes may still follow |
| RenderTreeProperties.KeyAtRootRejected | src/Components/Components/test/RenderTreeBuilderTest.cs:1531-1542 | a key at the root fails with the runtime's exact message |
| RenderTreeProperties.KeyInRegionRejected | src/Components/Components/test/RenderTreeBuilderTest.cs:1545-1558 | a key directly inside a region fails with the exact message naming Region |
| RenderTreeProperties.NullBulkSetAddsNothing | src/Components/Components/test/RenderTreeBuilderTest.cs:251-266 | a null bulk set leaves the state as it was |
| RenderTreeProperties.BulkKeepsEnumerationOrder | src/Components/Components/test/RenderTreeBuilderTest.cs:312-386 | a bulk set whose values all bind appends one frame per pair, in enumeration order |
| RenderTreeProperties.NoBulkCallKeepsDuplicates | src/Components/Components/test/RenderTreeBuilderTest.cs:1603-1621 | without a bulk call the pass changes no frame, so duplicate names all stay |
| RenderTreeProperties.SettleCompactsRun | src/Components/Components/test/RenderTreeBuilderTest.cs:1625-1809 | after a bulk call only the attribute run up to the first capture or content frame is replaced, by its de-duplication `Dedup`: distinct-name, order-keeping survivors that include every frame no later write overwrites and nothing else |
| RenderTreeProperties.ClearEmpties | src/Components/Components/test/RenderTreeBuilderTest.cs:777-791 | clearing empties the buffer and the stack from any state |
| RenderTreeShapes.BuildsForest | src/Components/Components/test/RenderTreeBuilderTest.cs:184-221 | balanced calls for any forest of text, elements with attributes, components with parameters and regions append exactly its frames, each container's subtree length being one plus the frames nested under it |
| RenderTreeShapes.BuildsNode | src/Components/Components/test/RenderTreeBuilderTest.cs:148-221 | one node's calls append exactly that node's frames |
| RenderTreeShapes.BuildsElement | src/Components/Components/test/RenderTreeBuilderTest.cs:148-181 | an element appends its frame, with length one plus attributes and descendants, then attributes, then children |
| RenderTreeShapes.BuildsRegion | src/Components/Components/test/RenderTreeBuilderTest.cs:544-569 | a region appends its frame, with length one plus descendants, then its children |
| RenderTreeShapes.BuildsComponent | src/Components/Components/test/RenderTreeBuilderTest.cs:489-541 | a component appends its frame, with length one plus its parameters, then one attribute frame per parameter holding the value as given |
| RenderTreeShapes.WritesParameters | src/Components/Components/test/RenderTreeBuilderTest.cs:831-846 | parameter writes on a component append one frame each, false included |
| RenderTreeShapes.Encloses | src/Components/Components/test/RenderTreeBuilderTest.cs:148-221 | a container whose content calls append a body is closed by the matching call with subtree length one plus the body |
| RenderTreeShapes.WritesAttributes | src/Components/Components/test/RenderTreeBuilderTest.cs:224-248 | plain attribute writes on an element append one frame each, duplicates included |
| RenderTreeShapes.FragmentIsRegion | src/Components/Components/test/RenderTreeBuilderTest.cs:572-596 | a fragment building a forest yields the same frames as an explicit region around it |
| RenderTreeSessions.ClosedElementsHaveCorrectSubtreeLength | src/Components/Components/test/RenderTreeBuilderTest.cs:165-181 | the session yields the element with length 3, its two texts, then the unrelated text |
| RenderTreeSessions.ElementKeepsTrueAttribute | src/Components/Components/test/RenderTreeBuilderTest.cs:794-809 | on an element, true yields an attribute frame and length 2 |
| RenderTreeSessions.ElementDropsFalseAttribute | src/Components/Components/test/RenderTreeBuilderTest.cs:812-826 | on an element, false yields no frame and length 1 |
| RenderTreeSessions.ComponentBindsFalse | src/Components/Components/test/RenderTreeBuilderTest.cs:831-846 | on a component, false is bound as a frame |
| RenderTreeScenarios.StartsEmpty | src/Components/Components/test/RenderTreeBuilderTest.cs:29-38 | a new builder object reports no frames |
| RenderTreeScenarios.RequiresNonnullRenderer | src/Components/Components/test/RenderTreeBuilderTest.cs:20-26 | no builder object is created without a renderer |
| RenderTreeScenarios.UnclosedElementsHaveNoSubtreeLength | src/Components/Components/test/RenderTreeBuilderTest.cs:134-145 | a builder object with one open element reports that element with length 0 |
| SharedMemoryRenderBatch.ReadIsLocal | src/Components/Web.JS/src/Rendering/RenderBatch/SharedMemoryRenderBatch.ts:62-112 | a read depends on its own field's bytes and nothing else, so decoding the same address twice gives the same datum |
| SharedMemoryRenderBatch.Read | src/Components/Web.JS/src/Rendering/RenderBatch/SharedMemoryRenderBatch.ts:62-112 | an int32 read yields a 32-bit value, an int16 read a 16-bit value, an object read a reference, a string read text, and a struct read the inline struct at base plus offset |
| SharedMemoryRenderBatch.ReadArrayRange | src/Components/Web.JS/src/Rendering/RenderBatch/SharedMemoryRenderBatch.ts:62-66 | `values` yields an array reference and `count` a 32-bit number |
| SharedMemoryRenderBatch.ReadSegment | src/Components/Web.JS/src/Rendering/RenderBatch/SharedMemoryRenderBatch.ts:69-79 | `builder` yields an object reference, `offset` and `count` 32-bit numbers |
| SharedMemoryRenderBatch.ReadDiff | src/Components/Web.JS/src/Rendering/RenderBatch/SharedMemoryRenderBatch.ts:82-85 | `componentId` yields a 32-bit number, and `edits` the segment stored inline 4 bytes into the diff |
| SharedMemoryRenderBatch.ReadEdit | src/Components/Web.JS/src/Rendering/RenderBatch/SharedMemoryRenderBatch.ts:90-97 | the removed attribute name yields text, every other edit accessor a 32-bit number |
| SharedMemoryRenderBatch.ReadFrame | src/Components/Web.JS/src/Rendering/RenderBatch/SharedMemoryRenderBatch.ts:100-112 | the frame type yields a 16-bit number, subtree length, component id and event-handler id 32-bit numbers, and the name, content, capture-id and value accessors text |
| SharedMemoryRenderBatch.ArrayEntry | src/Components/Web.JS/src/Rendering/RenderBatch/SharedMemoryRenderBatch.ts:114-116 | entry 0 is the array's first entry, and each entry ends exactly where the next one starts |
| SharedMemoryRenderBatch.EntriesDisjoint | src/Components/Web.JS/src/Rendering/RenderBatch/SharedMemoryRenderBatch.ts:114-116 | distinct entries of one array occupy disjoint bytes |
| SharedMemoryRenderBatch.EntryInsideArray | src/Components/Web.JS/src/Rendering/RenderBatch/SharedMemoryRenderBatch.ts:114-116 | entries below the count lie inside the array's `count * itemSize` bytes |
| SharedMemoryRenderBatch.ArrayRangeField | src/Components/Web.JS/src/Rendering/RenderBatch/SharedMemoryRenderBatch.ts:62-66 | both array-range fields fit its 8 bytes |
| SharedMemoryRenderBatch.ArrayRangeTiles | src/Components/Web.JS/src/Rendering/RenderBatch/SharedMemoryRenderBatch.ts:62-66 | the values reference and the count tile the 8 bytes without overlap |
| SharedMemoryRenderBatch.SegmentField | src/Components/Web.JS/src/Rendering/RenderBatch/SharedMemoryRenderBatch.ts:69-79 | the three segment fields fit its 12 bytes |
| SharedMemoryRenderBatch.SegmentValuesIsLocal | src/Components/Web.JS/src/Rendering/RenderBatch/SharedMemoryRenderBatch.ts:71-76 | the items array read through a segment depends only on the segment's builder field, the builder object's fields base and that object's first field |
| SharedMemoryRenderBatch.SegmentTiles | src/Components/Web.JS/src/Rendering/RenderBatch/SharedMemoryRenderBatch.ts:69-79 | builder, offset and count tile the 12 bytes in that order |
| SharedMemoryRenderBatch.DiffField | src/Components/Web.JS/src/Rendering/RenderBatch/SharedMemoryRenderBatch.ts:82-87 | both diff fields fit its 16 bytes |
| SharedMemoryRenderBatch.DiffLayout | src/Components/Web.JS/src/Rendering/RenderBatch/SharedMemoryRenderBatch.ts:82-87 | the id takes bytes 0 to 4 and the inline edit segment bytes 4 to 16, without overlap |
| SharedMemoryRenderBatch.DiffEditsFieldsInsideDiff | src/Components/Web.JS/src/Rendering/RenderBatch/SharedMemoryRenderBatch.ts:82-85 | every segment field read through a diff lies after the id and inside the diff |
| SharedMemoryRenderBatch.EditField | src/Components/Web.JS/src/Rendering/RenderBatch/SharedMemoryRenderBatch.ts:90-97 | every edit field fits its 20 bytes |
| SharedMemoryRenderBatch.EditAliasing | src/Components/Web.JS/src/Rendering/RenderBatch/SharedMemoryRenderBatch.ts:90-97 | the only overlapping edit accessors are the new-tree and move-to-sibling indices, which read the same field |
| SharedMemoryRenderBatch.FrameField | src/Components/Web.JS/src/Rendering/RenderBatch/SharedMemoryRenderBatch.ts:100-112 | every frame field fits its 36 bytes |
| SharedMemoryRenderBatch.FrameAliasing | src/Components/Web.JS/src/Rendering/RenderBatch/SharedMemoryRenderBatch.ts:100-112 | offset 16 is read exactly by the five string accessors, offset 8 by subtree length and event-handler id, offset 24 only by the attribute value, and overlapping accessors read the same field |
| SharedMemoryRenderBatch.Range | src/Components/Web.JS/src/Rendering/RenderBatch/SharedMemoryRenderBatch.ts:16-30 | every range of a batch is a whole 8-byte array range inside the batch's first 32 bytes |
| SharedMemoryRenderBatch.BatchRangesDisjoint | src/Components/Web.JS/src/Rendering/RenderBatch/SharedMemoryRenderBatch.ts:16-30 | range `k` is at `k * 8` from the batch's address, and the four ranges are pairwise disjoint |
| SharedMemoryRenderBatch.EntryStrides | src/Components/Web.JS/src/Rendering/RenderBatch/SharedMemoryRenderBatch.ts:32-48 | records only which stride each entry accessor passes: the diff, frame or edit length, or 4 for the id arrays |
| SharedMemoryRenderBatch.UpdatedComponentsEntry | src/Components/Web.JS/src/Rendering/RenderBatch/SharedMemoryRenderBatch.ts:32-34 | each diff entry ends exactly where the next one starts |
| SharedMemoryRenderBatch.ReferenceFramesEntry | src/Components/Web.JS/src/Rendering/RenderBatch/SharedMemoryRenderBatch.ts:36-38 | each frame entry ends exactly where the next one starts |
| SharedMemoryRenderBatch.DisposedComponentIdsEntry | src/Components/Web.JS/src/Rendering/RenderBatch/SharedMemoryRenderBatch.ts:40-43 | a disposed component id is a 32-bit number |
| SharedMemoryRenderBatch.DisposedEventHandlerIdsEntry | src/Components/Web.JS/src/Rendering/RenderBatch/SharedMemoryRenderBatch.ts:45-48 | a disposed event-handler id is a 32-bit number |
| SharedMemoryRenderBatch.IdEntriesAreLocal | src/Components/Web.JS/src/Rendering/RenderBatch/SharedMemoryRenderBatch.ts:40-48 | the id read at an entry depends only on the array and the 4 bytes of that entry |
| SharedMemoryRenderBatch.DiffEditsEntry | src/Components/Web.JS/src/Rendering/RenderBatch/SharedMemoryRenderBatch.ts:86 | each edit entry ends exactly where the next one starts |

## Left out

- The builder's own source is not part of this model. Its behaviour is taken from the test suite, and from the builder's documented rules where the tests are silent.
- Closing a container of another kind than the open one: the tests do not exercise this. The model rejects it with `CloseMismatch` and leaves the state unchanged.
- A rejected call: the runtime throws `InvalidOperationException`, and the model returns a `Fail` outcome instead. A single rejected call leaves the state as it was. A fragment whose content fails does not: its region frame and the frames its earlier calls wrote stay, as they do when the runtime's exception leaves the fragment's delegate. `AddFragment`, `RunCalls` and `Apply` promise nothing about the state after a failure, since the tests never look at it.
- Suppressed attribute writes are remembered from the container's opening, whether or not a bulk call came first. They only matter once a bulk call is pending. The tests exercise them only after a bulk call.
- Delegates, event handlers and `EventCallback` values are opaque tokens with an "has a delegate" flag and an optional receiver. The builder only stores them and never invokes them.
- Object-to-string conversion (`1234` shown as `"1234"`) is an abstract display string carried by the boxed object.
- A `RenderFragment` is modelled as the list of builder calls its delegate makes, spliced inside a Region.
- The `AddAttribute` overloads are collapsed into one call taking a `Value`. A bulk attribute set is a sequence of name/value pairs in enumeration order. The dictionary's own key comparer is not modelled.
- Case-insensitive names use ASCII case folding only. Ordinal ignore-case comparison of other characters is not modelled.
- Sequence numbers are stored but not validated. Duplicate keys among siblings are not checked.
- The growable buffer is a sequence. Its capacity growth and the reuse of its storage after `Clear` are not modelled.
- Test scaffolding is not modelled: renderers, dispatchers, service providers, loggers, mocks and component lifecycle. A renderer is an opaque token, and only its null check is kept.
- Concrete sessions are replayed for the subtree-length and boolean-attribute tests. The other tests (nesting, regions, fragments, captures, keys, interspersed bulk attributes and the de-duplication sessions) are covered by the lemmas over every starting state in `RenderTreeProperties`, `RenderTreeShapes` and `AttributeDedup`, not by replaying their exact frame lists.
- The platform's memory primitives (`readStructField`, `readInt32Field`, `readInt16Field`, `readStringField`, `readObjectField`, `getObjectFieldsBaseAddress`) are Mono WebAssembly foreign calls. They are the fields of the abstract `Memory`.
- ArrayEntry: `getArrayEntryPtr` is a foreign call too. The model assumes it returns `arrayData(array) + index * itemSize`, entries packed with no gaps. `EntriesDisjoint`, `EntryInsideArray` and `EntryStrides` rest on that assumption.
- `readStructField` is modelled as the address of the inline struct (`base + offset`), the reading the batch's nested layouts rely on.
- The object-header layout behind the segment's double dereference is a single abstract `fieldsBase` read.
- Addresses are unbounded integers: 32-bit pointer wrap-around is not modelled. The byte encoding of the integers read is not modelled; a read yields a value in the 16- or 32-bit range.
- The diffing algorithm that produces the edits is not modelled; only the layout they are read through is.
