/**
 * The fixed-layout reader through which a render batch is decoded straight out of shared memory.
 * Each reader is a table: the length of the struct it reads, and per accessor the field's byte
 * offset and type. The platform's memory primitives are the fields of `Memory`, total functions
 * of an address; everything else is offset arithmetic, and nothing here writes memory.
 */
module SharedMemoryRenderBatch {
  import opened Wrappers

  type Address = int

  newtype Int32 = x: int | -0x8000_0000 <= x < 0x8000_0000
  newtype Int16 = x: int | -0x8000 <= x < 0x8000

  /**
   * The platform's view of memory: the 32- and 16-bit integers stored at an address, the object
   * reference stored at an address, the string a string field at an address refers to (None
   * for a null string), the address of an object's first field, and the address of an array's
   * first entry.
   */
  datatype Memory = Memory(
    int32At: Address -> Int32,
    int16At: Address -> Int16,
    referenceAt: Address -> Address,
    stringAt: Address -> Option<string>,
    fieldsBase: Address -> Address,
    arrayData: Address -> Address)

  /** Width in bytes of an integer and of a reference. */
  const Int32Width: nat := 4
  const Int16Width: nat := 2
  const ReferenceWidth: nat := 4

  /** What a field holds: an integer, a reference, a string reference, or a struct stored inline. */
  datatype FieldType = Int32Field | Int16Field | ObjectField | StringField | StructField(length: nat)

  datatype Field = Field(offset: nat, fieldType: FieldType)

  function Width(t: FieldType): nat {
    match t
    case Int32Field => Int32Width
    case Int16Field => Int16Width
    case ObjectField => ReferenceWidth
    case StringField => ReferenceWidth
    case StructField(length) => length
  }

  /** The bytes a field occupies, relative to the start of its struct. */
  function End(f: Field): nat { f.offset + Width(f.fieldType) }

  predicate Within(f: Field, structLength: nat) { End(f) <= structLength }

  predicate Overlap(f: Field, g: Field) { f.offset < End(g) && g.offset < End(f) }

  /** The value a read produces. */
  datatype Datum = Number(n: int) | Reference(address: Address) | Text(text: Option<string>) | Struct(address: Address)

  /**
   * Reads `f` of the struct at `address`: an integer, reference or string is fetched from
   * memory, and a struct field stands for its own address, since that struct is stored inline.
   */
  function Read(m: Memory, address: Address, f: Field): (d: Datum)
    ensures f.fieldType.Int32Field? ==> d.Number? && -0x8000_0000 <= d.n < 0x8000_0000
    ensures f.fieldType.Int16Field? ==> d.Number? && -0x8000 <= d.n < 0x8000
    ensures f.fieldType.ObjectField? ==> d.Reference?
    ensures f.fieldType.StringField? ==> d.Text?
    ensures f.fieldType.StructField? ==> d.Struct? && d.address == address + f.offset
  {
    var at := address + f.offset;
    match f.fieldType
    case Int32Field => Number(m.int32At(at) as int)
    case Int16Field => Number(m.int16At(at) as int)
    case ObjectField => Reference(m.referenceAt(at))
    case StringField => Text(m.stringAt(at))
    case StructField(_) => Struct(at)
  }

  /** Two memories agree on the bytes of field `f` of the struct at `address`. */
  predicate AgreeAt(m1: Memory, m2: Memory, address: Address, f: Field) {
    var at := address + f.offset;
    match f.fieldType
    case Int32Field => m1.int32At(at) == m2.int32At(at)
    case Int16Field => m1.int16At(at) == m2.int16At(at)
    case ObjectField => m1.referenceAt(at) == m2.referenceAt(at)
    case StringField => m1.stringAt(at) == m2.stringAt(at)
    case StructField(_) => true
  }

  /** A read depends on its own field and on nothing else in memory. */
  lemma ReadIsLocal(m1: Memory, m2: Memory, address: Address, f: Field)
    requires AgreeAt(m1, m2, address, f)
    ensures Read(m1, address, f) == Read(m2, address, f)
  {}

  /**
   * The address of entry `index` of an array whose entries are `itemSize` bytes wide, as the
   * platform's `getArrayEntryPtr` computes it; the model takes the entries to be packed from
   * the array's first entry with no gaps.
   */
  function ArrayEntry(m: Memory, arrayObject: Address, index: int, itemSize: nat): (entry: Address)
    ensures index == 0 ==> entry == m.arrayData(arrayObject)
    ensures entry + itemSize == m.arrayData(arrayObject) + (index + 1) * itemSize
  {
    assert (index + 1) * itemSize == index * itemSize + itemSize;
    m.arrayData(arrayObject) + index * itemSize
  }

  /** Distinct entries of one array occupy disjoint bytes. */
  lemma {:induction false} EntriesDisjoint(m: Memory, arrayObject: Address, i: int, j: int, itemSize: nat)
    requires i != j && itemSize > 0
    ensures ArrayEntry(m, arrayObject, i, itemSize) + itemSize <= ArrayEntry(m, arrayObject, j, itemSize)
         || ArrayEntry(m, arrayObject, j, itemSize) + itemSize <= ArrayEntry(m, arrayObject, i, itemSize)
  {
    if i < j {
      MultiplyGap(i, j, itemSize);
    } else {
      MultiplyGap(j, i, itemSize);
    }
  }

  /** Entries `0 <= index < count` lie inside the `count * itemSize` bytes after the first entry. */
  lemma {:induction false} EntryInsideArray(m: Memory, arrayObject: Address, index: int, count: nat, itemSize: nat)
    requires 0 <= index < count
    ensures m.arrayData(arrayObject) <= ArrayEntry(m, arrayObject, index, itemSize)
    ensures ArrayEntry(m, arrayObject, index, itemSize) + itemSize <= m.arrayData(arrayObject) + count * itemSize
  {
    MultiplyGap(index, count, itemSize);
    assert 0 <= index * itemSize by {
      MultiplyGap(0, index + 1, itemSize);
    }
  }

  lemma {:induction false} MultiplyGap(i: int, j: int, k: nat)
    requires i < j
    ensures i * k + k <= j * k
  {
    var d := j - i - 1;
    assert d * k >= 0;
    assert j * k == i * k + d * k + k;
  }

  // ArrayRange<T>: an array and the number of entries in use.

  const ArrayRangeLength: nat := 8

  datatype ArrayRangeAccessor = RangeValues | RangeCount

  function ArrayRangeField(a: ArrayRangeAccessor): (f: Field)
    ensures Within(f, ArrayRangeLength)
  {
    match a
    case RangeValues => Field(0, ObjectField)
    case RangeCount => Field(4, Int32Field)
  }

  function ReadArrayRange(m: Memory, range: Address, a: ArrayRangeAccessor): (d: Datum)
    ensures a == RangeValues ==> d.Reference?
    ensures a == RangeCount ==> d.Number? && -0x8000_0000 <= d.n < 0x8000_0000
  {
    Read(m, range, ArrayRangeField(a))
  }

  /** The two fields of an array range fill its eight bytes exactly and do not overlap. */
  lemma ArrayRangeTiles()
    ensures End(ArrayRangeField(RangeValues)) == ArrayRangeField(RangeCount).offset
    ensures ArrayRangeField(RangeValues).offset == 0 && End(ArrayRangeField(RangeCount)) == ArrayRangeLength
    ensures !Overlap(ArrayRangeField(RangeValues), ArrayRangeField(RangeCount))
  {}

  // ArrayBuilderSegment<T>: a builder whose items array holds the entries, an offset and a count.

  const SegmentLength: nat := 12

  datatype SegmentAccessor = SegmentBuilder | SegmentOffset | SegmentCount

  function SegmentField(a: SegmentAccessor): (f: Field)
    ensures Within(f, SegmentLength)
  {
    match a
    case SegmentBuilder => Field(0, ObjectField)
    case SegmentOffset => Field(4, Int32Field)
    case SegmentCount => Field(8, Int32Field)
  }

  function ReadSegment(m: Memory, segment: Address, a: SegmentAccessor): (d: Datum)
    ensures a == SegmentBuilder ==> d.Reference?
    ensures a != SegmentBuilder ==> d.Number? && -0x8000_0000 <= d.n < 0x8000_0000
  {
    Read(m, segment, SegmentField(a))
  }

  /** The builder's items array, its first field. */
  const BuilderItemsField := Field(0, ObjectField)

  /**
   * The segment's entries: the builder's reference is read from the segment, and the items
   * array from the builder's first field.
   */
  function SegmentValues(m: Memory, segment: Address): Address {
    var builder := ReadSegment(m, segment, SegmentBuilder).address;
    Read(m, m.fieldsBase(builder), BuilderItemsField).address
  }

  /**
   * The two dereferences behind a segment's entries depend on the segment's builder field, on
   * where that builder's fields start and on its items field, and on no other memory: offset
   * and count do not take part.
   */
  lemma SegmentValuesIsLocal(m1: Memory, m2: Memory, segment: Address)
    requires AgreeAt(m1, m2, segment, SegmentField(SegmentBuilder))
    requires var builder := ReadSegment(m1, segment, SegmentBuilder).address;
             m1.fieldsBase(builder) == m2.fieldsBase(builder)
             && AgreeAt(m1, m2, m1.fieldsBase(builder), BuilderItemsField)
    ensures SegmentValues(m1, segment) == SegmentValues(m2, segment)
  {
    ReadIsLocal(m1, m2, segment, SegmentField(SegmentBuilder));
    var builder := ReadSegment(m1, segment, SegmentBuilder).address;
    ReadIsLocal(m1, m2, m1.fieldsBase(builder), BuilderItemsField);
  }

  /** Builder reference, offset and count fill the segment's twelve bytes in that order. */
  lemma SegmentTiles()
    ensures SegmentField(SegmentBuilder).offset == 0
    ensures End(SegmentField(SegmentBuilder)) == SegmentField(SegmentOffset).offset
    ensures End(SegmentField(SegmentOffset)) == SegmentField(SegmentCount).offset
    ensures End(SegmentField(SegmentCount)) == SegmentLength
  {}

  // RenderTreeDiff: the component's id followed by the segment of its edits, stored inline.

  const DiffLength: nat := 4 + SegmentLength

  datatype DiffAccessor = DiffComponentId | DiffEdits

  function DiffField(a: DiffAccessor): (f: Field)
    ensures Within(f, DiffLength)
  {
    match a
    case DiffComponentId => Field(0, Int32Field)
    case DiffEdits => Field(4, StructField(SegmentLength))
  }

  function ReadDiff(m: Memory, diff: Address, a: DiffAccessor): (d: Datum)
    ensures a == DiffComponentId ==> d.Number? && -0x8000_0000 <= d.n < 0x8000_0000
    ensures a == DiffEdits ==> d == Struct(diff + 4)
  {
    Read(m, diff, DiffField(a))
  }

  /** Entry `index` of an array of edits; it ends where the next edit begins. */
  function DiffEditsEntry(m: Memory, values: Address, index: int): (edit: Address)
    ensures edit + EditLength == ArrayEntry(m, values, index + 1, EditLength)
  {
    ArrayEntry(m, values, index, EditLength)
  }

  /** The id takes bytes [0, 4) of a diff and the edit segment bytes [4, 16). */
  lemma DiffLayout()
    ensures DiffLength == 16
    ensures DiffField(DiffComponentId).offset == 0 && End(DiffField(DiffComponentId)) == 4
    ensures DiffField(DiffEdits).offset == 4 && End(DiffField(DiffEdits)) == DiffLength
    ensures !Overlap(DiffField(DiffComponentId), DiffField(DiffEdits))
  {}

  /** Every field of the edit segment, read through the diff, lies inside the diff's bytes. */
  lemma DiffEditsFieldsInsideDiff(m: Memory, diff: Address, a: SegmentAccessor)
    ensures var segment := ReadDiff(m, diff, DiffEdits).address;
            && diff + End(DiffField(DiffComponentId)) <= segment + SegmentField(a).offset
            && segment + End(SegmentField(a)) <= diff + DiffLength
  {}

  // RenderTreeEdit.

  const EditLength: nat := 20

  datatype EditAccessor = EditType | SiblingIndex | NewTreeIndex | MoveToSiblingIndex | RemovedAttributeName

  function EditField(a: EditAccessor): (f: Field)
    ensures Within(f, EditLength)
  {
    match a
    case EditType => Field(0, Int32Field)
    case SiblingIndex => Field(4, Int32Field)
    case NewTreeIndex => Field(8, Int32Field)
    case MoveToSiblingIndex => Field(8, Int32Field)
    case RemovedAttributeName => Field(16, StringField)
  }

  function ReadEdit(m: Memory, edit: Address, a: EditAccessor): (d: Datum)
    ensures a != RemovedAttributeName ==> d.Number? && -0x8000_0000 <= d.n < 0x8000_0000
    ensures a == RemovedAttributeName ==> d.Text?
  {
    Read(m, edit, EditField(a))
  }

  /**
   * The only accessors of an edit that share bytes are the new-tree index and the
   * move-to-sibling index, which read the same field.
   */
  lemma EditAliasing()
    ensures forall a, b :: a != b && Overlap(EditField(a), EditField(b)) <==>
                           (a == NewTreeIndex && b == MoveToSiblingIndex) || (a == MoveToSiblingIndex && b == NewTreeIndex)
    ensures EditField(NewTreeIndex) == EditField(MoveToSiblingIndex)
  {}

  // RenderTreeFrame.

  const FrameLength: nat := 36

  datatype FrameAccessor =
    | FrameType | SubtreeLength | ElementReferenceCaptureId | ComponentId | ElementName
    | TextContent | MarkupContent | AttributeName | AttributeValue | AttributeEventHandlerId

  function FrameField(a: FrameAccessor): (f: Field)
    ensures Within(f, FrameLength)
  {
    match a
    case FrameType => Field(4, Int16Field)
    case SubtreeLength => Field(8, Int32Field)
    case ElementReferenceCaptureId => Field(16, StringField)
    case ComponentId => Field(12, Int32Field)
    case ElementName => Field(16, StringField)
    case TextContent => Field(16, StringField)
    case MarkupContent => Field(16, StringField)
    case AttributeName => Field(16, StringField)
    case AttributeValue => Field(24, StringField)
    case AttributeEventHandlerId => Field(8, Int32Field)
  }

  function ReadFrame(m: Memory, frame: Address, a: FrameAccessor): (d: Datum)
    ensures a == FrameType ==> d.Number? && -0x8000 <= d.n < 0x8000
    ensures a == SubtreeLength || a == ComponentId || a == AttributeEventHandlerId ==>
              d.Number? && -0x8000_0000 <= d.n < 0x8000_0000
    ensures ReadsStringSlot(a) || a == AttributeValue ==> d.Text?
  {
    Read(m, frame, FrameField(a))
  }

  /** The accessors that read the string field at offset 16. */
  predicate ReadsStringSlot(a: FrameAccessor) {
    a.ElementReferenceCaptureId? || a.ElementName? || a.TextContent? || a.MarkupContent? || a.AttributeName?
  }

  /**
   * Aliasing in a frame is confined to the documented groups: the five string accessors share
   * offset 16, subtree length and event-handler id share offset 8, the attribute value alone
   * reads offset 24, and accessors that share any byte read exactly the same field.
   */
  lemma FrameAliasing()
    ensures forall a :: FrameField(a).offset == 16 <==> ReadsStringSlot(a)
    ensures forall a :: FrameField(a).offset == 8 <==> a == SubtreeLength || a == AttributeEventHandlerId
    ensures forall a :: FrameField(a).offset == 24 <==> a == AttributeValue
    ensures forall a, b :: Overlap(FrameField(a), FrameField(b)) ==> FrameField(a) == FrameField(b)
  {}

  // The batch: four array ranges stored one after the other.

  /** The reader over a batch, fixed to the batch's address when it is created. */
  datatype RenderBatch = RenderBatch(batchAddress: Address)

  datatype BatchRange = UpdatedComponents | ReferenceFrames | DisposedComponentIds | DisposedEventHandlerIds

  function RangeIndex(r: BatchRange): (k: nat)
    ensures k < 4
  {
    match r
    case UpdatedComponents => 0
    case ReferenceFrames => 1
    case DisposedComponentIds => 2
    case DisposedEventHandlerIds => 3
  }

  function BatchField(r: BatchRange): Field {
    Field(ArrayRangeLength * RangeIndex(r), StructField(ArrayRangeLength))
  }

  /** The array range of the batch that `r` names, stored inline in the batch's first 32 bytes. */
  function Range(m: Memory, batch: RenderBatch, r: BatchRange): (range: Address)
    ensures batch.batchAddress <= range && range + ArrayRangeLength <= batch.batchAddress + 32
    ensures (range - batch.batchAddress) % ArrayRangeLength == 0
  {
    Read(m, batch.batchAddress, BatchField(r)).address
  }

  /**
   * The four ranges of a batch are stored one after the other in declaration order, the `k`-th at
   * `k` range lengths from the batch's address, so they occupy pairwise disjoint bytes.
   */
  lemma BatchRangesDisjoint(m: Memory, batch: RenderBatch, r1: BatchRange, r2: BatchRange)
    requires r1 != r2
    ensures Range(m, batch, r1) == batch.batchAddress + ArrayRangeLength * RangeIndex(r1)
    ensures Range(m, batch, r1) + ArrayRangeLength <= Range(m, batch, r2)
         || Range(m, batch, r2) + ArrayRangeLength <= Range(m, batch, r1)
  {}

  /** Entry `index` of the updated components, a diff; it ends where the next diff begins. */
  function UpdatedComponentsEntry(m: Memory, values: Address, index: int): (diff: Address)
    ensures diff + DiffLength == ArrayEntry(m, values, index + 1, DiffLength)
  {
    ArrayEntry(m, values, index, DiffLength)
  }

  /** Entry `index` of the reference frames, a frame; it ends where the next frame begins. */
  function ReferenceFramesEntry(m: Memory, values: Address, index: int): (frame: Address)
    ensures frame + FrameLength == ArrayEntry(m, values, index + 1, FrameLength)
  {
    ArrayEntry(m, values, index, FrameLength)
  }

  /** The id stored in entry `index` of an array of 32-bit integers. */
  const IdField := Field(0, Int32Field)

  /** Entry `index` of the disposed component ids, a 32-bit integer read at the entry's address. */
  function DisposedComponentIdsEntry(m: Memory, values: Address, index: int): (id: int)
    ensures -0x8000_0000 <= id < 0x8000_0000
  {
    Read(m, ArrayEntry(m, values, index, Int32Width), IdField).n
  }

  /** Entry `index` of the disposed event-handler ids, a 32-bit integer read at the entry's address. */
  function DisposedEventHandlerIdsEntry(m: Memory, values: Address, index: int): (id: int)
    ensures -0x8000_0000 <= id < 0x8000_0000
  {
    Read(m, ArrayEntry(m, values, index, Int32Width), IdField).n
  }

  /**
   * An id entry depends only on the 32-bit integer at its own address: two memories that place
   * the array's entries at the same address and agree on that integer give the same id.
   */
  lemma IdEntriesAreLocal(m1: Memory, m2: Memory, values: Address, index: int)
    requires m1.arrayData(values) == m2.arrayData(values)
    requires AgreeAt(m1, m2, ArrayEntry(m1, values, index, Int32Width), IdField)
    ensures DisposedComponentIdsEntry(m1, values, index) == DisposedComponentIdsEntry(m2, values, index)
    ensures DisposedEventHandlerIdsEntry(m1, values, index) == DisposedEventHandlerIdsEntry(m2, values, index)
  {
    ReadIsLocal(m1, m2, ArrayEntry(m1, values, index, Int32Width), IdField);
  }

  /**
   * Each entry accessor addresses `base + index * stride`, the stride being the length of the
   * struct it reads or the width of an int for the id arrays.
   */
  lemma EntryStrides(m: Memory, values: Address, index: int)
    ensures UpdatedComponentsEntry(m, values, index) == m.arrayData(values) + index * DiffLength
    ensures ReferenceFramesEntry(m, values, index) == m.arrayData(values) + index * FrameLength
    ensures DiffEditsEntry(m, values, index) == m.arrayData(values) + index * EditLength
    ensures DisposedComponentIdsEntry(m, values, index) == m.int32At(m.arrayData(values) + index * 4) as int
    ensures DisposedEventHandlerIdsEntry(m, values, index) == m.int32At(m.arrayData(values) + index * 4) as int
  {}
}
