/**
 * The pieces shared by every type model: the physical layout a type occupies in a
 * vtable, the descriptor record that the container hands to the table layout engine,
 * the definition errors, and the alignment arithmetic the generated code relies on.
 */
module TypeModel {
  import opened Wrappers

  /** An unsigned byte of the wire buffer. */
  type byte = x: int | 0 <= x < 0x100

  /** An unsigned 16-bit value (a vtable entry). */
  type u16 = x: int | 0 <= x < 0x1_0000

  /** A .NET string as its length and indexer see it: a sequence of UTF-16 code units. */
  type Utf16String = seq<u16>

  /** A strictly positive alignment. */
  type Alignment = x: int | x >= 1 witness 1

  /** The schema shape a type model describes. */
  datatype SchemaType = Scalar | String | Struct | Table | Vector | Union | Enum

  /** One vtable slot's worth of inline data: its width and its alignment. */
  datatype LayoutElement = LayoutElement(inlineSize: nat, alignment: Alignment)

  /** A property value as the generated code sees it (only equality matters to the layout). */
  datatype Value = Null | Number(n: int) | Text(s: string) | Flag(b: bool) | Ref(id: nat)

  /** The kinds of literal a schema may declare as a default value. */
  datatype ValueKind = NumberKind | TextKind | FlagKind

  function KindOf(v: Value): Option<ValueKind>
  {
    match v
    case Number(_) => Some(NumberKind)
    case Text(_) => Some(TextKind)
    case Flag(_) => Some(FlagKind)
    case _ => None
  }

  /**
   * The descriptor of one logical type. `tableKey` is, for a table type, the item type of
   * its key member when it has one; `vectorElement` is, for a vector type, its element type.
   * `defaultValueKinds` are the literal kinds the type accepts as a declared default and
   * `implicitDefault` is the value a member of this type has when no default is declared.
   */
  datatype TypeModel = TypeModel(
    schemaType: SchemaType,
    physicalLayout: seq<LayoutElement>,
    isFixedSize: bool,
    serializesInline: bool,
    isValidStructMember: bool,
    isValidTableMember: bool,
    isValidUnionMember: bool,
    isValidVectorMember: bool,
    isValidSortedVectorKey: bool,
    hasSpanComparer: bool,
    maxInlineSize: nat,
    defaultValueKinds: set<ValueKind>,
    implicitDefault: Value,
    vectorElement: Option<TypeModel>,
    tableKey: Option<TypeModel>)

  /** Whether `v` is accepted as the declared default of a member of type `t`. */
  predicate ValidateDefaultValue(t: TypeModel, v: Value)
  {
    KindOf(v).Some? && KindOf(v).value in t.defaultValueKinds
  }

  /** The largest padding an alignment can require. */
  function MaxPadding(alignment: Alignment): (pad: nat)
    ensures pad < alignment
  {
    alignment - 1
  }

  /**
   * The padding that brings `offset` up to the next multiple of `alignment`; for the
   * power-of-two alignments FlatBuffers uses this equals `(~offset + 1) & (alignment - 1)`.
   */
  function AlignmentError(offset: int, alignment: Alignment): (pad: nat)
    ensures pad <= MaxPadding(alignment)
    ensures (offset + pad) % alignment == 0
  {
    var r := offset % alignment;
    if r == 0 then 0
    else
      assert offset + (alignment - r) == alignment * (offset / alignment + 1);
      MultipleIsAligned(offset / alignment + 1, alignment);
      alignment - r
  }

  lemma MultipleIsAligned(k: int, alignment: Alignment)
    ensures (alignment * k) % alignment == 0
  {
    var x := alignment * k;
    assert x == alignment * (x / alignment) + x % alignment;
    var d := k - x / alignment;
    assert alignment * d == x % alignment;
  }

  /** The worst-case inline bytes of a layout: each slot's width plus its largest padding. */
  function LayoutWorstCase(layout: seq<LayoutElement>): nat
  {
    if layout == [] then 0
    else LayoutWorstCase(layout[..|layout| - 1])
         + layout[|layout| - 1].inlineSize + MaxPadding(layout[|layout| - 1].alignment)
  }

  /**
   * What every type model built by the container satisfies: at least one slot, and a
   * maximum inline size that covers the worst case of its layout.
   */
  predicate WellFormed(t: TypeModel)
  {
    |t.physicalLayout| >= 1 && t.maxInlineSize >= LayoutWorstCase(t.physicalLayout)
  }

  /** The layout of a type written by reference: one uoffset slot of 4 bytes aligned to 4. */
  const ReferenceLayout := [LayoutElement(4, 4)]

  /** The maximum inline size of a reference slot: 4 bytes plus up to 3 bytes of padding. */
  const ReferenceMaxInlineSize := 7

  /** The definition errors the layout engine raises or registers. */
  datatype DefinitionError =
    | MissingTableAttribute
    | FileIdentifierLength(identifier: Utf16String)
    | FileIdentifierNonAscii(identifier: Utf16String, c: u16)
    | NotInheritable
    | NoProperties
    | NotValidTableMember(property: string)
    | InvalidDefaultValue(property: string)
    | DuplicateKey
    | KeyNotSortable
    | KeyWithoutSpanComparer
    | KeyDeprecated
    | SortedVectorNotVector(property: string)
    | SortedVectorNoElementType(property: string)
    | SortedVectorElementNotTable(property: string)
    | SortedVectorElementWithoutKey(property: string)
    | SortedVectorKeyWithoutSpanComparer(property: string)
    | SortedVectorKeyNotSingleSlot(property: string)
    | SlotOccupied(index: int)
}
