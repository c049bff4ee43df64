/**
 * The string type model: a string is written by reference through one 4-byte uoffset slot,
 * may be a table, union or vector member and a sorted-vector key, and is compared in
 * sorted vectors by the string span comparer.
 */
module StringTypeModel {
  import opened Wrappers
  import opened TypeModel
  import opened TableMemberModel
  import opened TableTypeModel

  /** The span comparers the type models can name. */
  datatype SpanComparerType = StringSpanComparer

  /** The string descriptor; a string accepts no declared default and is null when absent. */
  function Descriptor(): (t: TypeModel)
    ensures t.schemaType == String && t.physicalLayout == [LayoutElement(4, 4)]
    ensures !t.isFixedSize && !t.serializesInline
    ensures !t.isValidStructMember && t.isValidTableMember && t.isValidUnionMember && t.isValidVectorMember
    ensures t.isValidSortedVectorKey && t.hasSpanComparer
    ensures WellFormed(t)
  {
    TypeModel(
      schemaType := String,
      physicalLayout := ReferenceLayout,
      isFixedSize := false,
      serializesInline := false,
      isValidStructMember := false,
      isValidTableMember := true,
      isValidUnionMember := true,
      isValidVectorMember := true,
      isValidSortedVectorKey := true,
      hasSpanComparer := true,
      maxInlineSize := ReferenceMaxInlineSize,
      defaultValueKinds := {},
      implicitDefault := Null,
      vectorElement := None,
      tableKey := None)
  }

  /** The span comparer lookup always succeeds, with the string comparer. */
  function TryGetSpanComparerType(): (comparer: Option<SpanComparerType>)
    ensures comparer.Some? <==> Descriptor().hasSpanComparer
    ensures comparer == Some(StringSpanComparer)
  {
    Some(StringSpanComparer)
  }

  /** The generated clone of a string: strings are immutable, so the clone is the string itself. */
  function Clone(s: string): (r: string)
    ensures r == s
  {
    s
  }

  /** A string member claims exactly one slot, so reads use the single-width rule. */
  lemma StringMemberIsSingleWidth(m: TableMember)
    requires m.itemType == Descriptor()
    ensures Width(m) == 1 && Slots(m) == {m.index as int}
  {
    assert m.index as int in Slots(m);
  }

  /** A string property constructs as a table member exactly when it declares no default. */
  lemma StringMemberConstruction(name: string, index: u16, defaultValue: Option<Value>,
                                  isSortedVector: bool, isKey: bool, isDeprecated: bool)
    ensures NewTableMember(name, Descriptor(), index, defaultValue, isSortedVector, isKey, isDeprecated).Ok?
            <==> defaultValue.None?
    ensures defaultValue.Some? ==>
              NewTableMember(name, Descriptor(), index, defaultValue, isSortedVector, isKey, isDeprecated)
              == Err(InvalidDefaultValue(name))
  {
  }

  /**
   * The first string member declared as key of a table passes every key check; the checks
   * that remain are the ones about the member itself (a second key, deprecation).
   */
  lemma StringKeyPassesKeyCheck(keyMember: Option<TableMember>, m: TableMember)
    requires m.itemType == Descriptor() && m.isKey
    ensures KeyCheck(keyMember, m).Pass? <==> keyMember.None? && !m.isDeprecated
    ensures keyMember.Some? ==> KeyCheck(keyMember, m) == Fail(DuplicateKey)
    ensures keyMember.None? && m.isDeprecated ==> KeyCheck(keyMember, m) == Fail(KeyDeprecated)
  {
  }

  /**
   * A sorted vector of a table keyed by a string passes the sorted-vector checks: the
   * element is a table, it has a key, the key has a span comparer and one slot.
   */
  lemma StringKeyedSortedVectorPasses(m: TableMember, element: TableShape)
    requires m.isSortedVector && m.itemType.schemaType == Vector
    requires m.itemType.vectorElement == Some(TableDescriptor(element))
    requires element.keyMember.Some? && element.keyMember.value.itemType == Descriptor()
    ensures ValidateSortedVector(m) == Pass
  {
  }

  /** Without a key member, the same sorted vector is rejected for lacking one. */
  lemma UnkeyedSortedVectorFails(m: TableMember, element: TableShape)
    requires m.isSortedVector && m.itemType.schemaType == Vector
    requires m.itemType.vectorElement == Some(TableDescriptor(element))
    requires element.keyMember.None?
    ensures ValidateSortedVector(m) == Fail(SortedVectorElementWithoutKey(m.name))
  {
  }
}
