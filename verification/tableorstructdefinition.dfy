/**
 * The schema compiler's definition of a table or struct: the assignment of vtable indices
 * to its fields when the schema gives none, and the class attribute it is emitted with.
 */
module TableOrStructDefinition {
  import opened Wrappers
  import opened TypeModel
  import opened TableMemberModel
  import opened TableTypeModel

  const StructIdsMessage := "Structure fields may not have 'id' attribute set."
  const AllOrNoneMessage := "All or none fields should have 'id' attribute set."

  /**
   * A field of the definition. `isUnion` stands for the field's type name resolving to a
   * union definition; `index` is the vtable index the field is emitted with.
   */
  class FieldDefinition {
    var index: int
    const isIndexSetManually: bool
    const isUnion: bool

    constructor (index: int, isIndexSetManually: bool, isUnion: bool)
      ensures this.index == index && this.isIndexSetManually == isIndexSetManually && this.isUnion == isUnion
    {
      this.index := index;
      this.isIndexSetManually := isIndexSetManually;
      this.isUnion := isUnion;
    }
  }

  // ---------------------------------------------------------------- automatic indices

  /** The number of indices a field consumes: two for a union (type and value), else one. */
  function IndexWidth(isUnion: bool): nat
  {
    if isUnion then 2 else 1
  }

  /** The next free index after fields of the given kinds. */
  function NextIndex(unions: seq<bool>): nat
  {
    if unions == [] then 0
    else NextIndex(unions[..|unions| - 1]) + IndexWidth(unions[|unions| - 1])
  }

  /** The index each field receives when none has an explicit id. */
  function AutoIndexes(unions: seq<bool>): (r: seq<nat>)
    ensures |r| == |unions|
  {
    if unions == [] then []
    else AutoIndexes(unions[..|unions| - 1]) + [NextIndex(unions[..|unions| - 1])]
  }

  /** A field's automatic index is the number of indices consumed by the fields before it. */
  lemma {:induction false} AutoIndexAt(unions: seq<bool>, i: nat)
    requires i < |unions|
    ensures AutoIndexes(unions)[i] == NextIndex(unions[..i])
    decreases |unions|
  {
    var n := |unions| - 1;
    if i < n {
      AutoIndexAt(unions[..n], i);
      assert unions[..n][..i] == unions[..i];
    }
  }

  /** Numbering starts at 0, and each field's successor starts right after its indices. */
  lemma AutoIndexesStep(unions: seq<bool>, i: nat)
    requires i < |unions|
    ensures i == 0 ==> AutoIndexes(unions)[i] == 0
    ensures i + 1 < |unions| ==> AutoIndexes(unions)[i + 1] == AutoIndexes(unions)[i] + IndexWidth(unions[i])
  {
    AutoIndexAt(unions, i);
    if i + 1 < |unions| {
      AutoIndexAt(unions, i + 1);
      assert unions[..i + 1][..i] == unions[..i];
    }
  }

  /** The indices consumed up to a field never decrease along the fields. */
  lemma {:induction false} NextIndexGrows(unions: seq<bool>, i: nat, j: nat)
    requires i <= j <= |unions|
    ensures NextIndex(unions[..i]) + (j - i) <= NextIndex(unions[..j])
    decreases j - i
  {
    if i < j {
      NextIndexGrows(unions, i, j - 1);
      assert unions[..j][..j - 1] == unions[..j - 1];
    }
  }

  /**
   * A later field's index lies past every index of an earlier one, union value slot
   * included: automatic indices strictly increase and never collide.
   */
  lemma AutoIndexesSeparated(unions: seq<bool>, i: nat, j: nat)
    requires i < j < |unions|
    ensures AutoIndexes(unions)[i] + IndexWidth(unions[i]) <= AutoIndexes(unions)[j]
  {
    AutoIndexAt(unions, i);
    AutoIndexAt(unions, j);
    AutoIndexAt(unions, i + 1);
    assert unions[..i + 1][..i] == unions[..i];
    NextIndexGrows(unions, i + 1, j);
  }

  /**
   * Properties numbered automatically, each claiming one slot or two for a union, pass the
   * occupancy check of the table type model.
   */
  lemma AutoIndexesDoNotCollide(properties: seq<PropertyDecl>, unions: seq<bool>)
    requires |properties| == |unions|
    requires forall i :: 0 <= i < |properties| ==>
               properties[i].index as int == AutoIndexes(unions)[i]
               && |properties[i].itemType.physicalLayout| == IndexWidth(unions[i])
    ensures NoSlotCollision(properties)
  {
    forall i, j | 0 <= i < j < |properties| ensures PropSlots(properties[i]) !! PropSlots(properties[j]) {
      AutoIndexesSeparated(unions, i, j);
    }
  }

  /**
   * A table whose fields were numbered automatically is accepted by Initialize as soon as
   * its other checks pass: the numbering itself never causes a slot collision.
   */
  lemma AutoIndexedTableAccepted(decl: TableDecl, unions: seq<bool>)
    requires decl.hasTableAttribute && ValidFileIdentifier(decl.fileIdentifier) && decl.inheritable
    requires |decl.properties| > 0 && |decl.properties| == |unions|
    requires forall i :: 0 <= i < |decl.properties| ==> PropertyOk(decl.properties[i])
    requires AtMostOneKey(decl.properties)
    requires forall i :: 0 <= i < |decl.properties| ==>
               decl.properties[i].index as int == AutoIndexes(unions)[i]
               && |decl.properties[i].itemType.physicalLayout| == IndexWidth(unions[i])
    ensures Build(decl) == Ok(ShapeOf(decl.properties))
  {
    AutoIndexesDoNotCollide(decl.properties, unions);
    BuildAccepts(decl);
  }

  // ---------------------------------------------------------------- the definition

  /** The attribute the generated class carries. */
  datatype ClassAttribute = FlatBufferStruct | FlatBufferTable(fileIdentifier: Option<Utf16String>)

  class TableOrStructDefinition {
    var fields: seq<FieldDefinition>
    var isTable: bool
    var fileIdentifier: Option<Utf16String>

    constructor (fields: seq<FieldDefinition>, isTable: bool, fileIdentifier: Option<Utf16String>)
      ensures this.fields == fields && this.isTable == isTable && this.fileIdentifier == fileIdentifier
    {
      this.fields := fields;
      this.isTable := isTable;
      this.fileIdentifier := fileIdentifier;
    }

    /** Each field object appears once in the field list. */
    predicate DistinctFields()
      reads this
    {
      forall i, j :: 0 <= i < j < |fields| ==> fields[i] != fields[j]
    }

    function Unions(): (unions: seq<bool>)
      reads this
      ensures |unions| == |fields| && forall i :: 0 <= i < |fields| ==> unions[i] == fields[i].isUnion
    {
      seq(|fields|, i requires 0 <= i < |fields| reads this => fields[i].isUnion)
    }

    predicate AnyIndexSetManually()
      reads this
    {
      exists i :: 0 <= i < |fields| && fields[i].isIndexSetManually
    }

    predicate AllIndexesSetManually()
      reads this
    {
      forall i :: 0 <= i < |fields| ==> fields[i].isIndexSetManually
    }

    /**
     * Assigns vtable indices. When any field has an explicit id no index changes, and the
     * errors registered are that a struct may carry no ids and that ids are all-or-none;
     * otherwise fields are numbered from 0 in order, a union taking two indices.
     */
    method AssignIndexes() returns (errors: seq<string>)
      requires DistinctFields()
      modifies set i | 0 <= i < |fields| :: fields[i]
      ensures AnyIndexSetManually() ==>
                && errors == (if isTable then [] else [StructIdsMessage])
                             + (if AllIndexesSetManually() then [] else [AllOrNoneMessage])
                && forall i :: 0 <= i < |fields| ==> fields[i].index == old(fields[i].index)
      ensures !AnyIndexSetManually() ==>
                && errors == []
                && forall i :: 0 <= i < |fields| ==> fields[i].index == AutoIndexes(Unions())[i]
    {
      errors := [];
      var anyManual := exists i :: 0 <= i < |fields| && fields[i].isIndexSetManually;
      if anyManual {
        if !isTable {
          errors := errors + [StructIdsMessage];
        }
        var allManual := forall i :: 0 <= i < |fields| ==> fields[i].isIndexSetManually;
        if !allManual {
          errors := errors + [AllOrNoneMessage];
        }
        return;
      }
      ghost var unions := Unions();
      var nextIndex := 0;
      for k := 0 to |fields|
        invariant nextIndex == NextIndex(unions[..k])
        invariant forall i :: 0 <= i < k ==> fields[i].index == AutoIndexes(unions)[i]
        invariant forall i :: k <= i < |fields| ==> fields[i].index == old(fields[i].index)
      {
        var field := fields[k];
        AutoIndexAt(unions, k);
        assert forall i :: 0 <= i < |fields| && i != k ==> fields[i] != field;
        field.index := nextIndex;
        nextIndex := nextIndex + 1;
        if field.isUnion {
          nextIndex := nextIndex + 1;
        }
        assert unions[..k + 1][..k] == unions[..k];
      }
    }

    /** The attribute of the generated class: a file identifier only on a table, and only when non-empty. */
    function Attribute(): (a: ClassAttribute)
      reads this
      ensures !isTable <==> a == FlatBufferStruct
      ensures a.FlatBufferTable? ==>
                (a.fileIdentifier.Some? <==> fileIdentifier.Some? && fileIdentifier.value != [])
                && (a.fileIdentifier.Some? ==> a.fileIdentifier == fileIdentifier)
    {
      if !isTable then FlatBufferStruct
      else if fileIdentifier.None? || fileIdentifier.value == [] then FlatBufferTable(None)
      else FlatBufferTable(fileIdentifier)
    }
  }

  /**
   * Dropping an empty file identifier from the attribute does not change how the table type
   * model judges it: absent and empty identifiers are both accepted.
   */
  lemma AttributeKeepsFileIdentifierVerdict(fileIdentifier: Option<Utf16String>, a: ClassAttribute)
    requires a.FlatBufferTable?
    requires a.fileIdentifier.Some? <==> fileIdentifier.Some? && fileIdentifier.value != []
    requires a.fileIdentifier.Some? ==> a.fileIdentifier == fileIdentifier
    ensures FileIdentifierCheck(a.fileIdentifier) == FileIdentifierCheck(fileIdentifier)
  {
  }
}
