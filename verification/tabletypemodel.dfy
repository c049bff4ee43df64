/**
 * The definition side of a table type model: validation of the file identifier, of the
 * key member and of sorted-vector members, and the vtable slot map built by Initialize.
 */
module TableTypeModel {
  import opened Wrappers
  import opened TypeModel
  import opened TableMemberModel

  const FileIdentifierSize := 4

  /** A [FlatBufferItem] property as the container reports it, with its resolved type model. */
  datatype PropertyDecl = PropertyDecl(
    name: string,
    itemType: TypeModel,
    index: u16,
    defaultValue: Option<Value>,
    sortedVector: bool,
    key: bool,
    deprecated: bool)

  /**
   * The class a table type model is built from. `hasTableAttribute` and `inheritable`
   * stand for the attribute lookup and the class-shape checks done through reflection.
   */
  datatype TableDecl = TableDecl(
    hasTableAttribute: bool,
    fileIdentifier: Option<Utf16String>,
    inheritable: bool,
    properties: seq<PropertyDecl>)

  /** The state Initialize builds: occupied slots, members in insertion order, key member. */
  datatype TableShape = TableShape(
    occupied: set<int>,
    members: seq<TableMember>,
    keyMember: Option<TableMember>)

  const EmptyShape := TableShape({}, [], None)

  // ---------------------------------------------------------------- file identifier

  /** A file identifier is absent, empty, or exactly four UTF-16 code units below 128. */
  predicate ValidFileIdentifier(fileIdentifier: Option<Utf16String>)
  {
    match fileIdentifier
    case None => true
    case Some(s) => s == [] || (|s| == FileIdentifierSize && forall i :: 0 <= i < |s| ==> s[i] as int < 128)
  }

  /** The position of the first code unit of `s` that is 128 or more. */
  function NonAsciiIndex(s: Utf16String): (r: Option<nat>)
    ensures r.Some? ==> r.value < |s| && s[r.value] as int >= 128
                        && forall k :: 0 <= k < r.value ==> s[k] as int < 128
    ensures r.None? ==> forall k :: 0 <= k < |s| ==> s[k] as int < 128
  {
    if s == [] then None
    else if s[0] as int >= 128 then Some(0)
    else
      match NonAsciiIndex(s[1..])
      case None => None
      case Some(j) => Some(j + 1)
  }

  /** The error ValidateFileIdentifier reports, if any. */
  function FileIdentifierCheck(fileIdentifier: Option<Utf16String>): (r: Outcome<DefinitionError>)
    ensures r.Pass? <==> ValidFileIdentifier(fileIdentifier)
  {
    match fileIdentifier
    case None => Pass
    case Some(s) =>
      if s == [] then Pass
      else if |s| != FileIdentifierSize then Fail(FileIdentifierLength(s))
      else
        match NonAsciiIndex(s)
        case None => Pass
        case Some(j) => Fail(FileIdentifierNonAscii(s, s[j]))
  }

  /**
   * Checks a file identifier character by character; the error names the first
   * character whose code is 128 or more.
   */
  method ValidateFileIdentifier(fileIdentifier: Option<Utf16String>) returns (outcome: Outcome<DefinitionError>)
    ensures outcome == FileIdentifierCheck(fileIdentifier)
    ensures outcome.Pass? <==> ValidFileIdentifier(fileIdentifier)
  {
    outcome := Pass;
    if fileIdentifier.Some? && fileIdentifier.value != [] {
      var s := fileIdentifier.value;
      if |s| != FileIdentifierSize {
        return Fail(FileIdentifierLength(s));
      }
      for i := 0 to |s|
        invariant forall k :: 0 <= k < i ==> s[k] as int < 128
      {
        var c := s[i];
        if c as int >= 128 {
          return Fail(FileIdentifierNonAscii(s, c));
        }
      }
    }
  }

  // ---------------------------------------------------------------- sorted vectors and keys

  /**
   * A sorted-vector member wraps a vector whose element type is a table with a key, and
   * that key has a span comparer and occupies exactly one slot.
   */
  predicate SortedVectorOk(m: TableMember)
  {
    m.isSortedVector ==>
      && m.itemType.schemaType == Vector
      && m.itemType.vectorElement.Some?
      && m.itemType.vectorElement.value.schemaType == Table
      && m.itemType.vectorElement.value.tableKey.Some?
      && m.itemType.vectorElement.value.tableKey.value.hasSpanComparer
      && |m.itemType.vectorElement.value.tableKey.value.physicalLayout| == 1
  }

  /** The checks ValidateSortedVector makes, in its order; other members pass untouched. */
  function ValidateSortedVector(m: TableMember): (r: Outcome<DefinitionError>)
    ensures r.Pass? <==> SortedVectorOk(m)
    ensures !m.isSortedVector ==> r == Pass
  {
    if !m.isSortedVector then Pass
    else if m.itemType.schemaType != Vector then Fail(SortedVectorNotVector(m.name))
    else if m.itemType.vectorElement.None? then Fail(SortedVectorNoElementType(m.name))
    else
      var element := m.itemType.vectorElement.value;
      if element.schemaType != Table then Fail(SortedVectorElementNotTable(m.name))
      else if element.tableKey.None? then Fail(SortedVectorElementWithoutKey(m.name))
      else if !element.tableKey.value.hasSpanComparer then Fail(SortedVectorKeyWithoutSpanComparer(m.name))
      else if |element.tableKey.value.physicalLayout| != 1 then Fail(SortedVectorKeyNotSingleSlot(m.name))
      else Pass
  }

  /** The key checks of Initialize for a member declared as key, given the key found so far. */
  function KeyCheck(keyMember: Option<TableMember>, m: TableMember): (r: Outcome<DefinitionError>)
    ensures r.Pass? <==>
              (m.isKey ==> keyMember.None? && m.itemType.isValidSortedVectorKey
                           && m.itemType.hasSpanComparer && !m.isDeprecated)
    ensures m.isKey && keyMember.Some? ==> r == Fail(DuplicateKey)
  {
    if !m.isKey then Pass
    else if keyMember.Some? then Fail(DuplicateKey)
    else if !m.itemType.isValidSortedVectorKey then Fail(KeyNotSortable)
    else if !m.itemType.hasSpanComparer then Fail(KeyWithoutSpanComparer)
    else if m.isDeprecated then Fail(KeyDeprecated)
    else Pass
  }

  // ---------------------------------------------------------------- the slot map

  predicate PropertyTypesWellFormed(properties: seq<PropertyDecl>)
  {
    forall i :: 0 <= i < |properties| ==> WellFormed(properties[i].itemType)
  }

  /** The member a property becomes once its constructor checks pass. */
  function ToMember(p: PropertyDecl): TableMember
  {
    TableMember(p.name, p.itemType, p.index, p.defaultValue, p.sortedVector, p.key, p.deprecated)
  }

  /** One iteration of Initialize's loop over the properties. */
  function AddProperty(s: TableShape, p: PropertyDecl): (r: Result<TableShape, DefinitionError>)
    ensures r.Ok? <==> PropertyOk(p) && (p.key ==> s.keyMember.None?) && PropSlots(p) * s.occupied == {}
    ensures r.Ok? ==>
              r.value == TableShape(s.occupied + PropSlots(p), s.members + [ToMember(p)],
                                    if p.key then Some(ToMember(p)) else s.keyMember)
  {
    match NewTableMember(p.name, p.itemType, p.index, p.defaultValue, p.sortedVector, p.key, p.deprecated)
    case Err(e) => Err(e)
    case Ok(m) =>
      match KeyCheck(s.keyMember, m)
      case Fail(e) => Err(e)
      case Pass =>
        match ValidateSortedVector(m)
        case Fail(e) => Err(e)
        case Pass =>
          if Slots(m) * s.occupied != {} then Err(SlotOccupied(m.index as int))
          else Ok(TableShape(s.occupied + Slots(m), s.members + [m], if m.isKey then Some(m) else s.keyMember))
  }

  /** Initialize's loop over `properties`, stopping at the first error. */
  function AddAll(properties: seq<PropertyDecl>): (r: Result<TableShape, DefinitionError>)
    ensures r.Ok? ==> |r.value.members| == |properties|
    ensures r.Ok? && r.value.keyMember.Some? ==> r.value.keyMember.value.isKey
  {
    if properties == [] then Ok(EmptyShape)
    else
      match AddAll(properties[..|properties| - 1])
      case Err(e) => Err(e)
      case Ok(s) => AddProperty(s, properties[|properties| - 1])
  }

  /** What Initialize computes from a class declaration. */
  function Build(decl: TableDecl): (r: Result<TableShape, DefinitionError>)
    ensures !decl.hasTableAttribute ==> r == Err(MissingTableAttribute)
    ensures r.Ok? ==> decl.hasTableAttribute && ValidFileIdentifier(decl.fileIdentifier) && decl.inheritable
    ensures r.Ok? ==> |r.value.members| == |decl.properties| > 0
  {
    if !decl.hasTableAttribute then Err(MissingTableAttribute)
    else
      match FileIdentifierCheck(decl.fileIdentifier)
      case Fail(e) => Err(e)
      case Pass =>
        if !decl.inheritable then Err(NotInheritable)
        else if decl.properties == [] then Err(NoProperties)
        else AddAll(decl.properties)
  }

  // ---------------------------------------------------------------- an independent description

  /** Slots of a property once it becomes a member. */
  function PropSlots(p: PropertyDecl): set<int>
  {
    Slots(ToMember(p))
  }

  /** Everything Initialize checks about a single property. */
  predicate PropertyOk(p: PropertyDecl)
  {
    && p.itemType.isValidTableMember
    && (p.defaultValue.Some? ==> ValidateDefaultValue(p.itemType, p.defaultValue.value))
    && (p.key ==> p.itemType.isValidSortedVectorKey && p.itemType.hasSpanComparer && !p.deprecated)
    && SortedVectorOk(ToMember(p))
  }

  predicate AtMostOneKey(properties: seq<PropertyDecl>)
  {
    forall i, j :: 0 <= i < j < |properties| ==> !(properties[i].key && properties[j].key)
  }

  predicate NoSlotCollision(properties: seq<PropertyDecl>)
  {
    forall i, j :: 0 <= i < j < |properties| ==> PropSlots(properties[i]) !! PropSlots(properties[j])
  }

  predicate PropertiesValid(properties: seq<PropertyDecl>)
  {
    && (forall i :: 0 <= i < |properties| ==> PropertyOk(properties[i]))
    && AtMostOneKey(properties)
    && NoSlotCollision(properties)
  }

  /** A declaration Initialize accepts. */
  predicate DeclarationValid(decl: TableDecl)
  {
    && decl.hasTableAttribute
    && ValidFileIdentifier(decl.fileIdentifier)
    && decl.inheritable
    && |decl.properties| > 0
    && PropertiesValid(decl.properties)
  }

  function MembersOf(properties: seq<PropertyDecl>): (ms: seq<TableMember>)
    ensures |ms| == |properties|
    ensures forall i :: 0 <= i < |properties| ==> ms[i] == ToMember(properties[i])
  {
    if properties == [] then []
    else MembersOf(properties[..|properties| - 1]) + [ToMember(properties[|properties| - 1])]
  }

  /** The slots claimed by `ms`, one member after another. */
  function SlotUnion(ms: seq<TableMember>): set<int>
  {
    if ms == [] then {} else SlotUnion(ms[..|ms| - 1]) + Slots(ms[|ms| - 1])
  }

  /** A slot is in the union exactly when some member claims it. */
  lemma {:induction false} SlotUnionMeaning(ms: seq<TableMember>, s: int)
    ensures s in SlotUnion(ms) <==> exists i :: 0 <= i < |ms| && s in Slots(ms[i])
  {
    if ms != [] {
      var n := |ms| - 1;
      SlotUnionMeaning(ms[..n], s);
      assert forall i :: 0 <= i < n ==> ms[..n][i] == ms[i];
    }
  }

  /** The last property declared as key, as a member. */
  function KeyOf(properties: seq<PropertyDecl>): (r: Option<TableMember>)
    ensures r.None? <==> forall i :: 0 <= i < |properties| ==> !properties[i].key
    ensures r.Some? ==> r.value.isKey && exists i :: 0 <= i < |properties| && r.value == ToMember(properties[i])
  {
    if properties == [] then None
    else if properties[|properties| - 1].key then Some(ToMember(properties[|properties| - 1]))
    else
      var r := KeyOf(properties[..|properties| - 1]);
      assert forall i :: 0 <= i < |properties| - 1 ==> properties[..|properties| - 1][i] == properties[i];
      r
  }

  function ShapeOf(properties: seq<PropertyDecl>): TableShape
  {
    TableShape(SlotUnion(MembersOf(properties)), MembersOf(properties), KeyOf(properties))
  }

  lemma PrefixOf<T>(s: seq<T>, k: nat)
    requires k <= |s|
    ensures forall i :: 0 <= i < k ==> s[..k][i] == s[i]
  {
  }

  /** No earlier property is a key. */
  predicate NoKeyIn(properties: seq<PropertyDecl>)
  {
    forall i :: 0 <= i < |properties| ==> !properties[i].key
  }

  /** No earlier property claims a slot of `p`. */
  predicate SlotsFreeFor(properties: seq<PropertyDecl>, p: PropertyDecl)
  {
    forall i :: 0 <= i < |properties| ==> PropSlots(properties[i]) !! PropSlots(p)
  }

  lemma PropertiesValidSnoc(pre: seq<PropertyDecl>, p: PropertyDecl)
    ensures PropertiesValid(pre + [p])
            <==> PropertiesValid(pre) && PropertyOk(p) && (p.key ==> NoKeyIn(pre)) && SlotsFreeFor(pre, p)
  {
    var all := pre + [p];
    assert forall i :: 0 <= i < |pre| ==> all[i] == pre[i];
    assert all[|pre|] == p;
  }

  lemma ShapeOfSnoc(pre: seq<PropertyDecl>, p: PropertyDecl)
    ensures ShapeOf(pre + [p])
            == TableShape(ShapeOf(pre).occupied + PropSlots(p), ShapeOf(pre).members + [ToMember(p)],
                          if p.key then Some(ToMember(p)) else ShapeOf(pre).keyMember)
  {
    var all := pre + [p];
    PrefixOf(all, |pre|);
    assert all[..|pre|] == pre;
  }

  lemma OccupiedMeetsSlots(pre: seq<PropertyDecl>, p: PropertyDecl)
    ensures (PropSlots(p) * ShapeOf(pre).occupied == {}) <==> SlotsFreeFor(pre, p)
  {
    var occupied := ShapeOf(pre).occupied;
    if !SlotsFreeFor(pre, p) {
      var i :| 0 <= i < |pre| && !(PropSlots(pre[i]) !! PropSlots(p));
      var x :| x in PropSlots(pre[i]) && x in PropSlots(p);
      assert x in Slots(MembersOf(pre)[i]);
      SlotUnionMeaning(MembersOf(pre), x);
      assert x in occupied;
    } else {
      forall x | x in PropSlots(p) ensures x !in occupied {
        SlotUnionMeaning(MembersOf(pre), x);
      }
    }
  }

  /** One step of the loop, against the state built so far. */
  lemma AddPropertyMeaning(pre: seq<PropertyDecl>, p: PropertyDecl)
    ensures AddProperty(ShapeOf(pre), p).Ok?
            <==> PropertyOk(p) && (p.key ==> NoKeyIn(pre)) && SlotsFreeFor(pre, p)
    ensures AddProperty(ShapeOf(pre), p).Ok? ==> AddProperty(ShapeOf(pre), p).value == ShapeOf(pre + [p])
  {
    OccupiedMeetsSlots(pre, p);
    ShapeOfSnoc(pre, p);
  }

  /**
   * Initialize's loop accepts a property list exactly when every property passes its own
   * checks, at most one is a key and no two claim a common slot; the state it then
   * builds holds the members in order, the union of their slots and the key member.
   */
  lemma {:induction false} AddAllMeaning(properties: seq<PropertyDecl>)
    ensures AddAll(properties).Ok? <==> PropertiesValid(properties)
    ensures AddAll(properties).Ok? ==> AddAll(properties).value == ShapeOf(properties)
  {
    if properties != [] {
      var n := |properties| - 1;
      var pre, p := properties[..n], properties[n];
      PrefixOf(properties, n);
      AddAllMeaning(pre);
      assert properties == pre + [p];
      PropertiesValidSnoc(pre, p);
      if AddAll(pre).Ok? {
        AddPropertyMeaning(pre, p);
      }
    }
  }

  /** Initialize accepts a declaration exactly when it is valid in the sense above. */
  lemma BuildAccepts(decl: TableDecl)
    ensures Build(decl).Ok? <==> DeclarationValid(decl)
    ensures Build(decl).Ok? ==> Build(decl).value == ShapeOf(decl.properties)
  {
    AddAllMeaning(decl.properties);
  }

  lemma {:induction false} AddAllStopsAtError(properties: seq<PropertyDecl>, k: nat, e: DefinitionError)
    requires k <= |properties| && AddAll(properties[..k]) == Err(e)
    ensures AddAll(properties) == Err(e)
    decreases |properties|
  {
    if k < |properties| {
      var n := |properties| - 1;
      assert properties[..n][..k] == properties[..k];
      AddAllStopsAtError(properties[..n], k, e);
    } else {
      assert properties[..k] == properties;
    }
  }

  lemma AddAllStep(properties: seq<PropertyDecl>, k: nat)
    requires k < |properties|
    ensures AddAll(properties[..k + 1])
            == match AddAll(properties[..k])
               case Err(e) => Err(e)
               case Ok(s) => AddProperty(s, properties[k])
  {
    assert properties[..k + 1][..k] == properties[..k];
  }

  // ---------------------------------------------------------------- the table type model object

  /** The state of an initialized table: what the layout engine relies on afterwards. */
  ghost predicate ShapeOk(s: TableShape)
  {
    && |s.members| > 0
    && (forall i :: 0 <= i < |s.members| ==> WellFormed(s.members[i].itemType))
    && s.occupied == SlotUnion(s.members)
    && (forall i, j :: 0 <= i < j < |s.members| ==> Slots(s.members[i]) !! Slots(s.members[j]))
  }

  lemma MembersDisjoint(properties: seq<PropertyDecl>)
    requires NoSlotCollision(properties)
    ensures var ms := MembersOf(properties);
            forall i, j :: 0 <= i < j < |ms| ==> Slots(ms[i]) !! Slots(ms[j])
  {
    var ms := MembersOf(properties);
    forall i, j | 0 <= i < j < |ms| ensures Slots(ms[i]) !! Slots(ms[j]) {
      assert PropSlots(properties[i]) !! PropSlots(properties[j]);
    }
  }

  lemma KeyOfValid(properties: seq<PropertyDecl>)
    requires forall i :: 0 <= i < |properties| ==> PropertyOk(properties[i])
    ensures var key := KeyOf(properties);
            key.Some? ==>
              && key.value in MembersOf(properties)
              && !key.value.isDeprecated
              && key.value.itemType.isValidSortedVectorKey
              && key.value.itemType.hasSpanComparer
  {
    var key := KeyOf(properties);
    if key.Some? {
      var i :| 0 <= i < |properties| && key.value == ToMember(properties[i]);
      assert PropertyOk(properties[i]);
      assert MembersOf(properties)[i] == key.value;
    }
  }

  lemma MembersSortedVectorOk(properties: seq<PropertyDecl>)
    requires forall i :: 0 <= i < |properties| ==> PropertyOk(properties[i])
    ensures forall m :: m in MembersOf(properties) ==> SortedVectorOk(m)
  {
    var ms := MembersOf(properties);
    forall m | m in ms ensures SortedVectorOk(m) {
      var i :| 0 <= i < |ms| && ms[i] == m;
      assert PropertyOk(properties[i]);
    }
  }

  /**
   * A table Initialize accepts has the state the layout engine relies on, and its key
   * member, if any, is a non-deprecated member of a sortable type with a span comparer.
   */
  lemma BuildShapeOk(decl: TableDecl)
    requires PropertyTypesWellFormed(decl.properties)
    requires Build(decl).Ok?
    ensures ShapeOk(Build(decl).value)
    ensures var s := Build(decl).value;
            s.keyMember.Some? ==>
              && s.keyMember.value in s.members
              && s.keyMember.value.isKey && !s.keyMember.value.isDeprecated
              && s.keyMember.value.itemType.isValidSortedVectorKey
              && s.keyMember.value.itemType.hasSpanComparer
    ensures forall m :: m in Build(decl).value.members ==> SortedVectorOk(m)
  {
    BuildAccepts(decl);
    var props := decl.properties;
    MembersDisjoint(props);
    KeyOfValid(props);
    MembersSortedVectorOk(props);
  }

  /** The last slot a member claims. */
  function LastSlot(m: TableMember): int
  {
    m.index as int + Width(m) - 1
  }

  /** The largest slot claimed by any member. */
  function MaxSlot(ms: seq<TableMember>): (r: int)
    requires |ms| > 0 && forall i :: 0 <= i < |ms| ==> Width(ms[i]) >= 1
    ensures r in SlotUnion(ms) && r >= 0
    ensures forall s :: s in SlotUnion(ms) ==> s <= r
  {
    var last := LastSlot(ms[|ms| - 1]);
    assert last in Slots(ms[|ms| - 1]);
    if |ms| == 1 then last
    else
      var r := MaxSlot(ms[..|ms| - 1]);
      assert SlotUnion(ms) == SlotUnion(ms[..|ms| - 1]) + Slots(ms[|ms| - 1]);
      if r >= last then r else last
  }

  /** The sum of the members' maximum inline sizes. */
  function SumMaxInlineSize(ms: seq<TableMember>): nat
  {
    if ms == [] then 0
    else SumMaxInlineSize(ms[..|ms| - 1]) + ms[|ms| - 1].itemType.maxInlineSize
  }

  /** The worst-case inline size of a table: every member plus the 4-byte vtable soffset. */
  function NonPaddedMaxInlineSize(s: TableShape): nat
  {
    SumMaxInlineSize(s.members) + 4
  }

  /**
   * The descriptor a table type hands to the members and vectors that refer to it: a table is
   * written by reference, may sit in tables, unions and vectors but not in structs, is not
   * itself a sorted-vector key, and exposes the item type of its key member.
   */
  function TableDescriptor(s: TableShape): (t: TypeModel)
    ensures WellFormed(t) && t.schemaType == Table
    ensures t.physicalLayout == ReferenceLayout && !t.isFixedSize && !t.serializesInline
    ensures !t.isValidStructMember && t.isValidTableMember && t.isValidUnionMember && t.isValidVectorMember
    ensures !t.isValidSortedVectorKey
    ensures t.tableKey.Some? <==> s.keyMember.Some?
    ensures s.keyMember.Some? ==> t.tableKey.value == s.keyMember.value.itemType
  {
    TypeModel(
      schemaType := Table,
      physicalLayout := ReferenceLayout,
      isFixedSize := false,
      serializesInline := false,
      isValidStructMember := false,
      isValidTableMember := true,
      isValidUnionMember := true,
      isValidVectorMember := true,
      isValidSortedVectorKey := false,
      hasSpanComparer := false,
      maxInlineSize := ReferenceMaxInlineSize,
      defaultValueKinds := {},
      implicitDefault := Null,
      vectorElement := None,
      tableKey := if s.keyMember.Some? then Some(s.keyMember.value.itemType) else None)
  }

  /** The type model of a table once initialized. */
  class TableTypeModel {
    var occupiedVtableSlots: set<int>
    /** The index-to-member dictionary, in its enumeration (insertion) order. */
    var memberTypes: seq<TableMember>
    var keyMember: Option<TableMember>

    constructor ()
      ensures Shape() == EmptyShape
    {
      occupiedVtableSlots := {};
      memberTypes := [];
      keyMember := None;
    }

    function Shape(): TableShape
      reads this
    {
      TableShape(occupiedVtableSlots, memberTypes, keyMember)
    }

    /** This table's descriptor, with the key member found by Initialize. */
    function Descriptor(): (t: TypeModel)
      reads this
      ensures t == TableDescriptor(Shape())
    {
      TableDescriptor(Shape())
    }

    /**
     * Validates the declaration and builds the slot map; the first failed check is
     * reported and ends the initialization.
     */
    method Initialize(decl: TableDecl) returns (outcome: Outcome<DefinitionError>)
      requires Shape() == EmptyShape
      modifies this
      ensures outcome.Pass? <==> Build(decl).Ok?
      ensures outcome.Fail? ==> Build(decl) == Err(outcome.error)
      ensures outcome.Pass? ==> Shape() == Build(decl).value
    {
      if !decl.hasTableAttribute {
        return Fail(MissingTableAttribute);
      }
      outcome := ValidateFileIdentifier(decl.fileIdentifier);
      if outcome.Fail? {
        return;
      }
      if !decl.inheritable {
        return Fail(NotInheritable);
      }
      var properties := decl.properties;
      if |properties| == 0 {
        return Fail(NoProperties);
      }
      assert properties[..0] == [];
      for k := 0 to |properties|
        invariant AddAll(properties[..k]) == Ok(Shape())
      {
        AddAllStep(properties, k);
        outcome := AddMember(properties[k]);
        if outcome.Fail? {
          AddAllStopsAtError(properties, k + 1, outcome.error);
          return;
        }
      }
      assert properties[..|properties|] == properties;
      outcome := Pass;
    }

    /** One pass of Initialize's loop: create the member, check it, claim its slots. */
    method AddMember(property: PropertyDecl) returns (outcome: Outcome<DefinitionError>)
      modifies this
      ensures outcome.Pass? <==> AddProperty(old(Shape()), property).Ok?
      ensures outcome.Fail? ==> AddProperty(old(Shape()), property) == Err(outcome.error)
      ensures outcome.Pass? ==> Shape() == AddProperty(old(Shape()), property).value
    {
      ghost var before := Shape();
      var index := property.index as int;
      var created := NewTableMember(
        property.name, property.itemType, property.index, property.defaultValue,
        property.sortedVector, property.key, property.deprecated);
      if created.Err? {
        return Fail(created.error);
      }
      var model := created.value;
      if property.key {
        if keyMember.Some? {
          return Fail(DuplicateKey);
        }
        if !property.itemType.isValidSortedVectorKey {
          return Fail(KeyNotSortable);
        }
        if !property.itemType.hasSpanComparer {
          return Fail(KeyWithoutSpanComparer);
        }
        if model.isDeprecated {
          return Fail(KeyDeprecated);
        }
        keyMember := Some(model);
      }
      assert KeyCheck(before.keyMember, model) == Pass;
      outcome := ValidateSortedVector(model);
      if outcome.Fail? {
        return;
      }
      for i := 0 to Width(model)
        invariant memberTypes == before.members
        invariant keyMember == if model.isKey then Some(model) else before.keyMember
        invariant occupiedVtableSlots == before.occupied + SlotRange(index, i)
        invariant SlotRange(index, i) !! before.occupied
      {
        if index + i in occupiedVtableSlots {
          assert index + i in Slots(model) * before.occupied;
          return Fail(SlotOccupied(index));
        }
        occupiedVtableSlots := occupiedVtableSlots + {index + i};
      }
      assert SlotRange(index, Width(model)) == Slots(model);
      memberTypes := memberTypes + [model];
    }

    /** The largest occupied vtable slot. */
    function MaxIndex(): (max: int)
      reads this
      requires ShapeOk(Shape())
      ensures max in occupiedVtableSlots && max >= 0
      ensures forall s :: s in occupiedVtableSlots ==> s <= max
    {
      MaxSlot(memberTypes)
    }

    function NonPaddedMaxTableInlineSize(): (n: nat)
      reads this
      ensures n == NonPaddedMaxInlineSize(Shape())
    {
      SumMaxInlineSize(memberTypes) + 4
    }

    /** The key member, when the table declares one. */
    function TryGetTableKeyMember(): (key: Option<TableMember>)
      reads this
      ensures key == Shape().keyMember
    {
      keyMember
    }
  }
}
