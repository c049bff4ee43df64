/**
 * A member of a table: its validation when it is constructed, and the rule by which the
 * generated reader finds the member through an instance's vtable.
 */
module TableMemberModel {
  import opened Wrappers
  import opened TypeModel

  /** A validated table member. `index` is its first vtable slot. */
  datatype TableMember = TableMember(
    name: string,
    itemType: TypeModel,
    index: u16,
    defaultValue: Option<Value>,
    isSortedVector: bool,
    isKey: bool,
    isDeprecated: bool)

  /**
   * Constructs a member, rejecting a type that cannot live in a table and a declared
   * default that the type does not accept.
   */
  function NewTableMember(
    name: string, itemType: TypeModel, index: u16, defaultValue: Option<Value>,
    isSortedVector: bool, isKey: bool, isDeprecated: bool): (r: Result<TableMember, DefinitionError>)
    ensures r.Ok? <==> itemType.isValidTableMember
                       && (defaultValue.Some? ==> ValidateDefaultValue(itemType, defaultValue.value))
    ensures r.Ok? ==> r.value.itemType == itemType && r.value.index == index && r.value.name == name
                      && r.value.defaultValue == defaultValue && r.value.isSortedVector == isSortedVector
                      && r.value.isKey == isKey && r.value.isDeprecated == isDeprecated
    ensures !itemType.isValidTableMember ==> r == Err(NotValidTableMember(name))
  {
    if !itemType.isValidTableMember then Err(NotValidTableMember(name))
    else if defaultValue.Some? && !ValidateDefaultValue(itemType, defaultValue.value) then Err(InvalidDefaultValue(name))
    else Ok(TableMember(name, itemType, index, defaultValue, isSortedVector, isKey, isDeprecated))
  }

  /** The value a member reports when its slots are absent. */
  function DefaultOf(m: TableMember): Value
  {
    match m.defaultValue
    case Some(v) => v
    case None => m.itemType.implicitDefault
  }

  /** The number of vtable slots a member claims (two for a union). */
  function Width(m: TableMember): nat
  {
    |m.itemType.physicalLayout|
  }

  /** The vtable slots `index .. index + width - 1`. */
  function SlotRange(index: int, width: nat): (r: set<int>)
    ensures forall s :: s in r <==> index <= s < index + width
  {
    if width == 0 then {} else SlotRange(index, width - 1) + {index + width - 1}
  }

  function Slots(m: TableMember): set<int>
  {
    SlotRange(m.index as int, Width(m))
  }

  /** What a generated accessor does with one member of one table instance. */
  datatype ReadOutcome =
    | UseDefault                    // the member reports its default value
    | ParseAt(locations: seq<int>)  // the member is parsed at these absolute locations, in slot order
    | ReadFault                     // a vtable read fell outside the buffer

  /** A little-endian unsigned 16-bit read; outside the buffer it fails. */
  function ReadUShort(buffer: seq<byte>, position: int): Option<u16>
  {
    if 0 <= position && position + 2 <= |buffer|
    then
      var lo: int := buffer[position];
      var hi: int := buffer[position + 1];
      Some(lo + 0x100 * hi)
    else None
  }

  /** The entry of vtable slot `slot`, which lives at byte `4 + 2 * slot` of the vtable. */
  function VtableEntry(buffer: seq<byte>, vtableLocation: int, slot: int): Option<u16>
  {
    ReadUShort(buffer, vtableLocation + 4 + 2 * slot)
  }

  /** The entry of the `i`-th slot of a member whose first slot is `index`. */
  function MemberEntry(buffer: seq<byte>, vtableLocation: int, index: int, i: int): Option<u16>
  {
    VtableEntry(buffer, vtableLocation, index + i)
  }

  /**
   * The generated read of member `m` from the table at `offset` whose vtable is at
   * `vtableLocation` and records slots up to `vtableMaxIndex`: single-slot members use the
   * single-width rule, all others the wide rule.
   */
  function ReadItem(m: TableMember, buffer: seq<byte>, offset: int, vtableLocation: int, vtableMaxIndex: int): (r: ReadOutcome)
    ensures m.index as int + Width(m) - 1 > vtableMaxIndex ==> r == UseDefault
    ensures r.ParseAt? ==> m.index as int + Width(m) - 1 <= vtableMaxIndex && |r.locations| == Width(m)
  {
    if Width(m) == 1 then SingleWidthRead(m, buffer, offset, vtableLocation, vtableMaxIndex)
    else WideRead(m, buffer, offset, vtableLocation, vtableMaxIndex)
  }

  /** The rule for a member with one slot: past the vtable's end or with a zero entry it is absent. */
  function SingleWidthRead(m: TableMember, buffer: seq<byte>, offset: int, vtableLocation: int, vtableMaxIndex: int): (r: ReadOutcome)
    ensures m.index as int > vtableMaxIndex ==> r == UseDefault
    ensures r.ParseAt? ==> m.index as int <= vtableMaxIndex && |r.locations| == 1 && r.locations[0] > offset
  {
    if m.index as int > vtableMaxIndex then UseDefault
    else
      match VtableEntry(buffer, vtableLocation, m.index as int)
      case None => ReadFault
      case Some(relativeOffset) =>
        if relativeOffset == 0 then UseDefault else ParseAt([offset + relativeOffset])
  }

  /** The rule for a member with several slots: its last slot past the vtable's end makes it absent. */
  function WideRead(m: TableMember, buffer: seq<byte>, offset: int, vtableLocation: int, vtableMaxIndex: int): (r: ReadOutcome)
    ensures m.index as int + Width(m) - 1 > vtableMaxIndex ==> r == UseDefault
    ensures r.ParseAt? ==> m.index as int + Width(m) - 1 <= vtableMaxIndex && |r.locations| == Width(m)
  {
    if m.index as int + Width(m) - 1 > vtableMaxIndex then UseDefault
    else ReadSlots(buffer, offset, vtableLocation, m.index as int, Width(m))
  }

  /** Reads slots `index .. index + count - 1` in order, stopping at the first absent one. */
  function ReadSlots(buffer: seq<byte>, offset: int, vtableLocation: int, index: int, count: nat): (r: ReadOutcome)
    ensures r.ParseAt? ==> |r.locations| == count && forall i :: 0 <= i < count ==> r.locations[i] > offset
  {
    if count == 0 then ParseAt([])
    else
      match ReadSlots(buffer, offset, vtableLocation, index, count - 1)
      case ParseAt(locations) =>
        (match VtableEntry(buffer, vtableLocation, index + count - 1)
         case None => ReadFault
         case Some(relativeOffset) =>
           if relativeOffset == 0 then UseDefault else ParseAt(locations + [offset + relativeOffset]))
      case other => other
  }

  /** The vtable at `vtableLocation` holding entries for slots `0 .. maxIndex` lies inside the buffer. */
  predicate VtableInBuffer(buffer: seq<byte>, vtableLocation: int, maxIndex: int)
  {
    0 <= vtableLocation && -1 <= maxIndex && vtableLocation + 4 + 2 * (maxIndex + 1) <= |buffer|
  }

  /** Every slot of `index .. index + count - 1` has a non-zero entry. */
  predicate SlotsPresent(buffer: seq<byte>, vtableLocation: int, index: int, count: nat)
  {
    forall i :: 0 <= i < count ==> MemberEntry(buffer, vtableLocation, index, i) != Some(0)
  }

  /** The absolute locations `offset + entry` of slots `index .. index + count - 1`. */
  function Locations(buffer: seq<byte>, offset: int, vtableLocation: int, index: int, count: nat): (r: seq<int>)
    requires 0 <= vtableLocation && 0 <= index && vtableLocation + 4 + 2 * (index + count) <= |buffer|
    ensures |r| == count
  {
    seq(count, i requires 0 <= i < count => offset + MemberEntry(buffer, vtableLocation, index, i).value)
  }

  lemma {:induction false} ReadSlotsMeaning(buffer: seq<byte>, offset: int, vtableLocation: int, index: int, count: nat)
    requires 0 <= vtableLocation && 0 <= index && vtableLocation + 4 + 2 * (index + count) <= |buffer|
    ensures ReadSlots(buffer, offset, vtableLocation, index, count)
            == if SlotsPresent(buffer, vtableLocation, index, count)
               then ParseAt(Locations(buffer, offset, vtableLocation, index, count))
               else UseDefault
  {
    if count > 0 {
      ReadSlotsMeaning(buffer, offset, vtableLocation, index, count - 1);
      var prev := Locations(buffer, offset, vtableLocation, index, count - 1);
      var all := Locations(buffer, offset, vtableLocation, index, count);
      assert all == prev + [all[count - 1]];
      if !SlotsPresent(buffer, vtableLocation, index, count - 1) {
        var i :| 0 <= i < count - 1 && MemberEntry(buffer, vtableLocation, index, i) == Some(0);
        assert !SlotsPresent(buffer, vtableLocation, index, count);
      } else {
        assert MemberEntry(buffer, vtableLocation, index, count - 1) == VtableEntry(buffer, vtableLocation, index + count - 1);
      }
    }
  }

  /**
   * The read rule as a whole: when the vtable lies in the buffer, a member reports its
   * default exactly when one of its slots lies beyond the instance's max index or has a
   * zero entry; otherwise it is parsed at `offset + entry` of each of its slots in order.
   */
  lemma ReadItemMeaning(m: TableMember, buffer: seq<byte>, offset: int, vtableLocation: int, vtableMaxIndex: int)
    requires VtableInBuffer(buffer, vtableLocation, vtableMaxIndex)
    ensures ReadItem(m, buffer, offset, vtableLocation, vtableMaxIndex)
            == if m.index as int + Width(m) - 1 > vtableMaxIndex
                  || !SlotsPresent(buffer, vtableLocation, m.index as int, Width(m))
               then UseDefault
               else ParseAt(Locations(buffer, offset, vtableLocation, m.index as int, Width(m)))
  {
    if m.index as int + Width(m) - 1 <= vtableMaxIndex {
      ReadSlotsMeaning(buffer, offset, vtableLocation, m.index as int, Width(m));
      if Width(m) == 1 {
        SingleIsWideOfOne(m, buffer, offset, vtableLocation, vtableMaxIndex);
      }
    }
  }

  /** The single-width rule is the wide rule specialised to one slot, so the dispatch is transparent. */
  lemma SingleIsWideOfOne(m: TableMember, buffer: seq<byte>, offset: int, vtableLocation: int, vtableMaxIndex: int)
    requires Width(m) == 1
    ensures SingleWidthRead(m, buffer, offset, vtableLocation, vtableMaxIndex)
            == WideRead(m, buffer, offset, vtableLocation, vtableMaxIndex)
  {
    assert ReadSlots(buffer, offset, vtableLocation, m.index as int, 0) == ParseAt([]);
  }

  /**
   * A read inspects no vtable byte beyond the instance's max index: two buffers that agree
   * up to the end of that vtable give the same outcome for every member.
   */
  lemma ReadIgnoresBytesBeyondMaxIndex(
    m: TableMember, b1: seq<byte>, b2: seq<byte>, offset: int, vtableLocation: int, vtableMaxIndex: int)
    requires VtableInBuffer(b1, vtableLocation, vtableMaxIndex) && VtableInBuffer(b2, vtableLocation, vtableMaxIndex)
    requires b1[..vtableLocation + 4 + 2 * (vtableMaxIndex + 1)] == b2[..vtableLocation + 4 + 2 * (vtableMaxIndex + 1)]
    ensures ReadItem(m, b1, offset, vtableLocation, vtableMaxIndex) == ReadItem(m, b2, offset, vtableLocation, vtableMaxIndex)
  {
    ReadItemMeaning(m, b1, offset, vtableLocation, vtableMaxIndex);
    ReadItemMeaning(m, b2, offset, vtableLocation, vtableMaxIndex);
    var n := vtableLocation + 4 + 2 * (vtableMaxIndex + 1);
    var last := m.index as int + Width(m) - 1;
    if last <= vtableMaxIndex {
      var index := m.index as int;
      forall i | 0 <= i < Width(m)
        ensures MemberEntry(b1, vtableLocation, index, i) == MemberEntry(b2, vtableLocation, index, i)
      {
        var p := vtableLocation + 4 + 2 * (index + i);
        assert b1[p] == b1[..n][p] && b1[p + 1] == b1[..n][p + 1];
        assert b2[p] == b2[..n][p] && b2[p + 1] == b2[..n][p + 1];
      }
      assert Locations(b1, offset, vtableLocation, m.index as int, Width(m))
          == Locations(b2, offset, vtableLocation, m.index as int, Width(m));
    }
  }
}
