// What a table's generated serializer does: the cursor, the scratch vtable, the member
// writes and the rollback of the over-allocated space, and the generated max-size bound.

module TableSerializer {
  import opened Wrappers
  import opened TypeModel
  import opened TableMemberModel
  import opened TableTypeModel
  import opened TablePacking

  // ---------------------------------------------------------------- the scratch vtable

  /** The bytes of a vtable recording slots `0 .. maxIndex`: two u16 headers and one u16 per slot. */
  function VtableSize(maxIndex: int): int
  {
    4 + 2 * (maxIndex + 1)
  }

  /** A freshly allocated (zeroed) buffer. */
  function Zeros(n: nat): seq<byte>
  {
    seq(n, _ => 0)
  }

  /** The `(ushort)` cast of a slot offset taken relative to the table start. */
  function RelativeEntry(offset: int, tableStart: int): u16
  {
    (offset - tableStart) % 0x1_0000
  }

  /** A little-endian u16 write; a write that does not fit leaves the buffer as it is. */
  function WriteUShort(buffer: seq<byte>, position: int, value: u16): (r: seq<byte>)
    ensures |r| == |buffer|
  {
    if 0 <= position && position + 2 <= |buffer|
    then buffer[position := (value % 0x100) as byte][position + 1 := (value / 0x100) as byte]
    else buffer
  }

  /** Writes the entries of slots `index .. index + |offsets| - 1`, in slot order. */
  function WriteSlots(vtable: seq<byte>, index: int, offsets: seq<int>, tableStart: int): (r: seq<byte>)
    ensures |r| == |vtable|
    ensures 0 <= index && 4 <= |vtable| ==> r[..4] == vtable[..4]
  {
    if offsets == [] then vtable
    else
      var n := |offsets| - 1;
      WriteUShort(WriteSlots(vtable, index, offsets[..n], tableStart), 4 + 2 * (index + n),
                  RelativeEntry(offsets[n], tableStart))
  }

  /** The vtable writes of every member block, in packing order. */
  function WriteVtable(vtable: seq<byte>, order: seq<TableMember>, offsets: seq<seq<int>>, tableStart: int): (r: seq<byte>)
    requires |offsets| == |order|
    ensures |r| == |vtable|
    ensures 4 <= |vtable| ==> r[..4] == vtable[..4]
  {
    if order == [] then vtable
    else
      var n := |order| - 1;
      WriteSlots(WriteVtable(vtable, order[..n], offsets[..n], tableStart), order[n].index as int, offsets[n], tableStart)
  }

  lemma ReadBackUShort(buffer: seq<byte>, position: int, value: u16, other: int)
    requires 0 <= position && position + 2 <= |buffer|
    ensures ReadUShort(WriteUShort(buffer, position, value), position) == Some(value)
    ensures other + 2 <= position || position + 2 <= other ==>
            ReadUShort(WriteUShort(buffer, position, value), other) == ReadUShort(buffer, other)
  {
  }

  /** After the slot writes, each written slot holds its entry and every other slot is as before. */
  lemma {:induction false} WriteSlotsEffect(vtable: seq<byte>, index: int, offsets: seq<int>, tableStart: int, slot: int)
    requires 0 <= index && 4 + 2 * (index + |offsets|) <= |vtable|
    ensures VtableEntry(WriteSlots(vtable, index, offsets, tableStart), 0, slot)
            == if index <= slot < index + |offsets|
               then Some(RelativeEntry(offsets[slot - index], tableStart))
               else VtableEntry(vtable, 0, slot)
  {
    if offsets != [] {
      var n := |offsets| - 1;
      WriteSlotsEffect(vtable, index, offsets[..n], tableStart, slot);
      var before := WriteSlots(vtable, index, offsets[..n], tableStart);
      ReadBackUShort(before, 4 + 2 * (index + n), RelativeEntry(offsets[n], tableStart), 4 + 2 * slot);
    }
  }

  lemma WriteVtableLast(vtable: seq<byte>, order: seq<TableMember>, offsets: seq<seq<int>>, tableStart: int)
    requires |offsets| == |order| > 0
    ensures var n := |order| - 1;
            WriteVtable(vtable, order, offsets, tableStart)
            == WriteSlots(WriteVtable(vtable, order[..n], offsets[..n], tableStart), order[n].index as int, offsets[n], tableStart)
  {
  }

  lemma OutsideOther(a: TableMember, b: TableMember, slot: int)
    requires Slots(a) !! Slots(b) && slot in Slots(a)
    ensures !(b.index as int <= slot < b.index as int + Width(b))
  {
    assert slot !in Slots(b);
  }

  lemma DisjointPrefix(order: seq<TableMember>, offsets: seq<seq<int>>, size: int)
    requires |offsets| == |order| > 0 && forall j :: 0 <= j < |order| ==> |offsets[j]| == Width(order[j])
    requires Disjoint(order) && SlotsFit(order, size)
    ensures var n := |order| - 1;
            && (forall j :: 0 <= j < n ==> order[..n][j] == order[j] && offsets[..n][j] == offsets[j])
            && (forall j :: 0 <= j < n ==> |offsets[..n][j]| == Width(order[..n][j]))
            && Disjoint(order[..n]) && SlotsFit(order[..n], size)
  {
  }

  /** The vtable writes of members whose slots fit in the vtable. */
  predicate SlotsFit(order: seq<TableMember>, size: int)
  {
    forall k :: 0 <= k < |order| ==> 4 + 2 * (order[k].index as int + Width(order[k])) <= size
  }

  /**
   * With members claiming disjoint slots, after all member blocks a slot claimed by
   * `order[k]` holds the entry that member's block wrote.
   */
  lemma {:induction false} WriteVtableClaimed(
    vtable: seq<byte>, order: seq<TableMember>, offsets: seq<seq<int>>, tableStart: int, k: nat, slot: int)
    requires |offsets| == |order| && forall j :: 0 <= j < |order| ==> |offsets[j]| == Width(order[j])
    requires Disjoint(order) && SlotsFit(order, |vtable|)
    requires k < |order| && slot in Slots(order[k])
    ensures VtableEntry(WriteVtable(vtable, order, offsets, tableStart), 0, slot)
            == Some(RelativeEntry(offsets[k][slot - order[k].index as int], tableStart))
  {
    var n := |order| - 1;
    var pre, preOffsets := order[..n], offsets[..n];
    var last := order[n];
    assert 4 + 2 * (last.index as int + Width(last)) <= |vtable|;
    WriteVtableLast(vtable, order, offsets, tableStart);
    var before := WriteVtable(vtable, pre, preOffsets, tableStart);
    WriteSlotsEffect(before, last.index as int, offsets[n], tableStart, slot);
    var after := WriteVtable(vtable, order, offsets, tableStart);
    if k < n {
      OutsideOther(order[k], last, slot);
      assert VtableEntry(after, 0, slot) == VtableEntry(before, 0, slot);
      DisjointPrefix(order, offsets, |vtable|);
      WriteVtableClaimed(vtable, pre, preOffsets, tableStart, k, slot);
      assert pre[k] == order[k] && preOffsets[k] == offsets[k];
    } else {
      assert last.index as int <= slot < last.index as int + |offsets[n]|;
    }
  }

  /** A slot no member claims keeps whatever the vtable held before the member blocks. */
  lemma {:induction false} WriteVtableUnclaimed(
    vtable: seq<byte>, order: seq<TableMember>, offsets: seq<seq<int>>, tableStart: int, slot: int)
    requires |offsets| == |order| && forall j :: 0 <= j < |order| ==> |offsets[j]| == Width(order[j])
    requires SlotsFit(order, |vtable|)
    requires forall j :: 0 <= j < |order| ==> slot !in Slots(order[j])
    ensures VtableEntry(WriteVtable(vtable, order, offsets, tableStart), 0, slot) == VtableEntry(vtable, 0, slot)
  {
    if order != [] {
      var n := |order| - 1;
      var pre, preOffsets := order[..n], offsets[..n];
      var last := order[n];
      assert 4 + 2 * (last.index as int + Width(last)) <= |vtable|;
      WriteVtableLast(vtable, order, offsets, tableStart);
      var before := WriteVtable(vtable, pre, preOffsets, tableStart);
      WriteSlotsEffect(before, last.index as int, offsets[n], tableStart, slot);
      assert forall j :: 0 <= j < n ==> pre[j] == order[j] && preOffsets[j] == offsets[j];
      assert SlotsFit(pre, |vtable|);
      WriteVtableUnclaimed(vtable, pre, preOffsets, tableStart, slot);
    }
  }

  // ---------------------------------------------------------------- the member writes

  /** A member's serialize call: the member index, its slot locations, and whether it registers a vector sort. */
  datatype MemberWrite = MemberWrite(index: int, locations: seq<int>, sortsVector: bool)

  function WriteOf(m: TableMember, offsets: seq<int>): MemberWrite
  {
    MemberWrite(m.index as int, offsets, m.isSortedVector)
  }

  /** Inline members are written inside their block, and only when not at their default. */
  function InlineWrites(order: seq<TableMember>, values: map<int, Value>, offsets: seq<seq<int>>): (r: seq<MemberWrite>)
    requires |offsets| == |order| && Plannable(values, order)
    ensures |r| <= |order|
  {
    if order == [] then []
    else
      var n := |order| - 1;
      assert forall k :: 0 <= k < n ==> order[..n][k] == order[k];
      var m := order[n];
      InlineWrites(order[..n], values, offsets[..n])
      + if m.itemType.serializesInline && values[m.index as int] != DefaultOf(m) then [WriteOf(m, offsets[n])] else []
  }

  /** By-reference members are written after the vtable, only when their first offset moved off `tableStart`. */
  function DeferredWrites(order: seq<TableMember>, offsets: seq<seq<int>>, tableStart: int): (r: seq<MemberWrite>)
    requires |offsets| == |order|
    ensures |r| <= |order|
  {
    if order == [] then []
    else
      var n := |order| - 1;
      var m := order[n];
      DeferredWrites(order[..n], offsets[..n], tableStart)
      + if !m.itemType.serializesInline && |offsets[n]| > 0 && offsets[n][0] != tableStart
        then [WriteOf(m, offsets[n])] else []
  }

  /** The inline writes are exactly those of inline members not at their default, one per member. */
  lemma {:induction false} InlineWritesMeaning(order: seq<TableMember>, values: map<int, Value>, offsets: seq<seq<int>>)
    requires |offsets| == |order| && Plannable(values, order)
    ensures var r := InlineWrites(order, values, offsets);
            forall k :: 0 <= k < |order| ==>
              (order[k].itemType.serializesInline && values[order[k].index as int] != DefaultOf(order[k])
               ==> WriteOf(order[k], offsets[k]) in r)
    ensures forall w :: w in InlineWrites(order, values, offsets) ==>
              exists k :: 0 <= k < |order| && w == WriteOf(order[k], offsets[k])
                          && order[k].itemType.serializesInline
                          && values[order[k].index as int] != DefaultOf(order[k])
  {
    if order != [] {
      var n := |order| - 1;
      var pre, preOffsets := order[..n], offsets[..n];
      assert forall k :: 0 <= k < n ==> pre[k] == order[k] && preOffsets[k] == offsets[k];
      InlineWritesMeaning(pre, values, preOffsets);
      var r, before := InlineWrites(order, values, offsets), InlineWrites(pre, values, preOffsets);
      forall w | w in r
        ensures exists k :: 0 <= k < |order| && w == WriteOf(order[k], offsets[k])
                            && order[k].itemType.serializesInline
                            && values[order[k].index as int] != DefaultOf(order[k])
      {
        if w in before {
          var j :| 0 <= j < n && w == WriteOf(pre[j], preOffsets[j])
                   && pre[j].itemType.serializesInline && values[pre[j].index as int] != DefaultOf(pre[j]);
          assert pre[j] == order[j] && preOffsets[j] == offsets[j];
        } else {
          assert w == WriteOf(order[n], offsets[n]);
        }
      }
    }
  }

  /** The deferred writes are exactly those of by-reference members whose first offset moved. */
  lemma {:induction false} DeferredWritesMeaning(order: seq<TableMember>, offsets: seq<seq<int>>, tableStart: int)
    requires |offsets| == |order|
    ensures var r := DeferredWrites(order, offsets, tableStart);
            forall k :: 0 <= k < |order| ==>
              (!order[k].itemType.serializesInline && |offsets[k]| > 0 && offsets[k][0] != tableStart
               ==> WriteOf(order[k], offsets[k]) in r)
    ensures forall w :: w in DeferredWrites(order, offsets, tableStart) ==>
              exists k :: 0 <= k < |order| && w == WriteOf(order[k], offsets[k])
                          && !order[k].itemType.serializesInline
                          && |offsets[k]| > 0 && offsets[k][0] != tableStart
  {
    if order != [] {
      var n := |order| - 1;
      var pre, preOffsets := order[..n], offsets[..n];
      assert forall k :: 0 <= k < n ==> pre[k] == order[k] && preOffsets[k] == offsets[k];
      DeferredWritesMeaning(pre, preOffsets, tableStart);
      var r, before := DeferredWrites(order, offsets, tableStart), DeferredWrites(pre, preOffsets, tableStart);
      forall w | w in r
        ensures exists k :: 0 <= k < |order| && w == WriteOf(order[k], offsets[k])
                            && !order[k].itemType.serializesInline
                            && |offsets[k]| > 0 && offsets[k][0] != tableStart
      {
        if w in before {
          var j :| 0 <= j < n && w == WriteOf(pre[j], preOffsets[j])
                   && !pre[j].itemType.serializesInline && |preOffsets[j]| > 0 && preOffsets[j][0] != tableStart;
          assert pre[j] == order[j] && preOffsets[j] == offsets[j];
        } else {
          assert w == WriteOf(order[n], offsets[n]);
        }
      }
    }
  }

  // ---------------------------------------------------------------- the whole serializer

  /** What one run of the generated serializer produces. */
  datatype Encoding = Encoding(offsets: seq<seq<int>>, tableLength: int, vtable: seq<byte>, writes: seq<MemberWrite>)

  /** Every slot of every member of an initialized table has its entry inside the scratch vtable. */
  lemma MembersFitVtable(shape: TableShape, m: TableMember)
    requires ShapeOk(shape) && m in shape.members
    ensures WellFormed(m.itemType)
    ensures 0 <= 4 + 2 * m.index as int
    ensures 4 + 2 * (m.index as int + Width(m)) <= VtableSize(MaxSlot(shape.members))
  {
    var i :| 0 <= i < |shape.members| && shape.members[i] == m;
    assert LastSlot(m) in Slots(m);
    SlotUnionMeaning(shape.members, LastSlot(m));
  }

  lemma OrderDisjoint(shape: TableShape)
    requires ShapeOk(shape)
    ensures Disjoint(PackingOrder(shape.members))
  {
    PackingOrderMeaning(shape.members);
    assert Disjoint(shape.members);
  }

  lemma OrderMembers(shape: TableShape)
    requires ShapeOk(shape)
    ensures forall m :: m in PackingOrder(shape.members) ==> m in shape.members && !m.isDeprecated
    ensures SumMaxInlineSize(PackingOrder(shape.members)) <= SumMaxInlineSize(shape.members)
  {
    PackingOrderMeaning(shape.members);
  }

  lemma OrderWellFormed(shape: TableShape)
    requires ShapeOk(shape)
    ensures forall m :: m in PackingOrder(shape.members) ==> WellFormed(m.itemType)
  {
    OrderMembers(shape);
    forall m | m in PackingOrder(shape.members) ensures WellFormed(m.itemType) {
      MembersFitVtable(shape, m);
    }
  }

  lemma OrderFits(shape: TableShape)
    requires ShapeOk(shape)
    ensures SlotsFit(PackingOrder(shape.members), VtableSize(MaxSlot(shape.members)))
  {
    var order := PackingOrder(shape.members);
    OrderMembers(shape);
    forall k | 0 <= k < |order|
      ensures 4 + 2 * (order[k].index as int + Width(order[k])) <= VtableSize(MaxSlot(shape.members))
    {
      MembersFitVtable(shape, order[k]);
    }
  }

  lemma OrderFacts(shape: TableShape)
    requires ShapeOk(shape)
    ensures var order := PackingOrder(shape.members);
            && (forall m :: m in order ==> m in shape.members && !m.isDeprecated)
            && (forall m :: m in order ==> WellFormed(m.itemType))
            && Disjoint(order)
            && SumMaxInlineSize(order) <= SumMaxInlineSize(shape.members)
            && SlotsFit(order, VtableSize(MaxSlot(shape.members)))
  {
    OrderDisjoint(shape);
    OrderMembers(shape);
    OrderWellFormed(shape);
    OrderFits(shape);
  }

  lemma OrderPlannable(shape: TableShape, values: map<int, Value>)
    requires ShapeOk(shape) && Covers(values, shape.members)
    ensures Plannable(values, PackingOrder(shape.members))
  {
    var order := PackingOrder(shape.members);
    OrderFacts(shape);
    forall k | 0 <= k < |order| ensures order[k].index as int in values {
      assert order[k] in order;
    }
  }

  /** The generated serializer, run on a table whose live members have the given values. */
  function Encode(shape: TableShape, values: map<int, Value>, tableStart: int): (e: Encoding)
    requires ShapeOk(shape) && Covers(values, shape.members)
    ensures |e.vtable| == VtableSize(MaxSlot(shape.members)) && e.vtable[..4] == Zeros(4)
    ensures |e.offsets| == |PackingOrder(shape.members)|
  {
    OrderFacts(shape);
    OrderPlannable(shape, values);
    var order := PackingOrder(shape.members);
    var plan := PlanTable(order, values, tableStart);
    Encoding(
      plan.offsets,
      plan.cursor - tableStart,
      WriteVtable(Zeros(VtableSize(MaxSlot(shape.members))), order, plan.offsets, tableStart),
      InlineWrites(order, values, plan.offsets) + DeferredWrites(order, plan.offsets, tableStart))
  }

  /** What the generated serializer needs of the packing order, and the encoding it then yields. */
  lemma SerializePlan(shape: TableShape, values: map<int, Value>, tableStart: int, size: int)
    requires ShapeOk(shape) && Covers(values, shape.members) && size == VtableSize(MaxSlot(shape.members))
    ensures var order := PackingOrder(shape.members);
            && Plannable(values, order)
            && SlotsFit(order, size)
  {
    OrderFacts(shape);
    OrderPlannable(shape, values);
  }

  // ---------------------------------------------------------------- what the serializer guarantees

  /** The table's inline part is at least the soffset and never exceeds the space allocated for it. */
  lemma TableLengthBound(shape: TableShape, values: map<int, Value>, tableStart: int)
    requires ShapeOk(shape) && Covers(values, shape.members)
    ensures 4 <= Encode(shape, values, tableStart).tableLength <= NonPaddedMaxInlineSize(shape)
  {
    OrderFacts(shape);
    OrderPlannable(shape, values);
    PlanCursorBounds(PackingOrder(shape.members), values, tableStart);
  }

  /** The entries member `order[k]` finds in the vtable are the ones its own block wrote. */
  lemma EntriesOfMember(vtable: seq<byte>, order: seq<TableMember>, offsets: seq<seq<int>>, tableStart: int, k: nat)
    requires |offsets| == |order| && forall j :: 0 <= j < |order| ==> |offsets[j]| == Width(order[j])
    requires Disjoint(order) && SlotsFit(order, |vtable|)
    requires k < |order|
    ensures forall i :: 0 <= i < Width(order[k]) ==>
              MemberEntry(WriteVtable(vtable, order, offsets, tableStart), 0, order[k].index as int, i)
              == Some(RelativeEntry(offsets[k][i], tableStart))
  {
    var index := order[k].index as int;
    forall i | 0 <= i < Width(order[k])
      ensures MemberEntry(WriteVtable(vtable, order, offsets, tableStart), 0, index, i)
              == Some(RelativeEntry(offsets[k][i], tableStart))
    {
      assert index + i in Slots(order[k]);
      WriteVtableClaimed(vtable, order, offsets, tableStart, k, index + i);
    }
  }

  /**
   * The read rule against entries written for `offsets`: all at `tableStart` reads back as
   * the default, all within 16 bits past `tableStart` reads back as exactly those offsets.
   */
  lemma ReadOfWrittenEntries(m: TableMember, buffer: seq<byte>, tableStart: int, maxIndex: int, offsets: seq<int>)
    requires VtableInBuffer(buffer, 0, maxIndex)
    requires Width(m) >= 1 && |offsets| == Width(m) && m.index as int + Width(m) - 1 <= maxIndex
    requires forall i :: 0 <= i < Width(m) ==>
               MemberEntry(buffer, 0, m.index as int, i) == Some(RelativeEntry(offsets[i], tableStart))
    ensures (forall i :: 0 <= i < |offsets| ==> offsets[i] == tableStart) ==>
              ReadItem(m, buffer, tableStart, 0, maxIndex) == UseDefault
    ensures (forall i :: 0 <= i < |offsets| ==> tableStart < offsets[i] < tableStart + 0x1_0000) ==>
              ReadItem(m, buffer, tableStart, 0, maxIndex) == ParseAt(offsets)
  {
    var index := m.index as int;
    ReadItemMeaning(m, buffer, tableStart, 0, maxIndex);
    if forall i :: 0 <= i < |offsets| ==> offsets[i] == tableStart {
      assert offsets[0] == tableStart;
      assert RelativeEntry(offsets[0], tableStart) == 0;
      assert !SlotsPresent(buffer, 0, index, Width(m));
    }
    if forall i :: 0 <= i < |offsets| ==> tableStart < offsets[i] < tableStart + 0x1_0000 {
      forall i | 0 <= i < Width(m)
        ensures MemberEntry(buffer, 0, index, i) == Some(offsets[i] - tableStart)
      {
        assert tableStart < offsets[i] < tableStart + 0x1_0000;
      }
      assert SlotsPresent(buffer, 0, index, Width(m));
      assert Locations(buffer, tableStart, 0, index, Width(m)) == offsets;
    }
  }

  /**
   * The offsets the plan gives a member: all `tableStart` at its default, otherwise all past
   * `tableStart` and, when the members' worst case fits in 16 bits, within 16 bits of it.
   */
  lemma PlannedOffsetsInRange(order: seq<TableMember>, values: map<int, Value>, tableStart: int, k: nat)
    requires Plannable(values, order)
    requires SumMaxInlineSize(order) + 4 < 0x1_0000
    requires k < |order|
    ensures var m := order[k];
            var offsets := PlanTable(order, values, tableStart).offsets[k];
            && (values[m.index as int] == DefaultOf(m) ==> forall i :: 0 <= i < |offsets| ==> offsets[i] == tableStart)
            && (values[m.index as int] != DefaultOf(m) ==>
                  forall i :: 0 <= i < |offsets| ==> tableStart < offsets[i] < tableStart + 0x1_0000)
  {
    var m := order[k];
    var plan := PlanTable(order, values, tableStart);
    PlanMember(order, values, tableStart, k);
    PlanCursorBounds(order, values, tableStart);
    if values[m.index as int] != DefaultOf(m) {
      var layout := m.itemType.physicalLayout;
      forall i | 0 <= i < Width(m) ensures plan.offsets[k][i] <= plan.cursor {
        assert plan.offsets[k][i] + layout[i].inlineSize <= plan.cursor;
      }
    }
  }

  /** The round trip over any packing of disjoint, well-formed members whose slots fit the vtable. */
  lemma RoundTripOfOrder(order: seq<TableMember>, values: map<int, Value>, tableStart: int, maxIndex: int, k: nat)
    requires Plannable(values, order)
    requires Disjoint(order) && SlotsFit(order, VtableSize(maxIndex))
    requires SumMaxInlineSize(order) + 4 < 0x1_0000
    requires k < |order|
    ensures var m := order[k];
            var plan := PlanTable(order, values, tableStart);
            ReadItem(m, WriteVtable(Zeros(VtableSize(maxIndex)), order, plan.offsets, tableStart), tableStart, 0, maxIndex)
            == if values[m.index as int] == DefaultOf(m) then UseDefault else ParseAt(plan.offsets[k])
  {
    var m := order[k];
    var plan := PlanTable(order, values, tableStart);
    var zeros := Zeros(VtableSize(maxIndex));
    assert m in order;
    EntriesOfMember(zeros, order, plan.offsets, tableStart, k);
    PlannedOffsetsInRange(order, values, tableStart, k);
    ReadOfWrittenEntries(m, WriteVtable(zeros, order, plan.offsets, tableStart), tableStart, maxIndex, plan.offsets[k]);
  }

  /**
   * The headline round trip: reading a live member back through the generated accessor,
   * with the scratch vtable and the table's max index, yields the default exactly when the
   * member's value is its default, and otherwise the offsets its block recorded. Entries are
   * u16 casts, so the table's worst-case size must fit in 16 bits.
   */
  lemma VtableRoundTrip(shape: TableShape, values: map<int, Value>, tableStart: int, k: nat)
    requires ShapeOk(shape) && Covers(values, shape.members)
    requires NonPaddedMaxInlineSize(shape) < 0x1_0000
    requires k < |PackingOrder(shape.members)|
    ensures var m := PackingOrder(shape.members)[k];
            var e := Encode(shape, values, tableStart);
            ReadItem(m, e.vtable, tableStart, 0, MaxSlot(shape.members))
            == if AtDefault(values, m) then UseDefault else ParseAt(e.offsets[k])
  {
    OrderFacts(shape);
    OrderPlannable(shape, values);
    var order := PackingOrder(shape.members);
    var maxIndex := MaxSlot(shape.members);
    var plan := PlanTable(order, values, tableStart);
    var e := Encode(shape, values, tableStart);
    assert e.vtable == WriteVtable(Zeros(VtableSize(maxIndex)), order, plan.offsets, tableStart);
    assert e.offsets == plan.offsets;
    assert SumMaxInlineSize(order) + 4 < 0x1_0000;
    assert order[k] in order;
    RoundTripOfOrder(order, values, tableStart, maxIndex, k);
  }

  /**
   * End to end: every live property of a declaration Initialize accepts has a block in the
   * packing order, and the member of each block reads back from the vtable the serializer
   * builds its default exactly when its value is the default, and otherwise its recorded offsets.
   */
  lemma AcceptedTableRoundTrip(decl: TableDecl, values: map<int, Value>, tableStart: int, k: nat)
    requires PropertyTypesWellFormed(decl.properties) && Build(decl).Ok?
    requires Covers(values, Build(decl).value.members)
    requires NonPaddedMaxInlineSize(Build(decl).value) < 0x1_0000
    requires k < |PackingOrder(Build(decl).value.members)|
    ensures forall i :: 0 <= i < |decl.properties| && !decl.properties[i].deprecated ==>
              ToMember(decl.properties[i]) in PackingOrder(Build(decl).value.members)
    ensures (BuildShapeOk(decl);
             var shape := Build(decl).value;
             var m := PackingOrder(shape.members)[k];
             var e := Encode(shape, values, tableStart);
             ReadItem(m, e.vtable, tableStart, 0, MaxSlot(shape.members))
             == if AtDefault(values, m) then UseDefault else ParseAt(e.offsets[k]))
  {
    var shape := Build(decl).value;
    BuildAccepts(decl);
    BuildShapeOk(decl);
    PackingOrderMeaning(shape.members);
    forall i | 0 <= i < |decl.properties| && !decl.properties[i].deprecated
      ensures ToMember(decl.properties[i]) in PackingOrder(shape.members)
    {
      assert shape.members[i] == ToMember(decl.properties[i]);
    }
    VtableRoundTrip(shape, values, tableStart, k);
  }

  /** A slot no live member claims keeps the zero entry of the fresh vtable. */
  lemma UnclaimedSlotsAreZero(shape: TableShape, values: map<int, Value>, tableStart: int, slot: int)
    requires ShapeOk(shape) && Covers(values, shape.members)
    requires 0 <= slot <= MaxSlot(shape.members)
    requires forall m :: m in shape.members && !m.isDeprecated ==> slot !in Slots(m)
    ensures VtableEntry(Encode(shape, values, tableStart).vtable, 0, slot) == Some(0)
  {
    OrderFacts(shape);
    OrderPlannable(shape, values);
    var order := PackingOrder(shape.members);
    var plan := PlanTable(order, values, tableStart);
    var maxIndex := MaxSlot(shape.members);
    forall k | 0 <= k < |order| ensures slot !in Slots(order[k]) {
      assert order[k] in order;
    }
    var zeros := Zeros(VtableSize(maxIndex));
    assert Encode(shape, values, tableStart).vtable == WriteVtable(zeros, order, plan.offsets, tableStart);
    WriteVtableUnclaimed(zeros, order, plan.offsets, tableStart, slot);
    assert VtableEntry(zeros, 0, slot) == Some(0);
  }

  /** A deprecated member is never written, so it always reads back as its default. */
  lemma DeprecatedMemberReadsDefault(shape: TableShape, values: map<int, Value>, tableStart: int, m: TableMember)
    requires ShapeOk(shape) && Covers(values, shape.members)
    requires m in shape.members && m.isDeprecated
    ensures ReadItem(m, Encode(shape, values, tableStart).vtable, tableStart, 0, MaxSlot(shape.members)) == UseDefault
  {
    var ms := shape.members;
    var i :| 0 <= i < |ms| && ms[i] == m;
    var index := m.index as int;
    MembersFitVtable(shape, m);
    assert index in Slots(m);
    forall x | x in ms && !x.isDeprecated ensures index !in Slots(x) {
      var j :| 0 <= j < |ms| && ms[j] == x;
      assert i != j;
    }
    UnclaimedSlotsAreZero(shape, values, tableStart, index);
    var e := Encode(shape, values, tableStart);
    ReadItemMeaning(m, e.vtable, tableStart, 0, MaxSlot(ms));
    assert MemberEntry(e.vtable, 0, index, 0) == Some(0);
  }

  /** Over any plan of disjoint members, a write is made exactly for the members its guard lets through. */
  lemma WritesOfOrder(order: seq<TableMember>, values: map<int, Value>, offsets: seq<seq<int>>, tableStart: int, k: nat)
    requires Plannable(values, order)
    requires |offsets| == |order| && forall j :: 0 <= j < |order| ==> |offsets[j]| == Width(order[j])
    requires Disjoint(order) && k < |order| && Width(order[k]) >= 1
    requires values[order[k].index as int] == DefaultOf(order[k]) ==> offsets[k][0] == tableStart
    requires values[order[k].index as int] != DefaultOf(order[k]) ==> offsets[k][0] != tableStart
    ensures WriteOf(order[k], offsets[k]) in InlineWrites(order, values, offsets) + DeferredWrites(order, offsets, tableStart)
            <==> values[order[k].index as int] != DefaultOf(order[k])
  {
    var m := order[k];
    var w := WriteOf(m, offsets[k]);
    var inline := InlineWrites(order, values, offsets);
    var deferred := DeferredWrites(order, offsets, tableStart);
    var index := m.index as int;
    assert index in Slots(m);
    InlineWritesMeaning(order, values, offsets);
    DeferredWritesMeaning(order, offsets, tableStart);
    if w in inline {
      var j :| 0 <= j < |order| && w == WriteOf(order[j], offsets[j])
               && order[j].itemType.serializesInline && values[order[j].index as int] != DefaultOf(order[j]);
      assert index in Slots(order[j]);
      assert j == k;
    }
    if w in deferred {
      var j :| 0 <= j < |order| && w == WriteOf(order[j], offsets[j])
               && !order[j].itemType.serializesInline && |offsets[j]| > 0 && offsets[j][0] != tableStart;
      assert index in Slots(order[j]);
      assert j == k;
    }
  }

  /**
   * A live member's serialize call is made exactly when its value differs from its default:
   * inline members inside their block, by-reference members because their first offset then
   * differs from `tableStart`.
   */
  lemma WrittenExactlyWhenNotDefault(shape: TableShape, values: map<int, Value>, tableStart: int, k: nat)
    requires ShapeOk(shape) && Covers(values, shape.members)
    requires k < |PackingOrder(shape.members)|
    ensures var m := PackingOrder(shape.members)[k];
            var e := Encode(shape, values, tableStart);
            WriteOf(m, e.offsets[k]) in e.writes <==> !AtDefault(values, m)
  {
    OrderFacts(shape);
    OrderPlannable(shape, values);
    var order := PackingOrder(shape.members);
    var plan := PlanTable(order, values, tableStart);
    var e := Encode(shape, values, tableStart);
    assert e.writes == InlineWrites(order, values, plan.offsets) + DeferredWrites(order, plan.offsets, tableStart);
    assert e.offsets == plan.offsets;
    assert order[k] in order;
    WrittenOfOrder(order, values, tableStart, k);
  }

  lemma WrittenOfOrder(order: seq<TableMember>, values: map<int, Value>, tableStart: int, k: nat)
    requires Plannable(values, order)
    requires Disjoint(order) && k < |order|
    ensures var plan := PlanTable(order, values, tableStart);
            WriteOf(order[k], plan.offsets[k])
              in InlineWrites(order, values, plan.offsets) + DeferredWrites(order, plan.offsets, tableStart)
            <==> values[order[k].index as int] != DefaultOf(order[k])
  {
    assert order[k] in order;
    PlanMember(order, values, tableStart, k);
    WritesOfOrder(order, values, PlanTable(order, values, tableStart).offsets, tableStart, k);
  }

  // ---------------------------------------------------------------- the max-size bound

  /** The max sizes of the children: live members that are not fixed-size and not at their default. */
  function ChildrenMaxSize(ms: seq<TableMember>, values: map<int, Value>, sizes: map<int, nat>): (r: nat)
    requires Covers(values, ms) && Covers(sizes, ms)
    ensures forall m :: m in ms && !m.isDeprecated && !m.itemType.isFixedSize && values[m.index as int] != DefaultOf(m)
              ==> r >= sizes[m.index as int]
  {
    if ms == [] then 0
    else
      var n := |ms| - 1;
      var m := ms[n];
      assert forall x :: x in ms[..n] ==> x in ms;
      ChildrenMaxSize(ms[..n], values, sizes)
      + if !m.isDeprecated && !m.itemType.isFixedSize && values[m.index as int] != DefaultOf(m)
        then sizes[m.index as int] else 0
  }

  /**
   * The generated max-size method: the table's worst-case inline size padded to its 4-byte
   * alignment, a vtable of `2 + MaxIndex + 1` u16s padded to 2, and the children.
   */
  function MaxSize(shape: TableShape, values: map<int, Value>, sizes: map<int, nat>): (r: int)
    requires ShapeOk(shape) && Covers(values, shape.members) && Covers(sizes, shape.members)
    ensures r > NonPaddedMaxInlineSize(shape) + VtableSize(MaxSlot(shape.members)) + ChildrenMaxSize(shape.members, values, sizes)
  {
    var vtableEntryCount := MaxSlot(shape.members) + 1;
    var maxVtableSize := 2 * (2 + vtableEntryCount) + MaxPadding(2);
    var maxTableSize := NonPaddedMaxInlineSize(shape) + MaxPadding(4);
    maxTableSize + maxVtableSize + ChildrenMaxSize(shape.members, values, sizes)
  }

  /**
   * The bound covers what one serialization of the table occupies: the table's inline part
   * after the worst padding to 4, the scratch vtable after the worst padding to 2, and the
   * children's own bounds.
   */
  lemma MaxSizeCoversEncoding(shape: TableShape, values: map<int, Value>, sizes: map<int, nat>, tableStart: int)
    requires ShapeOk(shape) && Covers(values, shape.members) && Covers(sizes, shape.members)
    ensures var e := Encode(shape, values, tableStart);
            MaxSize(shape, values, sizes)
            >= MaxPadding(4) + e.tableLength + MaxPadding(2) + |e.vtable| + ChildrenMaxSize(shape.members, values, sizes)
  {
    TableLengthBound(shape, values, tableStart);
  }

  /** Children that are fixed-size, deprecated or at their default add nothing. */
  lemma {:induction false} ChildrenMaxSizeDependsOnlyOnChildren(
    ms: seq<TableMember>, values1: map<int, Value>, sizes1: map<int, nat>, values2: map<int, Value>, sizes2: map<int, nat>)
    requires Covers(values1, ms) && Covers(sizes1, ms) && Covers(values2, ms) && Covers(sizes2, ms)
    requires forall m :: m in ms && !m.isDeprecated && !m.itemType.isFixedSize ==>
               (values1[m.index as int] == DefaultOf(m) <==> values2[m.index as int] == DefaultOf(m))
    requires forall m :: m in ms && !m.isDeprecated && !m.itemType.isFixedSize && values1[m.index as int] != DefaultOf(m) ==>
               sizes1[m.index as int] == sizes2[m.index as int]
    ensures ChildrenMaxSize(ms, values1, sizes1) == ChildrenMaxSize(ms, values2, sizes2)
  {
    if ms != [] {
      var n := |ms| - 1;
      assert forall x :: x in ms[..n] ==> x in ms;
      ChildrenMaxSizeDependsOnlyOnChildren(ms[..n], values1, sizes1, values2, sizes2);
    }
  }

  /** A table whose children are all at their defaults needs only its fixed part. */
  lemma {:induction false} AllDefaultChildrenAddNothing(ms: seq<TableMember>, values: map<int, Value>, sizes: map<int, nat>)
    requires Covers(values, ms) && Covers(sizes, ms)
    requires forall m :: m in ms && !m.isDeprecated ==> values[m.index as int] == DefaultOf(m)
    ensures ChildrenMaxSize(ms, values, sizes) == 0
  {
    if ms != [] {
      var n := |ms| - 1;
      assert forall x :: x in ms[..n] ==> x in ms;
      AllDefaultChildrenAddNothing(ms[..n], values, sizes);
    }
  }

  // ---------------------------------------------------------------- the generated code

  /** The part of the serialization context the table serializer moves: the write offset. */
  class SerializationContext {
    var offset: int

    constructor (offset: int)
      ensures this.offset == offset
    {
      this.offset := offset;
    }
  }

  /** Each slot in turn: pad the cursor to the slot's alignment, record it, advance past it. */
  method PlaceSlots(layout: seq<LayoutElement>, cursor: int) returns (offsets: seq<int>, currentOffset: int)
    ensures Placement(offsets, currentOffset) == Place(layout, cursor)
  {
    offsets := [];
    currentOffset := cursor;
    for i := 0 to |layout|
      invariant Place(layout[..i], cursor) == Placement(offsets, currentOffset)
    {
      assert layout[..i + 1][..i] == layout[..i];
      currentOffset := currentOffset + AlignmentError(currentOffset, layout[i].alignment);
      offsets := offsets + [currentOffset];
      currentOffset := currentOffset + layout[i].inlineSize;
    }
    assert layout[..|layout|] == layout;
  }

  /** Writes the u16 entry `offset - tableStart` of each slot at byte `4 + 2 * slot`. */
  method WriteEntries(vtable: array<byte>, index: int, offsets: seq<int>, tableStart: int)
    requires 0 <= index && 4 + 2 * (index + |offsets|) <= vtable.Length
    modifies vtable
    ensures vtable[..] == WriteSlots(old(vtable[..]), index, offsets, tableStart)
  {
    for i := 0 to |offsets|
      invariant vtable[..] == WriteSlots(old(vtable[..]), index, offsets[..i], tableStart)
    {
      assert offsets[..i + 1][..i] == offsets[..i];
      var entry := RelativeEntry(offsets[i], tableStart);
      var position := 4 + 2 * (index + i);
      vtable[position] := (entry % 0x100) as byte;
      vtable[position + 1] := (entry / 0x100) as byte;
    }
    assert offsets[..|offsets|] == offsets;
  }

  /**
   * One member block: offsets start at `tableStart`; a member not at its default has its
   * slots placed; then every slot's entry goes into the scratch vtable.
   */
  method SerializeMember(m: TableMember, value: Value, tableStart: int, cursor: int, vtable: array<byte>)
    returns (offsets: seq<int>, currentOffset: int)
    requires 4 + 2 * (m.index as int + Width(m)) <= vtable.Length
    modifies vtable
    ensures Placement(offsets, currentOffset) == PlaceMember(m, value, tableStart, cursor)
    ensures vtable[..] == WriteSlots(old(vtable[..]), m.index as int, offsets, tableStart)
  {
    offsets := seq(Width(m), _ => tableStart);
    currentOffset := cursor;
    if value != DefaultOf(m) {
      offsets, currentOffset := PlaceSlots(m.itemType.physicalLayout, cursor);
    }
    WriteEntries(vtable, m.index as int, offsets, tableStart);
  }

  /** One more member block: how each of the serializer's specification functions grows. */
  lemma BlockStep(order: seq<TableMember>, values: map<int, Value>, tableStart: int, vtable: seq<byte>,
                  offsets: seq<seq<int>>, memberOffsets: seq<int>, k: nat)
    requires Plannable(values, order) && k < |order| && |offsets| == k
    ensures Plannable(values, order[..k]) && Plannable(values, order[..k + 1])
    ensures var m, pre, cur, next := order[k], order[..k], order[..k + 1], offsets + [memberOffsets];
            var prev := PlanTable(pre, values, tableStart);
            && PlanTable(cur, values, tableStart)
               == TablePlan(prev.offsets + [PlaceMember(m, values[m.index as int], tableStart, prev.cursor).offsets],
                            PlaceMember(m, values[m.index as int], tableStart, prev.cursor).cursor)
            && WriteVtable(vtable, cur, next, tableStart)
               == WriteSlots(WriteVtable(vtable, pre, offsets, tableStart), m.index as int, memberOffsets, tableStart)
            && InlineWrites(cur, values, next)
               == InlineWrites(pre, values, offsets)
                  + (if m.itemType.serializesInline && values[m.index as int] != DefaultOf(m)
                     then [WriteOf(m, memberOffsets)] else [])
            && DeferredWrites(cur, next, tableStart)
               == DeferredWrites(pre, offsets, tableStart)
                  + (if !m.itemType.serializesInline && |memberOffsets| > 0 && memberOffsets[0] != tableStart
                     then [WriteOf(m, memberOffsets)] else [])
  {
    var cur, next := order[..k + 1], offsets + [memberOffsets];
    assert cur[..k] == order[..k] && cur[k] == order[k];
    assert next[..k] == offsets && next[k] == memberOffsets;
  }

  /** The member blocks, in packing order: the body of the generated serializer. */
  method SerializeMembers(order: seq<TableMember>, values: map<int, Value>, tableStart: int, vtable: array<byte>)
    returns (currentOffset: int, inlineWrites: seq<MemberWrite>, deferredWrites: seq<MemberWrite>)
    requires Plannable(values, order)
    requires SlotsFit(order, vtable.Length)
    modifies vtable
    ensures var plan := PlanTable(order, values, tableStart);
            && currentOffset == plan.cursor
            && vtable[..] == WriteVtable(old(vtable[..]), order, plan.offsets, tableStart)
            && inlineWrites == InlineWrites(order, values, plan.offsets)
            && deferredWrites == DeferredWrites(order, plan.offsets, tableStart)
  {
    currentOffset := tableStart + 4;
    ghost var offsets: seq<seq<int>> := [];
    ghost var initial := vtable[..];
    inlineWrites := [];
    deferredWrites := [];
    for k := 0 to |order|
      invariant Plannable(values, order[..k])
      invariant PlanTable(order[..k], values, tableStart) == TablePlan(offsets, currentOffset)
      invariant vtable[..] == WriteVtable(initial, order[..k], offsets, tableStart)
      invariant inlineWrites == InlineWrites(order[..k], values, offsets)
      invariant deferredWrites == DeferredWrites(order[..k], offsets, tableStart)
    {
      var m := order[k];
      var value := values[m.index as int];
      var memberOffsets, next := SerializeMember(m, value, tableStart, currentOffset, vtable);
      BlockStep(order, values, tableStart, initial, offsets, memberOffsets, k);
      if m.itemType.serializesInline && value != DefaultOf(m) {
        inlineWrites := inlineWrites + [WriteOf(m, memberOffsets)];
      }
      if !m.itemType.serializesInline && memberOffsets[0] != tableStart {
        deferredWrites := deferredWrites + [WriteOf(m, memberOffsets)];
      }
      offsets := offsets + [memberOffsets];
      currentOffset := next;
    }
    assert order[..|order|] == order;
  }

  /**
   * The generated serializer of an initialized table: member blocks in packing order against
   * a zeroed vtable of `4 + 2 * (MaxIndex + 1)` bytes, inline members written in their block,
   * by-reference members afterwards, and the allocation rolled back to the table's length.
   */
  method Serialize(table: TableTypeModel, values: map<int, Value>, tableStart: int, context: SerializationContext)
    returns (vtable: array<byte>, tableLength: int, writes: seq<MemberWrite>)
    requires ShapeOk(table.Shape()) && Covers(values, table.memberTypes)
    modifies context
    ensures fresh(vtable)
    ensures var e := Encode(table.Shape(), values, tableStart);
            vtable[..] == e.vtable && tableLength == e.tableLength && writes == e.writes
    ensures context.offset == old(context.offset) - (table.NonPaddedMaxTableInlineSize() - tableLength)
  {
    ghost var shape := table.Shape();
    var maxIndex := table.MaxIndex();
    var maxInlineSize := table.NonPaddedMaxTableInlineSize();
    var order := PackingOrder(table.memberTypes);
    SerializePlan(shape, values, tableStart, VtableSize(maxIndex));
    vtable := new byte[VtableSize(maxIndex)](_ => 0);
    assert vtable[..] == Zeros(VtableSize(maxIndex));
    var currentOffset, inlineWrites, deferredWrites := SerializeMembers(order, values, tableStart, vtable);
    tableLength := currentOffset - tableStart;
    context.offset := context.offset - (maxInlineSize - tableLength);
    writes := inlineWrites + deferredWrites;
  }
}
