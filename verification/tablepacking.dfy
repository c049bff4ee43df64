// The order in which a table's serializer visits its members, and the offsets it gives them.

module TablePacking {
  import opened Wrappers
  import opened TypeModel
  import opened TableMemberModel
  import opened TableTypeModel

  // ---------------------------------------------------------------- packing order

  /** The alignment of a member's first slot (every well-formed member has one). */
  function FirstAlignment(m: TableMember): int
  {
    if Width(m) == 0 then 0 else m.itemType.physicalLayout[0].alignment
  }

  /** `a` is packed strictly before `b`: it has fewer slots, or as many and a larger first alignment. */
  predicate PacksBefore(a: TableMember, b: TableMember)
  {
    Width(a) < Width(b) || (Width(a) == Width(b) && FirstAlignment(a) > FirstAlignment(b))
  }

  /** No member is packed strictly before one that precedes it. */
  predicate Packed(s: seq<TableMember>)
  {
    forall i, j :: 0 <= i < j < |s| ==> !PacksBefore(s[j], s[i])
  }

  /** No two members (by position) claim a common slot. */
  predicate Disjoint(ms: seq<TableMember>)
  {
    forall i, j :: 0 <= i < j < |ms| ==> Slots(ms[i]) !! Slots(ms[j])
  }

  /** The members that are not deprecated, in dictionary order. */
  function Live(ms: seq<TableMember>): (r: seq<TableMember>)
    ensures forall m :: m in r <==> m in ms && !m.isDeprecated
  {
    if ms == [] then []
    else
      var last := ms[|ms| - 1];
      assert ms == ms[..|ms| - 1] + [last];
      if last.isDeprecated then Live(ms[..|ms| - 1]) else Live(ms[..|ms| - 1]) + [last]
  }

  /** Inserts `m` after every member it is not packed strictly before. */
  function Insert(s: seq<TableMember>, m: TableMember): (r: seq<TableMember>)
    ensures multiset(r) == multiset(s) + multiset{m}
  {
    if s == [] then [m]
    else if PacksBefore(m, s[|s| - 1]) then
      assert s == s[..|s| - 1] + [s[|s| - 1]];
      Insert(s[..|s| - 1], m) + [s[|s| - 1]]
    else s + [m]
  }

  /** A stable insertion sort by packing rank, as an ordered LINQ query produces. */
  function StableSort(s: seq<TableMember>): (r: seq<TableMember>)
    ensures multiset(r) == multiset(s)
  {
    if s == [] then []
    else
      assert s == s[..|s| - 1] + [s[|s| - 1]];
      Insert(StableSort(s[..|s| - 1]), s[|s| - 1])
  }

  /**
   * The order of the serializer's member blocks: live members, single-slot ones first, then
   * by descending first-slot alignment, ties kept in dictionary order.
   */
  function PackingOrder(ms: seq<TableMember>): (r: seq<TableMember>)
    ensures multiset(r) == multiset(Live(ms))
  {
    StableSort(Live(ms))
  }

  lemma InMultiset(s: seq<TableMember>, x: TableMember)
    requires x in multiset(s)
    ensures exists i :: 0 <= i < |s| && s[i] == x
  {
  }

  lemma {:induction false} InsertPacked(s: seq<TableMember>, m: TableMember)
    requires Packed(s)
    ensures Packed(Insert(s, m))
  {
    if s != [] && PacksBefore(m, s[|s| - 1]) {
      var pre, last := s[..|s| - 1], s[|s| - 1];
      InsertPacked(pre, m);
      var r := Insert(pre, m);
      forall x | x in r ensures !PacksBefore(last, x) {
        assert x in multiset(r);
        if x != m {
          assert x in multiset(pre);
          InMultiset(pre, x);
        }
      }
      var t := r + [last];
      forall i, j | 0 <= i < j < |t| ensures !PacksBefore(t[j], t[i]) {
        if j == |r| {
          assert t[i] == r[i];
        } else {
          assert t[i] == r[i] && t[j] == r[j];
        }
      }
    }
  }

  lemma {:induction false} InsertDisjoint(s: seq<TableMember>, m: TableMember)
    requires Disjoint(s)
    requires forall x :: x in s ==> Slots(x) !! Slots(m)
    ensures Disjoint(Insert(s, m))
  {
    if s == [] {
    } else if PacksBefore(m, s[|s| - 1]) {
      var pre, last := s[..|s| - 1], s[|s| - 1];
      assert Disjoint(pre) by {
        forall i, j | 0 <= i < j < |pre| ensures Slots(pre[i]) !! Slots(pre[j]) {
          assert pre[i] == s[i] && pre[j] == s[j];
        }
      }
      InsertDisjoint(pre, m);
      var r := Insert(pre, m);
      forall x | x in r ensures Slots(x) !! Slots(last) {
        assert x in multiset(r);
        if x != m {
          assert x in multiset(pre);
          InMultiset(pre, x);
        }
      }
      var t := r + [last];
      forall i, j | 0 <= i < j < |t| ensures Slots(t[i]) !! Slots(t[j]) {
        assert t[i] == r[i];
        if j < |r| {
          assert t[j] == r[j];
        }
      }
    } else {
      var t := s + [m];
      forall i, j | 0 <= i < j < |t| ensures Slots(t[i]) !! Slots(t[j]) {
        assert t[i] == s[i];
        if j < |s| {
          assert t[j] == s[j];
        }
      }
    }
  }

  lemma {:induction false} InsertSum(s: seq<TableMember>, m: TableMember)
    ensures SumMaxInlineSize(Insert(s, m)) == SumMaxInlineSize(s) + m.itemType.maxInlineSize
  {
    if s != [] && PacksBefore(m, s[|s| - 1]) {
      var pre, last := s[..|s| - 1], s[|s| - 1];
      InsertSum(pre, m);
      var r := Insert(pre, m);
      assert (r + [last])[..|r|] == r;
    } else if s != [] {
      assert (s + [m])[..|s|] == s;
    }
  }

  lemma {:induction false} StableSortMeaning(s: seq<TableMember>)
    ensures Packed(StableSort(s))
    ensures SumMaxInlineSize(StableSort(s)) == SumMaxInlineSize(s)
    ensures Disjoint(s) ==> Disjoint(StableSort(s))
  {
    if s != [] {
      var pre, last := s[..|s| - 1], s[|s| - 1];
      StableSortMeaning(pre);
      InsertPacked(StableSort(pre), last);
      InsertSum(StableSort(pre), last);
      if Disjoint(s) {
        assert Disjoint(pre) by {
          forall i, j | 0 <= i < j < |pre| ensures Slots(pre[i]) !! Slots(pre[j]) {
            assert pre[i] == s[i] && pre[j] == s[j];
          }
        }
        forall x | x in StableSort(pre) ensures Slots(x) !! Slots(last) {
          assert x in multiset(StableSort(pre));
          InMultiset(pre, x);
        }
        InsertDisjoint(StableSort(pre), last);
      }
    }
  }

  lemma {:induction false} LiveSum(ms: seq<TableMember>)
    ensures SumMaxInlineSize(Live(ms)) <= SumMaxInlineSize(ms)
  {
    if ms != [] {
      var pre, last := ms[..|ms| - 1], ms[|ms| - 1];
      LiveSum(pre);
      var r := Live(pre);
      if !last.isDeprecated {
        assert (r + [last])[..|r|] == r;
      }
    }
  }

  lemma {:induction false} LiveDisjoint(ms: seq<TableMember>)
    requires Disjoint(ms)
    ensures Disjoint(Live(ms))
  {
    if ms != [] {
      var pre, last := ms[..|ms| - 1], ms[|ms| - 1];
      assert Disjoint(pre) by {
        forall i, j | 0 <= i < j < |pre| ensures Slots(pre[i]) !! Slots(pre[j]) {
          assert pre[i] == ms[i] && pre[j] == ms[j];
        }
      }
      LiveDisjoint(pre);
      var r := Live(pre);
      if !last.isDeprecated {
        forall x | x in r ensures Slots(x) !! Slots(last) {
          var k :| 0 <= k < |pre| && pre[k] == x;
          assert ms[k] == x;
        }
        var t := r + [last];
        forall i, j | 0 <= i < j < |t| ensures Slots(t[i]) !! Slots(t[j]) {
          assert t[i] == r[i] && t[i] in r;
          if j < |r| {
            assert t[j] == r[j];
          }
        }
      }
    }
  }

  /**
   * The packing order is a permutation of the live members, sorted by packing rank; it
   * keeps the members' slots apart and their inline sizes sum to no more than the table's.
   */
  lemma PackingOrderMeaning(ms: seq<TableMember>)
    ensures multiset(PackingOrder(ms)) == multiset(Live(ms))
    ensures forall m :: m in PackingOrder(ms) <==> m in ms && !m.isDeprecated
    ensures Packed(PackingOrder(ms))
    ensures SumMaxInlineSize(PackingOrder(ms)) <= SumMaxInlineSize(ms)
    ensures Disjoint(ms) ==> Disjoint(PackingOrder(ms))
  {
    LiveSum(ms);
    if Disjoint(ms) {
      LiveDisjoint(ms);
    }
    StableSortMeaning(Live(ms));
    forall m ensures m in PackingOrder(ms) <==> m in Live(ms) {
      assert m in PackingOrder(ms) <==> m in multiset(PackingOrder(ms));
      assert m in Live(ms) <==> m in multiset(Live(ms));
    }
  }

  /** The members of `s` with `width` slots and first alignment `alignment`, in their order in `s`. */
  function WithRank(s: seq<TableMember>, width: nat, alignment: int): (r: seq<TableMember>)
    ensures |r| <= |s|
  {
    if s == [] then []
    else
      var last := s[|s| - 1];
      WithRank(s[..|s| - 1], width, alignment)
      + if Width(last) == width && FirstAlignment(last) == alignment then [last] else []
  }

  lemma WithRankSnoc(s: seq<TableMember>, x: TableMember, width: nat, alignment: int)
    ensures WithRank(s + [x], width, alignment)
            == WithRank(s, width, alignment)
               + if Width(x) == width && FirstAlignment(x) == alignment then [x] else []
  {
    assert (s + [x])[..|s|] == s;
  }

  /** Insertion puts `m` after every member of its own rank. */
  lemma {:induction false} InsertWithRank(s: seq<TableMember>, m: TableMember, width: nat, alignment: int)
    ensures WithRank(Insert(s, m), width, alignment)
            == WithRank(s, width, alignment)
               + if Width(m) == width && FirstAlignment(m) == alignment then [m] else []
  {
    if s == [] {
      WithRankSnoc([], m, width, alignment);
      assert Insert(s, m) == [] + [m];
    } else if PacksBefore(m, s[|s| - 1]) {
      var pre, last := s[..|s| - 1], s[|s| - 1];
      var inserted := Insert(pre, m);
      assert Insert(s, m) == inserted + [last];
      InsertWithRank(pre, m, width, alignment);
      WithRankSnoc(inserted, last, width, alignment);
      if Width(m) == width && FirstAlignment(m) == alignment {
        // `last` packs after `m`, so it has another rank and adds nothing
        assert WithRank(Insert(s, m), width, alignment) == WithRank(inserted, width, alignment);
        assert WithRank(s, width, alignment) == WithRank(pre, width, alignment);
      } else {
        assert WithRank(inserted, width, alignment) == WithRank(pre, width, alignment);
      }
    } else {
      assert Insert(s, m) == s + [m];
      WithRankSnoc(s, m, width, alignment);
    }
  }

  /** The sort is stable: members of equal rank keep their relative order. */
  lemma {:induction false} StableSortWithRank(s: seq<TableMember>, width: nat, alignment: int)
    ensures WithRank(StableSort(s), width, alignment) == WithRank(s, width, alignment)
  {
    if s != [] {
      var pre, last := s[..|s| - 1], s[|s| - 1];
      var tail := if Width(last) == width && FirstAlignment(last) == alignment then [last] else [];
      assert StableSort(s) == Insert(StableSort(pre), last);
      StableSortWithRank(pre, width, alignment);
      InsertWithRank(StableSort(pre), last, width, alignment);
      assert WithRank(StableSort(s), width, alignment) == WithRank(pre, width, alignment) + tail;
      assert WithRank(s, width, alignment) == WithRank(pre, width, alignment) + tail;
    }
  }

  /**
   * Members of equal packing rank are visited in dictionary order, so the byte layout of
   * a table is fixed by its declaration.
   */
  lemma PackingOrderStable(ms: seq<TableMember>, width: nat, alignment: int)
    ensures WithRank(PackingOrder(ms), width, alignment) == WithRank(Live(ms), width, alignment)
  {
    StableSortWithRank(Live(ms), width, alignment);
  }

  // ---------------------------------------------------------------- the cursor

  /** Where one member's slots go, and the cursor after them. */
  datatype Placement = Placement(offsets: seq<int>, cursor: int)

  /** Each slot in turn: pad the cursor to the slot's alignment, record it, advance past the slot. */
  function Place(layout: seq<LayoutElement>, cursor: int): (p: Placement)
    ensures |p.offsets| == |layout|
  {
    if layout == [] then Placement([], cursor)
    else
      var prev := Place(layout[..|layout| - 1], cursor);
      var e := layout[|layout| - 1];
      var at := prev.cursor + AlignmentError(prev.cursor, e.alignment);
      Placement(prev.offsets + [at], at + e.inlineSize)
  }

  /**
   * A member's block: every slot offset starts at `tableStart`, and only a member whose value
   * differs from its default is placed.
   */
  function PlaceMember(m: TableMember, value: Value, tableStart: int, cursor: int): (p: Placement)
    ensures |p.offsets| == Width(m)
    ensures value == DefaultOf(m) ==> p.offsets == seq(Width(m), _ => tableStart) && p.cursor == cursor
  {
    if value == DefaultOf(m) then Placement(seq(Width(m), _ => tableStart), cursor)
    else Place(m.itemType.physicalLayout, cursor)
  }

  /** Every live member has an entry, keyed by its index. */
  predicate Covers<V>(values: map<int, V>, ms: seq<TableMember>)
  {
    forall m :: m in ms && !m.isDeprecated ==> m.index as int in values
  }

  /** The member's value is recorded and equals its default. */
  predicate AtDefault(values: map<int, Value>, m: TableMember)
  {
    m.index as int in values && values[m.index as int] == DefaultOf(m)
  }

  /** Each member of the packing order is live, has a value, and has a well-formed type. */
  predicate Plannable(values: map<int, Value>, order: seq<TableMember>)
  {
    forall k :: 0 <= k < |order| ==>
      order[k].index as int in values && !order[k].isDeprecated && WellFormed(order[k].itemType)
  }

  /** The offsets of each member in `order`, and the final cursor. */
  datatype TablePlan = TablePlan(offsets: seq<seq<int>>, cursor: int)

  /** The member blocks run in `order`, the cursor starting past the 4-byte vtable soffset. */
  function PlanTable(order: seq<TableMember>, values: map<int, Value>, tableStart: int): (p: TablePlan)
    requires Plannable(values, order)
    ensures |p.offsets| == |order|
    ensures forall k :: 0 <= k < |order| ==> |p.offsets[k]| == Width(order[k])
  {
    if order == [] then TablePlan([], tableStart + 4)
    else
      var n := |order| - 1;
      assert forall k :: 0 <= k < n ==> order[..n][k] == order[k];
      var prev := PlanTable(order[..n], values, tableStart);
      var m := order[n];
      var placed := PlaceMember(m, values[m.index as int], tableStart, prev.cursor);
      TablePlan(prev.offsets + [placed.offsets], placed.cursor)
  }

  /**
   * Placing a layout pads each slot to its own alignment, keeps the slots in order without
   * overlap, and advances the cursor by at most the layout's worst case.
   */
  lemma {:induction false} PlaceMeaning(layout: seq<LayoutElement>, cursor: int)
    ensures var p := Place(layout, cursor);
            && cursor <= p.cursor <= cursor + LayoutWorstCase(layout)
            && (forall i :: 0 <= i < |layout| ==> p.offsets[i] % layout[i].alignment == 0)
            && (forall i :: 0 <= i < |layout| ==> cursor <= p.offsets[i] && p.offsets[i] + layout[i].inlineSize <= p.cursor)
            && (forall i, j :: 0 <= i < j < |layout| ==> p.offsets[i] + layout[i].inlineSize <= p.offsets[j])
  {
    if layout != [] {
      var n := |layout| - 1;
      var pre := layout[..n];
      PlaceMeaning(pre, cursor);
      assert forall i :: 0 <= i < n ==> pre[i] == layout[i];
    }
  }

  /** The cursor starts past the soffset and advances by at most the members' maximum inline sizes. */
  lemma {:induction false} PlanCursorBounds(order: seq<TableMember>, values: map<int, Value>, tableStart: int)
    requires Plannable(values, order)
    ensures tableStart + 4 <= PlanTable(order, values, tableStart).cursor
                           <= tableStart + 4 + SumMaxInlineSize(order)
  {
    if order != [] {
      var n := |order| - 1;
      var pre := order[..n];
      assert forall k :: 0 <= k < n ==> pre[k] == order[k];
      PlanCursorBounds(pre, values, tableStart);
      var prev := PlanTable(pre, values, tableStart);
      PlaceMeaning(order[n].itemType.physicalLayout, prev.cursor);
    }
  }

  lemma PlanTableLast(order: seq<TableMember>, values: map<int, Value>, tableStart: int)
    requires Plannable(values, order) && |order| > 0
    ensures var n := |order| - 1;
            var prev, m := PlanTable(order[..n], values, tableStart), order[n];
            var placed := PlaceMember(m, values[m.index as int], tableStart, prev.cursor);
            && Plannable(values, order[..n])
            && PlanTable(order, values, tableStart) == TablePlan(prev.offsets + [placed.offsets], placed.cursor)
  {
    var n := |order| - 1;
    assert forall k :: 0 <= k < n ==> order[..n][k] == order[k];
  }

  /** Later blocks do not change an earlier member's offsets, and never move the cursor back. */
  lemma {:induction false} PlanPrefix(order: seq<TableMember>, values: map<int, Value>, tableStart: int, j: nat, i: nat)
    requires Plannable(values, order)
    requires i < j <= |order|
    ensures Plannable(values, order[..j])
    ensures PlanTable(order[..j], values, tableStart).cursor <= PlanTable(order, values, tableStart).cursor
    ensures PlanTable(order, values, tableStart).offsets[i] == PlanTable(order[..j], values, tableStart).offsets[i]
  {
    assert forall k :: 0 <= k < j ==> order[..j][k] == order[k];
    if j < |order| {
      var n := |order| - 1;
      var pre := order[..n];
      PlanTableLast(order, values, tableStart);
      PlanPrefix(pre, values, tableStart, j, i);
      assert pre[..j] == order[..j];
      var prev := PlanTable(pre, values, tableStart);
      var m := order[n];
      PlaceMeaning(m.itemType.physicalLayout, prev.cursor);
    } else {
      assert order[..j] == order;
    }
  }

  /**
   * One member of the plan: a member keeping its default keeps every offset at `tableStart`;
   * any other member has each slot padded to its own alignment, past the soffset, and inside
   * the table's final length.
   */
  lemma PlanMember(order: seq<TableMember>, values: map<int, Value>, tableStart: int, k: nat)
    requires Plannable(values, order)
    requires k < |order|
    ensures var m, p := order[k], PlanTable(order, values, tableStart);
            var layout := m.itemType.physicalLayout;
            if values[m.index as int] == DefaultOf(m)
            then p.offsets[k] == seq(Width(m), _ => tableStart)
            else forall i :: 0 <= i < |layout| ==>
                   && p.offsets[k][i] % layout[i].alignment == 0
                   && tableStart + 4 <= p.offsets[k][i]
                   && p.offsets[k][i] + layout[i].inlineSize <= p.cursor
  {
    var m := order[k];
    PlanPrefix(order, values, tableStart, k + 1, k);
    var upto := order[..k + 1];
    assert upto[..k] == order[..k];
    assert upto[k] == m;
    var before := PlanTable(order[..k], values, tableStart);
    PlanCursorBounds(order[..k], values, tableStart);
    PlaceMeaning(m.itemType.physicalLayout, before.cursor);
    assert PlanTable(order, values, tableStart).offsets[k] == PlanTable(upto, values, tableStart).offsets[k];
  }
}
