# FlatSharp table layout, modelled in Dafny

This project models the part of FlatSharp that lays out FlatBuffers tables. It covers five
pieces:

- **Validating a table definition and building its vtable slot map.** This is
  `TableTypeModel.Initialize` together with its file-identifier, key and sorted-vector checks.
- **What the generated serializer does with one table instance.** Members are packed in a fixed
  order, each slot is padded to its alignment, offsets are recorded in a scratch vtable, the
  by-reference members are written afterwards, and the allocation is rolled back to the table's
  real length. The max-size bound is modelled alongside.
- **The generated read rule for a member** (`TableMemberModel.CreateReadItemBody`).
- **The schema compiler's automatic numbering of fields** (`TableOrStructDefinition.AssignIndexes`)
  and the class attribute it emits.
- **The string type descriptor** that the key and sorted-vector checks are run against.

The headline result is `TableSerializer.AcceptedTableRoundTrip`, built on
`TableSerializer.VtableRoundTrip`. Take a declaration that `Initialize` accepts, build its vtable
with the serializer, then read it back with the member read rule. Every live property has a
block. A member whose value equals its default reads back as the default. Any other member is
parsed at `tableStart` plus the offset the serializer recorded for it.
`TableOrStructDefinition.AutoIndexedTableAccepted` shows that a table numbered by `AssignIndexes`
is such a declaration, as soon as its other checks pass.

The modules, one file each:

- `wrappers.dfy`: `Option`, `Result` and `Outcome`.
- `typemodel.dfy`: the type descriptor record, the definition errors and the alignment arithmetic.
- `tablemembermodel.dfy`: the member record, its constructor checks, and the vtable read rule.
- `tabletypemodel.dfy`: the file-identifier, key and sorted-vector checks, and `Initialize` as a
  specification (`Build`) and as a class whose methods update the slot map in place.
- `tablepacking.dfy`: the packing order and the offset planner that the serializer follows.
- `tableserializer.dfy`: the scratch vtable writes, the serializer as imperative methods proved
  against `Encode`, the round trip, and the max-size bound.
- `stringtypemodel.dfy`: the string descriptor, its span comparer and its clone.
- `tableorstructdefinition.dfy`: `AssignIndexes` as a class method over field objects, and the
  attribute choice.

A few helpers the core calls are not shown in the source. The model gives them definitions that
meet their documented intent:

- `SerializationHelpers.GetAlignmentError` is the padding that brings an offset up to the next
  multiple of the alignment (`TypeModel.AlignmentError`).
- `GetMaxPadding(a)` is `a - 1`.
- `MaxInlineSize` is a descriptor field. Every descriptor is assumed to be well-formed: it has at
  least one slot, and a maximum inline size at least its layout's worst case.
- The .NET `Dictionary` that holds the members is modelled as a sequence in insertion order. That
  is the order in which a dictionary without removals enumerates, and the packing order's
  tie-break depends on it.
- `GetNotEqualToDefaultValueLiteralExpression` is modelled as inequality with the member's
  default (`DefaultOf`).
- A .NET string's `Length` and indexer count UTF-16 code units, so file identifiers are
  sequences of code units (`TypeModel.Utf16String`). A character outside the Basic Multilingual
  Plane is two code units: it counts twice toward the length, and the non-ASCII error names its
  high surrogate.

## Model

| member | source | states |
|---|---|---|
| TypeModel.AlignmentError | src/FlatSharp/TypeModel/TableTypeModel.cs:383 | The padding is below the alignment and makes the padded offset a multiple of the alignment. |
| TypeModel.MaxPadding | src/FlatSharp/TypeModel/TableTypeModel.cs:506-507 | The largest padding an alignment can need is below the alignment. |
| TableMemberModel.NewTableMember | src/FlatSharp/TypeModel/TableMemberModel.cs:28-51 | A member is built iff its type may live in a table and any declared default is accepted by the type. The built member carries exactly the given attributes. A type that is not a table member is reported as NotValidTableMember. |
| TableMemberModel.SlotRange | src/FlatSharp/TypeModel/TableTypeModel.cs:205-206 | A member starting at `index` with `width` slots claims exactly the slots `index .. index+width-1`. |
| TableMemberModel.ReadItem | src/FlatSharp/TypeModel/TableMemberModel.cs:78-88 | Whether a member is read is decided by its last slot: a slot past the instance's max index means the default. The member is parsed only when all its slots are inside the vtable, and then at one location per slot. |
| TableMemberModel.SingleWidthRead | src/FlatSharp/TypeModel/TableMemberModel.cs:90-106 | A one-slot member past the max index reads as its default. When it is parsed, it is within the max index, at one location strictly after the table's offset, because a zero entry means absent. |
| TableMemberModel.WideRead | src/FlatSharp/TypeModel/TableMemberModel.cs:108-140 | A multi-slot member whose last slot is past the max index reads as its default. When it is parsed, all its slots are within the max index and it has one location per slot. |
| TableMemberModel.ReadSlots | src/FlatSharp/TypeModel/TableMemberModel.cs:115-127 | When the slots are parsed there is one location per slot, each strictly after the table's offset. |
| TableMemberModel.ReadSlotsMeaning | src/FlatSharp/TypeModel/TableMemberModel.cs:111-138 | Reading slots in order gives the default as soon as one entry is zero. Otherwise it gives the locations `offset + entry` of all slots, in slot order. |
| TableMemberModel.ReadItemMeaning | src/FlatSharp/TypeModel/TableMemberModel.cs:80-138 | Take a vtable that lies in the buffer. A member reads as its default exactly when a slot lies beyond the instance's max index or has a zero entry. Otherwise it is parsed at `offset + entry` of each slot. |
| TableMemberModel.SingleIsWideOfOne | src/FlatSharp/TypeModel/TableMemberModel.cs:80-105 | For a one-slot member the single-width rule and the wide rule give the same outcome. |
| TableMemberModel.ReadIgnoresBytesBeyondMaxIndex | src/FlatSharp/TypeModel/TableMemberModel.cs:93-98 | Two buffers that agree on the vtable bytes of slots up to the max index give every member the same read outcome. |
| TableTypeModel.NonAsciiIndex | src/FlatSharp/TypeModel/TableTypeModel.cs:305-312 | Finds the first UTF-16 code unit of 128 or more, or reports that there is none. |
| TableTypeModel.FileIdentifierCheck | src/FlatSharp/TypeModel/TableTypeModel.cs:296-314 | A file identifier passes iff it is absent, empty, or exactly 4 UTF-16 code units all below 128. |
| TableTypeModel.ValidateFileIdentifier | src/FlatSharp/TypeModel/TableTypeModel.cs:296-314 | The loop over the code units reports the same outcome as the check, the same error included. It passes iff the identifier is valid. |
| TableTypeModel.ValidateSortedVector | src/FlatSharp/TypeModel/TableTypeModel.cs:217-251 | A sorted-vector member passes iff all of these hold: it is a vector, the element is a table, that table has a key, the key has a span comparer, and the key has one slot. Other members always pass. |
| TableTypeModel.MembersOf | src/FlatSharp/TypeModel/TableTypeModel.cs:165-176 | Each property becomes the member with its own attributes, in declaration order. |
| TableTypeModel.SlotUnionMeaning | src/FlatSharp/TypeModel/TableTypeModel.cs:205-211 | A slot is occupied iff some member claims it. |
| TableTypeModel.KeyOf | src/FlatSharp/TypeModel/TableTypeModel.cs:178-201 | The key member found is one of the properties declared as key. |
| TableTypeModel.KeyCheck | src/FlatSharp/TypeModel/TableTypeModel.cs:178-201 | A property passes the key checks iff it is not a key, or it is the first key, its type is sortable and has a span comparer, and it is not deprecated. A second key is reported as DuplicateKey. |
| TableTypeModel.OccupiedMeetsSlots | src/FlatSharp/TypeModel/TableTypeModel.cs:205-211 | A new property's slots miss the occupied set iff they are disjoint from the slots of every earlier property. |
| TableTypeModel.AddProperty | src/FlatSharp/TypeModel/TableTypeModel.cs:162-213 | One loop iteration succeeds iff the member constructs, passes the key checks and the sorted-vector checks, and claims no occupied slot. On success it adds the member's slots, appends the member and records a key. |
| TableTypeModel.AddPropertyMeaning | src/FlatSharp/TypeModel/TableTypeModel.cs:162-213 | From the state built by earlier valid properties, an iteration succeeds iff the longer list is still valid. The new state is the one the longer list describes. |
| TableTypeModel.AddAll | src/FlatSharp/TypeModel/TableTypeModel.cs:162-213 | When the property loop succeeds, it has made one member per property, and a recorded key member is marked as key. |
| TableTypeModel.Build | src/FlatSharp/TypeModel/TableTypeModel.cs:126-214 | A class without the table attribute is rejected for that. An accepted class has the attribute, a valid file identifier and an inheritable shape, and one member per declared property, at least one. |
| TableTypeModel.AddAllMeaning | src/FlatSharp/TypeModel/TableTypeModel.cs:162-213 | The property loop succeeds iff every property is valid, at most one is a key and no two claim a common slot. The resulting state is occupied slots = the union of the claims, members in declaration order, and key = the declared key. |
| TableTypeModel.BuildAccepts | src/FlatSharp/TypeModel/TableTypeModel.cs:126-214 | Initialize accepts iff all of these hold: the class has the table attribute, a valid file identifier and an inheritable shape; it has at least one property; and its properties are valid. The accepted state is the one the properties describe. |
| TableTypeModel.AddAllStopsAtError | src/FlatSharp/TypeModel/TableTypeModel.cs:162-211 | An error on a prefix of the properties is the error of the whole loop, because the first failed check ends it. |
| TableTypeModel.AddAllStep | src/FlatSharp/TypeModel/TableTypeModel.cs:162-213 | One more property extends the loop's result by exactly one iteration. |
| TableTypeModel.MembersDisjoint | src/FlatSharp/TypeModel/TableTypeModel.cs:205-211 | Accepted members claim pairwise-disjoint slot sets. |
| TableTypeModel.KeyOfValid | src/FlatSharp/TypeModel/TableTypeModel.cs:178-201 | Over valid properties, a key member is a member, is declared as key, and is sortable, has a span comparer and is not deprecated. |
| TableTypeModel.MembersSortedVectorOk | src/FlatSharp/TypeModel/TableTypeModel.cs:203 | Every member of an accepted table passes the sorted-vector checks. |
| TableTypeModel.BuildShapeOk | src/FlatSharp/TypeModel/TableTypeModel.cs:126-214 | An accepted table has at least one member. Its occupied set is the union of its members' disjoint slot sets. Its key member is a valid key, and its sorted vectors are valid. |
| TableTypeModel.MaxSlot | src/FlatSharp/TypeModel/TableTypeModel.cs:100 | The result is an occupied slot, at least 0, and no occupied slot exceeds it. |
| TableTypeModel.TableDescriptor | src/FlatSharp/TypeModel/TableTypeModel.cs:55-95 | A table is a well-formed by-reference type whose key, when present, is its key member's type. |
| TableTypeModel.TableTypeModel.Descriptor | src/FlatSharp/TypeModel/TableTypeModel.cs:55-95 | The descriptor of the initialized table, with the key member that Initialize found. |
| TableTypeModel.TableTypeModel.Initialize | src/FlatSharp/TypeModel/TableTypeModel.cs:126-214 | On a fresh model, returns Pass iff Build accepts, and on Pass leaves exactly the built state. On Fail, the error is Build's error. |
| TableTypeModel.TableTypeModel.AddMember | src/FlatSharp/TypeModel/TableTypeModel.cs:162-213 | One loop iteration, updating the occupied set, the dictionary and the key member in place. It agrees with AddProperty in outcome and new state. |
| TableTypeModel.TableTypeModel.MaxIndex | src/FlatSharp/TypeModel/TableTypeModel.cs:100 | The largest occupied slot: it is occupied, at least 0, and bounds every occupied slot. |
| TableTypeModel.TableTypeModel.NonPaddedMaxTableInlineSize | src/FlatSharp/TypeModel/TableTypeModel.cs:121-125 | The sum of the members' maximum inline sizes plus 4 for the soffset. |
| TableTypeModel.TableTypeModel.TryGetTableKeyMember | src/FlatSharp/TypeModel/TableTypeModel.cs:554-558 | Returns the key member recorded by Initialize. It succeeds iff there is one. |
| TablePacking.Live | src/FlatSharp/TypeModel/TableTypeModel.cs:338 | A member is kept iff it is in the table and not deprecated. |
| TablePacking.Insert | src/FlatSharp/TypeModel/TableTypeModel.cs:337-340 | Insertion adds exactly the one member to the contents. |
| TablePacking.StableSort | src/FlatSharp/TypeModel/TableTypeModel.cs:337-340 | The sort is a permutation of its input. |
| TablePacking.PackingOrder | src/FlatSharp/TypeModel/TableTypeModel.cs:337-340 | The packing order is a permutation of the live members. |
| TablePacking.StableSortMeaning | src/FlatSharp/TypeModel/TableTypeModel.cs:337-340 | The sorted order is ordered by (slot count ascending, first alignment descending). It has the same inline-size sum, and keeps disjoint members disjoint. |
| TablePacking.InsertPacked | src/FlatSharp/TypeModel/TableTypeModel.cs:337-340 | Inserting after all members that do not pack strictly after it keeps the order packed. |
| TablePacking.PackingOrderMeaning | src/FlatSharp/TypeModel/TableTypeModel.cs:337-340 | The packing order is a permutation of the live members, in packing order. It contains exactly the non-deprecated members, and its size sum is at most the table's. |
| TablePacking.InsertWithRank | src/FlatSharp/TypeModel/TableTypeModel.cs:337-340 | Insertion places a member after every member of its own rank, leaving the order within each rank otherwise unchanged. |
| TablePacking.StableSortWithRank | src/FlatSharp/TypeModel/TableTypeModel.cs:337-340 | The sort is stable: the members of each rank (slot count, first alignment) keep their relative order. |
| TablePacking.PackingOrderStable | src/FlatSharp/TypeModel/TableTypeModel.cs:337-340 | Members of equal packing rank are visited in dictionary order, so the declaration fixes the byte layout. |
| TablePacking.Place | src/FlatSharp/TypeModel/TableTypeModel.cs:378-386 | One offset per slot of the layout. |
| TablePacking.PlaceMember | src/FlatSharp/TypeModel/TableTypeModel.cs:466-470 | One offset per slot of the member. A member at its default keeps every offset at `tableStart` and does not move the cursor. |
| TablePacking.PlanTable | src/FlatSharp/TypeModel/TableTypeModel.cs:325-346 | One offset list per member, each with one offset per slot. |
| TablePacking.PlaceMeaning | src/FlatSharp/TypeModel/TableTypeModel.cs:378-386 | Every slot is aligned and lies between the old and the new cursor. Slots do not overlap and stay in order. The cursor advances by at most the layout's worst case. |
| TablePacking.PlanCursorBounds | src/FlatSharp/TypeModel/TableTypeModel.cs:325-352 | The final cursor is at least 4 past `tableStart` and at most the members' maximum inline sizes further. |
| TablePacking.PlanPrefix | src/FlatSharp/TypeModel/TableTypeModel.cs:342-346 | Later member blocks neither change an earlier member's offsets nor move the cursor back. |
| TablePacking.PlanMember | src/FlatSharp/TypeModel/TableTypeModel.cs:376-470 | A member at its default has all offsets at `tableStart`. Any other member has each slot aligned, past the soffset, and inside the table's final length. |
| TableSerializer.WriteUShort | src/FlatSharp/TypeModel/TableTypeModel.cs:388 | The write keeps the vtable's length. |
| TableSerializer.ReadBackUShort | src/FlatSharp/TypeModel/TableTypeModel.cs:388 | A little-endian u16 write reads back as written, and leaves the other non-overlapping u16 positions unchanged. |
| TableSerializer.WriteSlots | src/FlatSharp/TypeModel/TableTypeModel.cs:386-389 | A member's entry writes keep the vtable's length and never touch the two header u16s that finishing the vtable fills in. |
| TableSerializer.WriteVtable | src/FlatSharp/TypeModel/TableTypeModel.cs:342-389 | All the member blocks' entry writes keep the vtable's length and leave its two header u16s as they were. |
| TableSerializer.WriteSlotsEffect | src/FlatSharp/TypeModel/TableTypeModel.cs:386-389 | After a member's entry writes, each of its slots holds `offset - tableStart` truncated to 16 bits, and every other slot is unchanged. |
| TableSerializer.WriteVtableClaimed | src/FlatSharp/TypeModel/TableTypeModel.cs:342-389 | With disjoint members, after all blocks a claimed slot holds the entry of the one member that claims it. |
| TableSerializer.WriteVtableUnclaimed | src/FlatSharp/TypeModel/TableTypeModel.cs:325-389 | A slot no member claims keeps its initial bytes. |
| TableSerializer.InlineWrites | src/FlatSharp/TypeModel/TableTypeModel.cs:452-470 | At most one inline serialize call per member. |
| TableSerializer.DeferredWrites | src/FlatSharp/TypeModel/TableTypeModel.cs:452-462 | At most one deferred serialize call per member. |
| TableSerializer.InlineWritesMeaning | src/FlatSharp/TypeModel/TableTypeModel.cs:452-470 | Every serialize call made inside a block belongs to an inline member whose value is not its default, and there is one for each such member. |
| TableSerializer.DeferredWritesMeaning | src/FlatSharp/TypeModel/TableTypeModel.cs:452-462 | Every serialize call made after the vtable belongs to a by-reference member whose first offset moved off `tableStart`, and there is one for each such member. |
| TableSerializer.MembersFitVtable | src/FlatSharp/TypeModel/TableTypeModel.cs:325-389 | Every write position `4+2*(index+i)`, plus its 2 bytes, fits in the `4+2*(MaxIndex+1)`-byte scratch vtable. |
| TableSerializer.OrderFits | src/FlatSharp/TypeModel/TableTypeModel.cs:325-389 | Every member of the packing order writes its entries inside the scratch vtable. |
| TableSerializer.SerializePlan | src/FlatSharp/TypeModel/TableTypeModel.cs:316-362 | The packing order of an accepted table satisfies what the member blocks need: every member is live, has a value and a well-formed type, and its entries fit in the `4+2*(MaxIndex+1)`-byte scratch vtable. |
| TableSerializer.Encode | src/FlatSharp/TypeModel/TableTypeModel.cs:316-362 | The serializer's vtable is `4+2*(MaxIndex+1)` bytes with its header still zero for finishing the vtable, and it records one offset list per member of the packing order. |
| TableSerializer.TableLengthBound | src/FlatSharp/TypeModel/TableTypeModel.cs:325-352 | The table length is at least 4 and never exceeds NonPaddedMaxTableInlineSize, so the rollback never grows the allocation. |
| TableSerializer.EntriesOfMember | src/FlatSharp/TypeModel/TableTypeModel.cs:388 | The entries a member finds in the vtable are the ones its own block wrote. |
| TableSerializer.ReadOfWrittenEntries | src/FlatSharp/TypeModel/TableMemberModel.cs:80-138 | Entries all written at `tableStart` read back as the default. Entries for offsets within 16 bits past `tableStart` read back as exactly those offsets. |
| TableSerializer.PlannedOffsetsInRange | src/FlatSharp/TypeModel/TableTypeModel.cs:376-468 | When the worst-case table fits in 16 bits, a default member's offsets are all `tableStart`. Any other member's offsets lie strictly between `tableStart` and `tableStart + 65536`. |
| TableSerializer.RoundTripOfOrder | src/FlatSharp/TypeModel/TableTypeModel.cs:342-388 | Over any disjoint packing order, reading a member back gives the default iff its value is its default, and otherwise its recorded offsets. |
| TableSerializer.VtableRoundTrip | src/FlatSharp/TypeModel/TableTypeModel.cs:316-477 | Headline: for an accepted table whose worst-case size fits in 16 bits, reading each live member from the vtable gives the default exactly when its value is its default, and otherwise `tableStart` plus its recorded offsets. |
| TableSerializer.AcceptedTableRoundTrip | src/FlatSharp/TypeModel/TableTypeModel.cs:126-477 | End to end: every live property of a declaration Initialize accepts has a block in the packing order. When the worst-case size fits in 16 bits, each block's member reads back from the vtable as its default exactly when its value is the default, and otherwise at `tableStart` plus its recorded offsets. |
| TableSerializer.UnclaimedSlotsAreZero | src/FlatSharp/TypeModel/TableTypeModel.cs:329 | A slot up to MaxIndex that no live member claims has entry 0. |
| TableSerializer.DeprecatedMemberReadsDefault | src/FlatSharp/TypeModel/TableTypeModel.cs:338 | A deprecated member is never written, so it always reads back as its default. |
| TableSerializer.WritesOfOrder | src/FlatSharp/TypeModel/TableTypeModel.cs:452-462 | Over disjoint members, a member's serialize call is made iff its value differs from its default. |
| TableSerializer.WrittenExactlyWhenNotDefault | src/FlatSharp/TypeModel/TableTypeModel.cs:452-468 | For an accepted table, a live member's serialize call is made iff its value differs from its default. |
| TableSerializer.WrittenOfOrder | src/FlatSharp/TypeModel/TableTypeModel.cs:452-468 | Over a planned order, the serialize call is made iff the value differs from the default. |
| TableSerializer.ChildrenMaxSize | src/FlatSharp/TypeModel/TableTypeModel.cs:512-531 | The children's part of the bound covers the own bound of every live, non-fixed-size member that is off its default. |
| TableSerializer.MaxSize | src/FlatSharp/TypeModel/TableTypeModel.cs:501-541 | The bound exceeds the unpadded table, the scratch vtable and the children together, leaving room for the padding. |
| TableSerializer.MaxSizeCoversEncoding | src/FlatSharp/TypeModel/TableTypeModel.cs:501-541 | The max-size bound covers the table's length padded to 4, the scratch vtable padded to 2, and the children's bounds. |
| TableSerializer.ChildrenMaxSizeDependsOnlyOnChildren | src/FlatSharp/TypeModel/TableTypeModel.cs:512-531 | The children's part of the bound depends only on which live, non-fixed-size members are off their default, and on their sizes. |
| TableSerializer.AllDefaultChildrenAddNothing | src/FlatSharp/TypeModel/TableTypeModel.cs:512-531 | When every live member is at its default, the children add nothing to the bound. |
| TableSerializer.PlaceSlots | src/FlatSharp/TypeModel/TableTypeModel.cs:378-386 | The per-slot loop, which aligns, records and advances, computes exactly the planned placement. |
| TableSerializer.WriteEntries | src/FlatSharp/TypeModel/TableTypeModel.cs:388 | The per-slot u16 writes into the scratch vtable array leave exactly the specified bytes. |
| TableSerializer.SerializeMember | src/FlatSharp/TypeModel/TableTypeModel.cs:364-477 | One member block: its offsets and cursor are the planned ones, and the vtable array afterwards is the specified one. |
| TableSerializer.SerializeMembers | src/FlatSharp/TypeModel/TableTypeModel.cs:342-346 | Running the member blocks in packing order gives the planned cursor, vtable, inline writes and deferred writes. |
| TableSerializer.Serialize | src/FlatSharp/TypeModel/TableTypeModel.cs:316-362 | The whole serializer. It allocates a fresh zeroed `4+2*(MaxIndex+1)`-byte vtable and produces exactly `Encode`'s vtable, table length and writes. It rolls the context offset back by `maxInlineSize - tableLength`. |
| StringTypeModel.Descriptor | src/FlatSharp/TypeModel/StringTypeModel.cs:35-75 | A string has one 4-byte, 4-aligned slot and is not fixed-size. It is written by reference. It is invalid in structs and valid in tables, unions and vectors. It is a sortable key with a span comparer. |
| StringTypeModel.TryGetSpanComparerType | src/FlatSharp/TypeModel/StringTypeModel.cs:110-114 | Always succeeds, with the string span comparer, in agreement with the descriptor's comparer flag. |
| StringTypeModel.Clone | src/FlatSharp/TypeModel/StringTypeModel.cs:97-103 | The clone of a string is the string itself. |
| StringTypeModel.StringMemberIsSingleWidth | src/FlatSharp/TypeModel/StringTypeModel.cs:40 | A string member claims exactly its own index. |
| StringTypeModel.StringMemberConstruction | src/FlatSharp/TypeModel/TableMemberModel.cs:42-50 | A string property becomes a table member iff it declares no default. A declared default is reported as InvalidDefaultValue. |
| StringTypeModel.StringKeyPassesKeyCheck | src/FlatSharp/TypeModel/TableTypeModel.cs:178-201 | A string key passes the key checks iff it is the first key and is not deprecated. A second key is DuplicateKey, and a deprecated first key is KeyDeprecated. |
| StringTypeModel.StringKeyedSortedVectorPasses | src/FlatSharp/TypeModel/TableTypeModel.cs:217-251 | A sorted vector of a table keyed by a string passes the sorted-vector checks. |
| StringTypeModel.UnkeyedSortedVectorFails | src/FlatSharp/TypeModel/TableTypeModel.cs:237-240 | A sorted vector of a table without a key is rejected for lacking one. |
| TableOrStructDefinition.AutoIndexes | src/FlatSharp.Compiler/TypeDefinitions/TableOrStructDefinition.cs:221-233 | One automatic index per field. |
| TableOrStructDefinition.AutoIndexAt | src/FlatSharp.Compiler/TypeDefinitions/TableOrStructDefinition.cs:221-233 | A field's automatic index is the number of indices consumed by the fields before it. |
| TableOrStructDefinition.AutoIndexesStep | src/FlatSharp.Compiler/TypeDefinitions/TableOrStructDefinition.cs:221-233 | The first field gets 0. Each next field gets the previous index plus 1, or plus 2 after a union. |
| TableOrStructDefinition.NextIndexGrows | src/FlatSharp.Compiler/TypeDefinitions/TableOrStructDefinition.cs:226-232 | Each field consumes at least one index. |
| TableOrStructDefinition.AutoIndexesSeparated | src/FlatSharp.Compiler/TypeDefinitions/TableOrStructDefinition.cs:221-233 | A later field's index lies past all indices of an earlier field, a union's second slot included. Indices strictly increase and never collide. |
| TableOrStructDefinition.AutoIndexesDoNotCollide | src/FlatSharp/TypeModel/TableTypeModel.cs:205-211 | Properties numbered automatically, with one slot each or two for a union, pass the occupancy check. |
| TableOrStructDefinition.AutoIndexedTableAccepted | src/FlatSharp.Compiler/TypeDefinitions/TableOrStructDefinition.cs:221-233 | An automatically numbered table whose other checks pass is accepted by Initialize. |
| TableOrStructDefinition.TableOrStructDefinition.AssignIndexes | src/FlatSharp.Compiler/TypeDefinitions/TableOrStructDefinition.cs:200-235 | With any explicit id, no index changes. The errors registered are: a struct may carry no ids, and ids are all-or-none. Without ids, the fields receive the automatic indices and no error is registered. |
| TableOrStructDefinition.TableOrStructDefinition.Attribute | src/FlatSharp.Compiler/TypeDefinitions/TableOrStructDefinition.cs:60-72 | A struct gets the struct attribute. A table gets the table attribute, carrying the file identifier iff it is non-empty. |
| TableOrStructDefinition.AttributeKeepsFileIdentifierVerdict | src/FlatSharp/TypeModel/TableTypeModel.cs:296-299 | Dropping an empty file identifier from the attribute does not change how Initialize judges it. |

## Left out

- Reflection is not modelled. This covers the attribute lookup, `GetProperties`,
  `EnsureClassCanBeInheritedByOutsideAssembly` and `CreateTypeModel`. These become the
  `hasTableAttribute` and `inheritable` flags and the resolved item types of `TableDecl`.
- `AdjustTableMember` (TableTypeModel.cs:176) is taken to return the member unchanged. The type
  models that override it are not part of this model.
- The C# text emission is not modelled: the string templates, the generated reader classes,
  `CreateParseMethodBody`, `OnWriteCode`, `WriteField` and `EmitStructVector`. The model captures
  what the generated code does, not its text.
- `GenerateSerializerForType` is not modelled. It drives the Roslyn generator through reflection
  and a process-wide switch.
- `TraverseObjectGraph` and the table's clone method are not modelled. They only collect CLR
  types and call a copy constructor.
- The helpers the serializer calls and whose code is not shown have no model:
  - `AllocateSpace` (the model's allocation starts at `tableStart`);
  - the root `WriteUOffset`;
  - `FinishVTable` and the soffset `WriteInt`;
  - `AddPostSerializeAction`, `SortVector` and `StringSpanComparer` (a sorted vector's
    serialize call records only that it registers a sort);
  - UTF-8 `ReadString`/`WriteString`;
  - the per-type serialize, parse and max-size methods. Their calls are recorded as
    `MemberWrite`s, and the children's max sizes are an input map.
- The serializer's internal re-check of sorted-vector keys (TableTypeModel.cs:392-404) is not
  modelled. For an accepted table `BuildShapeOk` proves it can never fire.
- TableTypeModel.TableTypeModel.Initialize: the state left behind after a failed check is not
  specified. The source throws, and the half-built model is discarded.
- TableSerializer.VtableRoundTrip: this requires the table's worst-case inline size to be below
  65536. The source casts `offset - tableStart` to `ushort` without a check. `WriteSlotsEffect`
  states the truncation for any table.
- TableSerializer.WriteUShort: a write outside the vtable leaves it unchanged. `MembersFitVtable`
  proves such a write never happens.
- `TypeModel.WellFormed`: a descriptor with no slots would be handled differently by the
  dictionary. Such descriptors are excluded.
- TableOrStructDefinition.TableOrStructDefinition.AssignIndexes: this requires each field object
  to appear once in the field list. The compiler creates one object per field. Errors are
  returned as messages, not registered in the scoped error context.
- Whether a field's type name resolves to a union (`TryResolveName`) is a flag on the field.
- `StringTypeModel.Descriptor` accepts no declared default. The inherited `ValidateDefaultValue`
  is not part of this model, and this is taken to be its behaviour for strings.
- The max inline size of a reference slot is taken as 7 bytes: 4 plus up to 3 of padding.
  `RuntimeTypeModel.MaxInlineSize` is not part of this model.
