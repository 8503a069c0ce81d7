# OpenAssetTools zone block stream and XModel dumper bookkeeping, in Dafny

This project models two parts of OpenAssetTools.

**The zone block stream (`XBlockInputStream`).** It rebuilds a loaded zone's memory from its serialized byte stream.
- A zone's memory is a fixed table of blocks, each of kind temp, runtime, delay or normal.
- Every block has a cursor. A stack says which block is being filled.
- Temp blocks save their cursor when pushed and get it back when popped.
- The loader aligns and allocates at the top block's cursor. It then fills the allocation from the stream with `LoadDataInBlock` or `LoadNullTerminated`.
- `InsertPointer` reserves pointer slots in a designated insert block.
- A packed reference is `((block << (W - bits)) | offset) + 1`. `ConvertOffsetToPointer` and `ConvertOffsetToAlias` decode it.

The stream is a class (`ZoneStream.XBlockInputStream`) whose methods update:
- the cursor array;
- the block and temp-cursor stacks, held as sequences;
- the block buffers, held as arrays.

The byte source is a byte sequence plus a read position. Addresses are (block, offset) pairs. The reference arithmetic sits in `BlockCodec`, on unbounded naturals: shifts and masks become division and remainder by powers of two, and the `uintptr_t` wrap-around is written out. The lemmas in `ZoneStreamLemmas` relate the decoders to the encoding. The methods in `ZoneStreamScenarios` chain stream operations and state the stream's state at the end.

**The XModel dumper (`GenericXModelDumper.inc.h`).** This part models its integer and selection logic:
- which texture becomes a material's colour, normal and specular map;
- the default-armature test;
- the bone-weight budget: how many weight slots `AllocateXModelBoneWeights` counts, and how `AddXModelVertexBoneWeights` fills them and appends one weight entry per vertex;
- the faces `AddXModelFaces` gives each surface's object;
- asset and file names;
- how `PopulateXModelWriter` puts these together for one level of detail.

`XModelCommon` is a class whose sequence fields the dumper's methods update. The fill is specified step by step in `XModelFill`, and in closed form in `XModelWeights`: every slot in fill order, and every entry with the slots it names. Lemmas tie the two forms together:
- the fill writes exactly the counted slots;
- every entry's slots lie inside the allocation;
- there is one entry per vertex.

Some behaviours of the code that the model keeps as written:
- `Alloc` aligns the cursor before its overflow check, so a failing `Alloc` leaves the cursor aligned.
- `InsertPointer` leaves the insert block pushed when the slot does not fit.
- `IncBlockPos` advances the cursor without a bound check, so a cursor may pass its block's end.
- `ConvertOffsetToAlias` rejects a pointer that ends exactly at its block's end (see Findings).

## Model

S is `src/ZoneLoading/Zone/Stream/Impl/XBlockInputStream.cpp` and X is `src/ObjWriting/XModel/GenericXModelDumper.inc.h`. The source column writes them out.

The append steps in `XModelFill` (`AppendRigid`, `AppendGroup`, `AppendBlend`, `AppendRigidPart`, `AppendBlendPart`, `PaddingCount`, `AppendSurface`, `AppendLod`) have no contract of their own and no row: each is pinned by the `Append…Entries` lemma in its row, which states that it appends exactly the corresponding closed-form entries.

| member | source | states |
|---|---|---|
| BlockCodec.ToInt32 | src/ZoneLoading/Zone/Stream/Impl/XBlockInputStream.cpp:209 | the cast to the 32-bit block type lies in [-2^31, 2^31), agrees with its input modulo 2^32, never exceeds it, and keeps every value below 2^31 |
| BlockCodec.DecodeBlockNum | src/ZoneLoading/Zone/Stream/Impl/XBlockInputStream.cpp:209 | the decoded block number is a 32-bit value, and for block fields of at most 31 bits it is one of the 2^bits block numbers, never negative |
| BlockCodec.Unbias | src/ZoneLoading/Zone/Stream/Impl/XBlockInputStream.cpp:207 | removing the +1 bias stays inside the word (0 wraps to all ones) |
| BlockCodec.LowBits | src/ZoneLoading/Zone/Stream/Impl/XBlockInputStream.cpp:210 | masking with `UINTPTR_MAX >> bits` gives a value below 2^(W-bits) |
| BlockCodec.DecodeBlockOffset | src/ZoneLoading/Zone/Stream/Impl/XBlockInputStream.cpp:210 | a decoded offset fits the low W-bits bits |
| BlockCodec.EncodeReference | src/ZoneLoading/Zone/Stream/Impl/XBlockInputStream.cpp:205-206 | the biased packed word of a block that fits `bits` bits and an offset that fits W-bits bits is a W-bit word |
| BlockCodec.DecodeEncode | src/ZoneLoading/Zone/Stream/Impl/XBlockInputStream.cpp:207-210 | decoding the encoding of (block, offset) gives back that block number and that offset |
| BlockCodec.EncodeDecode | src/ZoneLoading/Zone/Stream/Impl/XBlockInputStream.cpp:207-210 | every W-bit word is the encoding of the block bits and offset it decodes to |
| ZoneStream.AlignUp | src/ZoneLoading/Zone/Stream/Impl/XBlockInputStream.cpp:30-34 | the aligned cursor is a multiple of align, at least the cursor and less than cursor + align; align 0 leaves the cursor |
| ZoneStream.AlignUpAligned | src/ZoneLoading/Zone/Stream/Impl/XBlockInputStream.cpp:33 | an already aligned cursor does not move |
| ZoneStream.AlignUpIdempotent | src/ZoneLoading/Zone/Stream/Impl/XBlockInputStream.cpp:30-34 | aligning twice is aligning once |
| ZoneStream.AlignUpLeast | src/ZoneLoading/Zone/Stream/Impl/XBlockInputStream.cpp:33 | the aligned cursor is the least multiple of align at or above the cursor |
| ZoneStream.NullTerminatedLoad | src/ZoneLoading/Zone/Stream/Impl/XBlockInputStream.cpp:167-180 | the copy loop copies no more bytes than the room and the stream hold, and ends in Pass, BlockOverflow of this block or StreamExhausted |
| ZoneStream.LeadingNonZero | src/ZoneLoading/Zone/Stream/Impl/XBlockInputStream.cpp:169-178 | the count of leading non-zero bytes: all bytes before it are non-zero, and the byte at it (if any) is zero |
| ZoneStream.NullTerminatedLoadMeaning | src/ZoneLoading/Zone/Stream/Impl/XBlockInputStream.cpp:167-180 | the copy stays within the room and the stream; it passes exactly when a zero byte lies within both, ending just after the first zero; an overflow copies the whole room; running out copies the whole stream |
| ZoneStream.LoadOverflows | src/ZoneLoading/Zone/Stream/Impl/XBlockInputStream.cpp:171-174 | room-many non-zero bytes give a BlockOverflow after copying all of them |
| ZoneStream.LoadRunsOut | src/ZoneLoading/Zone/Stream/Impl/XBlockInputStream.cpp:176 | a stream of non-zero bytes shorter than the room runs out after copying all of it |
| ZoneStream.LoadPasses | src/ZoneLoading/Zone/Stream/Impl/XBlockInputStream.cpp:176-178 | a first zero at byte n, within the room, passes after copying n bytes |
| ZoneStream.XBlockInputStream.constructor | src/ZoneLoading/Zone/Stream/Impl/XBlockInputStream.cpp:11-24 | every cursor is 0, both stacks are empty, and the insert block is inside the table |
| ZoneStream.XBlockInputStream.Top | src/ZoneLoading/Zone/Stream/Impl/XBlockInputStream.cpp:32 | the block on top of the stack is inside the table |
| ZoneStream.XBlockInputStream.Align | src/ZoneLoading/Zone/Stream/Impl/XBlockInputStream.cpp:26-35 | only the top block's cursor changes, to its aligned value |
| ZoneStream.XBlockInputStream.PushBlock | src/ZoneLoading/Zone/Stream/Impl/XBlockInputStream.cpp:37-51 | the block goes on the stack; a temp block's current cursor goes on the saved-cursor stack |
| ZoneStream.XBlockInputStream.PopBlock | src/ZoneLoading/Zone/Stream/Impl/XBlockInputStream.cpp:53-72 | on an empty stack it returns -1 and changes nothing; otherwise it returns the top block's index and removes it; a temp block's cursor becomes the last saved one, which is removed; other blocks' cursors stay |
| ZoneStream.XBlockInputStream.Alloc | src/ZoneLoading/Zone/Stream/Impl/XBlockInputStream.cpp:74-91 | it aligns the top cursor on every outcome; BlockOverflow exactly when the aligned cursor exceeds the block size (equality is allowed); otherwise it returns the address at the aligned cursor without advancing; an empty stack gives null |
| ZoneStream.XBlockInputStream.LoadDataRaw | src/ZoneLoading/Zone/Stream/Impl/XBlockInputStream.cpp:93-96 | it returns the next size stream bytes and consumes exactly them, or fails with nothing consumed |
| ZoneStream.XBlockInputStream.IncBlockPos | src/ZoneLoading/Zone/Stream/Impl/XBlockInputStream.cpp:139-148 | only the top block's cursor advances, by size, without a check; an empty stack changes nothing |
| ZoneStream.XBlockInputStream.LoadDataInBlock | src/ZoneLoading/Zone/Stream/Impl/XBlockInputStream.cpp:98-137 | OutOfBlockBounds when dst is outside [buffer, buffer + size]; BlockOverflow when dst + size passes the end; otherwise temp and normal blocks get the next size stream bytes at dst, runtime blocks get size zeros and read nothing, the rest of the buffer is kept and the cursor advances by size; each failure leaves buffer, stream and cursors unchanged |
| ZoneStream.XBlockInputStream.LoadNullTerminated | src/ZoneLoading/Zone/Stream/Impl/XBlockInputStream.cpp:150-181 | OutOfBlockBounds when dst is outside the block; otherwise the buffer holds the copied stream bytes at dst (up to and including the first zero on success), exactly those bytes are consumed, and the cursor moves just past the zero on success and stays on failure |
| ZoneStream.XBlockInputStream.CopyThroughZero | src/ZoneLoading/Zone/Stream/Impl/XBlockInputStream.cpp:167-178 | the copy loop's count and outcome are NullTerminatedLoad's, it consumes exactly the copied bytes, and the buffer is the old buffer with those bytes spliced in at the offset |
| ZoneStream.XBlockInputStream.InsertPointer | src/ZoneLoading/Zone/Stream/Impl/XBlockInputStream.cpp:183-201 | it returns the pointer-aligned slot at the insert block's cursor, advances only that cursor past the slot, and leaves the block stack as it was; if the slot does not fit it is a BlockOverflow, with the cursor aligned and the insert block left pushed |
| ZoneStream.XBlockInputStream.ConvertOffsetToPointer | src/ZoneLoading/Zone/Stream/Impl/XBlockInputStream.cpp:203-225 | a success is an address inside a block of the table, whose encoding is the given reference; the only errors are InvalidOffsetBlock and InvalidOffsetBlockOffset, the latter for a block of the table and an offset at or past its end |
| ZoneStream.XBlockInputStream.ConvertOffsetToAlias | src/ZoneLoading/Zone/Stream/Impl/XBlockInputStream.cpp:227-248 | it decodes the same way as ConvertOffsetToPointer and fails with InvalidOffsetBlock exactly when that does; a success returns the pointer-sized bytes stored at the address, which must end strictly before the block's end; every other error is InvalidOffsetBlockOffset of the decoded block (inside the table) and offset, for a pointer reaching the block's end |
| ZoneStream.XBlockInputStream.ConvertOffsetToAliasInclusive | src/ZoneLoading/Zone/Stream/Impl/XBlockInputStream.cpp:242-247 | the corrected decoder: InvalidOffsetBlock exactly when ConvertOffsetToPointer gives it; the stored pointer may end exactly at the block's end; every other error is InvalidOffsetBlockOffset of the decoded block and offset, for a pointer running past the end |
| ZoneStreamLemmas.PointerRoundTrip | src/ZoneLoading/Zone/Stream/Impl/XBlockInputStream.cpp:207-224 | the encoding of any block b of the table and offset o inside it decodes to exactly (b, o) |
| ZoneStreamLemmas.InvalidBlockIffBeyondTable | src/ZoneLoading/Zone/Stream/Impl/XBlockInputStream.cpp:209-215 | InvalidOffsetBlock is raised exactly when the unbiased word is at or beyond the first word of the block after the table |
| ZoneStreamLemmas.AliasRejectsLastSlot | src/ZoneLoading/Zone/Stream/Impl/XBlockInputStream.cpp:242-245 | the alias of a pointer stored in a block's last pointer-sized bytes is rejected, as written |
| ZoneStreamLemmas.AliasInclusiveRoundTrip | src/ZoneLoading/Zone/Stream/Impl/XBlockInputStream.cpp:240-247 | with the inclusive bound, the alias of any pointer stored inside a block is exactly the bytes stored there |
| ZoneStreamScenarios.TempScope | src/ZoneLoading/Zone/Stream/Impl/XBlockInputStream.cpp:37-72 | push, advance and pop of a temp block: inside the scope the cursor has moved by size; afterwards the stack, saved cursors and all cursors are as before |
| ZoneStreamScenarios.NestedTempScopes | src/ZoneLoading/Zone/Stream/Impl/XBlockInputStream.cpp:37-72 | nested temp scopes on one block pop LIFO: each pop restores the cursor of its own push |
| ZoneStreamScenarios.RuntimeBlockZeroFill | src/ZoneLoading/Zone/Stream/Impl/XBlockInputStream.cpp:127-129 | a stale byte inside the loaded run of a runtime block becomes zero, a byte after the run keeps its value, the cursor advances, and no stream byte is consumed |
| ZoneStreamScenarios.NullTerminatedString | src/ZoneLoading/Zone/Stream/Impl/XBlockInputStream.cpp:167-180 | a string load copies "hi" and its zero, consumes three bytes and leaves the cursor at 3 |
| ZoneStreamScenarios.NullTerminatedOverflow | src/ZoneLoading/Zone/Stream/Impl/XBlockInputStream.cpp:171-174 | a string longer than the block is a BlockOverflow after two bytes, with the cursor unmoved |
| ZoneStreamScenarios.LoadPastBlockEnd | src/ZoneLoading/Zone/Stream/Impl/XBlockInputStream.cpp:112-115 | data that would pass the block's end is a BlockOverflow; nothing is consumed and the cursor stays |
| ZoneStreamScenarios.ConsecutiveSlots | src/ZoneLoading/Zone/Stream/Impl/XBlockInputStream.cpp:183-201 | two InsertPointer calls give two adjacent aligned slots, and the block stack is as before |
| XModelData.LodSurfaces | src/ObjWriting/XModel/GenericXModelDumper.inc.h:132-133 | a level of detail's surfaces are the numsurfs surfaces from surfIndex on, or none without a surface array |
| XModelData.Resize | src/ObjWriting/XModel/GenericXModelDumper.inc.h:329 | resizing gives n elements, keeps the old ones that fit and fills the rest |
| XModelNames.AssetName | src/ObjWriting/XModel/GenericXModelDumper.inc.h:222-228 | a leading ',' is removed, exactly one; any other name, and null, is returned unchanged |
| XModelNames.Decimal | src/ObjWriting/XModel/GenericXModelDumper.inc.h:25 | formatting gives a non-empty string of digits with no leading zero |
| XModelNames.DecimalRoundTrip | src/ObjWriting/XModel/GenericXModelDumper.inc.h:25 | reading the formatted digits back gives the number |
| XModelNames.GetFileNameForLod | src/ObjWriting/XModel/GenericXModelDumper.inc.h:23-26 | the file name starts with "model_export/", the model name and "_lod", continues with digits only, and ends with the extension |
| XModelNames.FileNameForLodInjective | src/ObjWriting/XModel/GenericXModelDumper.inc.h:23-26 | different levels of detail get different file names |
| XModelNames.FileNameForLodLayout | src/ObjWriting/XModel/GenericXModelDumper.inc.h:23-26 | the file name is "model_export/", the model name, "_lod", digits reading back as the level of detail, then the extension |
| XModelMaterials.Candidates | src/ObjWriting/XModel/GenericXModelDumper.inc.h:39-47 | the candidates are table definitions of a fitting semantic, and every fitting definition is among them |
| XModelMaterials.CandidatesAppend | src/ObjWriting/XModel/GenericXModelDumper.inc.h:41-47 | the filter keeps table order: the candidates of a split table are those of its two halves, in turn |
| XModelMaterials.ToLower | src/ObjWriting/XModel/GenericXModelDumper.inc.h:56 | upper-case letters map to their lower-case letter, and every other character to itself |
| XModelMaterials.FirstNamed | src/ObjWriting/XModel/GenericXModelDumper.inc.h:54-58 | one priority loop: the first candidate with the name pair, with none before it; none when no candidate has it |
| XModelMaterials.SelectDef | src/ObjWriting/XModel/GenericXModelDumper.inc.h:49-72 | the priority loops pick nothing exactly when there are no candidates, and otherwise pick one of the candidates |
| XModelMaterials.SelectIsEarliestBest | src/ObjWriting/XModel/GenericXModelDumper.inc.h:49-72 | the priority loops pick a candidate of the best rank, and every earlier candidate ranks worse |
| XModelMaterials.MapDef | src/ObjWriting/XModel/GenericXModelDumper.inc.h:37-73 | no definition exactly when none has a fitting semantic; the only candidate when there is one; always a fitting definition of the table |
| XModelMaterials.GetMaterialColorMap | src/ObjWriting/XModel/GenericXModelDumper.inc.h:37-73 | null when no colour-map semantic is present; otherwise the image of a colour-map definition of the table |
| XModelMaterials.GetMaterialNormalMap | src/ObjWriting/XModel/GenericXModelDumper.inc.h:75-99 | null when no normal-map definition is present; otherwise the image of a normal-map definition |
| XModelMaterials.GetMaterialSpecularMap | src/ObjWriting/XModel/GenericXModelDumper.inc.h:101-125 | null when no specular-map definition is present; otherwise the image of a specular-map definition |
| XModelDumper.AllDefaultFrom | src/ObjWriting/XModel/GenericXModelDumper.inc.h:138-148 | the surface loop returns true exactly when every surface from i on has one rigid list on bone 0 covering it |
| XModelDumper.HasDefaultArmature | src/ObjWriting/XModel/GenericXModelDumper.inc.h:127-151 | true exactly when the model has one bone, which is its root, and every surface of the level of detail is a default surface (or there is no surface array) |
| XModelDumper.OmitDefaultArmature | src/ObjWriting/XModel/GenericXModelDumper.inc.h:153-163 | no bones, no weight slots, and as many (0, 0) entries as vertices |
| XModelDumper.ModelBones | src/ObjWriting/XModel/GenericXModelDumper.inc.h:167-219 | the armature has one bone per model bone |
| XModelDumper.ModelBonesShape | src/ObjWriting/XModel/GenericXModelDumper.inc.h:169-178 | exactly the first numRootBones bones have no parent; every name is the bone's in-range script string, and otherwise "INVALID_BONE_NAME", so always a zone string or that name |
| XModelDumper.ParentsPrecedeIffInRange | src/ObjWriting/XModel/GenericXModelDumper.inc.h:175-176 | every bone's parent is an earlier bone exactly when every parent distance lies in [1, b] |
| XModelDumper.RootOf | src/ObjWriting/XModel/GenericXModelDumper.inc.h:175-178 | in an armature listing parents first, following parents from bone b ends at a parentless bone no later than b |
| XModelDumper.EveryBoneReachesRoot | src/ObjWriting/XModel/GenericXModelDumper.inc.h:175-178 | with parent distances in range, the armature is a forest: every bone's chain of parents ends at one of the root bones |
| XModelDumper.AddXModelBones | src/ObjWriting/XModel/GenericXModelDumper.inc.h:165-220 | the armature's bones are appended, in bone order, after the bones already there |
| XModelWeights.BoneIndex | src/ObjWriting/XModel/GenericXModelDumper.inc.h:360 | the bone index is the number of whole skeleton matrices before the byte offset: index * size <= offset < (index + 1) * size |
| XModelWeights.BoneIndexDivides | src/ObjWriting/XModel/GenericXModelDumper.inc.h:360 | the bone index is boneOffset / sizeof(DObjSkelMat) |
| XModelWeights.RigidBones | src/ObjWriting/XModel/GenericXModelDumper.inc.h:355-360 | one slot per rigid list |
| XModelWeights.RigidEntries | src/ObjWriting/XModel/GenericXModelDumper.inc.h:362-366 | one entry per vertex the rigid lists drive |
| XModelWeights.RigidEntriesBounds | src/ObjWriting/XModel/GenericXModelDumper.inc.h:355-366 | every rigid entry names one slot, its list's own, inside the lists' slots |
| XModelWeights.VertexBones | src/ObjWriting/XModel/GenericXModelDumper.inc.h:377-438 | a blend vertex of g bones has g slots |
| XModelWeights.GroupBones | src/ObjWriting/XModel/GenericXModelDumper.inc.h:374-443 | a group of n vertices of g bones has n * g slots |
| XModelWeights.GroupEntries | src/ObjWriting/XModel/GenericXModelDumper.inc.h:374-443 | a group of n vertices has n entries |
| XModelWeights.GroupEntriesBounds | src/ObjWriting/XModel/GenericXModelDumper.inc.h:374-443 | entry i of a group names the g slots of vertex i, inside the group's slots |
| XModelWeights.FourGroupBones | src/ObjWriting/XModel/GenericXModelDumper.inc.h:370-443 | four groups have the sum of their slots |
| XModelWeights.BlendBones | src/ObjWriting/XModel/GenericXModelDumper.inc.h:370-443 | the blend groups have c0 + 2 c1 + 3 c2 + 4 c3 slots |
| XModelWeights.BlendEntries | src/ObjWriting/XModel/GenericXModelDumper.inc.h:370-443 | the blend groups have c0 + c1 + c2 + c3 entries |
| XModelWeights.BlendEntriesBounds | src/ObjWriting/XModel/GenericXModelDumper.inc.h:370-443 | every blend entry names 1 to 4 slots inside the blend groups' slots |
| XModelWeights.SurfaceRigidBones | src/ObjWriting/XModel/GenericXModelDumper.inc.h:353-368 | a surface's rigid part has vertListCount slots, or none without rigid lists |
| XModelWeights.SurfaceBlendBones | src/ObjWriting/XModel/GenericXModelDumper.inc.h:370-447 | a surface's blend part has the rest of the surface's counted slots |
| XModelWeights.SurfaceBones | src/ObjWriting/XModel/GenericXModelDumper.inc.h:350-447 | a surface fills exactly the slots AllocateXModelBoneWeights counts for it |
| XModelWeights.Padding | src/ObjWriting/XModel/GenericXModelDumper.inc.h:449-452 | padding brings the handled count up to vertCount, and adds nothing once there |
| XModelWeights.SurfaceEntries | src/ObjWriting/XModel/GenericXModelDumper.inc.h:351-452 | a surface appends vertCount entries, or its handled count when that is larger |
| XModelWeights.SurfaceEntriesBounds | src/ObjWriting/XModel/GenericXModelDumper.inc.h:351-452 | each entry of a surface is (0, 0) padding or names slots inside the surface's own slots |
| XModelWeights.SurfaceWeightCount | src/ObjWriting/XModel/GenericXModelDumper.inc.h:312-326 | a surface counts at least one slot per rigid list and one per blend vertex, and none without rigid lists and blend data |
| XModelWeights.TotalWeightCount | src/ObjWriting/XModel/GenericXModelDumper.inc.h:310-327 | the total of no surfaces is 0, and the total is at least each surface's count |
| XModelWeights.LodBones | src/ObjWriting/XModel/GenericXModelDumper.inc.h:346-453 | a level of detail fills exactly as many slots as AllocateXModelBoneWeights counts |
| XModelWeights.EntriesWithinBudget | src/ObjWriting/XModel/GenericXModelDumper.inc.h:346-453 | every (offset, count) entry lies inside the allocated slots |
| XModelWeights.OneEntryPerVertex | src/ObjWriting/XModel/GenericXModelDumper.inc.h:348-453 | when no surface's lists and groups handle more vertices than it has, there is exactly one entry per vertex |
| XModelFill.WriteRigid | src/ObjWriting/XModel/GenericXModelDumper.inc.h:355-360 | writing the rigid slots keeps the slot count |
| XModelFill.WriteRigidBones | src/ObjWriting/XModel/GenericXModelDumper.inc.h:355-360 | the rigid loop's writes place exactly the rigid bones from the starting slot on |
| XModelFill.WriteGroup | src/ObjWriting/XModel/GenericXModelDumper.inc.h:374-443 | writing a group keeps the slot count |
| XModelFill.WriteGroupBones | src/ObjWriting/XModel/GenericXModelDumper.inc.h:374-443 | a group loop's writes place exactly the group's bones from its first slot on |
| XModelFill.WriteFour | src/ObjWriting/XModel/GenericXModelDumper.inc.h:370-443 | writing four groups keeps the slot count |
| XModelFill.WriteFourGroups | src/ObjWriting/XModel/GenericXModelDumper.inc.h:370-443 | four group loops, each starting where the previous stopped, place the four groups' bones in turn |
| XModelFill.WriteBlend | src/ObjWriting/XModel/GenericXModelDumper.inc.h:370-443 | writing the blend groups keeps the slot count |
| XModelFill.WriteBlendBones | src/ObjWriting/XModel/GenericXModelDumper.inc.h:370-443 | the four blend loops place exactly the blend bones |
| XModelFill.WriteRigidPart | src/ObjWriting/XModel/GenericXModelDumper.inc.h:353-368 | a surface's rigid part keeps the slot count |
| XModelFill.WriteRigidPartBones | src/ObjWriting/XModel/GenericXModelDumper.inc.h:353-368 | a surface's rigid part places the surface's rigid bones |
| XModelFill.WriteBlendPart | src/ObjWriting/XModel/GenericXModelDumper.inc.h:370-447 | a surface's blend part keeps the slot count |
| XModelFill.WriteBlendPartBones | src/ObjWriting/XModel/GenericXModelDumper.inc.h:370-447 | a surface's blend part places the surface's blend bones |
| XModelFill.WriteSurface | src/ObjWriting/XModel/GenericXModelDumper.inc.h:350-447 | one surface's writes keep the slot count |
| XModelFill.WriteSurfaceBones | src/ObjWriting/XModel/GenericXModelDumper.inc.h:350-447 | one surface's writes place its rigid, then its blend bones |
| XModelFill.WriteLod | src/ObjWriting/XModel/GenericXModelDumper.inc.h:346-453 | the writes of a level of detail keep the slot count |
| XModelFill.WriteLodBones | src/ObjWriting/XModel/GenericXModelDumper.inc.h:346-453 | the surface loop's writes place every surface's bones, in turn, from slot 0 on |
| XModelFill.AppendCopies | src/ObjWriting/XModel/GenericXModelDumper.inc.h:362-365 | k appends of an entry add k entries |
| XModelFill.AppendCopiesRepeat | src/ObjWriting/XModel/GenericXModelDumper.inc.h:362-365 | k appends of an entry append k copies of it |
| XModelFill.AppendRigidEntries | src/ObjWriting/XModel/GenericXModelDumper.inc.h:362-366 | the rigid loop appends exactly the rigid entries |
| XModelFill.AppendGroupEntries | src/ObjWriting/XModel/GenericXModelDumper.inc.h:374-443 | a group loop appends exactly the group's entries |
| XModelFill.AppendBlendEntries | src/ObjWriting/XModel/GenericXModelDumper.inc.h:370-443 | the four blend loops append exactly the blend entries |
| XModelFill.AppendRigidPartEntries | src/ObjWriting/XModel/GenericXModelDumper.inc.h:353-368 | a surface's rigid part appends its rigid entries |
| XModelFill.AppendBlendPartEntries | src/ObjWriting/XModel/GenericXModelDumper.inc.h:370-447 | a surface's blend part appends its blend entries |
| XModelFill.AppendSurfaceEntries | src/ObjWriting/XModel/GenericXModelDumper.inc.h:350-452 | one surface appends its rigid, blend and padding entries |
| XModelFill.AppendLodEntries | src/ObjWriting/XModel/GenericXModelDumper.inc.h:346-453 | the surface loop appends every surface's entries, in turn |
| XModelDumper.AllocateXModelBoneWeights | src/ObjWriting/XModel/GenericXModelDumper.inc.h:302-330 | the slots are resized to exactly the counted total; nothing changes without a surface array |
| XModelDumper.AddXModelVertices | src/ObjWriting/XModel/GenericXModelDumper.inc.h:273-300 | one vertex is appended per vertex of every surface; nothing without a surface array |
| XModelDumper.WriteBlendVertex | src/ObjWriting/XModel/GenericXModelDumper.inc.h:376-438 | the g slots of one blend vertex are written with its bones, from the running weight offset on |
| XModelDumper.AddBlendGroup | src/ObjWriting/XModel/GenericXModelDumper.inc.h:374-443 | one group loop writes the group's slots and appends its entries, ending after the group's slots and vertsBlend runs |
| XModelDumper.AddRigidWeights | src/ObjWriting/XModel/GenericXModelDumper.inc.h:355-367 | the rigid loop writes one slot per list, appends one entry per driven vertex, and counts the handled vertices |
| XModelDumper.AddBlendWeights | src/ObjWriting/XModel/GenericXModelDumper.inc.h:370-443 | the four blend loops write the blend slots and append the blend entries, ending after c0 + 2 c1 + 3 c2 + 4 c3 slots |
| XModelDumper.AddRigidPart | src/ObjWriting/XModel/GenericXModelDumper.inc.h:353-368 | a surface's rigid part, if it has rigid lists |
| XModelDumper.AddBlendPart | src/ObjWriting/XModel/GenericXModelDumper.inc.h:370-447 | a surface's blend part, if it has blend data, with its handled vertices |
| XModelDumper.AddPadding | src/ObjWriting/XModel/GenericXModelDumper.inc.h:449-452 | (0, 0) entries up to vertCount, none when already there |
| XModelDumper.AddSurfaceWeights | src/ObjWriting/XModel/GenericXModelDumper.inc.h:350-452 | one surface's body writes the surface's slots and appends its entries, ending exactly its counted slots later |
| XModelDumper.AddLodWeights | src/ObjWriting/XModel/GenericXModelDumper.inc.h:346-453 | the surface loop writes every surface's slots and appends their entries, each surface from where the previous stopped |
| XModelDumper.AddXModelVertexBoneWeights | src/ObjWriting/XModel/GenericXModelDumper.inc.h:337-454 | nothing changes without a surface array; otherwise the surface loop's slots and entries |
| XModelDumper.ObjectName | src/ObjWriting/XModel/GenericXModelDumper.inc.h:266 | an object name is "surf" followed by digits that read back as the surface's number |
| XModelDumper.ObjectNamesDistinct | src/ObjWriting/XModel/GenericXModelDumper.inc.h:266 | different surfaces get differently named objects |
| XModelDumper.AddXModelObjects | src/ObjWriting/XModel/GenericXModelDumper.inc.h:258-271 | one object per surface is appended, named surf{i}, with its material's mapped position and no faces; earlier objects are kept |
| XModelDumper.WithFaces | src/ObjWriting/XModel/GenericXModelDumper.inc.h:464-480 | adding faces keeps the number of objects |
| XModelDumper.WithFacesObjects | src/ObjWriting/XModel/GenericXModelDumper.inc.h:464-480 | object i gets exactly surface i's faces after its own, and keeps its name and material; objects past the surfaces are untouched |
| XModelDumper.AddXModelFaces | src/ObjWriting/XModel/GenericXModelDumper.inc.h:456-481 | nothing without a surface array; otherwise every surface's faces go to its object |
| XModelFaces.SurfaceFaces | src/ObjWriting/XModel/GenericXModelDumper.inc.h:470-479 | one face per triangle |
| XModelFaces.UnrebaseFace | src/ObjWriting/XModel/GenericXModelDumper.inc.h:475-477 | every face index is at least baseVertIndex, and subtracting it gives back the triangle |
| XModelFaces.FacesStayInSurface | src/ObjWriting/XModel/GenericXModelDumper.inc.h:470-479 | triangles inside the surface give faces inside [baseVertIndex, baseVertIndex + vertCount) |
| XModelFaces.FacesIndexOwnVertices | src/ObjWriting/XModel/GenericXModelDumper.inc.h:470-479 | with packed base indices, surface i's faces name only the vertices appended for surface i, and never a vertex past those of the level of detail |
| XModelDumper.AddArmature | src/ObjWriting/XModel/GenericXModelDumper.inc.h:494-502 | the default armature is omitted; any other armature gets all its bones, exactly the counted slots in fill order, and every surface's entries |
| XModelDumper.PopulateXModelWriter | src/ObjWriting/XModel/GenericXModelDumper.inc.h:483-503 | the name is `{name}_lod{lod}`; it adds the level's vertices, or keeps the vertices without a surface array, and one object per surface, and the armature AddArmature states |

## Left out

- **The byte source.** `ILoadingStream::Load` is a byte sequence plus a read position, with no I/O. How a short read ends is not part of this model. It is a `StreamExhausted` error:
  - `LoadDataRaw` and `LoadDataInBlock` then leave the position unchanged;
  - `LoadNullTerminated` keeps consumed the bytes it copied before the stream ran out.
- **Exceptions.** They are `Result` and `Outcome` values. The state after an error is the state at the throw.
- **`assert` calls.** They become preconditions:
  - the insert block is inside the table;
  - `dst` is at the top block's cursor;
  - delay blocks are never loaded into;
  - `Align` has a non-empty stack.

  The release-mode fallbacks for an empty stack are modelled (-1, null, no-op).
- **`XBlock.h` and `ZoneTypes.h` are not part of this model.**
  - `XBlock` is a class with an index, a kind and a byte array.
  - `block_t` is a 32-bit signed integer.
  - The stream's constructor requires block i to carry index i, and distinct blocks to have distinct buffers.
- **Reference code 0.** Nothing is stated about decoding the null reference; callers handle it.
- **Pointers.** They are (block, offset) pairs.
  - The word width is 8 * pointerSize bits.
  - `alignof(void*)` is taken to equal `sizeof(void*)`.
  - `ConvertOffsetToAlias` returns the stored bytes rather than reading them as a pointer.
  - Shifting by the full word width is undefined in C++, so the decoders require `0 < blockBitCount < W`.
- ConvertOffsetToPointer: its encoding round trip is stated only for `blockBitCount <= 31`. Wider block fields do not fit `block_t` unchanged.
- **Stream cursors.** Cursors, offsets and sizes in the stream are unbounded naturals. The `size_t` wrap-around of `offset + align - 1` in `Align`, of the unchecked `+= size` in `IncBlockPos` and of `dst + size` in `LoadDataInBlock` is not modelled: it would matter only for cursors near 2^64.
- **Integer widths in the dumper.** Counts and offsets are unbounded naturals. The 32-bit `totalWeightCount`, the `int`/`short` vertex counts of some games and `size_t` wrap-around are not modelled: they would matter only for models with more than 2^32 slots.
- **Floating-point values.** Bone weights, `BoneWeight16`, rotations, offsets, scales and vertex data are not part of the model. `weights` holds only each slot's bone index, and a vertex is a unit value. `AddXModelVertices` therefore states only how many vertices it appends.
- **The four blend-group loops.** They become one method, `AddBlendGroup`, run for g = 1, 2, 3 and 4. Its vertsBlend stride is 2g - 1 and it writes g slots per vertex, as each literal loop does.
- **`sizeof(DObjSkelMat)`.** It is the parameter `skelMatSize`. The game headers are not part of this model.
- **`AddXModelMaterials` and `DistinctMapper`.** Neither is modelled: the mapper is not part of this model. `AddXModelObjects` takes the mapper's position for each surface's material as the sequence `materialPositions`, and the `static_cast<int>` of that position is not modelled.
- **Script strings.** A bone name is the in-range script string or "INVALID_BONE_NAME"; the zone's script-string table is a sequence parameter.
- `object.m_faces.reserve` has no observable effect and is left out.
- GetImageFromTextureDef: it has no contract of its own. Both of its game variants, `image` and `u.image`, read the definition's one image, which is a field of `TextureDef` in the model; GetMaterialColorMap, GetMaterialNormalMap and GetMaterialSpecularMap state what it returns for them.
- The texture semantic codes (`TS_COLOR_MAP` and the rest) are a parameter record, because their game-specific values are not shown. `GetImageFromTextureDef` reads the definition's image whatever the game.
- **The dumpers.** The file, glTF, OBJ, XModel-export and JSON writers (`DumpObjLod`, `DumpObjMtl`, `DumpGltfLod`, `DumpXModelExportLod`, `DumpXModelSurfs` and the asset dumper around them) write files and are outside this model.
- PopulateXModelWriter: its contract states the object count only. The objects' names, materials and faces are stated by AddXModelObjects and AddXModelFaces. AddXModelFaces indexes objects from 0, which matches its caller only for an `XModelCommon` that starts with no objects, as the dumpers' does.

## Findings

| source | as written | input that shows it | evidently intended | confidence | as-written member | corrected member |
|---|---|---|---|---|---|---|
| src/ZoneLoading/Zone/Stream/Impl/XBlockInputStream.cpp:242 | `ConvertOffsetToAlias` throws when `m_buffer_size <= blockOffset + sizeof(void*)` | a reference to offset `m_buffer_size - sizeof(void*)` of a block: a pointer stored in the block's last pointer-sized bytes, wholly inside the block | throw only when `blockOffset + sizeof(void*) > m_buffer_size`: `ConvertOffsetToPointer` (line 219) accepts every offset below `m_buffer_size`, and the `sizeof(void*)`-byte read at line 247 from offset `m_buffer_size - sizeof(void*)` stays inside the buffer | medium, not executed | ZoneStreamLemmas.AliasRejectsLastSlot | ZoneStreamLemmas.AliasInclusiveRoundTrip |
