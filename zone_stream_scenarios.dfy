/** Whole-stream runs on small zones, each ending in the state the loader promises. */
module ZoneStreamScenarios {
  import opened BlockCodec
  import opened ZoneStream

  /**
   * A temp block pushed, advanced by size and popped again: inside the scope
   * its cursor has moved by size, and the pop leaves the stack, the saved
   * cursors and every cursor as they were before the push.
   */
  method TempScope(s: XBlockInputStream, block: nat, size: nat) returns (inside: nat)
    requires s.Valid() && block < |s.blocks| && s.blocks[block].kind == Temp
    modifies s`blockStack, s`tempOffsets, s.offsets
    ensures s.Valid()
    ensures inside == old(s.offsets[block]) + size
    ensures s.blockStack == old(s.blockStack) && s.tempOffsets == old(s.tempOffsets)
    ensures s.offsets[..] == old(s.offsets[..])
  {
    s.PushBlock(block);
    s.IncBlockPos(size);
    inside := s.offsets[block];
    var popped := s.PopBlock();
  }

  /** Two temp scopes on the same block, one inside the other: each pop restores its own push's cursor. */
  method NestedTempScopes(s: XBlockInputStream, block: nat, outer: nat, inner: nat) returns (innermost: nat, afterInner: nat)
    requires s.Valid() && block < |s.blocks| && s.blocks[block].kind == Temp
    modifies s`blockStack, s`tempOffsets, s.offsets
    ensures s.Valid()
    ensures innermost == old(s.offsets[block]) + outer + inner && afterInner == old(s.offsets[block]) + outer
    ensures s.blockStack == old(s.blockStack) && s.tempOffsets == old(s.tempOffsets)
    ensures s.offsets[..] == old(s.offsets[..])
  {
    s.PushBlock(block);
    s.IncBlockPos(outer);
    innermost := TempScope(s, block, inner);
    afterInner := s.offsets[block];
    var popped := s.PopBlock();
  }

  /**
   * A runtime block holding stale bytes at 0 and 5 gets the loaded run
   * [0, 4) zero-filled without reading the stream; byte 5 keeps its value.
   */
  method RuntimeBlockZeroFill() returns (contents: seq<byte>, cursor: nat, consumed: nat, r: Outcome)
    ensures r == Pass && contents == [0, 0, 0, 0, 0, 9] && cursor == 4 && consumed == 0
  {
    var runtime := new XBlock(0, Runtime, 6);
    runtime.buffer[0], runtime.buffer[5] := 9, 9;
    var s := new XBlockInputStream([runtime], [1, 2, 3, 4], 4, 0, 8);
    s.PushBlock(0);
    var at := s.Alloc(1);
    r := s.LoadDataInBlock(at.value, 4);
    contents := runtime.buffer[..];
    cursor := s.offsets[0];
    consumed := s.inputPos;
  }

  /** A null-terminated load stops after the first zero byte and leaves the rest of the stream. */
  method NullTerminatedString() returns (contents: seq<byte>, cursor: nat, consumed: nat, r: Outcome)
    ensures r == Pass && |contents| == 8 && contents[..3] == [104, 105, 0] && cursor == 3 && consumed == 3
  {
    var normal := new XBlock(0, Normal, 8);
    var s := new XBlockInputStream([normal], [104, 105, 0, 106], 4, 0, 8);
    s.PushBlock(0);
    var at := s.Alloc(1);
    r := s.LoadNullTerminated(at.value);
    assert s.input[0..][..3] == [104, 105, 0];
    contents := normal.buffer[..];
    cursor := s.offsets[0];
    consumed := s.inputPos;
  }

  /** A string longer than the room left in its block overflows it. */
  method NullTerminatedOverflow() returns (r: Outcome, cursor: nat, consumed: nat)
    ensures r == Fail(BlockOverflow(0)) && cursor == 0 && consumed == 2
  {
    var normal := new XBlock(0, Normal, 2);
    var s := new XBlockInputStream([normal], [104, 105, 106, 0], 4, 0, 8);
    s.PushBlock(0);
    var at := s.Alloc(1);
    r := s.LoadNullTerminated(at.value);
    cursor := s.offsets[0];
    consumed := s.inputPos;
  }

  /** Data that would pass the block's end is rejected and nothing moves. */
  method LoadPastBlockEnd() returns (r: Outcome, cursor: nat, consumed: nat)
    ensures r == Fail(BlockOverflow(0)) && cursor == 0 && consumed == 0
  {
    var normal := new XBlock(0, Normal, 4);
    var s := new XBlockInputStream([normal], [1, 2, 3, 4, 5], 4, 0, 8);
    s.PushBlock(0);
    var at := s.Alloc(1);
    r := s.LoadDataInBlock(at.value, 5);
    cursor := s.offsets[0];
    consumed := s.inputPos;
  }

  /**
   * Two pointer slots reserved one after the other in the insert block: the
   * first at the next pointer-aligned cursor, the second right after it, and
   * the block stack as it was.
   */
  method ConsecutiveSlots(s: XBlockInputStream) returns (first: Result<Pointer>, second: Result<Pointer>)
    requires s.Valid()
    requires AlignUp(s.offsets[s.insertBlock], s.pointerSize) + 2 * s.pointerSize <= s.Capacity(s.insertBlock)
    modifies s`blockStack, s.offsets
    ensures s.Valid()
    ensures first == Ok(Ptr(s.insertBlock, AlignUp(old(s.offsets[s.insertBlock]), s.pointerSize)))
    ensures second == Ok(Ptr(s.insertBlock, AlignUp(old(s.offsets[s.insertBlock]), s.pointerSize) + s.pointerSize))
    ensures s.blockStack == old(s.blockStack)
  {
    ghost var slot := AlignUp(s.offsets[s.insertBlock], s.pointerSize);
    first := s.InsertPointer();
    AlignedAfter(slot, s.pointerSize);
    second := s.InsertPointer();
  }

  /** The word after an aligned slot is aligned too. */
  lemma AlignedAfter(x: nat, align: nat)
    requires align > 0 && x % align == 0
    ensures AlignUp(x + align, align) == x + align
  {
    DivMod(x, align);
    DivModUnique(x + align, align, x / align + 1, 0);
    AlignUpAligned(x + align, align);
  }
}
