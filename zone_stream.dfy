/**
 * The block stream that rebuilds a loaded zone's memory from its serialized
 * byte stream (XBlockInputStream).
 *
 * A zone's memory is a fixed table of blocks. Every block has a cursor; the
 * loader pushes the block it is filling, aligns and allocates at that block's
 * cursor, fills the allocation from the stream and pops the block again.
 * Temp blocks save their cursor on push and get it back on pop. Addresses are
 * (block, offset) pairs; the byte source is the sequence `input` read from
 * position `inputPos`.
 */
module ZoneStream {
  import opened BlockCodec

  newtype byte = x: int | 0 <= x < 256

  /** XBlock::Type. */
  datatype BlockType = Temp | Runtime | Delay | Normal

  /** The exceptions the stream throws, with the diagnostics they carry. */
  datatype LoadError =
    | BlockOverflow(block: nat)
    | OutOfBlockBounds(block: nat)
    | InvalidOffsetBlock(blockNum: int)
    | InvalidOffsetBlockOffset(block: nat, offset: nat)
      /** The byte source could not supply the requested bytes. */
    | StreamExhausted

  datatype Result<T> = Ok(value: T) | Err(error: LoadError)

  datatype Outcome = Pass | Fail(error: LoadError)

  /** An address inside the block table, or the null pointer. */
  datatype Pointer = Null | Ptr(block: nat, offset: nat)

  /** The cursor `Align` computes: `(x + align - 1) / align * align`, and x itself for align 0. */
  function AlignUp(x: nat, align: nat): (r: nat)
    ensures align == 0 ==> r == x
    ensures align > 0 ==> r % align == 0 && x <= r < x + align
  {
    if align == 0 then x
    else
      var q := (x + align - 1) / align;
      DivMod(x + align - 1, align);
      MulMod(q, align);
      q * align
  }

  lemma MulMod(q: nat, m: nat)
    requires m > 0
    ensures (q * m) % m == 0
  {
    DivModUnique(q * m, m, q, 0);
  }

  /** A cursor that is already aligned stays where it is. */
  lemma AlignUpAligned(x: nat, align: nat)
    requires align > 0 && x % align == 0
    ensures AlignUp(x, align) == x
  {
    var q := x / align;
    DivMod(x, align);
    DivModUnique(x + align - 1, align, q, align - 1);
  }

  /** Aligning twice is aligning once. */
  lemma AlignUpIdempotent(x: nat, align: nat)
    ensures AlignUp(AlignUp(x, align), align) == AlignUp(x, align)
  {
    if align > 0 {
      AlignUpAligned(AlignUp(x, align), align);
    }
  }

  /** AlignUp gives the least multiple of align that is at least x. */
  lemma AlignUpLeast(x: nat, align: nat, y: nat)
    requires align > 0 && y % align == 0 && x <= y
    ensures AlignUp(x, align) <= y
  {
    var r := AlignUp(x, align);
    if y < r {
      DivMod(y, align);
      DivMod(r, align);
      var qy, qr := y / align, r / align;
      assert qy * align < qr * align;
      if qr <= qy {
        MulLe(qr, qy, align);
      }
      MulLe(qy + 1, qr, align);
      MulSucc(qy, align);
    }
  }

  /** The number of leading non-zero bytes of s. */
  function LeadingNonZero(s: seq<byte>): (n: nat)
    ensures n <= |s|
    ensures forall i :: 0 <= i < n ==> s[i] != 0
    ensures n < |s| ==> s[n] == 0
  {
    if |s| == 0 || s[0] == 0 then 0 else 1 + LeadingNonZero(s[1..])
  }

  /**
   * What `LoadNullTerminated` does with the stream bytes `avail` when `room`
   * bytes are left in the block: how many bytes it copies (and consumes), and
   * how it ends.
   */
  function NullTerminatedLoad(avail: seq<byte>, room: nat, block: nat): (r: (nat, Outcome))
    ensures r.0 <= room && r.0 <= |avail|
    ensures r.1 in {Pass, Fail(BlockOverflow(block)), Fail(StreamExhausted)}
  {
    var m := LeadingNonZero(avail);
    if m < room && m < |avail| then (m + 1, Pass)
    else if room <= m then (room, Fail(BlockOverflow(block)))
    else (m, Fail(StreamExhausted))
  }

  /**
   * The load copies within the room and the stream; it passes exactly when a
   * zero byte lies within both, and then stops just after the first one; it
   * overflows after filling the room, and runs out after taking the whole stream.
   */
  lemma NullTerminatedLoadMeaning(avail: seq<byte>, room: nat, block: nat)
    ensures var r := NullTerminatedLoad(avail, room, block);
      && r.0 <= room && r.0 <= |avail|
      && (forall i :: 0 <= i < r.0 && avail[i] == 0 ==> i == r.0 - 1 && r.1 == Pass)
      && (r.1 == Pass <==> exists i :: 0 <= i < room && i < |avail| && avail[i] == 0)
      && (r.1 == Pass ==> r.0 > 0 && avail[r.0 - 1] == 0)
      && (r.1 == Fail(BlockOverflow(block)) ==> r.0 == room)
      && (r.1 == Fail(StreamExhausted) ==> r.0 == |avail| < room)
      && r.1 in {Pass, Fail(BlockOverflow(block)), Fail(StreamExhausted)}
  {
  }

  /** n non-zero bytes fill the room: the load overflows after copying them. */
  lemma LoadOverflows(avail: seq<byte>, room: nat, block: nat, n: nat)
    requires n == room <= |avail| && forall i :: 0 <= i < n ==> avail[i] != 0
    ensures NullTerminatedLoad(avail, room, block) == (n, Fail(BlockOverflow(block)))
  {
    assert LeadingNonZero(avail) >= room;
  }

  /** The whole stream, n non-zero bytes, fits the room: the load runs out after copying them. */
  lemma LoadRunsOut(avail: seq<byte>, room: nat, block: nat, n: nat)
    requires n == |avail| < room && forall i :: 0 <= i < n ==> avail[i] != 0
    ensures NullTerminatedLoad(avail, room, block) == (n, Fail(StreamExhausted))
  {
    assert LeadingNonZero(avail) == n;
  }

  /** The n-th byte is the first zero and fits the room: the load passes after copying n bytes. */
  lemma LoadPasses(avail: seq<byte>, room: nat, block: nat, n: nat)
    requires 0 < n <= room && n <= |avail| && avail[n - 1] == 0
    requires forall i :: 0 <= i < n - 1 ==> avail[i] != 0
    ensures NullTerminatedLoad(avail, room, block) == (n, Pass)
  {
    assert LeadingNonZero(avail) == n - 1;
  }

  /** A buffer that agrees with a, except that n bytes from src[p..] sit at o on, is that splice. */
  lemma Spliced<T>(a: seq<T>, b: seq<T>, src: seq<T>, o: nat, p: nat, n: nat)
    requires |b| == |a| && o + n <= |a| && p + n <= |src|
    requires forall i :: 0 <= i < |b| ==> b[i] == if o <= i < o + n then src[p + i - o] else a[i]
    ensures b == a[..o] + src[p..p + n] + a[o + n..]
  {
    var y := a[..o] + src[p..p + n] + a[o + n..];
    assert |b| == |y|;
    forall i | 0 <= i < |b|
      ensures b[i] == y[i]
    {
      if o <= i < o + n {
        assert y[i] == src[p..p + n][i - o];
      }
    }
  }

  /** One memory block: XBlock with its index, type and buffer (m_buffer of m_buffer_size bytes). */
  class XBlock {
    const index: nat
    const kind: BlockType
    const buffer: array<byte>

    constructor (index: nat, kind: BlockType, size: nat)
      ensures this.index == index && this.kind == kind
      ensures fresh(buffer) && buffer.Length == size
      ensures forall k :: 0 <= k < size ==> buffer[k] == 0
    {
      this.index := index;
      this.kind := kind;
      buffer := new byte[size](_ => 0);
    }
  }

  class XBlockInputStream {
    /** m_blocks: the zone's block table, block i at position i. */
    const blocks: seq<XBlock>
    /** m_block_offsets: one cursor per block. */
    const offsets: array<nat>
    /** m_block_stack: the blocks being filled, innermost last. */
    var blockStack: seq<nat>
    /** m_temp_offsets: cursors saved by pushes of temp blocks, latest last. */
    var tempOffsets: seq<nat>
    /** m_insert_block: the block InsertPointer reserves slots in. */
    const insertBlock: nat
    /** m_block_bit_count: how many high bits of a reference name the block. */
    const blockBitCount: nat
    /** sizeof(void*), which is also alignof(void*) and a word of 8 * pointerSize bits. */
    const pointerSize: nat
    /** The byte source: its bytes and its read position. */
    const input: seq<byte>
    var inputPos: nat

    ghost predicate Valid()
      reads this
    {
      && offsets.Length == |blocks|
      && (forall i :: 0 <= i < |blocks| ==> blocks[i].index == i)
      && (forall i, j :: 0 <= i < j < |blocks| ==> blocks[i].buffer != blocks[j].buffer)
      && (forall k :: 0 <= k < |blockStack| ==> blockStack[k] < |blocks|)
      && insertBlock < |blocks|
      && inputPos <= |input|
      && pointerSize > 0
    }

    /** The block on top of the block stack. */
    function Top(): (t: nat)
      reads this
      requires Valid() && blockStack != []
      ensures t < |blocks|
    {
      blockStack[|blockStack| - 1]
    }

    /** m_buffer_size of block b. */
    function Capacity(b: nat): nat
      requires b < |blocks|
    {
      blocks[b].buffer.Length
    }

    /** The buffer of the top block, if there is one: all that loading into the top block may write. */
    function TopBuffer(): set<object>
      reads this
      requires Valid()
    {
      if blockStack == [] then {} else {blocks[Top()].buffer}
    }

    /** dst lies inside block b's buffer range, its end included. */
    predicate InBlockBounds(dst: Pointer, b: nat)
      requires b < |blocks|
    {
      dst.Ptr? && dst.block == b && dst.offset <= Capacity(b)
    }

    constructor (blocks: seq<XBlock>, input: seq<byte>, blockBitCount: nat, insertBlock: nat, pointerSize: nat)
      requires insertBlock < |blocks|
      requires forall i :: 0 <= i < |blocks| ==> blocks[i].index == i
      requires forall i, j :: 0 <= i < j < |blocks| ==> blocks[i].buffer != blocks[j].buffer
      requires pointerSize > 0
      ensures Valid()
      ensures this.blocks == blocks && this.input == input && this.blockBitCount == blockBitCount
      ensures this.insertBlock == insertBlock && this.pointerSize == pointerSize
      ensures fresh(offsets) && forall i :: 0 <= i < |blocks| ==> offsets[i] == 0
      ensures blockStack == [] && tempOffsets == [] && inputPos == 0
    {
      this.blocks := blocks;
      this.input := input;
      this.blockBitCount := blockBitCount;
      this.insertBlock := insertBlock;
      this.pointerSize := pointerSize;
      offsets := new nat[|blocks|](_ => 0);
      blockStack := [];
      tempOffsets := [];
      inputPos := 0;
    }

    /** Rounds the top block's cursor up to a multiple of align; align 0 leaves it. */
    method Align(align: nat)
      requires Valid() && blockStack != []
      modifies offsets
      ensures offsets[..] == old(offsets[..])[Top() := AlignUp(old(offsets[Top()]), align)]
    {
      if align > 0 {
        var t := Top();
        offsets[t] := (offsets[t] + align - 1) / align * align;
      }
    }

    /** Makes block the top block; a temp block's cursor is saved first. */
    method PushBlock(block: nat)
      requires Valid() && block < |blocks|
      modifies this`blockStack, this`tempOffsets
      ensures Valid()
      ensures blockStack == old(blockStack) + [block]
      ensures tempOffsets == if blocks[block].kind == Temp then old(tempOffsets) + [offsets[block]] else old(tempOffsets)
    {
      var newBlock := blocks[block];
      blockStack := blockStack + [block];
      if newBlock.kind == Temp {
        tempOffsets := tempOffsets + [offsets[newBlock.index]];
      }
    }

    /**
     * Removes the top block and returns its index; a temp block's cursor goes
     * back to the one its push saved. An empty stack gives -1 and changes nothing.
     */
    method PopBlock() returns (popped: int)
      requires Valid()
      requires blockStack != [] && blocks[Top()].kind == Temp ==> tempOffsets != []
      modifies this`blockStack, this`tempOffsets, offsets
      ensures Valid()
      ensures old(blockStack) == [] ==>
        popped == -1 && blockStack == [] && tempOffsets == old(tempOffsets) && offsets[..] == old(offsets[..])
      ensures old(blockStack) != [] ==>
        && popped == old(blockStack[|blockStack| - 1])
        && blockStack == old(blockStack[..|blockStack| - 1])
      ensures old(blockStack) != [] && blocks[popped].kind == Temp ==>
        && tempOffsets == old(tempOffsets[..|tempOffsets| - 1])
        && offsets[..] == old(offsets[..])[popped := old(tempOffsets[|tempOffsets| - 1])]
      ensures old(blockStack) != [] && blocks[popped].kind != Temp ==>
        tempOffsets == old(tempOffsets) && offsets[..] == old(offsets[..])
    {
      if blockStack == [] {
        return -1;
      }
      var poppedBlock := blocks[Top()];
      blockStack := blockStack[..|blockStack| - 1];
      if poppedBlock.kind == Temp {
        offsets[poppedBlock.index] := tempOffsets[|tempOffsets| - 1];
        tempOffsets := tempOffsets[..|tempOffsets| - 1];
      }
      popped := poppedBlock.index;
    }

    /**
     * Aligns the top block's cursor and returns the address there without
     * advancing it; an aligned cursor past the block's end is a BlockOverflow
     * (the cursor stays aligned). An empty stack gives the null pointer.
     */
    method Alloc(align: nat) returns (r: Result<Pointer>)
      requires Valid()
      modifies offsets
      ensures blockStack == [] ==> r == Ok(Null) && offsets[..] == old(offsets[..])
      ensures blockStack != [] ==>
        && offsets[..] == old(offsets[..])[Top() := AlignUp(old(offsets[Top()]), align)]
        && r == if offsets[Top()] > Capacity(Top()) then Err(BlockOverflow(Top())) else Ok(Ptr(Top(), offsets[Top()]))
    {
      if blockStack == [] {
        return Ok(Null);
      }
      var t := Top();
      Align(align);
      if offsets[t] > blocks[t].buffer.Length {
        return Err(BlockOverflow(t));
      }
      return Ok(Ptr(t, offsets[t]));
    }

    /** Reads size bytes from the byte source for memory outside the blocks. */
    method LoadDataRaw(size: nat) returns (r: Result<seq<byte>>)
      requires Valid()
      modifies this`inputPos
      ensures Valid()
      ensures old(inputPos) + size <= |input| ==>
        r == Ok(input[old(inputPos)..old(inputPos) + size]) && inputPos == old(inputPos) + size
      ensures old(inputPos) + size > |input| ==> r == Err(StreamExhausted) && inputPos == old(inputPos)
    {
      if inputPos + size > |input| {
        return Err(StreamExhausted);
      }
      r := Ok(input[inputPos..inputPos + size]);
      inputPos := inputPos + size;
    }

    /** Advances the top block's cursor by size, without any check. */
    method IncBlockPos(size: nat)
      requires Valid()
      modifies offsets
      ensures blockStack == [] ==> offsets[..] == old(offsets[..])
      ensures blockStack != [] ==> offsets[..] == old(offsets[..])[Top() := old(offsets[Top()]) + size]
    {
      if blockStack == [] {
        return;
      }
      var t := Top();
      offsets[t] := offsets[t] + size;
    }

    /**
     * Fills size bytes at dst, which must be the top block's cursor address:
     * from the stream for temp and normal blocks, with zeros for runtime blocks,
     * then advances the cursor by size. A dst outside the block is
     * OutOfBlockBounds; one whose data would pass the block's end is BlockOverflow.
     */
    method LoadDataInBlock(dst: Pointer, size: nat) returns (r: Outcome)
      requires Valid()
      requires blockStack != [] && InBlockBounds(dst, Top()) && dst.offset + size <= Capacity(Top()) ==>
        dst.offset == offsets[Top()] && blocks[Top()].kind != Delay
      modifies this`inputPos, offsets, TopBuffer()
      ensures Valid()
      ensures old(blockStack) == [] ==> r == Pass && inputPos == old(inputPos) && offsets[..] == old(offsets[..])
      ensures blockStack != [] ==>
        var t := Top();
        var buf := blocks[t].buffer;
        var p := old(inputPos);
        if !InBlockBounds(dst, t) then
          r == Fail(OutOfBlockBounds(t)) && buf[..] == old(buf[..]) && inputPos == p && offsets[..] == old(offsets[..])
        else if dst.offset + size > buf.Length then
          r == Fail(BlockOverflow(t)) && buf[..] == old(buf[..]) && inputPos == p && offsets[..] == old(offsets[..])
        else if blocks[t].kind == Runtime then
          && r == Pass && inputPos == p
          && buf[..] == old(buf[..dst.offset]) + seq(size, _ => 0) + old(buf[dst.offset + size..])
          && offsets[..] == old(offsets[..])[t := dst.offset + size]
        else if p + size > |input| then
          r == Fail(StreamExhausted) && buf[..] == old(buf[..]) && inputPos == p && offsets[..] == old(offsets[..])
        else
          && r == Pass && inputPos == p + size
          && buf[..] == old(buf[..dst.offset]) + input[p..p + size] + old(buf[dst.offset + size..])
          && offsets[..] == old(offsets[..])[t := dst.offset + size]
    {
      if blockStack == [] {
        return Pass;
      }
      var t := Top();
      var block := blocks[t];
      if !InBlockBounds(dst, t) {
        return Fail(OutOfBlockBounds(t));
      }
      if dst.offset + size > block.buffer.Length {
        return Fail(BlockOverflow(t));
      }
      var o := dst.offset;
      if block.kind == Runtime {
        forall k | o <= k < o + size {
          block.buffer[k] := 0;
        }
        assert block.buffer[..] == old(block.buffer[..o]) + seq(size, _ => 0) + old(block.buffer[o + size..]);
      } else {
        var data := LoadDataRaw(size);
        if data.Err? {
          return Fail(data.error);
        }
        forall k | o <= k < o + size {
          block.buffer[k] := data.value[k - o];
        }
        assert block.buffer[..] == old(block.buffer[..o]) + data.value + old(block.buffer[o + size..]);
      }
      IncBlockPos(size);
      return Pass;
    }

    /**
     * Copies stream bytes to dst, the top block's cursor address, up to and
     * including the first zero byte, and puts the cursor just past it. Running
     * into the block's end first is a BlockOverflow; the bytes copied until
     * then stay written and consumed, and the cursor stays where it was.
     */
    method LoadNullTerminated(dst: Pointer) returns (r: Outcome)
      requires Valid()
      requires blockStack != [] && InBlockBounds(dst, Top()) ==> dst.offset == offsets[Top()]
      modifies this`inputPos, offsets, TopBuffer()
      ensures Valid()
      ensures old(blockStack) == [] ==> r == Pass && inputPos == old(inputPos) && offsets[..] == old(offsets[..])
      ensures blockStack != [] ==>
        var t := Top();
        var buf := blocks[t].buffer;
        var p := old(inputPos);
        if !InBlockBounds(dst, t) then
          r == Fail(OutOfBlockBounds(t)) && buf[..] == old(buf[..]) && inputPos == p && offsets[..] == old(offsets[..])
        else
          var load := NullTerminatedLoad(input[p..], buf.Length - dst.offset, t);
          var n := load.0;
          && r == load.1
          && inputPos == p + n
          && buf[..] == old(buf[..dst.offset]) + input[p..p + n] + old(buf[dst.offset + n..])
          && offsets[..] == if r == Pass then old(offsets[..])[t := dst.offset + n] else old(offsets[..])
    {
      if blockStack == [] {
        return Pass;
      }
      var t := Top();
      var block := blocks[t];
      if !InBlockBounds(dst, t) {
        return Fail(OutOfBlockBounds(t));
      }
      var n, outcome := CopyThroughZero(block.buffer, dst.offset, t);
      if outcome.Fail? {
        return outcome;
      }
      offsets[t] := dst.offset + n;
      return Pass;
    }

    /**
     * The copy loop of LoadNullTerminated: stream bytes into buf from offset o
     * on, one at a time, until a zero byte is copied (Pass), the buffer's end
     * is reached first (BlockOverflow of block t) or the stream runs out.
     */
    method CopyThroughZero(buf: array<byte>, o: nat, t: nat) returns (n: nat, r: Outcome)
      requires inputPos <= |input| && o <= buf.Length
      modifies this`inputPos, buf
      ensures
        var p := old(inputPos);
        var load := NullTerminatedLoad(input[p..], buf.Length - o, t);
        && n == load.0 && r == load.1 && inputPos == p + n <= |input|
        && buf[..] == old(buf[..o]) + input[p..p + n] + old(buf[o + n..])
    {
      var p := inputPos;
      ghost var avail := input[p..];
      ghost var room := buf.Length - o;
      ghost var original := buf[..];
      var offset := o;
      n := 0;
      while true
        invariant offset == o + n <= buf.Length
        invariant inputPos == p + n <= |input|
        invariant forall i :: 0 <= i < n ==> avail[i] != 0
        invariant forall i :: 0 <= i < buf.Length ==> buf[i] == if o <= i < o + n then input[p + i - o] else original[i]
        decreases buf.Length - offset
      {
        if offset >= buf.Length {
          LoadOverflows(avail, room, t, n);
          r := Fail(BlockOverflow(t));
          break;
        }
        if inputPos + 1 > |input| {
          LoadRunsOut(avail, room, t, n);
          r := Fail(StreamExhausted);
          break;
        }
        var b := input[inputPos];
        inputPos := inputPos + 1;
        buf[offset] := b;
        offset := offset + 1;
        n := n + 1;
        if b == 0 {
          LoadPasses(avail, room, t, n);
          r := Pass;
          break;
        }
      }
      Spliced(original, buf[..], input, o, p, n);
    }

    /**
     * Reserves a pointer-sized, pointer-aligned slot in the insert block for a
     * pointer filled in later, and returns its address. The insert block is
     * pushed and popped directly: no temp cursor is saved, and on a
     * BlockOverflow the insert block stays pushed.
     */
    method InsertPointer() returns (r: Result<Pointer>)
      requires Valid()
      modifies this`blockStack, offsets
      ensures Valid()
      ensures
        var ib := insertBlock;
        var slot := AlignUp(old(offsets[ib]), pointerSize);
        if slot + pointerSize > Capacity(ib) then
          && r == Err(BlockOverflow(ib))
          && blockStack == old(blockStack) + [ib]
          && offsets[..] == old(offsets[..])[ib := slot]
        else
          && r == Ok(Ptr(ib, slot))
          && blockStack == old(blockStack)
          && offsets[..] == old(offsets[..])[ib := slot + pointerSize]
    {
      blockStack := blockStack + [insertBlock];
      Align(pointerSize);
      if offsets[insertBlock] + pointerSize > blocks[insertBlock].buffer.Length {
        return Err(BlockOverflow(insertBlock));
      }
      var ptr := Ptr(insertBlock, offsets[insertBlock]);
      IncBlockPos(pointerSize);
      blockStack := blockStack[..|blockStack| - 1];
      return Ok(ptr);
    }

    /** Bits of a word: the width the references are packed in. */
    function WordBits(): nat
    {
      8 * pointerSize
    }

    /**
     * Decodes a packed reference into the address it names. A block number
     * outside the table is InvalidOffsetBlock; an offset at or past the block's
     * end is InvalidOffsetBlockOffset. Whatever decodes is the encoding of its
     * result.
     */
    function ConvertOffsetToPointer(code: nat): (r: Result<Pointer>)
      requires 0 < blockBitCount < WordBits() && code < Pow2(WordBits())
      ensures r.Ok? ==>
        && r.value.Ptr? && r.value.block < |blocks| && r.value.offset < Capacity(r.value.block)
        && r.value.offset < Pow2(WordBits() - blockBitCount)
      ensures r.Ok? && blockBitCount <= 31 ==> r.value.block < Pow2(blockBitCount)
      ensures r.Ok? && blockBitCount <= 31 ==>
        EncodeReference(r.value.block, r.value.offset, WordBits(), blockBitCount) == code
      ensures r.Err? ==> r.error.InvalidOffsetBlock? || r.error.InvalidOffsetBlockOffset?
      ensures r.Err? && r.error.InvalidOffsetBlockOffset? ==>
        && r.error.block == DecodeBlockNum(code, WordBits(), blockBitCount) && r.error.block < |blocks|
        && r.error.offset == DecodeBlockOffset(code, WordBits(), blockBitCount)
        && r.error.offset >= Capacity(r.error.block)
    {
      var n := DecodeBlockNum(code, WordBits(), blockBitCount);
      var offset := DecodeBlockOffset(code, WordBits(), blockBitCount);
      EncodeDecode(code, WordBits(), blockBitCount);
      SmallBlockNumbers(blockBitCount);
      if n < 0 || n >= ToInt32(|blocks|) then Err(InvalidOffsetBlock(n))
      else if Capacity(n) <= offset then Err(InvalidOffsetBlockOffset(n, offset))
      else Ok(Ptr(n, offset))
    }

    /**
     * Decodes a packed reference like ConvertOffsetToPointer, and returns the
     * pointer-sized value stored at the address instead of the address. The
     * stored value must end strictly before the block's end.
     */
    function ConvertOffsetToAlias(code: nat): (r: Result<seq<byte>>)
      requires 0 < blockBitCount < WordBits() && code < Pow2(WordBits())
      reads set i | 0 <= i < |blocks| :: blocks[i].buffer
      ensures r.Ok? ==>
        && ConvertOffsetToPointer(code).Ok?
        && var at := ConvertOffsetToPointer(code).value;
        && at.offset + pointerSize < Capacity(at.block)
        && r.value == blocks[at.block].buffer[at.offset..at.offset + pointerSize]
      ensures r.Err? && r.error.InvalidOffsetBlock? <==>
        ConvertOffsetToPointer(code).Err? && ConvertOffsetToPointer(code).error.InvalidOffsetBlock?
      ensures ConvertOffsetToPointer(code).Ok? && r.Err? ==>
        var at := ConvertOffsetToPointer(code).value;
        at.offset + pointerSize >= Capacity(at.block) && r.error == InvalidOffsetBlockOffset(at.block, at.offset)
      ensures r.Err? && !r.error.InvalidOffsetBlock? ==>
        && r.error.InvalidOffsetBlockOffset?
        && r.error.block == DecodeBlockNum(code, WordBits(), blockBitCount) && r.error.block < |blocks|
        && r.error.offset == DecodeBlockOffset(code, WordBits(), blockBitCount)
        && r.error.offset + pointerSize >= Capacity(r.error.block)
    {
      var n := DecodeBlockNum(code, WordBits(), blockBitCount);
      var offset := DecodeBlockOffset(code, WordBits(), blockBitCount);
      if n < 0 || n >= ToInt32(|blocks|) then Err(InvalidOffsetBlock(n))
      else if Capacity(n) <= offset + pointerSize then Err(InvalidOffsetBlockOffset(n, offset))
      else Ok(blocks[n].buffer[offset..offset + pointerSize])
    }

    /**
     * ConvertOffsetToAlias with an inclusive bound: the stored pointer may
     * end exactly at the block's end, and is rejected only when it would run
     * past it.
     */
    function ConvertOffsetToAliasInclusive(code: nat): (r: Result<seq<byte>>)
      requires 0 < blockBitCount < WordBits() && code < Pow2(WordBits())
      reads set i | 0 <= i < |blocks| :: blocks[i].buffer
      ensures r.Ok? ==>
        && ConvertOffsetToPointer(code).Ok?
        && var at := ConvertOffsetToPointer(code).value;
        && at.offset + pointerSize <= Capacity(at.block)
        && r.value == blocks[at.block].buffer[at.offset..at.offset + pointerSize]
      ensures ConvertOffsetToPointer(code).Ok? && r.Err? ==>
        var at := ConvertOffsetToPointer(code).value;
        at.offset + pointerSize > Capacity(at.block) && r.error == InvalidOffsetBlockOffset(at.block, at.offset)
      ensures r.Err? && r.error.InvalidOffsetBlock? <==>
        ConvertOffsetToPointer(code).Err? && ConvertOffsetToPointer(code).error.InvalidOffsetBlock?
      ensures r.Err? && !r.error.InvalidOffsetBlock? ==>
        && r.error.InvalidOffsetBlockOffset?
        && r.error.block == DecodeBlockNum(code, WordBits(), blockBitCount) && r.error.block < |blocks|
        && r.error.offset == DecodeBlockOffset(code, WordBits(), blockBitCount)
        && r.error.offset + pointerSize > Capacity(r.error.block)
    {
      var n := DecodeBlockNum(code, WordBits(), blockBitCount);
      var offset := DecodeBlockOffset(code, WordBits(), blockBitCount);
      if n < 0 || n >= ToInt32(|blocks|) then Err(InvalidOffsetBlock(n))
      else if Capacity(n) < offset + pointerSize then Err(InvalidOffsetBlockOffset(n, offset))
      else Ok(blocks[n].buffer[offset..offset + pointerSize])
    }
  }
}
