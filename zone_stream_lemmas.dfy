/** Properties of the block stream that relate several of its operations. */
module ZoneStreamLemmas {
  import opened BlockCodec
  import opened ZoneStream

  /**
   * A reference encoded for block b and offset o decodes to exactly that
   * address, for every block of the table whose number fits the block bits and
   * every offset inside the block that fits the offset bits.
   */
  lemma PointerRoundTrip(s: XBlockInputStream, b: nat, o: nat)
    requires 0 < s.blockBitCount < s.WordBits()
    requires b < |s.blocks| < 0x8000_0000 && b < Pow2(s.blockBitCount)
    requires o < s.Capacity(b) && o < Pow2(s.WordBits() - s.blockBitCount)
    ensures s.ConvertOffsetToPointer(EncodeReference(b, o, s.WordBits(), s.blockBitCount)) == Ok(Ptr(b, o))
  {
    DecodeEncode(b, o, s.WordBits(), s.blockBitCount);
  }

  /**
   * InvalidOffsetBlock is raised exactly for the references whose unbiased
   * word lies at or beyond the first word of the block after the last one.
   */
  lemma InvalidBlockIffBeyondTable(s: XBlockInputStream, code: nat)
    requires 0 < s.blockBitCount < s.WordBits() && s.blockBitCount <= 31
    requires |s.blocks| < 0x8000_0000 && code < Pow2(s.WordBits())
    ensures s.ConvertOffsetToPointer(code).Err? && s.ConvertOffsetToPointer(code).error.InvalidOffsetBlock?
        <==> Unbias(code, s.WordBits()) >= |s.blocks| * Pow2(s.WordBits() - s.blockBitCount)
  {
    var w, bits := s.WordBits(), s.blockBitCount;
    var x, m := Unbias(code, w), Pow2(w - bits);
    EncodeDecode(code, w, bits);
    SmallBlockNumbers(bits);
    assert DecodeBlockNum(code, w, bits) == x / m;
    QuotientAtLeast(x, |s.blocks|, m);
  }

  /**
   * The alias of a reference to a pointer stored in the last pointerSize bytes
   * of a block is rejected, although the stored pointer lies inside the block.
   */
  lemma AliasRejectsLastSlot(s: XBlockInputStream, b: nat)
    requires 0 < s.blockBitCount < s.WordBits()
    requires b < |s.blocks| < 0x8000_0000 && b < Pow2(s.blockBitCount)
    requires s.pointerSize <= s.Capacity(b) && s.Capacity(b) - s.pointerSize < Pow2(s.WordBits() - s.blockBitCount)
    ensures
      var o := s.Capacity(b) - s.pointerSize;
      s.ConvertOffsetToAlias(EncodeReference(b, o, s.WordBits(), s.blockBitCount)) == Err(InvalidOffsetBlockOffset(b, o))
  {
    DecodeEncode(b, s.Capacity(b) - s.pointerSize, s.WordBits(), s.blockBitCount);
  }

  /**
   * With the inclusive bound, the alias of every pointer stored inside a block
   * is the pointerSize bytes stored there.
   */
  lemma AliasInclusiveRoundTrip(s: XBlockInputStream, b: nat, o: nat)
    requires 0 < s.blockBitCount < s.WordBits()
    requires b < |s.blocks| < 0x8000_0000 && b < Pow2(s.blockBitCount)
    requires o + s.pointerSize <= s.Capacity(b) && o < Pow2(s.WordBits() - s.blockBitCount)
    ensures s.ConvertOffsetToAliasInclusive(EncodeReference(b, o, s.WordBits(), s.blockBitCount))
        == Ok(s.blocks[b].buffer[o..o + s.pointerSize])
  {
    DecodeEncode(b, o, s.WordBits(), s.blockBitCount);
  }
}
