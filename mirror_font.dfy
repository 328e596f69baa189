/** Horizontal mirroring of a 1-bit glyph bitmap in place. Pixels are stored one bit
    each, row after row, most significant bit first; the glyph's offset, width and
    height come from the font's glyph table and are parameters here. */
module MirrorFont {
  import opened CanTypes

  /** Size of the global `tempFontBuffer`. */
  const TempBufferSize := 1024

  // ------------------------------------------------------------------
  // Bits of a byte
  // ------------------------------------------------------------------

  /** `GetNthBit`: 0 or 1, the value of bit `n` of `b`. The byte is promoted to `int`, so
      for 8 <= n < 32 the shift gives 0; shifting an `int` by 32 or more is undefined in C++
      and excluded. */
  function GetNthBit(b: bv8, n: bv8): (r: bv8)
    requires n < 32
    ensures r == 0 || r == 1
    ensures n < 8 ==> (r == 1 <==> b & (1 << n) != 0)
    ensures n >= 8 ==> r == 0
  {
    if n >= 8 then 0 else (b >> n) & 1
  }

  lemma SetBitKeepsOtherBits(b: bv8, n: bv8, m: bv8)
    requires n < 8 && m < 8 && n != m
    ensures ((b | (1 << n)) >> m) & 1 == (b >> m) & 1
    ensures ((b & !(1 << n)) >> m) & 1 == (b >> m) & 1
  {
  }

  /** `SetNthBit`: bit `n` becomes 1 when `input >= 1` and 0 otherwise; the other seven
      bits keep their values. For 8 <= n < 32 the mask `1 << n` has no bit in the low byte,
      so the result, truncated to a byte, is `b`; wider shifts are undefined and excluded. */
  function SetNthBit(b: bv8, n: bv8, input: bv8): (r: bv8)
    requires n < 32
    ensures n < 8 ==> GetNthBit(r, n) == (if input >= 1 then 1 else 0)
    ensures forall m: bv8 :: m < 8 && m != n ==> GetNthBit(r, m) == GetNthBit(b, m)
  {
    if n >= 8 then b
    else
      var r := if input >= 1 then b | (1 << n) else b & !(1 << n);
      assert forall m: bv8 :: m < 8 && m != n ==> GetNthBit(r, m) == GetNthBit(b, m) by {
        forall m: bv8 | m < 8 && m != n
          ensures GetNthBit(r, m) == GetNthBit(b, m)
        {
          SetBitKeepsOtherBits(b, n, m);
        }
      }
      r
  }

  /** A byte whose eight bits are all 0 is 0. */
  lemma ByteOfZeroBits(b: bv8)
    requires forall m: bv8 :: m < 8 ==> GetNthBit(b, m) == 0
    ensures b == 0
  {
    assert GetNthBit(b, 0) == 0 && GetNthBit(b, 1) == 0 && GetNthBit(b, 2) == 0 && GetNthBit(b, 3) == 0;
    assert GetNthBit(b, 4) == 0 && GetNthBit(b, 5) == 0 && GetNthBit(b, 6) == 0 && GetNthBit(b, 7) == 0;
  }

  // ------------------------------------------------------------------
  // Pixel addressing
  // ------------------------------------------------------------------

  /** `GetPixel`'s 16-bit pixel position `y * width + x`. */
  function PixelPosition(x: int, y: int, width: int): int
  {
    Wrap16(y * width + x)
  }

  /** Bit index inside byte `p / 8` of stream bit `p`: bit 7 is the first pixel. */
  function BitIndex(p: nat): (n: bv8)
    ensures n < 8
  {
    (7 - p % 8) as bv8
  }

  /** Stream bit `p` of the bitmap that starts at `base` in `s` (0 past the end of `s`). */
  function Bit(s: seq<bv8>, base: nat, p: nat): (r: bv8)
  {
    if base + p / 8 < |s| then GetNthBit(s[base + p / 8], BitIndex(p)) else 0
  }

  /** The stream is MSB first: bit `p` is the bit selected by the mask 0x80 shifted right
      by `p % 8`. */
  lemma BitIsMsbFirst(s: seq<bv8>, base: nat, p: nat)
    requires base + p / 8 < |s|
    ensures Bit(s, base, p) == 1 <==> s[base + p / 8] & (0x80 >> ((p % 8) as bv8)) != 0
  {
    var b := s[base + p / 8];
    var k := (p % 8) as bv8;
    assert BitIndex(p) == 7 - k;
    assert b & (1 << (7 - k)) == b & (0x80 >> k) by {
      assert k < 8;
      assert (1 as bv8 << (7 - k)) == (0x80 as bv8 >> k);
    }
  }

  /** Pixel (x, y) of a glyph of the given width stored at `base` in `s`. */
  function Pixel(s: seq<bv8>, base: nat, x: int, y: int, width: int): bv8
  {
    var p := PixelPosition(x, y, width);
    Bit(s, base, p)
  }

  /** `GetPixel`: the bit of pixel (x, y), as 0 or 1. */
  function GetPixel(x: uint16, y: uint16, pData: seq<bv8>, width: uint8): (r: bv8)
    requires PixelPosition(x, y, width) / 8 < |pData|
    ensures r == 0 || r == 1
    ensures r == Pixel(pData, 0, x, y, width)
  {
    var pixelPosition := PixelPosition(x, y, width);
    var pixelByteOffset := pixelPosition / 8;
    var pixelBitOffset := pixelPosition % 8;
    var pixelByte := pData[pixelByteOffset];
    GetNthBit(pixelByte, (7 - pixelBitOffset) as bv8)
  }

  /** `SetPixel` on the bitmap at `offset` in `pData`: only pixel (x, y) changes, to
      `newPixelValue` read as 0 or 1; every other byte and every other bit is left alone. */
  method SetPixel(x: uint16, y: uint16, newPixelValue: bv8, pData: array<bv8>, offset: nat, width: uint8)
    requires offset + PixelPosition(x, y, width) / 8 < pData.Length
    modifies pData
    ensures forall k :: 0 <= k < pData.Length && k != offset + PixelPosition(x, y, width) / 8 ==>
      pData[k] == old(pData[k])
    ensures Pixel(pData[..], offset, x, y, width) == if newPixelValue >= 1 then 1 else 0
    ensures forall p: nat :: p != PixelPosition(x, y, width) ==> Bit(pData[..], offset, p) == Bit(old(pData[..]), offset, p)
  {
    var pixelPosition := PixelPosition(x, y, width);
    var pixelByteOffset := pixelPosition / 8;
    var pixelBitOffset := pixelPosition % 8;
    var pixelByte := pData[offset + pixelByteOffset];
    pData[offset + pixelByteOffset] := SetNthBit(pixelByte, (7 - pixelBitOffset) as bv8, newPixelValue);
    forall p: nat | p != pixelPosition
      ensures Bit(pData[..], offset, p) == Bit(old(pData[..]), offset, p)
    {
      if p / 8 == pixelByteOffset {
        assert p % 8 != pixelBitOffset;
        assert BitIndex(p) != BitIndex(pixelPosition);
      }
    }
  }

  // ------------------------------------------------------------------
  // Mirroring
  // ------------------------------------------------------------------

  /** `numBytes` as `MirrorText` computes it: `numPixels / 8 + 1`. */
  function NumBytes(width: uint8, height: uint8): nat
  {
    width * height / 8 + 1
  }

  /** The number of bytes the glyph's bitmap occupies: `numPixels` rounded up to bytes. */
  function GlyphBytes(width: uint8, height: uint8): nat
  {
    (width * height + 7) / 8
  }

  lemma PositionInGlyph(x: int, y: int, width: nat, height: nat)
    requires 0 <= x < width <= 255 && 0 <= y < height <= 255
    ensures 0 <= y * width + x < width * height <= 65025
    ensures PixelPosition(x, y, width) == y * width + x
  {
    assert y * width <= (height - 1) * width;
    assert width * height <= 255 * 255;
  }

  lemma PositionOrder(x1: int, y1: int, x2: int, y2: int, width: nat)
    requires 0 <= x1 < width && 0 <= x2 < width && 0 <= y1 < y2
    ensures y1 * width + x1 < y2 * width + x2
  {
    assert (y1 + 1) * width <= y2 * width;
  }

  /** Distinct pixels of a glyph have distinct positions. */
  lemma PositionsDiffer(x1: int, y1: int, x2: int, y2: int, width: nat, height: nat)
    requires 0 <= x1 < width <= 255 && 0 <= x2 < width && 0 <= y1 < height <= 255 && 0 <= y2 < height
    requires x1 != x2 || y1 != y2
    ensures PixelPosition(x1, y1, width) != PixelPosition(x2, y2, width)
  {
    PositionInGlyph(x1, y1, width, height);
    PositionInGlyph(x2, y2, width, height);
    if y1 < y2 {
      PositionOrder(x1, y1, x2, y2, width);
    } else if y2 < y1 {
      PositionOrder(x2, y2, x1, y1, width);
    }
  }

  /** Pixel (x, y) of `s` equals pixel (width - 1 - x, y) of `t`, everywhere in the glyph. */
  ghost predicate IsMirrorOf(s: seq<bv8>, t: seq<bv8>, base: nat, width: nat, height: nat)
  {
    forall x, y :: 0 <= x < width && 0 <= y < height ==>
      Pixel(s, base, x, y, width) == Pixel(t, base, width - 1 - x, y, width)
  }

  /** The pixels (x, y) already written when source pixel (i, j) is next. */
  predicate Done(x: int, y: int, width: int, j: int, i: int)
  {
    y < j || (y == j && width - 1 - x < i)
  }

  ghost predicate MirroredSoFar(s: seq<bv8>, base: nat, orig: seq<bv8>, width: nat, height: nat, j: int, i: int)
  {
    forall x, y :: 0 <= x < width && 0 <= y < height ==>
      Pixel(s, base, x, y, width) == if Done(x, y, width, j, i) then Pixel(orig, 0, width - 1 - x, y, width) else 0
  }

  /** Writing the mirror of source pixel (i, j) extends the mirrored part by one pixel. */
  lemma MirrorStep(pre: seq<bv8>, post: seq<bv8>, base: nat, orig: seq<bv8>, width: nat, height: nat, i: int, j: int)
    requires 0 <= i < width <= 255 && 0 <= j < height <= 255
    requires MirroredSoFar(pre, base, orig, width, height, j, i)
    requires forall p: nat :: p != PixelPosition(width - 1 - i, j, width) ==> Bit(post, base, p) == Bit(pre, base, p)
    requires Pixel(post, base, width - 1 - i, j, width) == Pixel(orig, 0, i, j, width)
    ensures MirroredSoFar(post, base, orig, width, height, j, i + 1)
  {
    forall x, y | 0 <= x < width && 0 <= y < height
      ensures Pixel(post, base, x, y, width) ==
        if Done(x, y, width, j, i + 1) then Pixel(orig, 0, width - 1 - x, y, width) else 0
    {
      if x != width - 1 - i || y != j {
        PositionsDiffer(x, y, width - 1 - i, j, width, height);
        assert Pixel(post, base, x, y, width) == Pixel(pre, base, x, y, width);
        assert Done(x, y, width, j, i + 1) == Done(x, y, width, j, i);
      } else {
        assert width - 1 - x == i;
      }
    }
  }

  /** A finished row is the same as the start of the next one. */
  lemma MirrorNextRow(s: seq<bv8>, base: nat, orig: seq<bv8>, width: nat, height: nat, j: int)
    requires MirroredSoFar(s, base, orig, width, height, j, width)
    ensures MirroredSoFar(s, base, orig, width, height, j + 1, 0)
  {
    forall x, y | 0 <= x < width && 0 <= y < height
      ensures Done(x, y, width, j, width) == Done(x, y, width, j + 1, 0)
    {
    }
  }

  /** After the last row every pixel holds its mirrored original. */
  lemma MirrorComplete(s: seq<bv8>, before: seq<bv8>, base: nat, orig: seq<bv8>, width: nat, height: nat, numBytes: nat)
    requires width <= 255 && height <= 255 && 8 * numBytes >= width * height
    requires base + numBytes <= |before| && orig == before[base..base + numBytes]
    requires MirroredSoFar(s, base, orig, width, height, height, 0)
    ensures IsMirrorOf(s, before, base, width, height)
  {
    forall x, y | 0 <= x < width && 0 <= y < height
      ensures Pixel(s, base, x, y, width) == Pixel(before, base, width - 1 - x, y, width)
    {
      PositionInGlyph(width - 1 - x, y, width, height);
      var p := PixelPosition(width - 1 - x, y, width);
      assert p / 8 < numBytes;
      assert orig[p / 8] == before[base + p / 8];
    }
  }

  /** Bits of the cleared bytes past the glyph's pixels. */
  ghost predicate PaddingClear(s: seq<bv8>, base: nat, numPixels: nat, numBytes: nat)
  {
    forall p: nat :: numPixels <= p < 8 * numBytes ==> Bit(s, base, p) == 0
  }

  /** Changing one bit inside the glyph leaves the padding clear. */
  lemma PaddingKept(pre: seq<bv8>, post: seq<bv8>, base: nat, changed: nat, numPixels: nat, numBytes: nat)
    requires changed < numPixels && PaddingClear(pre, base, numPixels, numBytes)
    requires forall p: nat :: p != changed ==> Bit(post, base, p) == Bit(pre, base, p)
    ensures PaddingClear(post, base, numPixels, numBytes)
  {
  }

  /** A cleared bitmap is the state before the first pixel is written. */
  lemma ClearedIsStart(s: seq<bv8>, base: nat, orig: seq<bv8>, width: nat, height: nat, numBytes: nat)
    requires width <= 255 && height <= 255 && 8 * numBytes >= width * height
    requires forall p: nat :: p < 8 * numBytes ==> Bit(s, base, p) == 0
    ensures MirroredSoFar(s, base, orig, width, height, 0, 0)
    ensures PaddingClear(s, base, width * height, numBytes)
  {
    forall x, y | 0 <= x < width && 0 <= y < height
      ensures Pixel(s, base, x, y, width) == 0
    {
      PositionInGlyph(x, y, width, height);
    }
  }

  /** One iteration of `MirrorText`'s outer loop over the rows: the whole inner loop over
      the columns of row `j`, writing each pixel of the temporary copy back at its mirrored
      column. */
  method MirrorRow(pData: array<bv8>, tempFontBuffer: array<bv8>, offset: uint16, width: uint8, height: uint8,
                   numBytes: nat, j: nat, ghost before: seq<bv8>, ghost orig: seq<bv8>)
    requires tempFontBuffer != pData && j < height
    requires 8 * numBytes >= width * height && numBytes <= tempFontBuffer.Length
    requires offset + numBytes <= pData.Length == |before|
    requires tempFontBuffer[..numBytes] == orig
    requires forall k :: 0 <= k < pData.Length && !(offset <= k < offset + numBytes) ==> pData[k] == before[k]
    requires MirroredSoFar(pData[..], offset, orig, width, height, j, 0)
    requires PaddingClear(pData[..], offset, width * height, numBytes)
    modifies pData
    ensures forall k :: 0 <= k < pData.Length && !(offset <= k < offset + numBytes) ==> pData[k] == before[k]
    ensures MirroredSoFar(pData[..], offset, orig, width, height, j + 1, 0)
    ensures PaddingClear(pData[..], offset, width * height, numBytes)
  {
    for i := 0 to width
      invariant forall k :: 0 <= k < pData.Length && !(offset <= k < offset + numBytes) ==> pData[k] == before[k]
      invariant MirroredSoFar(pData[..], offset, orig, width, height, j, i)
      invariant PaddingClear(pData[..], offset, width * height, numBytes)
    {
      PositionInGlyph(i, j, width, height);
      PositionInGlyph(width - 1 - i, j, width, height);
      var pixelValue := GetPixel(i, j, tempFontBuffer[..], width);
      assert pixelValue == Pixel(orig, 0, i, j, width);
      ghost var pre := pData[..];
      SetPixel(width - 1 - i, j, pixelValue, pData, offset, width);
      MirrorStep(pre, pData[..], offset, orig, width, height, i, j);
      PaddingKept(pre, pData[..], offset, PixelPosition(width - 1 - i, j, width), width * height, numBytes);
    }
    MirrorNextRow(pData[..], offset, orig, width, height, j);
  }

  /** The body of `MirrorText` with the byte count as a parameter: the `memcpy` to the
      temporary buffer, the `memset` that clears the bytes, and the two nested loops that
      write every pixel back at its mirrored column. */
  method MirrorBytes(pData: array<bv8>, tempFontBuffer: array<bv8>, offset: uint16, width: uint8, height: uint8,
                     numBytes: nat)
    requires tempFontBuffer.Length == TempBufferSize && tempFontBuffer != pData
    requires 8 * numBytes >= width * height && numBytes <= TempBufferSize
    requires offset + numBytes <= pData.Length
    modifies pData, tempFontBuffer
    ensures forall k :: 0 <= k < pData.Length && !(offset <= k < offset + numBytes) ==> pData[k] == old(pData[k])
    ensures IsMirrorOf(pData[..], old(pData[..]), offset, width, height)
    ensures PaddingClear(pData[..], offset, width * height, numBytes)
    ensures tempFontBuffer[..numBytes] == old(pData[offset..offset + numBytes])
    ensures tempFontBuffer[numBytes..] == old(tempFontBuffer[numBytes..])
  {
    ghost var before := pData[..];
    ghost var orig := pData[offset..offset + numBytes];

    // memcpy(tempFontBuffer, pData + offset, numBytes)
    forall k | 0 <= k < numBytes {
      tempFontBuffer[k] := pData[offset + k];
    }
    assert tempFontBuffer[..numBytes] == orig;
    assert tempFontBuffer[numBytes..] == old(tempFontBuffer[numBytes..]);
    // memset(pData + offset, 0, numBytes)
    forall k | offset <= k < offset + numBytes {
      pData[k] := 0;
    }
    assert forall p: nat :: p < 8 * numBytes ==> Bit(pData[..], offset, p) == 0;
    ClearedIsStart(pData[..], offset, orig, width, height, numBytes);

    for j := 0 to height
      invariant forall k :: 0 <= k < pData.Length && !(offset <= k < offset + numBytes) ==> pData[k] == before[k]
      invariant MirroredSoFar(pData[..], offset, orig, width, height, j, 0)
      invariant PaddingClear(pData[..], offset, width * height, numBytes)
      invariant tempFontBuffer[..numBytes] == orig
      invariant tempFontBuffer[numBytes..] == old(tempFontBuffer[numBytes..])
    {
      MirrorRow(pData, tempFontBuffer, offset, width, height, numBytes, j, before, orig);
    }
    MirrorComplete(pData[..], before, offset, orig, width, height, numBytes);
  }

  /** `MirrorText` as written: the glyph is mirrored, and every bit from `numPixels` to the
      end of the `numPixels / 8 + 1` bytes it clears ends up 0. When `numPixels` is a
      multiple of 8 that includes the whole byte after the glyph's bitmap. */
  method MirrorText(pData: array<bv8>, tempFontBuffer: array<bv8>, offset: uint16, width: uint8, height: uint8)
    requires tempFontBuffer.Length == TempBufferSize && tempFontBuffer != pData
    requires NumBytes(width, height) <= TempBufferSize
    requires offset + NumBytes(width, height) <= pData.Length
    modifies pData, tempFontBuffer
    ensures forall k :: 0 <= k < pData.Length && !(offset <= k < offset + NumBytes(width, height)) ==>
      pData[k] == old(pData[k])
    ensures IsMirrorOf(pData[..], old(pData[..]), offset, width, height)
    ensures PaddingClear(pData[..], offset, width * height, NumBytes(width, height))
    ensures (width * height) % 8 == 0 ==> pData[offset + GlyphBytes(width, height)] == 0
    ensures tempFontBuffer[..NumBytes(width, height)] == old(pData[offset..offset + NumBytes(width, height)])
    ensures tempFontBuffer[NumBytes(width, height)..] == old(tempFontBuffer[NumBytes(width, height)..])
  {
    MirrorBytes(pData, tempFontBuffer, offset, width, height, NumBytes(width, height));
    if (width * height) % 8 == 0 {
      var g := GlyphBytes(width, height);
      var b := pData[offset + g];
      forall m: bv8 | m < 8
        ensures GetNthBit(b, m) == 0
      {
        var p: nat := 8 * g + 7 - m as int;
        assert p / 8 == g && BitIndex(p) == m;
        assert Bit(pData[..], offset, p) == 0;
      }
      ByteOfZeroBits(b);
    }
  }

  /** The byte counts disagree exactly when `numPixels` is a multiple of 8, and then the
      source's count is one byte more than the glyph occupies (8 x 8 pixels: 9 bytes for an
      8-byte bitmap). */
  lemma NumBytesOverCounts(width: uint8, height: uint8)
    ensures NumBytes(width, height) >= GlyphBytes(width, height)
    ensures NumBytes(width, height) == GlyphBytes(width, height) + 1 <==> (width * height) % 8 == 0
    ensures NumBytes(8, 8) == 9 && GlyphBytes(8, 8) == 8
  {
  }

  /** `MirrorText` with the byte count rounded up to the glyph's own size: it mirrors the
      glyph and writes nothing outside the glyph's bitmap. */
  method MirrorTextCorrected(pData: array<bv8>, tempFontBuffer: array<bv8>, offset: uint16, width: uint8, height: uint8)
    requires tempFontBuffer.Length == TempBufferSize && tempFontBuffer != pData
    requires GlyphBytes(width, height) <= TempBufferSize
    requires offset + GlyphBytes(width, height) <= pData.Length
    modifies pData, tempFontBuffer
    ensures forall k :: 0 <= k < pData.Length && !(offset <= k < offset + GlyphBytes(width, height)) ==>
      pData[k] == old(pData[k])
    ensures IsMirrorOf(pData[..], old(pData[..]), offset, width, height)
    ensures tempFontBuffer[..GlyphBytes(width, height)] == old(pData[offset..offset + GlyphBytes(width, height)])
    ensures tempFontBuffer[GlyphBytes(width, height)..] == old(tempFontBuffer[GlyphBytes(width, height)..])
  {
    MirrorBytes(pData, tempFontBuffer, offset, width, height, GlyphBytes(width, height));
  }

  /** Mirroring twice gives back every pixel of the glyph. */
  lemma MirrorTwiceRestores(s0: seq<bv8>, s1: seq<bv8>, s2: seq<bv8>, base: nat, width: nat, height: nat)
    requires IsMirrorOf(s1, s0, base, width, height) && IsMirrorOf(s2, s1, base, width, height)
    ensures forall x, y :: 0 <= x < width && 0 <= y < height ==> Pixel(s2, base, x, y, width) == Pixel(s0, base, x, y, width)
  {
    forall x, y | 0 <= x < width && 0 <= y < height
      ensures Pixel(s2, base, x, y, width) == Pixel(s0, base, x, y, width)
    {
      assert Pixel(s2, base, x, y, width) == Pixel(s1, base, width - 1 - x, y, width);
      assert Pixel(s1, base, width - 1 - x, y, width) == Pixel(s0, base, width - 1 - (width - 1 - x), y, width);
    }
  }
}
