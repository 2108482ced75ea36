/** The on-disk record format and the two readers of
    sorter/external_merge_sort.py: `_read_block` and `_read_double`.

    A record occupies 8 bytes: the double's bit pattern, little-endian.
    `struct.unpack` turns the pattern into the record's order key and
    `struct.pack` turns it back; the two directions are proved inverse;
    `struct.unpack` raises on a byte string whose length is not a whole number
    of records, and so does the model.
 */
module Codec {
  import opened Records
  import opened Errors

  const RecordWidth: nat := 8

  function Pow256(n: nat): (p: nat)
    ensures p >= 1
  {
    if n == 0 then 1 else 256 * Pow256(n - 1)
  }

  lemma Pow256Of8()
    ensures Pow256(8) == 0x1_0000_0000_0000_0000
  {
  }

  /** The n low-order bytes of x, least significant first. */
  function ToLE(x: nat, n: nat): (b: seq<u8>)
    ensures |b| == n
  {
    if n == 0 then [] else [(x % 256) as u8] + ToLE(x / 256, n - 1)
  }

  /** The number whose little-endian bytes are b. */
  function FromLE(b: seq<u8>): (x: nat)
    ensures x < Pow256(|b|)
  {
    if b == [] then 0 else b[0] as nat + 256 * FromLE(b[1..])
  }

  lemma {:induction false} FromLEOfToLE(x: nat, n: nat)
    requires x < Pow256(n)
    ensures FromLE(ToLE(x, n)) == x
  {
    if n > 0 {
      FromLEOfToLE(x / 256, n - 1);
      assert ToLE(x, n)[1..] == ToLE(x / 256, n - 1);
    }
  }

  lemma {:induction false} ToLEOfFromLE(b: seq<u8>)
    ensures ToLE(FromLE(b), |b|) == b
  {
    if b != [] {
      var x := FromLE(b);
      assert x % 256 == b[0] as nat;
      assert x / 256 == FromLE(b[1..]);
      ToLEOfFromLE(b[1..]);
      assert b == [b[0]] + b[1..];
    }
  }

  const SignBit: nat := 0x8000_0000_0000_0000
  const AllOnes: nat := 0xFFFF_FFFF_FFFF_FFFF

  /** The order key of a double's 64-bit pattern: the sign bit is flipped on
      a non-negative pattern and every bit is flipped on a negative one, so
      comparing keys as unsigned integers compares the doubles. */
  function KeyOfBits(bits: nat): (x: Record)
    requires bits <= AllOnes
    ensures (x as nat >= SignBit) <==> (bits < SignBit)
  {
    if bits < SignBit then (bits + SignBit) as u64 else (AllOnes - bits) as u64
  }

  /** The 64-bit pattern of the double whose order key is x. */
  function BitsOfKey(x: Record): (bits: nat)
    ensures bits <= AllOnes && KeyOfBits(bits) == x
  {
    if x as nat >= SignBit then x as nat - SignBit else AllOnes - x as nat
  }

  lemma BitsOfKeyOfBits(bits: nat)
    requires bits <= AllOnes
    ensures BitsOfKey(KeyOfBits(bits)) == bits
  {
  }

  /** The value a sign-magnitude pattern denotes, up to the monotone map
      from magnitude bits to magnitude that IEEE-754 uses for every
      non-NaN double: the low 63 bits, negated when the sign bit is set. */
  function SignMagnitude(bits: nat): int
    requires bits <= AllOnes
  {
    if bits < SignBit then bits else -(bits - SignBit)
  }

  /** Keys order the doubles as their values do: a smaller value has a
      smaller key, and a smaller key never means a larger value (the only
      equal values with different keys are -0.0 and +0.0). */
  lemma {:induction false} KeyOrderIsValueOrder(a: nat, b: nat)
    requires a <= AllOnes && b <= AllOnes
    ensures SignMagnitude(a) < SignMagnitude(b) ==> KeyOfBits(a) < KeyOfBits(b)
    ensures KeyOfBits(a) < KeyOfBits(b) ==> SignMagnitude(a) <= SignMagnitude(b)
    ensures KeyOfBits(a) == KeyOfBits(b) <==> a == b
  {
    if a < SignBit && b >= SignBit {
      assert SignMagnitude(a) >= 0 >= SignMagnitude(b);
      assert KeyOfBits(a) as nat >= SignBit > KeyOfBits(b) as nat;
    } else if a >= SignBit && b < SignBit {
      assert SignMagnitude(a) <= 0 <= SignMagnitude(b);
      assert KeyOfBits(a) as nat < SignBit <= KeyOfBits(b) as nat;
    }
  }

  /** -1.0 (0xBFF0_0000_0000_0000) sorts before 1.0 (0x3FF0_0000_0000_0000),
      although its bit pattern is the larger one. */
  lemma NegativeBeforePositive()
    ensures KeyOfBits(0xBFF0_0000_0000_0000) < KeyOfBits(0x3FF0_0000_0000_0000)
    ensures 0xBFF0_0000_0000_0000 > 0x3FF0_0000_0000_0000
  {
    KeyOrderIsValueOrder(0xBFF0_0000_0000_0000, 0x3FF0_0000_0000_0000);
  }

  /** struct.pack of one record: the record's bit pattern, little-endian. */
  function EncodeRecord(x: Record): (b: seq<u8>)
    ensures |b| == RecordWidth
  {
    ToLE(BitsOfKey(x), RecordWidth)
  }

  /** struct.unpack of exactly one record's bytes: the order key of the
      little-endian bit pattern. */
  function DecodeRecord(b: seq<u8>): (x: Record)
    requires |b| == RecordWidth
    ensures EncodeRecord(x) == b
  {
    Pow256Of8();
    ToLEOfFromLE(b);
    BitsOfKeyOfBits(FromLE(b));
    KeyOfBits(FromLE(b))
  }

  lemma DecodeOfEncodeRecord(x: Record)
    ensures DecodeRecord(EncodeRecord(x)) == x
  {
    Pow256Of8();
    FromLEOfToLE(BitsOfKey(x), RecordWidth);
  }

  /** struct.pack of a sequence of records. */
  function EncodeAll(rs: seq<Record>): (b: seq<u8>)
    ensures |b| == RecordWidth * |rs|
  {
    if rs == [] then [] else EncodeRecord(rs[0]) + EncodeAll(rs[1..])
  }

  /** struct.unpack of a byte string that holds whole records. */
  function DecodeAll(b: seq<u8>): (rs: seq<Record>)
    requires |b| % RecordWidth == 0
    ensures RecordWidth * |rs| == |b|
    decreases |b|
  {
    if b == [] then [] else [DecodeRecord(b[..RecordWidth])] + DecodeAll(b[RecordWidth..])
  }

  lemma {:induction false} DecodeAllOfEncodeAll(rs: seq<Record>)
    ensures DecodeAll(EncodeAll(rs)) == rs
  {
    if rs != [] {
      var b := EncodeAll(rs);
      assert b[..RecordWidth] == EncodeRecord(rs[0]);
      assert b[RecordWidth..] == EncodeAll(rs[1..]);
      DecodeOfEncodeRecord(rs[0]);
      DecodeAllOfEncodeAll(rs[1..]);
      assert rs == [rs[0]] + rs[1..];
    }
  }

  lemma {:induction false} EncodeAllOfDecodeAll(b: seq<u8>)
    requires |b| % RecordWidth == 0
    ensures EncodeAll(DecodeAll(b)) == b
    decreases |b|
  {
    if b != [] {
      var rs := DecodeAll(b);
      assert rs[1..] == DecodeAll(b[RecordWidth..]);
      EncodeAllOfDecodeAll(b[RecordWidth..]);
      assert b == b[..RecordWidth] + b[RecordWidth..];
    }
  }

  lemma {:induction false} DecodeAllAppend(a: seq<u8>, b: seq<u8>)
    requires |a| % RecordWidth == 0 && |b| % RecordWidth == 0
    ensures DecodeAll(a + b) == DecodeAll(a) + DecodeAll(b)
    decreases |a|
  {
    if a == [] {
      assert a + b == b;
    } else {
      assert (a + b)[..RecordWidth] == a[..RecordWidth];
      assert (a + b)[RecordWidth..] == a[RecordWidth..] + b;
      DecodeAllAppend(a[RecordWidth..], b);
    }
  }

  /** `len(chunk)//8` records, or the error struct.unpack raises when the
      chunk does not hold whole records. */
  function Unpack(chunk: seq<u8>): (r: Result<seq<Record>>)
    ensures r.Ok? <==> |chunk| % RecordWidth == 0
    ensures r.Err? ==> r.error == StructError
    ensures r.Ok? ==> EncodeAll(r.value) == chunk
  {
    if |chunk| % RecordWidth != 0 then Err(StructError)
    else
      EncodeAllOfDecodeAll(chunk);
      Ok(DecodeAll(chunk))
  }

  /** Number of bytes `f.read(8 * block_size)` returns when `remaining`
      bytes are left: a negative size reads to the end of the file. */
  function ReadSize(remaining: nat, blockSize: int): (n: nat)
    ensures n <= remaining
    ensures blockSize < 0 ==> n == remaining
    ensures blockSize >= 0 ==> n == Min(RecordWidth * blockSize, remaining)
  {
    if blockSize < 0 then remaining else Min(RecordWidth * blockSize, remaining)
  }

  /** `_read_block` at byte offset `offset`: None at end of file, the
      block's records, or the error of a trailing partial record. */
  function ReadBlock(file: seq<u8>, offset: nat, blockSize: int): (r: Result<Option<seq<Record>>>)
    requires offset <= |file|
    ensures var n := ReadSize(|file| - offset, blockSize);
      && (r == Ok(None) <==> n == 0)
      && (r.Err? <==> n % RecordWidth != 0)
      && (r.Err? ==> r.error == StructError)
      && (r.Ok? && r.value.Some? ==>
            && EncodeAll(r.value.value) == file[offset..offset + n]
            && 0 < |r.value.value|
            && (blockSize >= 0 ==> |r.value.value| <= blockSize))
  {
    var chunk := file[offset..offset + ReadSize(|file| - offset, blockSize)];
    if chunk == [] then Ok(None)
    else
      match Unpack(chunk)
      case Ok(nums) => Ok(Some(nums))
      case Err(e) => Err(e)
  }

  /** `_read_double` at byte offset `offset`: None at end of file, one
      record, or the error of a partial record. */
  function ReadDouble(file: seq<u8>, offset: nat): (r: Result<Option<Record>>)
    requires offset <= |file|
    ensures r == Ok(None) <==> offset == |file|
    ensures r.Err? <==> 0 < |file| - offset < RecordWidth
    ensures r.Ok? && r.value.Some? ==> EncodeRecord(r.value.value) == file[offset..offset + RecordWidth]
  {
    var data := file[offset..Min(offset + RecordWidth, |file|)];
    if data == [] then Ok(None)
    else if |data| != RecordWidth then Err(StructError)
    else Ok(Some(DecodeRecord(data)))
  }

  /** Reading the j-th 8-byte slot of a packed run gives back its j-th
      record, and the slot just past the end reports end of file: this is
      why the merge may read runs record by record. */
  lemma {:induction false} ReadDoubleOfPacked(rs: seq<Record>, j: nat)
    requires j <= |rs|
    ensures ReadDouble(EncodeAll(rs), RecordWidth * j) ==
              if j < |rs| then Ok(Some(rs[j])) else Ok(None)
  {
    if j < |rs| {
      EncodeAllAt(rs, j);
      DecodeOfEncodeRecord(rs[j]);
      assert DecodeRecord(EncodeAll(rs)[RecordWidth * j..RecordWidth * j + RecordWidth]) == rs[j];
    }
  }

  lemma {:induction false} EncodeAllAt(rs: seq<Record>, j: nat)
    requires j < |rs|
    ensures EncodeAll(rs)[RecordWidth * j..RecordWidth * j + RecordWidth] == EncodeRecord(rs[j])
  {
    if j > 0 {
      EncodeAllAt(rs[1..], j - 1);
      var b := EncodeAll(rs);
      assert b == EncodeRecord(rs[0]) + EncodeAll(rs[1..]);
      assert b[RecordWidth * j..RecordWidth * j + RecordWidth]
          == EncodeAll(rs[1..])[RecordWidth * (j - 1)..RecordWidth * (j - 1) + RecordWidth];
    }
  }

  /** The successive byte strings `f.read(8 * block_size)` returns, one per
      loop turn of `generate_runs`, until it returns nothing. */
  function ByteChunks(data: seq<u8>, blockSize: int): (cs: seq<seq<u8>>)
    decreases |data|
  {
    if |data| == 0 || blockSize == 0 then []
    else
      var n := ReadSize(|data|, blockSize);
      [data[..n]] + ByteChunks(data[n..], blockSize)
  }

  /** The chunks are consecutive and cover the file; none is empty; with a
      positive block size every chunk but the last holds exactly
      `8 * block_size` bytes; a negative block size reads everything at
      once; a zero block size reads nothing. */
  lemma {:induction false} ByteChunksPartition(data: seq<u8>, blockSize: int)
    ensures var cs := ByteChunks(data, blockSize);
      && (blockSize != 0 ==> Flatten(cs) == data)
      && (blockSize == 0 ==> cs == [])
      && (forall i :: 0 <= i < |cs| ==> |cs[i]| > 0)
      && (blockSize > 0 ==> forall i :: 0 <= i < |cs| ==> |cs[i]| <= RecordWidth * blockSize)
      && (blockSize > 0 ==> forall i :: 0 <= i < |cs| - 1 ==> |cs[i]| == RecordWidth * blockSize)
      && (blockSize < 0 ==> cs == if data == [] then [] else [data])
    decreases |data|
  {
    if |data| != 0 && blockSize != 0 {
      var n := ReadSize(|data|, blockSize);
      ByteChunksPartition(data[n..], blockSize);
      var cs := ByteChunks(data, blockSize);
      assert cs[1..] == ByteChunks(data[n..], blockSize);
      assert data == data[..n] + data[n..];
      if blockSize < 0 {
        assert data[n..] == [] && data[..n] == data;
        assert ByteChunks(data[n..], blockSize) == [];
        assert cs == [data];
      }
      if blockSize > 0 && |cs| > 1 {
        assert n == RecordWidth * blockSize;
      }
    }
  }

  /** One turn of the read loop: at byte offset `offset` the chunks still
      to come are the read of that turn followed by the chunks after it. */
  lemma ChunkStep(data: seq<u8>, offset: nat, blockSize: int)
    requires offset <= |data|
    ensures var n := ReadSize(|data| - offset, blockSize);
      && offset + n <= |data|
      && ByteChunks(data[offset..], blockSize) ==
           if n == 0 then [] else [data[offset..offset + n]] + ByteChunks(data[offset + n..], blockSize)
  {
    var d := data[offset..];
    var n := ReadSize(|d|, blockSize);
    if |d| != 0 && blockSize != 0 {
      assert n > 0;
      assert d[..n] == data[offset..offset + n];
      assert d[n..] == data[offset + n..];
    }
  }

  /** Every chunk holds whole records exactly when the file does (or when
      nothing is read at all). */
  lemma {:induction false} ByteChunksWhole(data: seq<u8>, blockSize: int)
    ensures var cs := ByteChunks(data, blockSize);
      (forall i :: 0 <= i < |cs| ==> |cs[i]| % RecordWidth == 0) <==>
      (blockSize == 0 || |data| % RecordWidth == 0)
    decreases |data|
  {
    if |data| != 0 && blockSize != 0 {
      var n := ReadSize(|data|, blockSize);
      var cs := ByteChunks(data, blockSize);
      var tail := ByteChunks(data[n..], blockSize);
      assert cs == [data[..n]] + tail;
      ByteChunksWhole(data[n..], blockSize);
      AllWholeCons(data[..n], tail);
      if n == |data| {
        assert data[n..] == [];
        assert tail == [];
      } else {
        assert n == RecordWidth * blockSize;
        WholeShift(blockSize, |data| - n);
        assert |data[..n]| % RecordWidth == 0;
        assert |data[n..]| == |data| - n;
      }
      assert (forall i :: 0 <= i < |cs| ==> |cs[i]| % RecordWidth == 0) <==>
             (blockSize == 0 || |data| % RecordWidth == 0);
    }
  }

  /** A list of chunks starting with `c` is whole records throughout
      exactly when `c` is and the rest are. */
  lemma AllWholeCons(c: seq<u8>, tail: seq<seq<u8>>)
    ensures var cs := [c] + tail;
      (forall i :: 0 <= i < |cs| ==> |cs[i]| % RecordWidth == 0) <==>
      (|c| % RecordWidth == 0 && forall i :: 0 <= i < |tail| ==> |tail[i]| % RecordWidth == 0)
  {
    var cs := [c] + tail;
    if forall i :: 0 <= i < |cs| ==> |cs[i]| % RecordWidth == 0 {
      forall i | 0 <= i < |tail| ensures |tail[i]| % RecordWidth == 0 {
        assert tail[i] == cs[i + 1];
      }
      assert cs[0] == c;
    }
    if |c| % RecordWidth == 0 && forall i :: 0 <= i < |tail| ==> |tail[i]| % RecordWidth == 0 {
      forall i | 0 <= i < |cs| ensures |cs[i]| % RecordWidth == 0 {
        if i > 0 {
          assert cs[i] == tail[i - 1];
        }
      }
    }
  }

  /** Skipping a whole block of `8 * b` bytes keeps the length's remainder. */
  lemma WholeShift(b: int, r: nat)
    requires b > 0
    ensures (RecordWidth * b + r) % RecordWidth == 0 <==> r % RecordWidth == 0
  {
    assert RecordWidth * b + r == RecordWidth * (b + r / RecordWidth) + r % RecordWidth;
  }

  /** With a positive block size the number of chunks is the ceiling of the
      file length over `8 * block_size`, stated without division. */
  lemma {:induction false} ByteChunksCount(data: seq<u8>, blockSize: int)
    requires blockSize > 0
    ensures var c := |ByteChunks(data, blockSize)|;
      RecordWidth * blockSize * (c - 1) < |data| <= RecordWidth * blockSize * c || (|data| == 0 && c == 0)
    decreases |data|
  {
    if |data| != 0 {
      var n := ReadSize(|data|, blockSize);
      ByteChunksCount(data[n..], blockSize);
      assert ByteChunks(data, blockSize)[1..] == ByteChunks(data[n..], blockSize);
      var c := |ByteChunks(data, blockSize)|;
      var w := RecordWidth * blockSize;
      assert w * c == w * (c - 1) + w;
      assert w * (c - 1) == w * (c - 2) + w;
    }
  }

  /** The record-level view of the chunks: the decoded blocks, in read
      order; their concatenation is the decoded input. */
  function DecodedBlocks(cs: seq<seq<u8>>): (bs: seq<seq<Record>>)
    requires forall i :: 0 <= i < |cs| ==> |cs[i]| % RecordWidth == 0
    ensures |bs| == |cs|
    ensures forall i :: 0 <= i < |cs| ==> RecordWidth * |bs[i]| == |cs[i]|
  {
    seq(|cs|, i requires 0 <= i < |cs| => DecodeAll(cs[i]))
  }

  lemma {:induction false} DecodedBlocksFlatten(cs: seq<seq<u8>>)
    requires forall i :: 0 <= i < |cs| ==> |cs[i]| % RecordWidth == 0
    ensures |Flatten(cs)| % RecordWidth == 0
    ensures Flatten(DecodedBlocks(cs)) == DecodeAll(Flatten(cs))
  {
    if cs != [] {
      var tail := cs[1..];
      DecodedBlocksFlatten(tail);
      var rest := Flatten(tail);
      assert Flatten(cs) == cs[0] + rest;
      WholeAppend(|cs[0]|, |rest|);
      var bs := DecodedBlocks(cs);
      assert bs[1..] == DecodedBlocks(tail);
      assert bs[0] == DecodeAll(cs[0]);
      assert Flatten(bs) == bs[0] + Flatten(bs[1..]);
      DecodeAllAppend(cs[0], rest);
    }
  }

  /** Two whole-record lengths add up to a whole-record length. */
  lemma WholeAppend(a: nat, b: nat)
    requires a % RecordWidth == 0 && b % RecordWidth == 0
    ensures (a + b) % RecordWidth == 0
  {
    assert a + b == RecordWidth * (a / RecordWidth + b / RecordWidth);
  }

  /** Run generation's view of the input: consecutive blocks of exactly
      `block_size` records (the last one possibly shorter) whose
      concatenation is the whole decoded file. */
  lemma InputBlocks(data: seq<u8>, blockSize: int)
    requires blockSize > 0 && |data| % RecordWidth == 0
    ensures var cs := ByteChunks(data, blockSize);
      && (forall i :: 0 <= i < |cs| ==> |cs[i]| % RecordWidth == 0)
      && Flatten(DecodedBlocks(cs)) == DecodeAll(data)
      && (forall i :: 0 <= i < |cs| - 1 ==> |DecodedBlocks(cs)[i]| == blockSize)
      && (forall i :: 0 <= i < |cs| ==> 0 < |DecodedBlocks(cs)[i]| <= blockSize)
  {
    ByteChunksPartition(data, blockSize);
    ByteChunksWhole(data, blockSize);
    DecodedBlocksFlatten(ByteChunks(data, blockSize));
  }
}
