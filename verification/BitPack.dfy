/**
  The codec of level streams: blocks of 128 values, each packed into as many bits as the
  largest level needs. The packing of one block is that of a library; what is used of it is
  that unpacking takes it back.
  */
module BitPack {
  import opened Wrappers

  type Byte = b: nat | b < 256

  /** The number of bits of the largest value. */
  function Bits(maxValue: nat): nat {
    if maxValue == 0 then 0 else 1 + Bits(maxValue / 2)
  }

  function Pow2(n: nat): (p: nat)
    ensures p > 0
  {
    if n == 0 then 1 else 2 * Pow2(n - 1)
  }

  lemma {:induction false} BitsSuffice(value: nat, maxValue: nat)
    requires value <= maxValue
    ensures value < Pow2(Bits(maxValue))
  {
    if maxValue > 0 {
      BitsSuffice(value / 2, maxValue / 2);
    }
  }

  lemma {:induction false} BitsAtMost(maxValue: nat, bits: nat)
    requires maxValue < Pow2(bits)
    ensures Bits(maxValue) <= bits
  {
    if maxValue > 0 {
      BitsAtMost(maxValue / 2, bits - 1);
    }
  }

  /** The library packs at most 32 bits. */
  predicate FitsWord(bits: nat) {
    bits <= 32
  }

  /** A largest value of 32 bits. */
  lemma {:induction false} BitsOfWord(maxValue: nat)
    requires maxValue < 0x1_0000_0000
    ensures FitsWord(Bits(maxValue))
  {
    assert Pow2(8) == 0x100 && Pow2(16) == 0x1_0000 && Pow2(24) == 0x100_0000;
    assert Pow2(32) == 0x1_0000_0000;
    BitsAtMost(maxValue, 32);
  }

  /** The routines for one block. */
  datatype Packer = Packer(pack: (seq<nat>, nat) -> seq<Byte>, unpack: (seq<Byte>, nat) -> seq<nat>)

  ghost predicate AreBelow(values: seq<nat>, bits: nat) {
    forall i :: 0 <= i < |values| ==> values[i] < Pow2(bits)
  }

  ghost predicate IsExact(p: Packer) {
    forall block: seq<nat>, bits: nat :: |block| == 128 && FitsWord(bits) && AreBelow(block, bits) ==>
      |p.pack(block, bits)| == 16 * bits && p.unpack(p.pack(block, bits), bits) == block
  }

  /** The bytes of a stream of whole blocks. */
  function Packed(p: Packer, bits: nat, values: seq<nat>): seq<Byte>
    requires |values| % 128 == 0
    decreases |values|
  {
    if values == [] then [] else p.pack(values[..128], bits) + Packed(p, bits, values[128..])
  }

  lemma {:induction false} PackedOneMore(p: Packer, bits: nat, values: seq<nat>, block: seq<nat>)
    requires |values| % 128 == 0 && |block| == 128
    ensures Packed(p, bits, values + block) == Packed(p, bits, values) + p.pack(block, bits)
    decreases |values|
  {
    if values == [] {
      assert [] + block == block;
      assert block[..128] == block && block[128..] == [];
      assert p.pack(block, bits) + [] == [] + p.pack(block, bits);
    } else {
      assert (values + block)[..128] == values[..128];
      assert (values + block)[128..] == values[128..] + block;
      PackedOneMore(p, bits, values[128..], block);
      var a, b, c := p.pack(values[..128], bits), Packed(p, bits, values[128..]), p.pack(block, bits);
      assert a + (b + c) == a + b + c;
    }
  }

  /** Where the bytes of a block are. */
  lemma {:induction false} PackedAt(p: Packer, bits: nat, values: seq<nat>, b: nat)
    requires IsExact(p) && FitsWord(bits) && |values| % 128 == 0 && AreBelow(values, bits) && 128 * b < |values|
    ensures var data := Packed(p, bits, values);
            && 128 * b + 128 <= |values| && 16 * bits * b + 16 * bits <= |data|
            && p.unpack(data[16 * bits * b..16 * bits * b + 16 * bits], bits) == values[128 * b..128 * b + 128]
    decreases |values|
  {
    hide FitsWord;
    var first, rest := values[..128], values[128..];
    var head, tail := p.pack(first, bits), Packed(p, bits, rest);
    var data := Packed(p, bits, values);
    var size := 16 * bits;
    assert AreBelow(first, bits) && |head| == size;
    if b == 0 {
      assert data[..size] == head;
      assert size * b == 0;
    } else {
      PackedAt(p, bits, rest, b - 1);
      var at := size * (b - 1);
      NextBlock(bits, b - 1);
      assert data[at + size..at + size + size] == tail[at..at + size];
      assert rest[128 * (b - 1)..128 * (b - 1) + 128] == values[128 * b..128 * b + 128];
    }
  }

  lemma {:induction false} PackedLength(p: Packer, bits: nat, values: seq<nat>)
    requires IsExact(p) && FitsWord(bits) && |values| % 128 == 0 && AreBelow(values, bits)
    ensures |Packed(p, bits, values)| == 16 * bits * (|values| / 128)
    decreases |values|
  {
    hide FitsWord;
    if values != [] {
      PackedLength(p, bits, values[128..]);
      var blocks := |values| / 128;
      assert |values[128..]| / 128 == blocks - 1;
      assert 16 * bits * blocks == 16 * bits * (blocks - 1) + 16 * bits;
      assert AreBelow(values[..128], bits);
    }
  }

  /** The values filled up to whole blocks. */
  function Filled(values: seq<nat>): (f: seq<nat>)
    ensures |f| % 128 == 0 && values <= f
  {
    values + Zeros((128 - |values| % 128) % 128)
  }

  class BitPackEncoder {
    const packer: Packer
    const maxBits: nat
    const inbuf: array<nat>
    var inbufSize: nat
    var buf: seq<Byte>

    /** The values in the stream so far. */
    ghost var values: seq<nat>

    ghost predicate Valid()
      reads this, inbuf
    {
      && inbuf.Length == 128 && inbufSize < 128 && inbufSize <= |values| && AreBelow(values, maxBits)
      && (|values| - inbufSize) % 128 == 0
      && inbuf[..inbufSize] == values[|values| - inbufSize..]
      && buf == Packed(packer, maxBits, values[..|values| - inbufSize])
    }

    constructor (packer: Packer, maxValue: nat)
      ensures Valid() && fresh(inbuf) && values == [] && inbufSize == 0
      ensures this.packer == packer && maxBits == Bits(maxValue)
    {
      this.packer, maxBits := packer, Bits(maxValue);
      inbuf, inbufSize, buf, values := new nat[128], 0, [], [];
    }

    /** With no bits, nothing is written. */
    method Encode(value: nat)
      requires Valid() && value < Pow2(maxBits)
      modifies this`inbufSize, this`buf, this`values, inbuf
      ensures Valid() && values == if maxBits == 0 then old(values) else old(values) + [value]
    {
      if maxBits == 0 {
        return;
      }
      ghost var done := values[..|values| - inbufSize];
      inbuf[inbufSize] := value;
      inbufSize := inbufSize + 1;
      values := values + [value];
      assert values[..|values| - inbufSize] == done;
      assert inbuf[..inbufSize] == values[|values| - inbufSize..];
      if inbufSize == 128 {
        FlushBlock(done);
      }
    }

    method FlushBlock(ghost done: seq<nat>)
      requires inbuf.Length == 128 && inbufSize == 128 && |done| % 128 == 0 && AreBelow(values, maxBits)
      requires buf == Packed(packer, maxBits, done) && values == done + inbuf[..]
      modifies this`inbufSize, this`buf
      ensures Valid() && inbufSize == 0
    {
      PackedOneMore(packer, maxBits, done, inbuf[..]);
      buf := buf + packer.pack(inbuf[..], maxBits);
      inbufSize := 0;
      assert values[..|values|] == values;
    }

    /** A block that has been begun is filled with zeros. */
    method Flush()
      requires Valid()
      modifies this`inbufSize, this`buf, this`values, inbuf
      ensures Valid() && inbufSize == 0 && buf == Packed(packer, maxBits, values) && AreBelow(values, maxBits)
      ensures values == Filled(old(values))
    {
      hide Packed, Pow2, AreBelow;
      ghost var n := |values|;
      if inbufSize == 0 {
        assert values[..n] == values;
        assert values + [] == values;
        return;
      }
      ghost var done := values[..n - inbufSize];
      assert values == done + inbuf[..inbufSize];
      FillBlock(done);
      assert |values| == |done| + 128;
      FlushBlock(done);
      assert values[..|values|] == values;
    }

    method FillBlock(ghost done: seq<nat>)
      requires inbuf.Length == 128 && 0 < inbufSize < 128 && AreBelow(values, maxBits)
      requires values == done + inbuf[..inbufSize]
      modifies this`inbufSize, this`values, inbuf
      ensures inbufSize == 128 && AreBelow(values, maxBits)
      ensures values == done + inbuf[..] && values == old(values) + Zeros(128 - old(inbufSize))
    {
      ghost var more: nat := 0;
      assert Zeros(0) == [];
      while inbufSize < 128
        invariant inbufSize <= 128 && inbufSize == old(inbufSize) + more
        invariant values == old(values) + Zeros(more)
        invariant AreBelow(values, maxBits) && values == done + inbuf[..inbufSize]
      {
        inbuf[inbufSize] := 0;
        inbufSize := inbufSize + 1;
        values := values + [0];
        more := more + 1;
        assert Zeros(more) == Zeros(more - 1) + [0];
        assert inbuf[..inbufSize] == inbuf[..inbufSize - 1] + [0];
      }
      assert inbuf[..128] == inbuf[..];
    }
  }

  class BitPackDecoder {
    const packer: Packer
    const data: seq<Byte>
    const maxBits: nat
    var pos: nat
    var outbuf: seq<nat>
    var outbufPos: nat

    /** The values in the stream, and how many were read. */
    ghost const values: seq<nat>
    ghost var read: nat

    ghost predicate Valid()
      reads this
    {
      && IsExact(packer) && FitsWord(maxBits) && |values| % 128 == 0 && AreBelow(values, maxBits)
      && data == Packed(packer, maxBits, values) && read <= |values|
      && if outbufPos == 128 then read % 128 == 0 && pos == 16 * maxBits * (read / 128)
         else
           && read < |values| && outbufPos == read % 128 && pos == 16 * maxBits * (read / 128 + 1)
           && 128 * (read / 128) + 128 <= |values|
           && outbuf == values[128 * (read / 128)..128 * (read / 128) + 128]
    }

    constructor (packer: Packer, data: seq<Byte>, maxValue: nat, ghost values: seq<nat>)
      requires IsExact(packer) && maxValue < 0x1_0000_0000 && |values| % 128 == 0 && AreBelow(values, Bits(maxValue))
      requires data == Packed(packer, Bits(maxValue), values)
      ensures Valid() && read == 0 && maxBits == Bits(maxValue) && this.values == values
    {
      this.packer, this.data, maxBits, this.values := packer, data, Bits(maxValue), values;
      pos, outbuf, outbufPos, read := 0, [], 128, 0;
      BitsOfWord(maxValue);
    }

    /** The next value; behind the last one, looking ahead gives 0 and advancing is an error. */
    method Fetch(advance: bool) returns (value: Option<nat>)
      requires Valid()
      modifies this`pos, this`outbuf, this`outbufPos, this`read
      ensures Valid()
      ensures maxBits == 0 ==> value == Some(0) && read == old(read)
      ensures maxBits > 0 && old(read) < |values| ==>
                value == Some(values[old(read)]) && read == old(read) + (if advance then 1 else 0)
      ensures maxBits > 0 && old(read) >= |values| ==>
                value == (if advance then None else Some(0)) && read == old(read)
    {
      hide Packed, IsExact, AreBelow, FitsWord;
      if maxBits == 0 {
        return Some(0);
      }
      if outbufPos == 128 {
        var newPos := pos + 16 * maxBits;
        PackedLength(packer, maxBits, values);
        ghost var b, blocks := read / 128, |values| / 128;
        BlockFits(maxBits, b, blocks);
        if newPos > |data| {
          return if advance then None else Some(0);
        }
        PackedAt(packer, maxBits, values, b);
        assert read == 128 * b;
        outbuf := packer.unpack(data[pos..newPos], maxBits);
        pos := newPos;
        NextBlock(maxBits, b);
        outbufPos := if advance then 1 else 0;
        value := Some(outbuf[0]);
      } else {
        value := Some(outbuf[outbufPos]);
        if advance {
          outbufPos := outbufPos + 1;
        }
      }
      if advance {
        read := read + 1;
      }
    }
  }

  lemma {:induction false} BlockFits(bits: nat, b: nat, blocks: nat)
    requires bits > 0
    ensures 16 * bits * b + 16 * bits <= 16 * bits * blocks <==> b < blocks
  {
    if b < blocks {
      assert 16 * bits * (b + 1) <= 16 * bits * blocks;
    } else {
      assert 16 * bits * blocks <= 16 * bits * b;
    }
  }

  lemma {:induction false} NextBlock(bits: nat, b: nat)
    ensures 16 * bits * b + 16 * bits == 16 * bits * (b + 1)
  {
  }

  /** The values a decoder finds behind levels that were encoded. */
  function Stream(maxValue: nat, levels: seq<nat>): (values: seq<nat>)
    ensures |values| % 128 == 0
  {
    if maxValue == 0 then [] else Filled(levels)
  }

  lemma {:induction false} NoBits(maxValue: nat)
    ensures Bits(maxValue) == 0 <==> maxValue == 0
  {
  }

  method EncodeLevels(packer: Packer, maxValue: nat, levels: seq<nat>) returns (buf: seq<Byte>)
    requires forall i :: 0 <= i < |levels| ==> levels[i] <= maxValue
    ensures AreBelow(Stream(maxValue, levels), Bits(maxValue))
    ensures buf == Packed(packer, Bits(maxValue), Stream(maxValue, levels))
  {
    hide Packed, Pow2, Filled, AreBelow;
    var encoder := new BitPackEncoder(packer, maxValue);
    EncodeAll(encoder, maxValue, levels);
    encoder.Flush();
    NoBits(maxValue);
    StreamIsFilled(maxValue, levels);
    buf := encoder.buf;
  }

  method EncodeAll(encoder: BitPackEncoder, maxValue: nat, levels: seq<nat>)
    requires encoder.Valid() && encoder.values == [] && encoder.maxBits == Bits(maxValue)
    requires forall i :: 0 <= i < |levels| ==> levels[i] <= maxValue
    modifies encoder`inbufSize, encoder`buf, encoder`values, encoder.inbuf
    ensures encoder.Valid() && encoder.values == if Bits(maxValue) == 0 then [] else levels
  {
    hide Packed, Pow2, AreBelow;
    for i := 0 to |levels|
      invariant encoder.Valid()
      invariant encoder.values == if Bits(maxValue) == 0 then [] else levels[..i]
    {
      BitsSuffice(levels[i], maxValue);
      encoder.Encode(levels[i]);
      assert levels[..i + 1] == levels[..i] + [levels[i]];
    }
    assert levels[..|levels|] == levels;
  }

  lemma {:induction false} StreamIsFilled(maxValue: nat, levels: seq<nat>)
    ensures Stream(maxValue, levels) == Filled(if maxValue == 0 then [] else levels)
  {
    assert Filled([]) == [];
  }

  method DecodeLevels(packer: Packer, data: seq<Byte>, maxValue: nat, ghost levels: seq<nat>, n: nat)
    returns (decoded: seq<nat>, ahead: nat)
    requires IsExact(packer) && maxValue < 0x1_0000_0000 && n == |levels|
    requires forall i :: 0 <= i < |levels| ==> levels[i] <= maxValue
    requires AreBelow(Stream(maxValue, levels), Bits(maxValue))
    requires data == Packed(packer, Bits(maxValue), Stream(maxValue, levels))
    ensures decoded == levels && ahead == 0
  {
    hide Packed, Pow2, IsExact, AreBelow, FitsWord;
    NoBits(maxValue);
    var decoder := new BitPackDecoder(packer, data, maxValue, Stream(maxValue, levels));
    decoded := [];
    for i := 0 to n
      invariant decoder.Valid() && fresh(decoder) && decoder.maxBits == Bits(maxValue)
      invariant decoder.values == Stream(maxValue, levels)
      invariant decoder.read == if maxValue == 0 then 0 else i
      invariant decoded == levels[..i]
    {
      var level := decoder.Fetch(true);
      decoded := decoded + [level.value];
      assert levels[..i + 1] == levels[..i] + [levels[i]];
    }
    var next := decoder.Fetch(false);
    ahead := next.value;
  }

  /** Levels that are encoded, flushed and decoded come back, and looking ahead behind the last
      one gives 0. */
  method EncodeAndDecode(packer: Packer, maxValue: nat, levels: seq<nat>) returns (decoded: seq<nat>, ahead: nat)
    requires IsExact(packer) && maxValue < 0x1_0000_0000 && forall i :: 0 <= i < |levels| ==> levels[i] <= maxValue
    ensures decoded == levels && ahead == 0
  {
    var buf := EncodeLevels(packer, maxValue, levels);
    decoded, ahead := DecodeLevels(packer, buf, maxValue, levels, |levels|);
  }
}
