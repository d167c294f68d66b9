/**
  SHA-1 as a pass over the data, one block at a time with the padding made up on the way,
  against the description in RFC 3174: pad first (section 4), then fold the compression
  function over the blocks (sections 5 and 6.1).
  */
module SHA1 {

  // ------------------------------------------------------------------
  // RFC 3174
  // ------------------------------------------------------------------

  /** Section 3: the circular left shift. */
  function Rol(x: bv32, n: nat): bv32
    requires n <= 32
  {
    (x << n) | (x >> (32 - n))
  }

  function Choice(b: bv32, c: bv32, d: bv32): bv32 {
    (b & c) | (!b & d)
  }

  function Parity(b: bv32, c: bv32, d: bv32): bv32 {
    b ^ c ^ d
  }

  function Majority(b: bv32, c: bv32, d: bv32): bv32 {
    (b & c) | (b & d) | (c & d)
  }

  /** Section 5. */
  function F(t: nat, b: bv32, c: bv32, d: bv32): bv32 {
    if t < 20 then Choice(b, c, d)
    else if t < 40 then Parity(b, c, d)
    else if t < 60 then Majority(b, c, d)
    else Parity(b, c, d)
  }

  function K(t: nat): bv32 {
    if t < 20 then 0x5A827999
    else if t < 40 then 0x6ED9EBA1
    else if t < 60 then 0x8F1BBCDC
    else 0xCA62C1D6
  }

  function Sum(x: bv32, y: bv32): bv32 {
    x + y
  }

  datatype State = State(a: bv32, b: bv32, c: bv32, d: bv32, e: bv32) {
    function Plus(s: State): State {
      State(Sum(a, s.a), Sum(b, s.b), Sum(c, s.c), Sum(d, s.d), Sum(e, s.e))
    }
  }

  const INITIAL := State(0x67452301, 0xEFCDAB89, 0x98BADCFE, 0x10325476, 0xC3D2E1F0)

  /** Section 6.1 (b): the words of the message schedule. */
  function Schedule(block: seq<bv32>, t: nat): bv32
    requires |block| == 16
  {
    if t < 16 then block[t]
    else
      Mixed(Schedule(block, t - 3), Schedule(block, t - 8), Schedule(block, t - 14), Schedule(block, t - 16))
  }

  function Mixed(w3: bv32, w8: bv32, w14: bv32, w16: bv32): bv32 {
    Rol(w3 ^ w8 ^ w14 ^ w16, 1)
  }

  function Temp(a: bv32, f: bv32, e: bv32, k: bv32, word: bv32): bv32 {
    Rol(a, 5) + f + e + k + word
  }

  /** Section 6.1 (d): one round. */
  function Round(s: State, t: nat, word: bv32): State {
    State(Temp(s.a, F(t, s.b, s.c, s.d), s.e, K(t), word), s.a, Rol(s.b, 30), s.c, s.d)
  }

  function Rounds(s: State, block: seq<bv32>, n: nat): State
    requires |block| == 16
  {
    if n == 0 then s else Round(Rounds(s, block, n - 1), n - 1, Schedule(block, n - 1))
  }

  function Compress(s: State, block: seq<bv32>): State
    requires |block| == 16
  {
    s.Plus(Rounds(s, block, 80))
  }

  function Digest(s: State, words: seq<bv32>): State
    requires |words| % 16 == 0
    decreases |words|
  {
    if words == [] then s else Digest(Compress(s, words[..16]), words[16..])
  }

  /** Four bytes, the most significant one first. */
  function Word(b0: bv8, b1: bv8, b2: bv8, b3: bv8): bv32 {
    b3 as bv32 | (b2 as bv32 << 8) | (b1 as bv32 << 16) | (b0 as bv32 << 24)
  }

  function WordAt(bytes: seq<bv8>, k: nat): bv32
    requires 4 * k + 4 <= |bytes|
  {
    Word(bytes[4 * k], bytes[4 * k + 1], bytes[4 * k + 2], bytes[4 * k + 3])
  }

  function Words(bytes: seq<bv8>): (words: seq<bv32>)
    requires |bytes| % 4 == 0
    ensures |words| == |bytes| / 4 && forall k :: 0 <= k < |words| ==> words[k] == WordAt(bytes, k)
  {
    seq(|bytes| / 4, k requires 0 <= k < |bytes| / 4 => WordAt(bytes, k))
  }

  function Zeros(n: nat): (z: seq<bv8>)
    ensures |z| == n && forall i :: 0 <= i < n ==> z[i] == 0
  {
    seq(n, i => 0)
  }

  /** Section 4 (a) and (b): a one bit, then zeros up to eight bytes before a block is full. */
  function Padded(data: seq<bv8>): (p: seq<bv8>)
    ensures |p| % 64 == 56 && |data| < |p| < |data| + 65
  {
    data + [0x80] + Zeros((119 - |data| % 64) % 64)
  }

  /** A number modulo 2^32. */
  function ToWord(n: nat): bv32 {
    if n == 0 then 0 else ToWord(n - 1) + 1
  }

  lemma {:induction false} WholeBlocks(n: nat)
    requires n % 64 == 56
    ensures n % 4 == 0 && (n / 4 + 2) % 16 == 0
  {
  }

  /** The padded data as words, with the last two words of the last block. */
  function WithLength(data: seq<bv8>, high: bv32, low: bv32): (words: seq<bv32>)
    ensures |words| % 16 == 0
    ensures |words| == |Padded(data)| / 4 + 2 && words[|words| - 2] == high && words[|words| - 1] == low
  {
    WholeBlocks(|Padded(data)|);
    Words(Padded(data)) + [high, low]
  }

  /** Section 4 (c): the length in bits as two words. */
  function Standard(data: seq<bv8>): seq<bv32> {
    WithLength(data, ToWord(8 * |data| / 0x1_0000_0000), ToWord(8 * |data|))
  }

  // ------------------------------------------------------------------
  // The code
  // ------------------------------------------------------------------

  /** The words that the code feeds into the compression function: the length is kept in one
      word, and the other one is zero. */
  function Fed(data: seq<bv8>): seq<bv32> {
    WithLength(data, 0, ToWord(8 * |data|))
  }

  /** The length of data is an `int` in the code. */
  const INT_LIMIT := 0x8000_0000

  /** The padding is the standard's exactly for data below half a gigabyte. */
  lemma {:induction false} PaddingIsStandardIff(data: seq<bv8>)
    requires |data| < INT_LIMIT
    ensures Fed(data) == Standard(data) <==> |data| < 0x2000_0000
  {
    hide ToWord, Padded, Words;
    var high := 8 * |data| / 0x1_0000_0000;
    SmallWord(high);
    var fed, standard := Fed(data), Standard(data);
    assert fed[|fed| - 2] == 0 && standard[|fed| - 2] == ToWord(high);
  }

  lemma {:induction false} SmallWord(n: nat)
    requires n < 4
    ensures ToWord(n) == 0 <==> n == 0
  {
    assert ToWord(1) == 1 && ToWord(2) == 2 && ToWord(3) == 3;
  }

  function StateOf(result: array<bv32>): State
    requires result.Length == 5
    reads result
  {
    State(result[0], result[1], result[2], result[3], result[4])
  }

  /** The first words of the buffer are those of the schedule. */
  ghost predicate Expanded(block: seq<bv32>, w: seq<bv32>, n: nat)
    requires |block| == 16
  {
    n <= |w| && forall k :: 0 <= k < n ==> w[k] == Schedule(block, k)
  }

  lemma {:induction false} FirstWords(block: seq<bv32>, w: seq<bv32>)
    requires |block| == 16 && block <= w
    ensures Expanded(block, w, 16)
  {
  }

  method Expand(ghost block: seq<bv32>, w: array<bv32>, round: nat)
    requires |block| == 16 && w.Length == 80 && 16 <= round < 80 && Expanded(block, w[..], round)
    modifies w
    ensures Expanded(block, w[..], round + 1)
  {
    hide Mixed;
    w[round] := Mixed(w[round - 3], w[round - 8], w[round - 14], w[round - 16]);
  }

  method InnerHash(result: array<bv32>, w: array<bv32>)
    requires result.Length == 5 && w.Length == 80 && result != w
    modifies result, w
    ensures StateOf(result) == Compress(old(StateOf(result)), old(w[..16]))
  {
    hide Rounds, Schedule;
    ghost var block := w[..16];
    var s := StateOf(result);
    FirstWords(block, w[..]);
    var half := FirstRounds(block, w, s);
    var end := LastRounds(block, w, s, half);
    AddTo(result, end);
  }

  method FirstRounds(ghost block: seq<bv32>, w: array<bv32>, s: State) returns (r: State)
    requires |block| == 16 && w.Length == 80 && Expanded(block, w[..], 16)
    modifies w
    ensures Expanded(block, w[..], 40) && r == Rounds(s, block, 40)
  {
    hide Temp, Rol, Choice, Parity, Majority, Schedule;
    var a, b, c, d, e := s.a, s.b, s.c, s.d, s.e;
    var round := 0;
    while round < 16
      invariant 0 <= round <= 16
      invariant Expanded(block, w[..], 16) && State(a, b, c, d, e) == Rounds(s, block, round)
    {
      var t := Temp(a, Choice(b, c, d), e, 0x5A827999, w[round]);
      e := d;
      d := c;
      c := Rol(b, 30);
      b := a;
      a := t;
      round := round + 1;
    }
    while round < 20
      invariant 16 <= round <= 20
      invariant Expanded(block, w[..], round) && State(a, b, c, d, e) == Rounds(s, block, round)
    {
      Expand(block, w, round);
      var t := Temp(a, Choice(b, c, d), e, 0x5A827999, w[round]);
      e := d;
      d := c;
      c := Rol(b, 30);
      b := a;
      a := t;
      round := round + 1;
    }
    while round < 40
      invariant 20 <= round <= 40
      invariant Expanded(block, w[..], round) && State(a, b, c, d, e) == Rounds(s, block, round)
    {
      Expand(block, w, round);
      var t := Temp(a, Parity(b, c, d), e, 0x6ED9EBA1, w[round]);
      e := d;
      d := c;
      c := Rol(b, 30);
      b := a;
      a := t;
      round := round + 1;
    }
    r := State(a, b, c, d, e);
  }

  method LastRounds(ghost block: seq<bv32>, w: array<bv32>, ghost s: State, half: State) returns (r: State)
    requires |block| == 16 && w.Length == 80 && Expanded(block, w[..], 40) && half == Rounds(s, block, 40)
    modifies w
    ensures r == Rounds(s, block, 80)
  {
    hide Temp, Rol, Choice, Parity, Majority, Schedule;
    var a, b, c, d, e := half.a, half.b, half.c, half.d, half.e;
    var round := 40;
    while round < 60
      invariant 40 <= round <= 60
      invariant Expanded(block, w[..], round) && State(a, b, c, d, e) == Rounds(s, block, round)
    {
      Expand(block, w, round);
      var t := Temp(a, Majority(b, c, d), e, 0x8F1BBCDC, w[round]);
      e := d;
      d := c;
      c := Rol(b, 30);
      b := a;
      a := t;
      round := round + 1;
    }
    while round < 80
      invariant 60 <= round <= 80
      invariant Expanded(block, w[..], round) && State(a, b, c, d, e) == Rounds(s, block, round)
    {
      Expand(block, w, round);
      var t := Temp(a, Parity(b, c, d), e, 0xCA62C1D6, w[round]);
      e := d;
      d := c;
      c := Rol(b, 30);
      b := a;
      a := t;
      round := round + 1;
    }
    r := State(a, b, c, d, e);
  }

  method AddTo(result: array<bv32>, s: State)
    requires result.Length == 5
    modifies result
    ensures StateOf(result) == old(StateOf(result)).Plus(s)
  {
    hide Sum;
    result[0] := Sum(result[0], s.a);
    result[1] := Sum(result[1], s.b);
    result[2] := Sum(result[2], s.c);
    result[3] := Sum(result[3], s.d);
    result[4] := Sum(result[4], s.e);
  }

  // ------------------------------------------------------------------
  // Blocks
  // ------------------------------------------------------------------

  method ClearWBuffer(w: array<bv32>)
    requires w.Length == 80
    modifies w
    ensures forall k :: 0 <= k < 16 ==> w[k] == 0
  {
    var pos := 16;
    while pos > 0
      invariant 0 <= pos <= 16
      invariant forall k :: pos <= k < 16 ==> w[k] == 0
    {
      pos := pos - 1;
      w[pos] := 0;
    }
  }

  /** A full block of data as words. */
  method LoadBlock(data: seq<bv8>, from: nat, w: array<bv32>)
    requires from + 64 <= |data| && w.Length == 80
    modifies w
    ensures w[..16] == Words(data[from..from + 64])
  {
    hide Word;
    var currentBlock, roundPos := from, 0;
    while currentBlock < from + 64
      invariant currentBlock == from + 4 * roundPos && 0 <= roundPos <= 16
      invariant forall k :: 0 <= k < roundPos ==> w[k] == WordAt(data[from..from + 64], k)
    {
      w[roundPos] := Word(data[currentBlock], data[currentBlock + 1], data[currentBlock + 2], data[currentBlock + 3]);
      roundPos := roundPos + 1;
      currentBlock := currentBlock + 4;
    }
  }

  /** The byte as it stands in its word. */
  function Shifted(b: bv8, i: nat): bv32 {
    match i % 4
    case 0 => b as bv32 << 24
    case 1 => b as bv32 << 16
    case 2 => b as bv32 << 8
    case _ => b as bv32
  }

  function Or(x: bv32, y: bv32): bv32 {
    x | y
  }

  lemma {:induction false} SetFirst(b0: bv8, i: nat)
    requires i % 4 == 0
    ensures Or(Word(0, 0, 0, 0), Shifted(b0, i)) == Word(b0, 0, 0, 0)
  {
  }

  lemma {:induction false} SetSecond(b0: bv8, b1: bv8, i: nat)
    requires i % 4 == 1
    ensures Or(Word(b0, 0, 0, 0), Shifted(b1, i)) == Word(b0, b1, 0, 0)
  {
  }

  lemma {:induction false} SetThird(b0: bv8, b1: bv8, b2: bv8, i: nat)
    requires i % 4 == 2
    ensures Or(Word(b0, b1, 0, 0), Shifted(b2, i)) == Word(b0, b1, b2, 0)
  {
  }

  lemma {:induction false} SetFourth(b0: bv8, b1: bv8, b2: bv8, b3: bv8, i: nat)
    requires i % 4 == 3
    ensures Or(Word(b0, b1, b2, 0), Shifted(b3, i)) == Word(b0, b1, b2, b3)
  {
  }

  /** Setting the byte behind which there are only zeros changes one word. */
  lemma {:induction false} SetByte(bytes: seq<bv8>, i: nat, b: bv8)
    requires |bytes| == 64 && i < 64 && forall j :: i <= j < 64 ==> bytes[j] == 0
    ensures var after := bytes[i := b];
            && WordAt(after, i / 4) == Or(WordAt(bytes, i / 4), Shifted(b, i))
            && forall k :: 0 <= k < 16 && k != i / 4 ==> WordAt(after, k) == WordAt(bytes, k)
  {
    hide Word, Or, Shifted;
    var k := i / 4;
    var b0, b1, b2 := bytes[4 * k], bytes[4 * k + 1], bytes[4 * k + 2];
    if i % 4 == 0 {
      SetFirst(b, i);
    } else if i % 4 == 1 {
      SetSecond(b0, b, i);
    } else if i % 4 == 2 {
      SetThird(b0, b1, b, i);
    } else {
      SetFourth(b0, b1, b2, b, i);
    }
  }

  /** The block that begins with the last bytes of the data, and the bit behind them. */
  function TailBlock(tail: seq<bv8>): (block: seq<bv8>)
    requires |tail| < 64
    ensures |block| == 64
  {
    tail + [0x80] + Zeros(63 - |tail|)
  }

  /** The bytes of the block while it is being filled. */
  ghost function Filled(tail: seq<bv8>, n: nat): (bytes: seq<bv8>)
    requires n <= |tail| < 64
    ensures |bytes| == 64 && (forall j :: n <= j < 64 ==> bytes[j] == 0)
  {
    tail[..n] + Zeros(64 - n)
  }

  lemma {:induction false} FilledStep(tail: seq<bv8>, n: nat)
    requires n <= |tail| < 64
    ensures n < |tail| ==> Filled(tail, n)[n := tail[n]] == Filled(tail, n + 1)
    ensures n == |tail| ==> Filled(tail, n)[n := 0x80] == TailBlock(tail)
  {
  }

  ghost predicate Holds(w: array<bv32>, bytes: seq<bv8>)
    requires w.Length == 80 && |bytes| == 64
    reads w
  {
    forall k :: 0 <= k < 16 ==> w[k] == WordAt(bytes, k)
  }

  method PutByte(w: array<bv32>, n: nat, b: bv8, ghost bytes: seq<bv8>)
    requires w.Length == 80 && |bytes| == 64 && n < 64 && (forall j :: n <= j < 64 ==> bytes[j] == 0)
    requires Holds(w, bytes)
    modifies w
    ensures Holds(w, bytes[n := b])
  {
    hide WordAt, Or, Shifted;
    SetByte(bytes, n, b);
    w[n / 4] := Or(w[n / 4], Shifted(b, n));
  }

  method LoadTail(data: seq<bv8>, from: nat, w: array<bv32>)
    requires from <= |data| < from + 64 && w.Length == 80
    modifies w
    ensures w[..16] == Words(TailBlock(data[from..]))
  {
    hide WordAt, TailBlock;
    ghost var tail := data[from..];
    ClearWBuffer(w);
    ZeroWords();
    NothingFilled(tail);
    var n := 0;
    while n < |data| - from
      invariant 0 <= n <= |data| - from
      invariant Holds(w, Filled(tail, n))
    {
      FilledStep(tail, n);
      PutByte(w, n, data[from + n], Filled(tail, n));
      n := n + 1;
    }
    FilledStep(tail, n);
    PutByte(w, n, 0x80, Filled(tail, n));
  }

  lemma {:induction false} NothingFilled(tail: seq<bv8>)
    requires |tail| < 64
    ensures Filled(tail, 0) == Zeros(64)
  {
    assert tail[..0] == [];
  }

  lemma {:induction false} ZeroWords()
    ensures forall k :: 0 <= k < 16 ==> WordAt(Zeros(64), k) == 0
  {
  }

  // ------------------------------------------------------------------
  // The padding, block by block
  // ------------------------------------------------------------------

  lemma {:induction false} SameWord(a: seq<bv8>, i: nat, b: seq<bv8>, j: nat)
    requires 4 * i + 4 <= |a| && 4 * j + 4 <= |b|
    requires a[4 * i..4 * i + 4] == b[4 * j..4 * j + 4]
    ensures WordAt(a, i) == WordAt(b, j)
  {
    hide Word;
    var x, y := a[4 * i..4 * i + 4], b[4 * j..4 * j + 4];
    assert x[0] == y[0] && x[1] == y[1] && x[2] == y[2] && x[3] == y[3];
  }

  lemma {:induction false} WordsConcat(a: seq<bv8>, b: seq<bv8>)
    requires |a| % 4 == 0 && |b| % 4 == 0
    ensures Words(a + b) == Words(a) + Words(b)
  {
    hide WordAt;
    var m := |a| / 4;
    forall k | 0 <= k < |Words(a + b)| ensures Words(a + b)[k] == (Words(a) + Words(b))[k] {
      if k < m {
        SameWord(a + b, k, a, k);
      } else {
        assert (a + b)[4 * k..4 * k + 4] == b[4 * (k - m)..4 * (k - m) + 4];
        SameWord(a + b, k, b, k - m);
      }
    }
  }

  /** A full block comes first. */
  lemma {:induction false} FullBlock(tail: seq<bv8>, low: bv32)
    requires |tail| >= 64
    ensures WithLength(tail, 0, low) == Words(tail[..64]) + WithLength(tail[64..], 0, low)
  {
    hide WordAt, Words;
    assert Padded(tail) == tail[..64] + Padded(tail[64..]);
    WordsConcat(tail[..64], Padded(tail[64..]));
  }

  /** The bit and the length fit behind the last bytes. */
  lemma {:induction false} LastBlock(tail: seq<bv8>, low: bv32)
    requires |tail| < 56
    ensures WithLength(tail, 0, low) == Words(TailBlock(tail))[..14] + [0, low]
  {
    hide WordAt;
    var block := TailBlock(tail);
    assert block == Padded(tail) + block[56..];
    WordsConcat(Padded(tail), block[56..]);
  }

  /** They need a block of their own. */
  lemma {:induction false} LastTwoBlocks(tail: seq<bv8>, low: bv32)
    requires 56 <= |tail| < 64
    ensures WithLength(tail, 0, low) == Words(TailBlock(tail)) + (Words(Zeros(56)) + [0, low])
  {
    hide WordAt, Words;
    assert Padded(tail) == TailBlock(tail) + Zeros(56);
    WordsConcat(TailBlock(tail), Zeros(56));
    var a, b, c := Words(TailBlock(tail)), Words(Zeros(56)), [0, low];
    assert a + b + c == a + (b + c);
  }

  /** The digest is the fold over the blocks that were fed in. */
  method Compute(data: seq<bv8>) returns (out: array<bv8>)
    requires |data| < INT_LIMIT
    ensures fresh(out) && out.Length == 20
    ensures BytesOf(out[..], Digest(INITIAL, Fed(data)))
  {
    hide Compress, Digest, Words, WithLength, ToWord, BytesOf;
    var result := new bv32[5][0x67452301, 0xEFCDAB89, 0x98BADCFE, 0x10325476, 0xC3D2E1F0];
    var w := new bv32[80];
    var endOfFullBlocks := |data| - 64;
    var currentBlock := 0;
    ghost var low := ToWord(8 * |data|);
    assert data[0..] == data;
    while currentBlock <= endOfFullBlocks
      invariant 0 <= currentBlock <= |data|
      invariant Digest(StateOf(result), WithLength(data[currentBlock..], 0, low)) == Digest(INITIAL, Fed(data))
    {
      ghost var tail := data[currentBlock..];
      FullBlock(tail, low);
      DigestMore(StateOf(result), Words(tail[..64]), WithLength(tail[64..], 0, low));
      assert tail[..64] == data[currentBlock..currentBlock + 64];
      LoadBlock(data, currentBlock, w);
      InnerHash(result, w);
      currentBlock := currentBlock + 64;
      assert tail[64..] == data[currentBlock..];
    }
    Finish(data, currentBlock, result, w);
    out := Output(result);
  }

  lemma {:induction false} DigestMore(s: State, block: seq<bv32>, more: seq<bv32>)
    requires |block| == 16 && |more| % 16 == 0
    ensures Digest(s, block + more) == Digest(Compress(s, block), more)
  {
    hide Compress;
    assert (block + more)[..16] == block && (block + more)[16..] == more;
  }

  lemma {:induction false} DigestOne(s: State, block: seq<bv32>)
    requires |block| == 16
    ensures Digest(s, block) == Compress(s, block)
  {
    hide Compress;
    assert block[..16] == block && block[16..] == [];
  }

  /** The last one or two blocks. */
  method Finish(data: seq<bv8>, currentBlock: nat, result: array<bv32>, w: array<bv32>)
    requires currentBlock <= |data| < currentBlock + 64
    requires result.Length == 5 && w.Length == 80 && result != w
    modifies result, w
    ensures StateOf(result)
         == Digest(old(StateOf(result)), WithLength(data[currentBlock..], 0, ToWord(8 * |data|)))
  {
    hide Compress, Digest, TailBlock, Padded, ToWord, WithLength, WordAt;
    ghost var s, tail, low := StateOf(result), data[currentBlock..], ToWord(8 * |data|);
    var endCurrentBlock := |data| - currentBlock;
    LoadTail(data, currentBlock, w);
    ghost var last := w[..14] + [0, low];
    if endCurrentBlock >= 56 {
      LastTwoBlocks(tail, low);
      DigestMore(s, w[..16], Words(Zeros(56)) + [0, low]);
      InnerHash(result, w);
      ClearWBuffer(w);
      ZeroBlock();
      last := Words(Zeros(56)) + [0, low];
    } else {
      LastBlock(tail, low);
      LastZero(tail);
      assert w[14] == w[..16][14];
      assert w[..16][..14] == w[..14];
    }
    w[15] := ToWord(8 * |data|);
    assert w[..16] == last;
    DigestOne(StateOf(result), w[..16]);
    InnerHash(result, w);
  }

  lemma {:induction false} ZeroBlock()
    ensures forall k :: 0 <= k < 14 ==> Words(Zeros(56))[k] == 0
  {
  }

  /** Where the length fits, its first word has not been written. */
  lemma {:induction false} LastZero(tail: seq<bv8>)
    requires |tail| < 56
    ensures Words(TailBlock(tail))[14] == 0
  {
    var block := TailBlock(tail);
    assert block[56] == 0 && block[57] == 0 && block[58] == 0 && block[59] == 0;
    SameWord(block, 14, Zeros(64), 0);
    ZeroWords();
  }

  /** The state as bytes, the most significant byte of each word first. */
  ghost predicate BytesOf(bytes: seq<bv8>, s: State) {
    && |bytes| == 20
    && WordAt(bytes, 0) == s.a && WordAt(bytes, 1) == s.b && WordAt(bytes, 2) == s.c
    && WordAt(bytes, 3) == s.d && WordAt(bytes, 4) == s.e
  }

  function ByteOf(w: bv32, i: nat): bv8 {
    match i % 4
    case 0 => ((w >> 24) & 0xFF) as bv8
    case 1 => ((w >> 16) & 0xFF) as bv8
    case 2 => ((w >> 8) & 0xFF) as bv8
    case _ => (w & 0xFF) as bv8
  }

  lemma {:induction false} WordOfBytes(w: bv32)
    ensures Word(ByteOf(w, 0), ByteOf(w, 1), ByteOf(w, 2), ByteOf(w, 3)) == w
  {
  }

  method Output(result: array<bv32>) returns (out: array<bv8>)
    requires result.Length == 5
    ensures fresh(out) && out.Length == 20 && BytesOf(out[..], StateOf(result))
  {
    hide ByteOf, Word;
    out := new bv8[20];
    var hashByte := 20;
    while hashByte > 0
      invariant 0 <= hashByte <= 20
      invariant forall k :: hashByte <= k < 20 ==> out[k] == ByteOf(result[k / 4], k % 4)
    {
      hashByte := hashByte - 1;
      out[hashByte] := ByteOf(result[hashByte / 4], hashByte % 4);
    }
    forall k | 0 <= k < 5 ensures WordAt(out[..], k) == result[k] {
      assert out[4 * k] == ByteOf(result[k], 0) && out[4 * k + 1] == ByteOf(result[k], 1);
      assert out[4 * k + 2] == ByteOf(result[k], 2) && out[4 * k + 3] == ByteOf(result[k], 3);
      WordOfBytes(result[k]);
    }
  }

  /** For data below half a gigabyte, the digest is the one of the standard. */
  method ComputeStandard(data: seq<bv8>) returns (out: array<bv8>)
    requires |data| < 0x2000_0000
    ensures fresh(out) && BytesOf(out[..], Digest(INITIAL, Standard(data)))
  {
    PaddingIsStandardIff(data);
    out := Compute(data);
  }
}
