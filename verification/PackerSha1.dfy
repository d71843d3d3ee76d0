/** The update packer's SHA-1 over a byte buffer. */
module PackerSha1 {
  import opened Fips180

  // The buffer sizes the block loop can count through in 32 bits.
  const LENGTH_LIMIT: nat := TWO32 - 64

  // The i-th bit, from the least significant one.
  predicate Bit(w: Word, i: Word)
    requires i < 32
  {
    (w >> i) & 1 == 1
  }

  // Where a rotation takes a bit.
  function Rotated(i: Word, n: Word): (r: Word)
    requires n < 32 && i < 32
    ensures r < 32
  {
    if i < 32 - n then i + n else i - (32 - n)
  }

  lemma BitsMoveUp(v: Word, n: Word, i: Word)
    requires 0 < n < 32 && i < 32 - n
    ensures i + n < 32 && (((v << n) | (v >> (32 - n))) >> (i + n)) & 1 == (v >> i) & 1
  {
  }

  lemma BitsComeIn(v: Word, n: Word, i: Word)
    requires 0 < n < 32 && 32 - n <= i < 32
    ensures (((v << n) | (v >> (32 - n))) >> (i - (32 - n))) & 1 == (v >> i) & 1
  {
  }

  lemma RotlMovesBit(v: Word, n: Word, i: Word)
    requires 0 < n < 32 && i < 32
    ensures Bit(Rotl(v, n), Rotated(i, n)) == Bit(v, i)
  {
    if i < 32 - n {
      BitsMoveUp(v, n, i);
    } else {
      BitsComeIn(v, n, i);
    }
  }

  // Every bit moves up by the shift, and those shifted out come in again below.
  method Shift(v: Word, shift: Word) returns (r: Word)
    requires 0 < shift < 32
    ensures r == Rotl(v, shift)
    ensures forall i: Word :: i < 32 ==> Bit(r, Rotated(i, shift)) == Bit(v, i)
  {
    r := (v << shift) | (v >> (32 - shift));
    forall i: Word | i < 32
      ensures Bit(r, Rotated(i, shift)) == Bit(v, i)
    {
      RotlMovesBit(v, shift, i);
    }
  }

  function VarsOf(s: seq<Word>): Vars
    requires |s| == 5
  {
    Vars(s[0], s[1], s[2], s[3], s[4])
  }

  function LengthWord(length: nat): (r: seq<Byte>)
    ensures |r| == 4
  {
    WordBytes(LowWord(8 * length))
  }

  function PadWith(msg: seq<Byte>, size: seq<Byte>): (r: seq<Byte>)
    requires |size| == 4
    ensures |r| % 64 == 0
  {
    ZerosFill(|msg|);
    msg + [0x80] + Zeros(ZeroCount(|msg|) + 4) + size
  }

  // What the packer hashes: the padding with a zero high length word.
  function PackerPad(msg: seq<Byte>): (r: seq<Byte>)
    ensures |r| % 64 == 0
  {
    PadWith(msg, LengthWord(|msg|))
  }

  lemma ChoiceByOr(x: Word, y: Word, z: Word)
    ensures (x & y) | (!x & z) == Ch(x, y, z)
  {
  }

  lemma MajorityByOr(x: Word, y: Word, z: Word)
    ensures (x & y) | (x & z) | (y & z) == Maj(x, y, z)
  {
  }

  method Choice(b: Word, c: Word, d: Word) returns (f: Word)
    ensures f == Ch(b, c, d)
  {
    ChoiceByOr(b, c, d);
    f := (b & c) | (!b & d);
  }

  method Majority(b: Word, c: Word, d: Word) returns (f: Word)
    ensures f == Maj(b, c, d)
  {
    MajorityByOr(b, c, d);
    f := (b & c) | (b & d) | (c & d);
  }

  method Exclusive(b: Word, c: Word, d: Word) returns (f: Word)
    ensures f == Parity(b, c, d)
  {
    f := b ^ c ^ d;
  }

  // The schedule words written so far, and the old block in front.
  ghost predicate Scheduled(t: seq<Word>, m: Block, n: nat) {
    && |t| == 80
    && n <= 80
    && forall i: nat :: i < n ==> t[i] == W(m, i)
  }

  // The round macro, with the round's function value and constant.
  method ShiftSwap(v: Vars, f: Word, k: Word, w: Word, ghost round: nat) returns (r: Vars)
    requires f == F(round, v.b, v.c, v.d) && k == K(round)
    ensures r == Round(v, round, w)
  {
    var low := Shift(v.a, 5);
    var high := Shift(v.b, 30);
    var t := Plus(Plus(Plus(Plus(low, f), v.e), k), w);
    r := Vars(t, v.a, high, v.c, v.d);
  }

  method ExtendSchedule(temp: array<Word>, round: nat, ghost m: Block)
    requires temp.Length == 80 && 16 <= round < 80
    requires Scheduled(temp[..], m, round)
    modifies temp
    ensures Scheduled(temp[..], m, round + 1)
  {
    var word := Shift(temp[round - 3] ^ temp[round - 8] ^ temp[round - 14] ^ temp[round - 16], 1);
    temp[round] := word;
  }

  // The five round loops.
  method AllRounds(h: Vars, temp: array<Word>) returns (v: Vars)
    requires temp.Length == 80
    modifies temp
    ensures v == Rounds(h, old(temp[..16]), 80)
  {
    ghost var m: Block := temp[..16];
    v := h;
    var round := 0;
    while round < 16
      invariant 0 <= round <= 16 && Scheduled(temp[..], m, 16)
      invariant v == Rounds(h, m, round)
    {
      var f := Choice(v.b, v.c, v.d);
      v := ShiftSwap(v, f, 0x5a827999, temp[round], round);
      round := round + 1;
    }
    while round < 20
      invariant 16 <= round <= 20 && Scheduled(temp[..], m, round)
      invariant v == Rounds(h, m, round)
    {
      ExtendSchedule(temp, round, m);
      var f := Choice(v.b, v.c, v.d);
      v := ShiftSwap(v, f, 0x5a827999, temp[round], round);
      round := round + 1;
    }
    while round < 40
      invariant 20 <= round <= 40 && Scheduled(temp[..], m, round)
      invariant v == Rounds(h, m, round)
    {
      ExtendSchedule(temp, round, m);
      var f := Exclusive(v.b, v.c, v.d);
      v := ShiftSwap(v, f, 0x6ed9eba1, temp[round], round);
      round := round + 1;
    }
    while round < 60
      invariant 40 <= round <= 60 && Scheduled(temp[..], m, round)
      invariant v == Rounds(h, m, round)
    {
      ExtendSchedule(temp, round, m);
      var f := Majority(v.b, v.c, v.d);
      v := ShiftSwap(v, f, 0x8f1bbcdc, temp[round], round);
      round := round + 1;
    }
    while round < 80
      invariant 60 <= round <= 80 && Scheduled(temp[..], m, round)
      invariant v == Rounds(h, m, round)
    {
      ExtendSchedule(temp, round, m);
      var f := Exclusive(v.b, v.c, v.d);
      v := ShiftSwap(v, f, 0xca62c1d6, temp[round], round);
      round := round + 1;
    }
  }

  method Accumulate(sha: array<Word>, v: Vars)
    requires sha.Length == 5
    modifies sha
    ensures VarsOf(sha[..]) == Add(old(VarsOf(sha[..])), v)
  {
    sha[0] := Plus(sha[0], v.a);
    sha[1] := Plus(sha[1], v.b);
    sha[2] := Plus(sha[2], v.c);
    sha[3] := Plus(sha[3], v.d);
    sha[4] := Plus(sha[4], v.e);
  }

  method PartHash(sha: array<Word>, temp: array<Word>)
    requires sha.Length == 5 && temp.Length == 80 && sha != temp
    modifies sha, temp
    ensures VarsOf(sha[..]) == Compress(old(VarsOf(sha[..])), old(temp[..16]))
  {
    var v := AllRounds(Vars(sha[0], sha[1], sha[2], sha[3], sha[4]), temp);
    Accumulate(sha, v);
  }

  // Sets the words 0..15 to zero.
  method ClearBlock(temp: array<Word>)
    requires temp.Length == 80
    modifies temp
    ensures temp[..16] == Parse(Zeros(64))
  {
    for i := 0 to 16
      invariant forall j :: 0 <= j < i ==> temp[j] == 0
    {
      temp[i] := 0;
    }
    assert BytesWord(0, 0, 0, 0) == 0;
  }

  method LoadBlock(data: array<Byte>, start: nat, temp: array<Word>)
    requires temp.Length == 80 && start + 64 <= data.Length
    modifies temp
    ensures temp[..16] == Parse(data[start..start + 64])
  {
    ghost var words := Parse(data[start..start + 64]);
    var block, end := start, start + 64;
    var i := 0;
    while block < end
      invariant block == start + 4 * i && i <= 16
      invariant forall j :: 0 <= j < i ==> temp[j] == words[j]
    {
      var word := ReadWord(data[block], data[block + 1], data[block + 2], data[block + 3]);
      temp[i] := word;
      i := i + 1;
      block := block + 4;
    }
  }

  method ReadWord(b0: Byte, b1: Byte, b2: Byte, b3: Byte) returns (w: Word)
    ensures w == BytesWord(b0, b1, b2, b3)
  {
    w := b3 as Word | (b2 as Word << 8) | (b1 as Word << 16) | (b0 as Word << 24);
  }

  lemma OrFirst(w: Word, b: Byte)
    requires w == BytesWord(0, 0, 0, 0)
    ensures w | (b as Word << 24) == BytesWord(b, 0, 0, 0)
  {
  }

  lemma OrSecond(w: Word, b0: Byte, b: Byte)
    requires w == BytesWord(b0, 0, 0, 0)
    ensures w | (b as Word << 16) == BytesWord(b0, b, 0, 0)
  {
  }

  lemma OrThird(w: Word, b0: Byte, b1: Byte, b: Byte)
    requires w == BytesWord(b0, b1, 0, 0)
    ensures w | (b as Word << 8) == BytesWord(b0, b1, b, 0)
  {
  }

  lemma OrFourth(w: Word, b0: Byte, b1: Byte, b2: Byte, b: Byte)
    requires w == BytesWord(b0, b1, b2, 0)
    ensures w | (b as Word << 0) == BytesWord(b0, b1, b2, b)
  {
  }

  // A block that starts with these bytes and is zero after them.
  function Partial(bytes: seq<Byte>): (r: seq<Byte>)
    requires |bytes| <= 64
    ensures |r| == 64
  {
    bytes + Zeros(64 - |bytes|)
  }

  function QuadWord(q: seq<Byte>): Word
    requires |q| == 4
  {
    BytesWord(q[0], q[1], q[2], q[3])
  }

  method OrByte(w: Word, k: nat, b: Byte, ghost q: seq<Byte>) returns (r: Word)
    requires k < 4 && |q| == 4 && w == QuadWord(q)
    requires forall j :: k <= j < 4 ==> q[j] == 0
    ensures r == QuadWord(q[k := b])
  {
    if k == 0 {
      OrFirst(w, b);
      r := w | (b as Word << 24);
    } else if k == 1 {
      OrSecond(w, q[0], b);
      r := w | (b as Word << 16);
    } else if k == 2 {
      OrThird(w, q[0], q[1], b);
      r := w | (b as Word << 8);
    } else {
      OrFourth(w, q[0], q[1], q[2], b);
      r := w | (b as Word << 0);
    }
  }

  function Quad(block: seq<Byte>, k: nat): (r: seq<Byte>)
    requires |block| == 64 && k < 16
    ensures |r| == 4
  {
    block[4 * k..4 * k + 4]
  }

  lemma ParsedAt(block: seq<Byte>, k: nat)
    requires |block| == 64 && k < 16
    ensures Parse(block)[k] == QuadWord(Quad(block, k))
  {
  }

  lemma AddedQuad(bytes: seq<Byte>, b: Byte, k: nat)
    requires |bytes| < 64 && k < 16
    ensures Quad(Partial(bytes + [b]), k) ==
      if k == |bytes| / 4 then Quad(Partial(bytes), k)[|bytes| % 4 := b] else Quad(Partial(bytes), k)
  {
    assert Partial(bytes + [b]) == Partial(bytes)[|bytes| := b];
  }

  // The next byte of a partial block is added by OR-ing it into its word.
  method AddByte(temp: array<Word>, last: nat, b: Byte, ghost bytes: seq<Byte>)
    requires temp.Length == 80 && last == |bytes| < 64
    requires temp[..16] == Parse(Partial(bytes))
    modifies temp
    ensures temp[..16] == Parse(Partial(bytes + [b]))
  {
    ghost var before, after := Partial(bytes), Partial(bytes + [b]);
    ghost var words := temp[..16];
    var k := last / 4;
    ParsedAt(before, k);
    assert temp[k] == words[k];
    var word := OrByte(temp[k], last % 4, b, Quad(before, k));
    temp[k] := word;
    forall i | 0 <= i < 16
      ensures temp[i] == Parse(after)[i]
    {
      AddedQuad(bytes, b, i);
      ParsedAt(after, i);
      ParsedAt(before, i);
      assert i != k ==> temp[i] == words[i];
    }
  }

  // The tail of the buffer and the one bit after it.
  method LoadTail(data: array<Byte>, block: nat, temp: array<Word>)
    requires temp.Length == 80 && block <= data.Length < block + 64
    modifies temp
    ensures temp[..16] == Parse(Partial(data[block..] + [0x80]))
  {
    ghost var tail := data[block..];
    ClearBlock(temp);
    var end := data.Length - block;
    var last := 0;
    assert Partial([]) == Zeros(64);
    while last < end
      invariant last <= end && data[block..] == tail
      invariant temp[..16] == Parse(Partial(tail[..last]))
    {
      assert tail[..last + 1] == tail[..last] + [data[block + last]];
      AddByte(temp, last, data[block + last], tail[..last]);
      last := last + 1;
    }
    assert tail[..last] == tail;
    AddByte(temp, last, 0x80, tail);
  }

  lemma WordBytesWord(w: Word)
    ensures QuadWord(WordBytes(w)) == w
  {
  }

  // Byte i of the digest.
  method DigestByte(w: Word, i: nat) returns (b: Byte)
    requires i < 20
    ensures b == WordBytes(w)[i % 4]
  {
    // (3 - i) & 3 in two's complement
    var shift := (3 - i) % 4 * 8;
    if i % 4 == 0 {
      assert shift == 24;
      b := ((w >> 24) & 0xFF) as Byte;
    } else if i % 4 == 1 {
      assert shift == 16;
      b := ((w >> 16) & 0xFF) as Byte;
    } else if i % 4 == 2 {
      assert shift == 8;
      b := ((w >> 8) & 0xFF) as Byte;
    } else {
      assert shift == 0;
      b := (w & 0xFF) as Byte;
    }
  }

  lemma FiveQuads(q: seq<seq<Byte>>, i: nat)
    requires |q| == 5 && i < 20
    requires forall j :: 0 <= j < 5 ==> |q[j]| == 4
    ensures (q[0] + q[1] + q[2] + q[3] + q[4])[i] == q[i / 4][i % 4]
  {
  }

  lemma OutputAt(s: seq<Word>, i: nat)
    requires |s| == 5 && i < 20
    ensures Output(VarsOf(s))[i] == WordBytes(s[i / 4])[i % 4]
  {
    var q := [WordBytes(s[0]), WordBytes(s[1]), WordBytes(s[2]), WordBytes(s[3]), WordBytes(s[4])];
    FiveQuads(q, i);
  }

  method ByteAt(sha: array<Word>, i: nat, ghost digest: seq<Byte>) returns (b: Byte)
    requires sha.Length == 5 && i < 20 && digest == Output(VarsOf(sha[..]))
    ensures b == digest[i]
  {
    b := DigestByte(sha[i / 4], i);
    OutputAt(sha[..], i);
  }

  method WriteDigest(sha: array<Word>, dest: array<Byte>)
    requires sha.Length == 5 && dest.Length == 20
    modifies dest
    ensures dest[..] == Output(VarsOf(sha[..]))
  {
    ghost var digest := Output(VarsOf(sha[..]));
    var i := 19;
    while i >= 0
      invariant -1 <= i <= 19 && Output(VarsOf(sha[..])) == digest
      invariant forall j :: i < j < 20 ==> dest[j] == digest[j]
    {
      var b := ByteAt(sha, i, digest);
      dest[i] := b;
      i := i - 1;
    }
  }

  // The last block: the bytes left, zeros and the low word of the length.
  function LastBlock(bytes: seq<Byte>, size: seq<Byte>): (r: seq<Byte>)
    requires |bytes| <= 60 && |size| == 4
    ensures |r| == 64
  {
    bytes + Zeros(60 - |bytes|) + size
  }

  // The last word of a block holds the bit length.
  method SetLength(temp: array<Word>, length: nat, ghost bytes: seq<Byte>)
    requires temp.Length == 80 && |bytes| <= 60
    requires temp[..16] == Parse(Partial(bytes))
    modifies temp
    ensures temp[..16] == Parse(LastBlock(bytes, LengthWord(length)))
  {
    var w := LowWord(8 * length);
    ghost var words := temp[..16];
    temp[15] := w;
    WordBytesWord(w);
    ghost var before := Partial(bytes);
    ghost var after := LastBlock(bytes, LengthWord(length));
    forall i | 0 <= i < 16
      ensures temp[i] == Parse(after)[i]
    {
      ParsedAt(after, i);
      ParsedAt(before, i);
      if i == 15 {
        assert Quad(after, i) == WordBytes(w);
      } else {
        assert temp[i] == words[i];
        assert Quad(after, i) == Quad(before, i);
      }
    }
  }

  // The hash of what is left after the whole blocks: one more block, or two when the length has no room.
  function TailHash(h: Vars, tail: seq<Byte>, size: seq<Byte>): Vars
    requires |tail| < 64 && |size| == 4
  {
    if |tail| < 56 then
      Compress(h, Parse(LastBlock(tail + [0x80], size)))
    else
      Compress(Compress(h, Parse(Partial(tail + [0x80]))), Parse(LastBlock([], size)))
  }

  lemma NextBlock(h: Vars, msg: seq<Byte>, block: nat)
    requires block % 64 == 0 && block + 64 <= |msg|
    ensures HashBlocks(h, msg[..block + 64])
         == Compress(HashBlocks(h, msg[..block]), Parse(msg[block..block + 64]))
  {
    assert msg[..block + 64] == msg[..block] + msg[block..block + 64];
    HashBlocksAppend(h, msg[..block], msg[block..block + 64]);
    HashOneBlock(HashBlocks(h, msg[..block]), msg[block..block + 64]);
  }

  lemma TailIsPadded(tail: seq<Byte>, size: seq<Byte>)
    requires |tail| < 64 && |size| == 4
    ensures |tail| < 56 ==> PadWith(tail, size) == LastBlock(tail + [0x80], size)
    ensures |tail| >= 56 ==> PadWith(tail, size) == Partial(tail + [0x80]) + LastBlock([], size)
  {
    if |tail| < 56 {
      assert ZeroCount(|tail|) + 4 == 59 - |tail|;
    } else {
      assert ZeroCount(|tail|) + 4 == 123 - |tail|;
      assert Zeros(123 - |tail|) == Zeros(63 - |tail|) + Zeros(60);
    }
  }

  lemma TailHashed(h: Vars, tail: seq<Byte>, size: seq<Byte>)
    requires |tail| < 64 && |size| == 4
    ensures TailHash(h, tail, size) == HashBlocks(h, PadWith(tail, size))
  {
    TailIsPadded(tail, size);
    if |tail| < 56 {
      HashOneBlock(h, PadWith(tail, size));
    } else {
      var x := Partial(tail + [0x80]);
      HashBlocksAppend(h, x, LastBlock([], size));
      HashOneBlock(h, x);
      HashOneBlock(HashBlocks(h, x), LastBlock([], size));
    }
  }

  lemma PadTail(msg: seq<Byte>, block: nat, size: seq<Byte>)
    requires block % 64 == 0 && block <= |msg| < block + 64 && |size| == 4
    ensures PadWith(msg, size) == msg[..block] + PadWith(msg[block..], size)
  {
    assert |msg[block..]| == |msg| % 64;
    assert ZeroCount(|msg|) == ZeroCount(|msg[block..]|);
    assert msg == msg[..block] + msg[block..];
  }

  lemma HashTail(h: Vars, msg: seq<Byte>, block: nat, size: seq<Byte>)
    requires block % 64 == 0 && block <= |msg| < block + 64 && |size| == 4
    ensures TailHash(HashBlocks(h, msg[..block]), msg[block..], size) == HashBlocks(h, PadWith(msg, size))
  {
    var tail := msg[block..];
    TailHashed(HashBlocks(h, msg[..block]), tail, size);
    PadTail(msg, block, size);
    HashBlocksAppend(h, msg[..block], PadWith(tail, size));
  }

  lemma WordBytesZero(w: Word)
    ensures WordBytes(w) == Zeros(4) <==> w == 0
  {
    assert w == 0 ==> WordBytes(w) == [0, 0, 0, 0];
    assert Zeros(4) == [0, 0, 0, 0];
    if WordBytes(w) == Zeros(4) {
      WordBytesWord(w);
      assert WordBytes(w)[0] == 0 && WordBytes(w)[1] == 0 && WordBytes(w)[2] == 0 && WordBytes(w)[3] == 0;
      assert BytesWord(0, 0, 0, 0) == 0;
    }
  }

  lemma SplitPad(msg: seq<Byte>, high: seq<Byte>, low: seq<Byte>)
    requires |high| == 4 && |low| == 4
    ensures PadWith(msg, low) == msg + [0x80] + Zeros(ZeroCount(|msg|)) + (high + low) <==> high == Zeros(4)
  {
    var zeros := Zeros(ZeroCount(|msg|));
    var front := msg + [0x80] + zeros;
    assert Zeros(ZeroCount(|msg|) + 4) == zeros + Zeros(4);
    assert PadWith(msg, low) == front + Zeros(4) + low;
    assert (front + (high + low))[|front|..|front| + 4] == high;
    assert (front + Zeros(4) + low)[|front|..|front| + 4] == Zeros(4);
  }

  lemma LowWordZero(n: nat)
    ensures LowWord(n) == 0 <==> n % TWO32 == 0
  {
  }

  lemma HighBitsZero(length: nat)
    requires length < LENGTH_LIMIT
    ensures 8 * length / TWO32 % TWO32 == 0 <==> length < TWO29
  {
  }

  // The two words of the length; the packer writes the low one only.
  lemma LengthWords(length: nat) returns (high: seq<Byte>)
    requires length < LENGTH_LIMIT
    ensures |high| == 4 && (high == Zeros(4) <==> length < TWO29)
    ensures LengthBytes(8 * length) == high + LengthWord(length)
  {
    high := WordBytes(LowWord(8 * length / TWO32));
    WordBytesZero(LowWord(8 * length / TWO32));
    LowWordZero(8 * length / TWO32);
    HighBitsZero(length);
  }

  // The packer's padding is the standard's exactly for messages of fewer than 2^29 bytes.
  lemma PackerPadIsPad(msg: seq<Byte>)
    requires |msg| < LENGTH_LIMIT
    ensures PackerPad(msg) == Pad(msg) <==> |msg| < TWO29
  {
    var high := LengthWords(|msg|);
    SplitPad(msg, high, LengthWord(|msg|));
  }

  // Whether the 32-bit guard of the block loop is false after some number of whole blocks.
  ghost predicate GuardFalseAt(k: nat, length: nat) {
    64 * k <= length && (64 * k + 64) % TWO32 > length
  }

  // The block loop ends exactly for lengths below the limit.
  lemma BlockLoopEnds(length: nat)
    requires length < TWO32
    ensures (exists k: nat :: GuardFalseAt(k, length)) <==> length < LENGTH_LIMIT
  {
    if length < LENGTH_LIMIT {
      assert GuardFalseAt(length / 64, length);
    } else {
      forall k: nat
        ensures !GuardFalseAt(k, length)
      {
        if 64 * k <= length {
          if 64 * k + 64 < TWO32 {
            assert 64 * k + 64 <= LENGTH_LIMIT;
          } else {
            assert 64 * k == LENGTH_LIMIT;
          }
        }
      }
    }
  }

  // One turn of the block loop.
  method HashBlock(data: array<Byte>, block: nat, sha: array<Word>, temp: array<Word>,
      ghost h: Vars, ghost msg: seq<Byte>)
    requires msg == data[..] && block % 64 == 0 && block + 64 <= |msg|
    requires sha.Length == 5 && temp.Length == 80 && sha != temp
    requires VarsOf(sha[..]) == HashBlocks(h, msg[..block])
    modifies sha, temp
    ensures VarsOf(sha[..]) == HashBlocks(h, msg[..block + 64])
  {
    assert msg[block..block + 64] == data[block..block + 64];
    LoadBlock(data, block, temp);
    PartHash(sha, temp);
    NextBlock(h, msg, block);
  }

  // Hashes the whole blocks; the uint32 sum of the guard wraps.
  method HashWholeBlocks(data: array<Byte>, sha: array<Word>, temp: array<Word>) returns (block: nat)
    requires data.Length < LENGTH_LIMIT && sha.Length == 5 && temp.Length == 80 && sha != temp
    modifies sha, temp
    ensures block % 64 == 0 && block <= data.Length < block + 64
    ensures VarsOf(sha[..]) == HashBlocks(old(VarsOf(sha[..])), data[..block])
  {
    ghost var h, msg := VarsOf(sha[..]), data[..];
    var len := data.Length;
    block := 0;
    while (block + 64) % TWO32 <= len
      invariant block % 64 == 0 && block <= len && data[..] == msg
      invariant VarsOf(sha[..]) == HashBlocks(h, msg[..block])
      decreases len - block
    {
      HashBlock(data, block, sha, temp, h, msg);
      block := block + 64;
    }
    assert data[..block] == msg[..block];
  }

  method HashTailBlocks(data: array<Byte>, block: nat, sha: array<Word>, temp: array<Word>)
    requires block <= data.Length < block + 64 && sha.Length == 5 && temp.Length == 80 && sha != temp
    modifies sha, temp
    ensures VarsOf(sha[..]) == TailHash(old(VarsOf(sha[..])), data[block..], LengthWord(data.Length))
  {
    var end := data.Length - block;
    LoadTail(data, block, temp);
    if end >= 56 {
      PartHash(sha, temp);
      ClearBlock(temp);
      assert Partial([]) == Zeros(64);
      SetLength(temp, data.Length, []);
    } else {
      SetLength(temp, data.Length, data[block..] + [0x80]);
    }
    PartHash(sha, temp);
  }

  method HashSha1(data: array<Byte>, dest: array<Byte>)
    requires data.Length < LENGTH_LIMIT && dest.Length == 20
    modifies dest
    ensures dest[..] == Output(HashBlocks(INITIAL, PackerPad(old(data[..]))))
    ensures data.Length < TWO29 ==> dest[..] == Digest(old(data[..]))
  {
    ghost var msg := data[..];
    var temp := new Word[80];
    var sha := new Word[5];
    sha[0], sha[1], sha[2], sha[3], sha[4] := 0x67452301, 0xefcdab89, 0x98badcfe, 0x10325476, 0xc3d2e1f0;
    var block := HashWholeBlocks(data, sha, temp);
    HashTailBlocks(data, block, sha, temp);
    assert data[..block] == msg[..block] && data[block..] == msg[block..];
    HashTail(INITIAL, msg, block, LengthWord(|msg|));
    WriteDigest(sha, dest);
    if |msg| < TWO29 {
      PackerPadIsPad(msg);
    }
  }
}
