/** SHA-1 as FIPS 180-4 defines it, on messages of whole bytes. */
module Fips180 {

  type Word = bv32
  type Byte = bv8
  type Block = w: seq<Word> | |w| == 16 witness seq(16, i => 0)

  datatype Vars = Vars(a: Word, b: Word, c: Word, d: Word, e: Word)

  const TWO29: nat := 0x2000_0000
  const TWO32: nat := 0x1_0000_0000
  const TWO61: nat := 0x2000_0000_0000_0000

  // Section 3.2, operation 5.
  function Rotl(x: Word, n: Word): Word
    requires n <= 32
  {
    (x << n) | (x >> (32 - n))
  }

  // Section 2.2.2: addition modulo 2^32.
  function Plus(x: Word, y: Word): Word {
    x + y
  }

  // Section 4.1.1.
  function Ch(x: Word, y: Word, z: Word): Word {
    (x & y) ^ (!x & z)
  }

  function Parity(x: Word, y: Word, z: Word): Word {
    x ^ y ^ z
  }

  function Maj(x: Word, y: Word, z: Word): Word {
    (x & y) ^ (x & z) ^ (y & z)
  }

  function F(t: nat, x: Word, y: Word, z: Word): Word {
    if t < 20 then Ch(x, y, z)
    else if t < 40 then Parity(x, y, z)
    else if t < 60 then Maj(x, y, z)
    else Parity(x, y, z)
  }

  // Section 4.2.1.
  function K(t: nat): Word {
    if t < 20 then 0x5a827999
    else if t < 40 then 0x6ed9eba1
    else if t < 60 then 0x8f1bbcdc
    else 0xca62c1d6
  }

  // Section 5.3.1.
  const INITIAL: Vars := Vars(0x67452301, 0xefcdab89, 0x98badcfe, 0x10325476, 0xc3d2e1f0)

  // Section 6.1.2, step 1: word t of the message schedule of block m.
  function W(m: Block, t: nat): Word {
    if t < 16 then m[t]
    else Rotl(W(m, t - 3) ^ W(m, t - 8) ^ W(m, t - 14) ^ W(m, t - 16), 1)
  }

  // Section 6.1.2, step 3, one round.
  function T(rotated: Word, f: Word, e: Word, k: Word, w: Word): Word {
    Plus(Plus(Plus(Plus(rotated, f), e), k), w)
  }

  function Mix(v: Vars, f: Word, k: Word, w: Word): Vars {
    Vars(T(Rotl(v.a, 5), f, v.e, k, w), v.a, Rotl(v.b, 30), v.c, v.d)
  }

  function Round(v: Vars, t: nat, w: Word): Vars {
    Mix(v, F(t, v.b, v.c, v.d), K(t), w)
  }

  // The first t rounds.
  function Rounds(h: Vars, m: Block, t: nat): Vars {
    if t == 0 then h else Round(Rounds(h, m, t - 1), t - 1, W(m, t - 1))
  }

  function Add(h: Vars, v: Vars): Vars {
    Vars(Plus(h.a, v.a), Plus(h.b, v.b), Plus(h.c, v.c), Plus(h.d, v.d), Plus(h.e, v.e))
  }

  // Section 6.1.2, steps 2 to 4: one block, in 80 rounds (16 for its words, 64 for the extension).
  function Compress(h: Vars, m: Block): Vars {
    Add(h, Rounds(h, m, |m| + 64))
  }

  function BytesWord(b0: Byte, b1: Byte, b2: Byte, b3: Byte): Word {
    (b0 as Word << 24) | (b1 as Word << 16) | (b2 as Word << 8) | b3 as Word
  }

  function WordBytes(w: Word): seq<Byte> {
    [((w >> 24) & 0xFF) as Byte, ((w >> 16) & 0xFF) as Byte, ((w >> 8) & 0xFF) as Byte, (w & 0xFF) as Byte]
  }

  // The first byte is the highest one of the word, both ways.
  lemma FirstByteHighest(b0: Byte, b1: Byte, b2: Byte, b3: Byte)
    ensures var w := BytesWord(b0, b1, b2, b3);
      && w >> 24 == b0 as Word && (w >> 16) & 0xFF == b1 as Word
      && (w >> 8) & 0xFF == b2 as Word && w & 0xFF == b3 as Word
      && WordBytes(w) == [b0, b1, b2, b3]
  {
  }

  // Section 5.2.1: 64 bytes as 16 big-endian words.
  function Parse(bytes: seq<Byte>): Block
    requires |bytes| == 64
  {
    seq(16, i requires 0 <= i < 16 =>
      BytesWord(bytes[4 * i], bytes[4 * i + 1], bytes[4 * i + 2], bytes[4 * i + 3]))
  }

  // Section 5.1.1: the number of zero bytes, the smallest that fills a block.
  function ZeroCount(length: nat): nat {
    (119 - length % 64) % 64
  }

  // The zero bytes, the one bit's byte and the length fill the last block.
  lemma ZerosFill(length: nat)
    ensures (length + 1 + ZeroCount(length) + 8) % 64 == 0
  {
    var q, m := length / 64, length % 64;
    assert length == 64 * q + m;
    assert ZeroCount(length) == if m <= 55 then 55 - m else 119 - m;
    assert length + 1 + ZeroCount(length) + 8 == 64 * (if m <= 55 then q + 1 else q + 2);
  }

  function LowWord(n: nat): Word {
    (n % TWO32) as Word
  }

  // The bit length as 64 bits, most significant first.
  function LengthBytes(bits: nat): (r: seq<Byte>)
    ensures |r| == 8
  {
    WordBytes(LowWord(bits / TWO32)) + WordBytes(LowWord(bits))
  }

  function Zeros(n: nat): (r: seq<Byte>)
    ensures |r| == n
  {
    seq(n, i => 0)
  }

  // Section 5.1.1: one bit, zero bits, the length in bits.
  function Pad(msg: seq<Byte>): (r: seq<Byte>)
    ensures |r| % 64 == 0
  {
    ZerosFill(|msg|);
    msg + [0x80] + Zeros(ZeroCount(|msg|)) + LengthBytes(8 * |msg|)
  }

  // Section 6.1.2: the intermediate hash value after all blocks.
  function HashBlocks(h: Vars, bytes: seq<Byte>): Vars
    requires |bytes| % 64 == 0
    decreases |bytes|
  {
    if bytes == [] then h else HashBlocks(Compress(h, Parse(bytes[..64])), bytes[64..])
  }

  function Output(h: Vars): (r: seq<Byte>)
    ensures |r| == 20
  {
    WordBytes(h.a) + WordBytes(h.b) + WordBytes(h.c) + WordBytes(h.d) + WordBytes(h.e)
  }

  // The standard defines SHA-1 for messages of fewer than 2^64 bits.
  function Digest(msg: seq<Byte>): seq<Byte>
    requires |msg| < TWO61
  {
    Output(HashBlocks(INITIAL, Pad(msg)))
  }

  lemma {:induction false} HashBlocksAppend(h: Vars, x: seq<Byte>, y: seq<Byte>)
    requires |x| % 64 == 0 && |y| % 64 == 0
    ensures HashBlocks(h, x + y) == HashBlocks(HashBlocks(h, x), y)
    decreases |x|
  {
    if x == [] {
      assert x + y == y;
    } else {
      assert (x + y)[..64] == x[..64] && (x + y)[64..] == x[64..] + y;
      HashBlocksAppend(Compress(h, Parse(x[..64])), x[64..], y);
    }
  }

  lemma HashOneBlock(h: Vars, block: seq<Byte>)
    requires |block| == 64
    ensures HashBlocks(h, block) == Compress(h, Parse(block))
  {
    assert block[..64] == block && block[64..] == [];
  }
}
