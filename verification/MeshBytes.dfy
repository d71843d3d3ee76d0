/** The binary layout of a mesh: big-endian 32-bit words. */
module MeshBytes {

  type Byte = x: int | 0 <= x < 256

  // A 32-bit float is kept as its bits.
  type Word = x: int | 0 <= x < 0x1_0000_0000

  // An index of a position, a texture coordinate and a normal.
  datatype Corner = Corner(position: int, uv: int, normal: int)

  datatype Mesh = Mesh(positions: seq<Word>, uvs: seq<Word>, normals: seq<Word>, corners: seq<Corner>)

  const TWO_31: int := 0x8000_0000

  predicate IsInt32(i: int) {
    -TWO_31 <= i < TWO_31
  }

  predicate CornerFits(c: Corner) {
    IsInt32(c.position) && IsInt32(c.uv) && IsInt32(c.normal)
  }

  predicate AllFit(corners: seq<Corner>) {
    forall c <- corners :: CornerFits(c)
  }

  // Everything that is packed as a signed 32-bit integer is one.
  predicate Fits(m: Mesh) {
    && |m.positions| < TWO_31 && |m.uvs| < TWO_31 && |m.normals| < TWO_31 && |m.corners| < TWO_31
    && AllFit(m.corners)
  }

  // ---- packing ----

  // The last bytes of a number, the most significant one first.
  function ToBytes(value: nat, n: nat): (r: seq<Byte>)
    ensures |r| == n
    decreases n
  {
    if n == 0 then [] else ToBytes(value / 256, n - 1) + [value % 256]
  }

  const WORD_SIZE: nat := 4

  function PackWord(w: Word): seq<Byte> {
    ToBytes(w, WORD_SIZE)
  }

  function PackInt(i: int): seq<Byte>
    requires IsInt32(i)
  {
    PackWord(if i < 0 then i + 2 * TWO_31 else i)
  }

  function PackWords(words: seq<Word>): seq<Byte> {
    if words == [] then [] else PackWord(words[0]) + PackWords(words[1..])
  }

  function PackCorner(c: Corner): seq<Byte>
    requires CornerFits(c)
  {
    PackInt(c.position) + PackInt(c.uv) + PackInt(c.normal)
  }

  function PackCorners(corners: seq<Corner>): seq<Byte>
    requires AllFit(corners)
  {
    if corners == [] then [] else PackCorner(corners[0]) + PackCorners(corners[1..])
  }

  function PackCounted(words: seq<Word>): seq<Byte>
    requires |words| < TWO_31
  {
    PackInt(|words|) + PackWords(words)
  }

  function Layout(m: Mesh): seq<Byte>
    requires Fits(m)
  {
    PackCounted(m.positions) + (PackCounted(m.uvs) + (PackCounted(m.normals)
      + (PackInt(|m.corners|) + PackCorners(m.corners))))
  }

  // ---- unpacking ----

  datatype Read<T> = Short | Got(value: T, rest: seq<Byte>)

  function BigEndian(bytes: seq<Byte>): nat {
    if bytes == [] then 0 else 256 * BigEndian(bytes[..|bytes| - 1]) + bytes[|bytes| - 1]
  }

  function Power(n: nat): nat {
    if n == 0 then 1 else 256 * Power(n - 1)
  }

  lemma LastByte(front: nat, last: Byte, power: nat)
    requires front < power
    ensures (256 * front + last) / 256 == front && (256 * front + last) % 256 == last
    ensures 256 * front + last < 256 * power
  {
  }

  predicate ReadsBack(bytes: seq<Byte>) {
    BigEndian(bytes) < Power(|bytes|) && ToBytes(BigEndian(bytes), |bytes|) == bytes
  }

  lemma BigEndianLast(front: seq<Byte>, last: Byte)
    ensures BigEndian(front + [last]) == 256 * BigEndian(front) + last
  {
    assert (front + [last])[..|front|] == front;
  }

  lemma ByteMore(front: seq<Byte>, last: Byte)
    requires ReadsBack(front)
    ensures ReadsBack(front + [last])
  {
    BigEndianLast(front, last);
    LastByte(BigEndian(front), last, Power(|front|));
    assert ToBytes(256 * BigEndian(front) + last, |front| + 1) == ToBytes(BigEndian(front), |front|) + [last];
  }

  lemma {:induction false} BytesBack(bytes: seq<Byte>)
    ensures ReadsBack(bytes)
    decreases |bytes|
  {
    if bytes != [] {
      var front, last := bytes[..|bytes| - 1], bytes[|bytes| - 1];
      BytesBack(front);
      ByteMore(front, last);
      assert bytes == front + [last];
    }
  }

  lemma {:induction false} ValueBack(value: nat, n: nat)
    requires value < Power(n)
    ensures BigEndian(ToBytes(value, n)) == value
    decreases n
  {
    if n > 0 {
      ValueBack(value / 256, n - 1);
      assert ToBytes(value, n)[..n - 1] == ToBytes(value / 256, n - 1);
    }
  }

  lemma WordPower()
    ensures Power(WORD_SIZE) == 0x1_0000_0000
  {
    assert Power(1) == 0x100;
    assert Power(2) == 0x1_0000;
  }

  function ReadWord(bytes: seq<Byte>): Read<Word> {
    if |bytes| < WORD_SIZE then Short
    else
      BytesBack(bytes[..WORD_SIZE]);
      WordPower();
      Got(BigEndian(bytes[..WORD_SIZE]), bytes[WORD_SIZE..])
  }

  function Signed(w: Word): int {
    if w >= TWO_31 then w - 2 * TWO_31 else w
  }

  function ReadInt(bytes: seq<Byte>): Read<int> {
    match ReadWord(bytes)
    case Short => Short
    case Got(w, rest) => Got(Signed(w), rest)
  }

  function ReadWords(bytes: seq<Byte>, count: nat): Read<seq<Word>>
    decreases count
  {
    if count == 0 then Got([], bytes)
    else
      match ReadWord(bytes)
      case Short => Short
      case Got(w, rest) =>
        match ReadWords(rest, count - 1)
        case Short => Short
        case Got(words, rest2) => Got([w] + words, rest2)
  }

  // A negative count of floats is a format that cannot be unpacked.
  function ReadCounted(bytes: seq<Byte>): Read<seq<Word>> {
    match ReadInt(bytes)
    case Short => Short
    case Got(count, rest) => if count < 0 then Short else ReadWords(rest, count)
  }

  function ReadCorner(bytes: seq<Byte>): Read<Corner> {
    match ReadInt(bytes)
    case Short => Short
    case Got(position, rest) =>
      match ReadInt(rest)
      case Short => Short
      case Got(uv, rest2) =>
        match ReadInt(rest2)
        case Short => Short
        case Got(normal, rest3) => Got(Corner(position, uv, normal), rest3)
  }

  lemma {:induction false} WordsLength(bytes: seq<Byte>, count: nat)
    ensures var r := ReadWords(bytes, count); r.Got? ==> |r.value| == count && |r.rest| == |bytes| - 4 * count
    ensures ReadWords(bytes, count).Got? <==> |bytes| >= 4 * count
    decreases count
  {
    if count > 0 && |bytes| >= 4 {
      WordsLength(bytes[4..], count - 1);
    }
  }

  function ReadCorners(bytes: seq<Byte>, count: nat): Read<seq<Corner>>
    decreases count
  {
    if count == 0 then Got([], bytes)
    else
      match ReadCorner(bytes)
      case Short => Short
      case Got(c, rest) =>
        match ReadCorners(rest, count - 1)
        case Short => Short
        case Got(corners, rest2) => Got([c] + corners, rest2)
  }

  datatype Unpacked = StructError | Mismatch | Unpacked(mesh: Mesh)

  // A negative number of corners leaves the reader before the end of the file.
  function UnpackCorners(bytes: seq<Byte>, positions: seq<Word>, uvs: seq<Word>, normals: seq<Word>): Unpacked {
    match ReadInt(bytes)
    case Short => StructError
    case Got(count, rest) =>
      if count < 0 then Mismatch
      else
        match ReadCorners(rest, count)
        case Short => StructError
        case Got(corners, rest2) =>
          if rest2 == [] then Unpacked(Mesh(positions, uvs, normals, corners)) else Mismatch
  }

  function Unpack(bytes: seq<Byte>): Unpacked {
    match ReadCounted(bytes)
    case Short => StructError
    case Got(positions, rest) =>
      match ReadCounted(rest)
      case Short => StructError
      case Got(uvs, rest2) =>
        match ReadCounted(rest2)
        case Short => StructError
        case Got(normals, rest3) => UnpackCorners(rest3, positions, uvs, normals)
  }

  // ---- unpacking is the inverse of packing ----

  lemma WordPacked(bytes: seq<Byte>, w: Word, rest: seq<Byte>)
    ensures ReadWord(bytes) == Got(w, rest) <==> bytes == PackWord(w) + rest
  {
    WordPower();
    ValueBack(w, WORD_SIZE);
    if bytes == PackWord(w) + rest {
      assert bytes[..WORD_SIZE] == PackWord(w) && bytes[WORD_SIZE..] == rest;
    }
    if ReadWord(bytes) == Got(w, rest) {
      BytesBack(bytes[..WORD_SIZE]);
      assert bytes == bytes[..WORD_SIZE] + bytes[WORD_SIZE..];
    }
  }

  lemma IntPacked(bytes: seq<Byte>, i: int, rest: seq<Byte>)
    ensures ReadInt(bytes) == Got(i, rest) <==> IsInt32(i) && bytes == PackInt(i) + rest
  {
    if IsInt32(i) {
      WordPacked(bytes, if i < 0 then i + 2 * TWO_31 else i, rest);
    }
    if ReadWord(bytes).Got? {
      WordPacked(bytes, ReadWord(bytes).value, ReadWord(bytes).rest);
    }
  }

  lemma {:induction false} WordsPacked(bytes: seq<Byte>, words: seq<Word>, rest: seq<Byte>)
    ensures ReadWords(bytes, |words|) == Got(words, rest) <==> bytes == PackWords(words) + rest
    decreases |words|
  {
    if words == [] {
      assert PackWords(words) + rest == rest;
    } else {
      var tail := PackWords(words[1..]) + rest;
      assert PackWords(words) + rest == PackWord(words[0]) + tail;
      WordPacked(bytes, words[0], tail);
      WordsPacked(tail, words[1..], rest);
      assert words == [words[0]] + words[1..];
      if ReadWords(bytes, |words|) == Got(words, rest) {
        var next := ReadWord(bytes).rest;
        assert ReadWords(next, |words| - 1) == Got(words[1..], rest);
        WordsPacked(next, words[1..], rest);
      }
    }
  }

  lemma CountedPacked(bytes: seq<Byte>, words: seq<Word>, rest: seq<Byte>)
    ensures ReadCounted(bytes) == Got(words, rest) <==> |words| < TWO_31 && bytes == PackCounted(words) + rest
  {
    if |words| < TWO_31 {
      assert PackCounted(words) + rest == PackInt(|words|) + (PackWords(words) + rest);
      IntPacked(bytes, |words|, PackWords(words) + rest);
      WordsPacked(PackWords(words) + rest, words, rest);
    }
    if ReadCounted(bytes) == Got(words, rest) {
      var count, next := ReadInt(bytes).value, ReadInt(bytes).rest;
      WordsLength(next, count);
      IntPacked(bytes, count, next);
      WordsPacked(next, words, rest);
    }
  }

  lemma CornerPacked(bytes: seq<Byte>, c: Corner, rest: seq<Byte>)
    ensures ReadCorner(bytes) == Got(c, rest) <==> CornerFits(c) && bytes == PackCorner(c) + rest
  {
    if CornerFits(c) {
      var last := PackInt(c.normal) + rest;
      var second := PackInt(c.uv) + last;
      assert PackCorner(c) + rest == PackInt(c.position) + second;
      IntPacked(bytes, c.position, second);
      IntPacked(second, c.uv, last);
      IntPacked(last, c.normal, rest);
    }
    if ReadCorner(bytes) == Got(c, rest) {
      var second := ReadInt(bytes).rest;
      var last := ReadInt(second).rest;
      IntPacked(bytes, c.position, second);
      IntPacked(second, c.uv, last);
      IntPacked(last, c.normal, rest);
    }
  }

  lemma FirstCorner(corners: seq<Corner>, rest: seq<Byte>)
    requires corners != []
    ensures AllFit(corners) <==> CornerFits(corners[0]) && AllFit(corners[1..])
    ensures AllFit(corners) ==>
      PackCorners(corners) + rest == PackCorner(corners[0]) + (PackCorners(corners[1..]) + rest)
  {
    assert corners == [corners[0]] + corners[1..];
  }

  lemma {:induction false} PackedIsRead(corners: seq<Corner>, rest: seq<Byte>)
    requires AllFit(corners)
    ensures ReadCorners(PackCorners(corners) + rest, |corners|) == Got(corners, rest)
  {
    if corners == [] {
      assert PackCorners(corners) + rest == rest;
    } else {
      FirstCorner(corners, rest);
      var tail := PackCorners(corners[1..]) + rest;
      CornerPacked(PackCorners(corners) + rest, corners[0], tail);
      PackedIsRead(corners[1..], rest);
      assert corners == [corners[0]] + corners[1..];
    }
  }

  lemma {:induction false} ReadIsPacked(bytes: seq<Byte>, corners: seq<Corner>, rest: seq<Byte>)
    requires ReadCorners(bytes, |corners|) == Got(corners, rest)
    ensures AllFit(corners) && bytes == PackCorners(corners) + rest
    decreases |corners|
  {
    if corners == [] {
      assert PackCorners(corners) + rest == rest;
    } else {
      var next := ReadCorner(bytes).rest;
      CornerPacked(bytes, corners[0], next);
      assert ReadCorners(next, |corners| - 1) == Got(corners[1..], rest);
      ReadIsPacked(next, corners[1..], rest);
      FirstCorner(corners, rest);
    }
  }

  lemma CornersPacked(bytes: seq<Byte>, corners: seq<Corner>, rest: seq<Byte>)
    ensures ReadCorners(bytes, |corners|) == Got(corners, rest)
      <==> AllFit(corners) && bytes == PackCorners(corners) + rest
  {
    if AllFit(corners) {
      PackedIsRead(corners, rest);
    }
    if ReadCorners(bytes, |corners|) == Got(corners, rest) {
      ReadIsPacked(bytes, corners, rest);
    }
  }

  lemma {:induction false} CornersLength(bytes: seq<Byte>, count: nat)
    ensures var r := ReadCorners(bytes, count); r.Got? ==> |r.value| == count
    decreases count
  {
    if count > 0 {
      match ReadCorner(bytes)
      case Short =>
      case Got(_, rest) => CornersLength(rest, count - 1);
    }
  }

  predicate ArePacked(bytes: seq<Byte>, corners: seq<Corner>) {
    && |corners| < TWO_31 && AllFit(corners)
    && bytes == PackInt(|corners|) + PackCorners(corners)
  }

  lemma CornersUnpacked(bytes: seq<Byte>, m: Mesh)
    ensures UnpackCorners(bytes, m.positions, m.uvs, m.normals) == Unpacked(m) <==> ArePacked(bytes, m.corners)
  {
    if |m.corners| < TWO_31 && AllFit(m.corners) {
      var packed := PackCorners(m.corners);
      IntPacked(bytes, |m.corners|, packed);
      assert packed + [] == packed;
      CornersPacked(packed, m.corners, []);
    }
    if UnpackCorners(bytes, m.positions, m.uvs, m.normals) == Unpacked(m) {
      var count, next := ReadInt(bytes).value, ReadInt(bytes).rest;
      CornersLength(next, count);
      IntPacked(bytes, count, next);
      CornersPacked(next, m.corners, []);
      assert PackCorners(m.corners) + [] == PackCorners(m.corners);
    }
  }

  // A file unpacks to a mesh exactly when it is the layout of that mesh.
  lemma UnpackedIsLayout(bytes: seq<Byte>, m: Mesh)
    ensures Unpack(bytes) == Unpacked(m) <==> Fits(m) && bytes == Layout(m)
  {
    if Fits(m) {
      var last := PackInt(|m.corners|) + PackCorners(m.corners);
      var third := PackCounted(m.normals) + last;
      var second := PackCounted(m.uvs) + third;
      CountedPacked(bytes, m.positions, second);
      CountedPacked(second, m.uvs, third);
      CountedPacked(third, m.normals, last);
      CornersUnpacked(last, m);
    }
    if Unpack(bytes) == Unpacked(m) {
      var second := ReadCounted(bytes).rest;
      var third := ReadCounted(second).rest;
      var last := ReadCounted(third).rest;
      CountedPacked(bytes, m.positions, second);
      CountedPacked(second, m.uvs, third);
      CountedPacked(third, m.normals, last);
      CornersUnpacked(last, m);
    }
  }
}
