/** What is where in the two forms of a mesh: the bytes of the file, and the lines of the text. */
module MeshLayout {
  import opened MeshBytes
  import opened MeshText
  import opened MeshObj

  // ---- the file ----

  // A word, its highest byte first.
  function Big(w: Word): (r: seq<Byte>)
    ensures |r| == 4
  {
    [w / 0x100_0000 % 256, w / 0x1_0000 % 256, w / 0x100 % 256, w % 256]
  }

  // A signed number as the word that has its bits.
  function BigInt(i: int): (r: seq<Byte>)
    requires IsInt32(i)
    ensures |r| == 4
  {
    Big(if i < 0 then i + 0x1_0000_0000 else i)
  }

  lemma Divided(w: Word)
    ensures w / 256 / 256 == w / 0x1_0000 && w / 256 / 256 / 256 == w / 0x100_0000
  {
  }

  lemma WordIsBig(w: Word)
    ensures PackWord(w) == Big(w)
  {
    Divided(w);
    var x, y := w / 256, w / 256 / 256;
    assert ToBytes(y, 2) == ToBytes(y / 256, 1) + [y % 256];
    assert ToBytes(x, 3) == ToBytes(y, 2) + [x % 256];
    assert ToBytes(w, 4) == ToBytes(x, 3) + [w % 256];
  }

  lemma IntIsBig(i: int)
    requires IsInt32(i)
    ensures PackInt(i) == BigInt(i)
  {
    WordIsBig(if i < 0 then i + 2 * TWO_31 else i);
  }

  // The bytes of words, one after another.
  function WordBytes(words: seq<Word>): seq<Byte> {
    seq(4 * |words|, k requires 0 <= k < 4 * |words| => Big(words[k / 4])[k % 4])
  }

  // The bytes of a corner: position, texture coordinate and normal.
  function CornerByte(c: Corner, k: nat): Byte
    requires CornerFits(c) && k < 12
  {
    BigInt(if k < 4 then c.position else if k < 8 then c.uv else c.normal)[k % 4]
  }

  function CornerBytes(corners: seq<Corner>): seq<Byte>
    requires AllFit(corners)
  {
    seq(12 * |corners|, k requires 0 <= k < 12 * |corners| => CornerByte(corners[k / 12], k % 12))
  }

  lemma FirstWord(words: seq<Word>)
    requires words != []
    ensures WordBytes(words) == Big(words[0]) + WordBytes(words[1..])
  {
    var all := Big(words[0]) + WordBytes(words[1..]);
    forall k | 0 <= k < 4 * |words|
      ensures WordBytes(words)[k] == all[k]
    {
      if k >= 4 {
        assert (k - 4) / 4 == k / 4 - 1 && (k - 4) % 4 == k % 4;
      }
    }
  }

  lemma {:induction false} WordsAre(words: seq<Word>)
    ensures PackWords(words) == WordBytes(words)
  {
    if words != [] {
      WordIsBig(words[0]);
      WordsAre(words[1..]);
      FirstWord(words);
    }
  }

  lemma OneCorner(c: Corner)
    requires CornerFits(c)
    ensures |PackCorner(c)| == 12 && forall k :: 0 <= k < 12 ==> PackCorner(c)[k] == CornerByte(c, k)
  {
    IntIsBig(c.position);
    IntIsBig(c.uv);
    IntIsBig(c.normal);
    ThreeQuads(PackInt(c.position), PackInt(c.uv), PackInt(c.normal));
  }

  lemma ThreeQuads(a: seq<Byte>, b: seq<Byte>, c: seq<Byte>)
    requires |a| == |b| == |c| == 4
    ensures forall k :: 0 <= k < 12 ==> (a + b + c)[k] == (if k < 4 then a else if k < 8 then b else c)[k % 4]
  {
    forall k | 0 <= k < 12
      ensures (a + b + c)[k] == (if k < 4 then a else if k < 8 then b else c)[k % 4]
    {
      assert k % 4 == if k < 4 then k else if k < 8 then k - 4 else k - 8;
    }
  }

  lemma FirstCornerBytes(corners: seq<Corner>)
    requires corners != [] && AllFit(corners)
    ensures AllFit(corners[1..]) && CornerBytes(corners) == PackCorner(corners[0]) + CornerBytes(corners[1..])
  {
    OneCorner(corners[0]);
    var all := PackCorner(corners[0]) + CornerBytes(corners[1..]);
    forall k | 0 <= k < 12 * |corners|
      ensures CornerBytes(corners)[k] == all[k]
    {
      if k >= 12 {
        assert (k - 12) / 12 == k / 12 - 1 && (k - 12) % 12 == k % 12;
      }
    }
  }

  lemma {:induction false} CornersAre(corners: seq<Corner>)
    requires AllFit(corners)
    ensures PackCorners(corners) == CornerBytes(corners)
  {
    if corners != [] {
      FirstCornerBytes(corners);
      CornersAre(corners[1..]);
    }
  }

  // The file: the numbers of positions, texture coordinates, normals and corners, each before what it counts.
  lemma LayoutIs(m: Mesh)
    requires Fits(m)
    ensures Layout(m) ==
      (BigInt(|m.positions|) + WordBytes(m.positions)) + ((BigInt(|m.uvs|) + WordBytes(m.uvs))
        + ((BigInt(|m.normals|) + WordBytes(m.normals)) + (BigInt(|m.corners|) + CornerBytes(m.corners))))
  {
    IntIsBig(|m.positions|);
    IntIsBig(|m.uvs|);
    IntIsBig(|m.normals|);
    IntIsBig(|m.corners|);
    WordsAre(m.positions);
    WordsAre(m.uvs);
    WordsAre(m.normals);
    CornersAre(m.corners);
  }

  // ---- the text ----

  function Three(tag: string, a: string, b: string, c: string): string {
    tag + " " + (a + " " + (b + " " + c))
  }

  function Two(tag: string, a: string, b: string): string {
    tag + " " + (a + " " + b)
  }

  lemma JoinedThree(tag: string, a: string, b: string, c: string)
    ensures Joined([tag, a, b, c]) == Three(tag, a, b, c) && Joined([tag, a, b]) == Two(tag, a, b)
  {
    JoinedMore(b, [c]);
    JoinedMore(a, [b, c]);
    JoinedMore(tag, [a, b, c]);
    JoinedMore(a, [b]);
    JoinedMore(tag, [a, b]);
    assert [tag] + [a, b, c] == [tag, a, b, c] && [a] + [b, c] == [a, b, c] && [b] + [c] == [b, c];
    assert [tag] + [a, b] == [tag, a, b] && [a] + [b] == [a, b];
  }

  lemma JoinedMore(word: string, words: seq<string>)
    requires words != []
    ensures Joined([word] + words) == word + " " + Joined(words)
  {
    assert ([word] + words)[1..] == words;
  }

  // A line for each three items, each with its text.
  function Triples<T>(text: T -> string, tag: string, items: seq<T>): seq<string> {
    seq(|items| / 3, i requires 0 <= i < |items| / 3 =>
      Three(tag, text(items[3 * i]), text(items[3 * i + 1]), text(items[3 * i + 2])))
  }

  function Pairs(floats: Floats, tag: string, words: seq<Word>): seq<string> {
    seq(|words| / 2, i requires 0 <= i < |words| / 2 =>
      Two(tag, floats.format(words[2 * i]), floats.format(words[2 * i + 1])))
  }

  // A corner in the text: its indices counted from one, zero for none.
  function CornerText(c: Corner): string {
    Decimal(c.position + 1) + "/" + Decimal(c.uv + 1) + "/" + Decimal(c.normal + 1)
  }

  function Triangles(corners: seq<Corner>): seq<string> {
    Triples(CornerText, "f", corners)
  }

  lemma FirstTriple<T>(text: T -> string, tag: string, items: seq<T>)
    requires |items| >= 3
    ensures Triples(text, tag, items) ==
      [Three(tag, text(items[0]), text(items[1]), text(items[2]))] + Triples(text, tag, items[3..])
  {
    assert forall i :: 0 < i < |items| / 3 ==> 3 * (i - 1) + 3 == 3 * i;
  }

  lemma FirstPair(floats: Floats, tag: string, words: seq<Word>)
    requires |words| >= 2
    ensures Pairs(floats, tag, words) ==
      [Two(tag, floats.format(words[0]), floats.format(words[1]))] + Pairs(floats, tag, words[2..])
  {
    assert forall i :: 0 < i < |words| / 2 ==> 2 * (i - 1) + 2 == 2 * i;
  }

  lemma PrintedIs(floats: Floats, a: Word, b: Word, c: Word)
    ensures Printed(floats, [a, b]) == [floats.format(a), floats.format(b)]
    ensures Printed(floats, [a, b, c]) == [floats.format(a), floats.format(b), floats.format(c)]
  {
    PrintedMore(floats, b, []);
    PrintedMore(floats, c, []);
    PrintedMore(floats, a, [b]);
    PrintedMore(floats, b, [c]);
    PrintedMore(floats, a, [b, c]);
    assert [a] + [b, c] == [a, b, c] && [b] + [c] == [b, c] && [a] + [b] == [a, b];
    assert [b] + [] == [b] && [c] + [] == [c];
  }

  lemma PrintedMore(floats: Floats, word: Word, words: seq<Word>)
    ensures Printed(floats, [word] + words) == [floats.format(word)] + Printed(floats, words)
  {
    assert ([word] + words)[1..] == words;
  }

  lemma {:induction false} TriplesWritten(floats: Floats, tag: string, words: seq<Word>)
    requires tag != "vt"
    ensures GroupLines(floats, tag, words) == Triples(floats.format, tag, words)
    decreases |words|
  {
    if |words| >= 3 {
      var a, b, c := words[0], words[1], words[2];
      assert words[..3] == [a, b, c];
      PrintedIs(floats, a, b, c);
      assert [tag] + Printed(floats, words[..3]) == [tag, floats.format(a), floats.format(b), floats.format(c)];
      JoinedThree(tag, floats.format(a), floats.format(b), floats.format(c));
      TriplesWritten(floats, tag, words[3..]);
      FirstTriple(floats.format, tag, words);
    }
  }

  lemma {:induction false} PairsWritten(floats: Floats, words: seq<Word>)
    ensures GroupLines(floats, "vt", words) == Pairs(floats, "vt", words)
    decreases |words|
  {
    if |words| >= 2 {
      var a, b := words[0], words[1];
      assert words[..2] == [a, b];
      PrintedIs(floats, a, b, a);
      assert ["vt"] + Printed(floats, words[..2]) == ["vt", floats.format(a), floats.format(b)];
      JoinedThree("vt", floats.format(a), floats.format(b), "");
      PairsWritten(floats, words[2..]);
      FirstPair(floats, "vt", words);
    }
  }

  lemma {:induction false} TrianglesWritten(corners: seq<Corner>)
    ensures FaceLines(corners) == Triangles(corners)
    decreases |corners|
  {
    if |corners| >= 3 {
      JoinedThree("f", VertexText(corners[0]), VertexText(corners[1]), VertexText(corners[2]));
      TrianglesWritten(corners[3..]);
      FirstTriple(CornerText, "f", corners);
    }
  }

  // The text: two comments, and a line for each position, texture coordinate, normal and triangle, in this order.
  lemma LinesAre(floats: Floats, m: Mesh)
    ensures MeshLines(floats, m) ==
      [FIRST_COMMENT, SECOND_COMMENT] + (Triples(floats.format, "v", m.positions) + (Pairs(floats, "vt", m.uvs)
        + (Triples(floats.format, "vn", m.normals) + Triangles(m.corners))))
  {
    TriplesWritten(floats, "v", m.positions);
    PairsWritten(floats, m.uvs);
    TriplesWritten(floats, "vn", m.normals);
    TrianglesWritten(m.corners);
  }
}
