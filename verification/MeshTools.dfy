/** The two mesh tools, step by step. */
module MeshTools {
  import opened Basics
  import opened MeshBytes
  import opened MeshReader
  import opened MeshText
  import opened MeshObj

  // ---- the decoder ----

  lemma LineMoved(out: string, line: string, rest: string)
    ensures out + (line + "\n" + rest) == out + line + "\n" + rest
  {
  }

  lemma JoinedThree(tag: string, a: string, b: string)
    ensures Joined([tag, a, b]) == tag + " " + a + " " + b
  {
    assert Joined([b]) == b;
    assert [tag, a, b][1..] == [a, b] && [a, b][1..] == [b];
    assert Joined([a, b]) == a + " " + b;
  }

  lemma JoinedFour(tag: string, a: string, b: string, c: string)
    ensures Joined([tag, a, b, c]) == tag + " " + a + " " + b + " " + c
  {
    JoinedThree(a, b, c);
    assert [tag, a, b, c][1..] == [a, b, c];
    assert tag + " " + (a + " " + b + " " + c) == tag + " " + a + " " + b + " " + c;
  }

  lemma FirstGroup(floats: Floats, tag: string, words: seq<Word>, line: string)
    requires |words| >= GroupSize(tag) && line == Joined([tag] + Printed(floats, words[..GroupSize(tag)]))
    ensures Unlines(GroupLines(floats, tag, words))
      == line + "\n" + Unlines(GroupLines(floats, tag, words[GroupSize(tag)..]))
  {
    var lines := GroupLines(floats, tag, words);
    assert lines[0] == line && lines[1..] == GroupLines(floats, tag, words[GroupSize(tag)..]);
  }

  lemma PrintedTwo(floats: Floats, words: seq<Word>)
    requires |words| >= 2
    ensures Printed(floats, words[..2]) == [floats.format(words[0]), floats.format(words[1])]
  {
    var two := words[..2];
    var last := [words[1]];
    assert last[1..] == [];
    assert Printed(floats, last) == [floats.format(words[1])];
    assert two[1..] == last;
  }

  lemma PrintedThree(floats: Floats, words: seq<Word>)
    requires |words| >= 3
    ensures Printed(floats, words[..3]) == [floats.format(words[0]), floats.format(words[1]), floats.format(words[2])]
  {
    var three := words[..3];
    assert three[1..] == words[1..][..2];
    PrintedTwo(floats, words[1..]);
    assert Printed(floats, three) == [floats.format(words[0])] + Printed(floats, words[1..][..2]);
  }

  method WriteTriples(floats: Floats, tag: string, words: seq<Word>) returns (out: string)
    requires GroupSize(tag) == 3
    ensures out == Unlines(GroupLines(floats, tag, words))
  {
    out := "";
    var i := 0;
    assert words[0..] == words;
    while i < |words| / 3
      invariant 0 <= i <= |words| / 3
      invariant out + Unlines(GroupLines(floats, tag, words[3 * i..])) == Unlines(GroupLines(floats, tag, words))
    {
      ghost var left := words[3 * i..];
      assert left[0] == words[3 * i] && left[1] == words[3 * i + 1] && left[2] == words[3 * i + 2];
      var line := tag + " " + floats.format(words[3 * i]) + " " + floats.format(words[3 * i + 1]) + " "
        + floats.format(words[3 * i + 2]);
      TripleLine(floats, tag, left, line);
      assert left[3..] == words[3 * (i + 1)..];
      out := out + line + "\n";
      i := i + 1;
    }
    assert GroupLines(floats, tag, words[3 * i..]) == [];
  }

  lemma TripleLine(floats: Floats, tag: string, left: seq<Word>, line: string)
    requires |left| >= 3 && GroupSize(tag) == 3
    requires line == tag + " " + floats.format(left[0]) + " " + floats.format(left[1]) + " " + floats.format(left[2])
    ensures Unlines(GroupLines(floats, tag, left)) == line + "\n" + Unlines(GroupLines(floats, tag, left[3..]))
  {
    PrintedThree(floats, left);
    JoinedFour(tag, floats.format(left[0]), floats.format(left[1]), floats.format(left[2]));
    assert [tag] + Printed(floats, left[..3])
      == [tag, floats.format(left[0]), floats.format(left[1]), floats.format(left[2])];
    FirstGroup(floats, tag, left, line);
  }

  lemma PairLine(floats: Floats, left: seq<Word>, line: string)
    requires |left| >= 2 && line == "vt" + " " + floats.format(left[0]) + " " + floats.format(left[1])
    ensures Unlines(GroupLines(floats, "vt", left)) == line + "\n" + Unlines(GroupLines(floats, "vt", left[2..]))
  {
    PrintedTwo(floats, left);
    JoinedThree("vt", floats.format(left[0]), floats.format(left[1]));
    assert ["vt"] + Printed(floats, left[..2]) == ["vt", floats.format(left[0]), floats.format(left[1])];
    FirstGroup(floats, "vt", left, line);
  }

  method WritePairs(floats: Floats, words: seq<Word>) returns (out: string)
    ensures out == Unlines(GroupLines(floats, "vt", words))
  {
    out := "";
    var i := 0;
    assert words[0..] == words;
    while i < |words| / 2
      invariant 0 <= i <= |words| / 2
      invariant out + Unlines(GroupLines(floats, "vt", words[2 * i..])) == Unlines(GroupLines(floats, "vt", words))
    {
      ghost var left := words[2 * i..];
      assert left[0] == words[2 * i] && left[1] == words[2 * i + 1];
      var line := "vt" + " " + floats.format(words[2 * i]) + " " + floats.format(words[2 * i + 1]);
      PairLine(floats, left, line);
      assert left[2..] == words[2 * (i + 1)..];
      out := out + line + "\n";
      i := i + 1;
    }
    assert GroupLines(floats, "vt", words[2 * i..]) == [];
  }

  function FaceText(a: Corner, b: Corner, c: Corner): string {
    "f" + " " + VertexText(a) + " " + VertexText(b) + " " + VertexText(c)
  }

  lemma FirstFace(corners: seq<Corner>, line: string)
    requires |corners| >= 3 && line == FaceText(corners[0], corners[1], corners[2])
    ensures Unlines(FaceLines(corners)) == line + "\n" + Unlines(FaceLines(corners[3..]))
  {
    JoinedFour("f", VertexText(corners[0]), VertexText(corners[1]), VertexText(corners[2]));
    var lines := FaceLines(corners);
    assert lines[0] == line && lines[1..] == FaceLines(corners[3..]);
  }

  method WriteFaces(corners: seq<Corner>) returns (out: string)
    ensures out == Unlines(FaceLines(corners))
  {
    out := "";
    var t := 0;
    assert corners[0..] == corners;
    while t < |corners| / 3
      invariant 0 <= t <= |corners| / 3
      invariant out + Unlines(FaceLines(corners[3 * t..])) == Unlines(FaceLines(corners))
    {
      ghost var left := corners[3 * t..];
      var line := FaceText(corners[3 * t], corners[3 * t + 1], corners[3 * t + 2]);
      assert left[0] == corners[3 * t] && left[1] == corners[3 * t + 1] && left[2] == corners[3 * t + 2];
      FirstFace(left, line);
      assert left[3..] == corners[3 * (t + 1)..];
      LineMoved(out, line, Unlines(FaceLines(left[3..])));
      out := out + line + "\n";
      t := t + 1;
    }
    assert FaceLines(corners[3 * t..]) == [];
  }

  lemma MeshUnlines(floats: Floats, m: Mesh)
    ensures Unlines(MeshLines(floats, m))
      == FIRST_COMMENT + "\n" + (SECOND_COMMENT + "\n") + (Unlines(GroupLines(floats, "v", m.positions))
        + (Unlines(GroupLines(floats, "vt", m.uvs)) + (Unlines(GroupLines(floats, "vn", m.normals))
        + Unlines(FaceLines(m.corners)))))
  {
    TwoLines(FIRST_COMMENT, SECOND_COMMENT);
    FiveParts(HEADER, GroupLines(floats, "v", m.positions), GroupLines(floats, "vt", m.uvs),
      GroupLines(floats, "vn", m.normals), FaceLines(m.corners));
  }

  lemma FiveParts(h: seq<string>, p: seq<string>, t: seq<string>, n: seq<string>, f: seq<string>)
    ensures Unlines(h + (p + (t + (n + f)))) == Unlines(h) + (Unlines(p) + (Unlines(t) + (Unlines(n) + Unlines(f))))
  {
    UnlinesAppend(n, f);
    UnlinesAppend(t, n + f);
    UnlinesAppend(p, t + (n + f));
    UnlinesAppend(h, p + (t + (n + f)));
  }

  lemma TwoLines(x: string, y: string)
    ensures Unlines([x, y]) == x + "\n" + (y + "\n")
  {
    assert [x, y][1..] == [y] && [y][1..] == [];
    assert Unlines([y]) == y + "\n";
  }

  // The decoder: reads the mesh and writes the full groups of its numbers line by line.
  method DecodeFile(floats: Floats, data: seq<Byte>) returns (r: Decoded)
    ensures r == Decode(floats, data)
  {
    var unpacked := ReadMesh(data);
    match unpacked
    case StructError =>
      return Failed;
    case Mismatch =>
      return Trailing;
    case Unpacked(m) =>
      var positions := WriteTriples(floats, "v", m.positions);
      var uvs := WritePairs(floats, m.uvs);
      var normals := WriteTriples(floats, "vn", m.normals);
      var faces := WriteFaces(m.corners);
      MeshUnlines(floats, m);
      r := Text(FIRST_COMMENT + "\n" + (SECOND_COMMENT + "\n") + (positions + (uvs + (normals + faces))));
  }

  // ---- the encoder ----

  // The corners of a face so far, with those still to be read.
  function FaceContinued(face: seq<Corner>, rest: Option<seq<Corner>>): Option<seq<Corner>> {
    match rest
    case None => None
    case Some(more) => Some(face + more)
  }

  method ReadFace(vertices: seq<string>) returns (r: Option<seq<Corner>>)
    ensures r == ParseFace(vertices)
  {
    var face: seq<Corner> := [];
    StartFace(ParseFace(vertices));
    assert vertices[0..] == vertices;
    var i := 0;
    while i < |vertices|
      invariant 0 <= i <= |vertices|
      invariant FaceContinued(face, ParseFace(vertices[i..])) == ParseFace(vertices)
    {
      assert vertices[i..][0] == vertices[i] && vertices[i..][1..] == vertices[i + 1..];
      NextVertex(face, vertices[i..]);
      var c := ParseVertex(vertices[i]);
      if c == None {
        return None;
      }
      face := face + [c.value];
      i := i + 1;
    }
    assert face + [] == face;
    r := Some(face);
  }

  lemma StartFace(all: Option<seq<Corner>>)
    ensures FaceContinued([], all) == all
  {
    if all.Some? {
      assert [] + all.value == all.value;
    }
  }

  lemma NextVertex(face: seq<Corner>, vertices: seq<string>)
    requires vertices != []
    ensures FaceContinued(face, ParseFace(vertices))
      == match ParseVertex(vertices[0])
         case None => None
         case Some(c) => FaceContinued(face + [c], ParseFace(vertices[1..]))
  {
    NextCorner(face, ParseVertex(vertices[0]), ParseFace(vertices[1..]));
  }

  lemma NextCorner(face: seq<Corner>, c: Option<Corner>, rest: Option<seq<Corner>>)
    ensures FaceContinued(face, Before(c, rest))
      == match c
         case None => None
         case Some(corner) => FaceContinued(face + [corner], rest)
  {
    if c.Some? && rest.Some? {
      assert face + ([c.value] + rest.value) == face + [c.value] + rest.value;
    }
  }

  // The triangles of a face: the i-th one has its first, its i-th and its next corner.
  lemma {:induction false} FanTriangles(face: seq<Corner>, n: nat, i: nat)
    requires 1 <= i < n - 1 && n <= |face|
    ensures |Fan(face, n)| == 3 * (n - 2)
    ensures Fan(face, n)[3 * (i - 1)..3 * i] == [face[0], face[i], face[i + 1]]
    decreases n
  {
    var last := [face[0], face[n - 2], face[n - 1]];
    if n == 3 {
      assert Fan(face, 2) == [];
      assert Fan(face, 3) == last;
    } else {
      FanTriangles(face, n - 1, if i == n - 2 then 1 else i);
      assert Fan(face, n) == Fan(face, n - 1) + last;
    }
  }

  method AddFan(corners0: seq<Corner>, face: seq<Corner>) returns (corners: seq<Corner>)
    ensures corners == corners0 + Fan(face, |face|)
  {
    corners := corners0;
    var i := 1;
    while i < |face| - 1
      invariant 1 <= i && (i <= |face| - 1 || i == 1)
      invariant corners == corners0 + Fan(face, if i + 1 <= |face| then i + 1 else |face|)
    {
      corners := corners + [face[0], face[i], face[i + 1]];
      i := i + 1;
    }
  }

  method ReadLine(floats: Floats, line: string, m: Mesh) returns (r: Option<Mesh>)
    ensures r == ParseLine(floats, line, m)
  {
    var parts := Split(line);
    if parts == [] || "#" <= parts[0] {
      return Some(m);
    }
    var tag := parts[0];
    if tag == "v" || tag == "vt" || tag == "vn" {
      var words := TagFloats(floats, parts, GroupSize(tag));
      if words == None {
        return None;
      }
      return Some(AddGroup(tag, m, words.value));
    } else if tag == "f" {
      var face := ReadFace(parts[1..]);
      if face == None {
        return None;
      }
      var corners := AddFan(m.corners, face.value);
      return Some(m.(corners := corners));
    }
    return Some(m);
  }

  method ReadObj(floats: Floats, text: string) returns (r: Option<Mesh>)
    ensures r == ParseText(floats, text)
  {
    var m := EMPTY;
    var lines := Lines(text);
    assert lines[0..] == lines;
    var i := 0;
    while i < |lines|
      invariant 0 <= i <= |lines|
      invariant ParseLines(floats, lines[i..], m) == ParseText(floats, text)
    {
      assert lines[i..][0] == lines[i] && lines[i..][1..] == lines[i + 1..];
      var more := ReadLine(floats, lines[i], m);
      if more == None {
        return None;
      }
      m := more.value;
      i := i + 1;
    }
    r := Some(m);
  }

  lemma {:induction false} CornersMore(corners: seq<Corner>, c: Corner)
    requires AllFit(corners) && CornerFits(c)
    ensures AllFit(corners + [c]) && PackCorners(corners + [c]) == PackCorners(corners) + PackCorner(c)
  {
    if corners == [] {
      assert corners + [c] == [c] && [c][1..] == [];
      assert PackCorner(c) + [] == PackCorner(c);
    } else {
      AppendTail(corners, c);
      FirstCorner(corners, PackCorner(c));
      CornersMore(corners[1..], c);
      FirstCorner(corners + [c], []);
    }
  }

  lemma AppendTail<T>(s: seq<T>, x: T)
    requires s != []
    ensures (s + [x])[0] == s[0] && (s + [x])[1..] == s[1..] + [x]
  {
  }

  lemma OneCornerMore(corners: seq<Corner>, i: nat)
    requires i < |corners| && AllFit(corners[..i])
    ensures AllFit(corners[..i + 1]) <==> CornerFits(corners[i])
    ensures CornerFits(corners[i]) ==>
      PackCorners(corners[..i + 1]) == PackCorners(corners[..i]) + PackCorner(corners[i])
  {
    assert corners[..i + 1] == corners[..i] + [corners[i]];
    if CornerFits(corners[i]) {
      CornersMore(corners[..i], corners[i]);
    }
  }

  method WriteCorners(corners: seq<Corner>) returns (out: Option<seq<Byte>>)
    ensures out == if AllFit(corners) then Some(PackCorners(corners)) else None
  {
    var bytes: seq<Byte> := [];
    var i := 0;
    while i < |corners|
      invariant 0 <= i <= |corners| && AllFit(corners[..i])
      invariant bytes == PackCorners(corners[..i])
    {
      OneCornerMore(corners, i);
      if !CornerFits(corners[i]) {
        assert corners[i] in corners;
        return None;
      }
      bytes := bytes + PackCorner(corners[i]);
      i := i + 1;
    }
    assert corners[..i] == corners;
    out := Some(bytes);
  }

  // The encoder: reads the text line by line and packs what it found.
  method EncodeFile(floats: Floats, text: string) returns (r: Option<seq<Byte>>)
    ensures r == Encode(floats, text)
  {
    var read := ReadObj(floats, text);
    if read == None {
      return None;
    }
    var m := read.value;
    if |m.positions| >= TWO_31 || |m.uvs| >= TWO_31 || |m.normals| >= TWO_31 || |m.corners| >= TWO_31 {
      return None;
    }
    var corners := WriteCorners(m.corners);
    if corners == None {
      return None;
    }
    r := Some(PackCounted(m.positions) + (PackCounted(m.uvs) + (PackCounted(m.normals)
      + (PackInt(|m.corners|) + corners.value))));
  }
}
