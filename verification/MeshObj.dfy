/** The text form of a mesh: what the decoder writes and what the encoder reads. */
module MeshObj {
  import opened Basics
  import opened MeshBytes
  import opened MeshText

  // How a 32-bit float is written as a decimal, and what a decimal packs to.
  datatype Floats = Floats(format: Word -> string, parse: string -> Option<Word>)

  const FIRST_WORDS: seq<string> :=
    ["#", "3D", "mesh", "decoded", "from", ".binobj", "(source", "of", "truth;", "baked", "back", "to", ".binobj", "at",
     "build", "time)."]

  const SECOND_WORDS: seq<string> :=
    ["#", "UVs", "are", "stored", "raw", "here;", "the", "V", "coordinate", "is", "flipped", "(1-v)", "at", "load",
     "time."]

  const FIRST_COMMENT := Joined(FIRST_WORDS)
  const SECOND_COMMENT := Joined(SECOND_WORDS)

  const HEADER: seq<string> := [FIRST_COMMENT, SECOND_COMMENT]

  const EMPTY := Mesh([], [], [], [])

  // ---- reading ----

  function ParseIndex(field: string): Option<int> {
    if field == "" then Some(-1)
    else
      match ParseInt(field)
      case None => None
      case Some(i) => Some(i - 1)
  }

  function ParseVertex(vertex: string): Option<Corner> {
    var fields := (Fields(vertex, "") + ["", ""])[..3];
    match (ParseIndex(fields[0]), ParseIndex(fields[1]), ParseIndex(fields[2]))
    case (Some(a), Some(b), Some(c)) => Some(Corner(a, b, c))
    case _ => None
  }

  function Before(c: Option<Corner>, rest: Option<seq<Corner>>): Option<seq<Corner>> {
    match (c, rest)
    case (Some(corner), Some(corners)) => Some([corner] + corners)
    case _ => None
  }

  function ParseFace(vertices: seq<string>): Option<seq<Corner>> {
    if vertices == [] then Some([]) else Before(ParseVertex(vertices[0]), ParseFace(vertices[1..]))
  }

  // A fan of triangles around the first corner: the second and every later corner, each with the one before it.
  function Fan(face: seq<Corner>, n: nat): (r: seq<Corner>)
    requires n <= |face|
    ensures |r| % 3 == 0
  {
    if n <= 2 then [] else Fan(face, n - 1) + [face[0], face[n - 2], face[n - 1]]
  }

  function ParseFloats(floats: Floats, parts: seq<string>): Option<seq<Word>> {
    if parts == [] then Some([])
    else
      match (floats.parse(parts[0]), ParseFloats(floats, parts[1..]))
      case (Some(w), Some(rest)) => Some([w] + rest)
      case _ => None
  }

  // The first words behind the tag, when there are so many.
  function TagFloats(floats: Floats, parts: seq<string>, n: nat): Option<seq<Word>> {
    if |parts| < n + 1 then None else ParseFloats(floats, parts[1..n + 1])
  }

  predicate IsGroupTag(tag: string) {
    tag == "v" || tag == "vt" || tag == "vn"
  }

  function GroupSize(tag: string): nat {
    if tag == "vt" then 2 else 3
  }

  function AddGroup(tag: string, m: Mesh, words: seq<Word>): Mesh
    requires IsGroupTag(tag)
  {
    if tag == "v" then m.(positions := m.positions + words)
    else if tag == "vt" then m.(uvs := m.uvs + words)
    else m.(normals := m.normals + words)
  }

  function ParseLine(floats: Floats, line: string, m: Mesh): Option<Mesh> {
    var parts := Split(line);
    if parts == [] || "#" <= parts[0] then Some(m)
    else if IsGroupTag(parts[0]) then
      match TagFloats(floats, parts, GroupSize(parts[0]))
      case None => None
      case Some(words) => Some(AddGroup(parts[0], m, words))
    else if parts[0] == "f" then
      match ParseFace(parts[1..])
      case None => None
      case Some(face) => Some(m.(corners := m.corners + Fan(face, |face|)))
    else Some(m)
  }

  function ParseLines(floats: Floats, lines: seq<string>, m: Mesh): Option<Mesh> {
    if lines == [] then Some(m)
    else
      match ParseLine(floats, lines[0], m)
      case None => None
      case Some(more) => ParseLines(floats, lines[1..], more)
  }

  function ParseText(floats: Floats, text: string): Option<Mesh> {
    ParseLines(floats, Lines(text), EMPTY)
  }

  // The encoder. Numbers that do not fit their 32 bits make it fail.
  function Encode(floats: Floats, text: string): Option<seq<Byte>> {
    match ParseText(floats, text)
    case None => None
    case Some(m) => if Fits(m) then Some(Layout(m)) else None
  }

  // ---- writing ----

  // A line for each full group of numbers.
  function GroupLines(floats: Floats, tag: string, words: seq<Word>): seq<string>
    decreases |words|
  {
    var size := GroupSize(tag);
    if |words| < size then []
    else [Joined([tag] + Printed(floats, words[..size]))] + GroupLines(floats, tag, words[size..])
  }

  function Printed(floats: Floats, words: seq<Word>): seq<string> {
    if words == [] then [] else [floats.format(words[0])] + Printed(floats, words[1..])
  }

  function VertexText(c: Corner): string {
    Decimal(c.position + 1) + "/" + Decimal(c.uv + 1) + "/" + Decimal(c.normal + 1)
  }

  function FaceLines(corners: seq<Corner>): seq<string> {
    if |corners| < 3 then []
    else
      [Joined(["f", VertexText(corners[0]), VertexText(corners[1]), VertexText(corners[2])])] + FaceLines(corners[3..])
  }

  function MeshLines(floats: Floats, m: Mesh): seq<string> {
    HEADER + (GroupLines(floats, "v", m.positions) + (GroupLines(floats, "vt", m.uvs)
      + (GroupLines(floats, "vn", m.normals) + FaceLines(m.corners))))
  }

  datatype Decoded = Failed | Trailing | Text(text: string)

  // The decoder.
  function Decode(floats: Floats, bytes: seq<Byte>): Decoded {
    match Unpack(bytes)
    case StructError => Failed
    case Mismatch => Trailing
    case Unpacked(m) => Text(Unlines(MeshLines(floats, m)))
  }

  // ---- what is written is read back ----

  // The floats of a file survive being written and read: their texts are words that pack to the same bits.
  ghost predicate Survive(floats: Floats, words: seq<Word>) {
    forall w <- words :: IsWord(floats.format(w)) && floats.parse(floats.format(w)) == Some(w)
  }

  function Whole<T>(items: seq<T>, size: nat): seq<T>
    requires size > 0
  {
    if |items| < size then [] else items[..size] + Whole(items[size..], size)
  }

  lemma {:induction false} WholePrefix<T>(items: seq<T>, size: nat)
    requires size > 0
    ensures Whole(items, size) <= items
    decreases |items|
  {
    if |items| >= size {
      WholePrefix(items[size..], size);
      assert items == items[..size] + items[size..];
    }
  }

  lemma {:induction false} WholeLength<T>(items: seq<T>, size: nat)
    requires size == 2 || size == 3
    ensures |Whole(items, size)| == |items| - |items| % size
    decreases |items|
  {
    if |items| >= size {
      WholeLength(items[size..], size);
      SameRemainder(|items|, size);
    }
  }

  lemma SameRemainder(n: nat, size: nat)
    requires (size == 2 || size == 3) && n >= size
    ensures n % size == (n - size) % size
  {
    if size == 2 {
      assert n % 2 == (n - 2) % 2;
    } else {
      assert n % 3 == (n - 3) % 3;
    }
  }

  lemma WholeIsPrefix<T>(items: seq<T>, size: nat)
    requires size == 2 || size == 3
    ensures Whole(items, size) <= items
    ensures Whole(items, size) == items <==> |items| % size == 0
  {
    WholePrefix(items, size);
    WholeLength(items, size);
  }

  lemma {:induction false} PrintedParsed(floats: Floats, words: seq<Word>)
    requires Survive(floats, words)
    ensures var parts := Printed(floats, words);
      |parts| == |words| && (forall part <- parts :: IsWord(part)) && ParseFloats(floats, parts) == Some(words)
  {
    if words != [] {
      assert words[0] in words && words == [words[0]] + words[1..];
      PrintedParsed(floats, words[1..]);
    }
  }

  // Lines that lead from one mesh to another are followed by the rest.
  lemma {:induction false} ParseThen(floats: Floats, x: seq<string>, y: seq<string>, m: Mesh, n: Mesh)
    requires ParseLines(floats, x, m) == Some(n)
    ensures ParseLines(floats, x + y, m) == ParseLines(floats, y, n)
    decreases |x|
  {
    if x == [] {
      assert x + y == y;
    } else {
      assert (x + y)[0] == x[0] && (x + y)[1..] == x[1..] + y;
      ParseThen(floats, x[1..], y, ParseLine(floats, x[0], m).value, n);
    }
  }

  // A line of a group is read back as its numbers.
  lemma GroupLine(floats: Floats, tag: string, words: seq<Word>, m: Mesh)
    requires IsGroupTag(tag) && |words| == GroupSize(tag) && Survive(floats, words)
    ensures var line := Joined([tag] + Printed(floats, words));
      IsLine(line) && ParseLine(floats, line, m) == Some(AddGroup(tag, m, words))
  {
    var parts := [tag] + Printed(floats, words);
    PrintedParsed(floats, words);
    assert IsWord(tag);
    JoinedSplit(parts);
    WordsAreLines(parts);
    JoinedIsLine(parts);
    assert parts[0] == tag && parts[1..GroupSize(tag) + 1] == Printed(floats, words);
  }

  lemma WordsAreLines(words: seq<string>)
    requires forall word <- words :: IsWord(word)
    ensures AreLines(words)
  {
  }

  lemma {:induction false} JoinedIsLine(words: seq<string>)
    requires AreLines(words)
    ensures IsLine(Joined(words))
    decreases |words|
  {
    if words != [] {
      assert words[0] in words && forall word <- words[1..] :: word in words;
      JoinedIsLine(words[1..]);
    }
  }

  lemma AddMore(tag: string, m: Mesh, x: seq<Word>, y: seq<Word>)
    requires IsGroupTag(tag)
    ensures AddGroup(tag, AddGroup(tag, m, x), y) == AddGroup(tag, m, x + y)
    ensures AddGroup(tag, m, []) == m
  {
    assert m.positions + x + y == m.positions + (x + y) && m.positions + [] == m.positions;
    assert m.uvs + x + y == m.uvs + (x + y) && m.uvs + [] == m.uvs;
    assert m.normals + x + y == m.normals + (x + y) && m.normals + [] == m.normals;
  }

  ghost predicate AreLines(lines: seq<string>) {
    forall line <- lines :: IsLine(line)
  }

  lemma {:induction false} GroupParsed(floats: Floats, tag: string, words: seq<Word>, m: Mesh)
    requires IsGroupTag(tag) && Survive(floats, Whole(words, GroupSize(tag)))
    ensures AreLines(GroupLines(floats, tag, words))
    ensures ParseLines(floats, GroupLines(floats, tag, words), m)
      == Some(AddGroup(tag, m, Whole(words, GroupSize(tag))))
    decreases |words|
  {
    var size := GroupSize(tag);
    AddMore(tag, m, [], []);
    if |words| >= size {
      var first, rest := words[..size], words[size..];
      var whole := Whole(words, size);
      assert whole == first + Whole(rest, size);
      assert forall w <- first :: w in whole;
      assert forall w <- Whole(rest, size) :: w in whole;
      GroupLine(floats, tag, first, m);
      var more := AddGroup(tag, m, first);
      GroupParsed(floats, tag, rest, more);
      AddMore(tag, m, first, Whole(rest, size));
      var lines := GroupLines(floats, tag, words);
      assert lines[1..] == GroupLines(floats, tag, rest);
    }
  }

  lemma {:induction false} DecimalIsWord(i: int)
    ensures IsWord(Decimal(i)) && '/' !in Decimal(i)
  {
  }

  // A vertex of a face is read back, an absent index among them: it is stored as -1 and written as 0.
  lemma VertexParsed(c: Corner)
    ensures IsWord(VertexText(c)) && ParseVertex(VertexText(c)) == Some(c)
  {
    var a, b, d := Decimal(c.position + 1), Decimal(c.uv + 1), Decimal(c.normal + 1);
    DecimalIsWord(c.position + 1);
    DecimalIsWord(c.uv + 1);
    DecimalIsWord(c.normal + 1);
    ThreeFields(a, b, d);
    DecimalParsed(c.position + 1);
    DecimalParsed(c.uv + 1);
    DecimalParsed(c.normal + 1);
    assert ([a, b, d] + ["", ""])[..3] == [a, b, d];
  }

  lemma FaceLine(floats: Floats, a: Corner, b: Corner, c: Corner, m: Mesh)
    ensures var line := Joined(["f", VertexText(a), VertexText(b), VertexText(c)]);
      IsLine(line) && ParseLine(floats, line, m) == Some(AddCorners(m, [a, b, c]))
  {
    var vertices := [VertexText(a), VertexText(b), VertexText(c)];
    var parts := ["f", VertexText(a), VertexText(b), VertexText(c)];
    VertexParsed(a);
    VertexParsed(b);
    VertexParsed(c);
    assert IsWord("f");
    JoinedSplit(parts);
    WordsAreLines(parts);
    JoinedIsLine(parts);
    TriangleParsed(a, b, c);
    FaceWords(floats, Joined(parts), parts, [a, b, c], m);
  }

  lemma FaceWords(floats: Floats, line: string, parts: seq<string>, face: seq<Corner>, m: Mesh)
    requires Split(line) == parts && parts != [] && parts[0] == "f" && ParseFace(parts[1..]) == Some(face)
    ensures ParseLine(floats, line, m) == Some(AddCorners(m, Fan(face, |face|)))
  {
    assert parts[0][0] == 'f' && |parts[0]| == 1;
    assert !IsGroupTag(parts[0]) && !("#" <= parts[0]);
  }

  lemma VertexFirst(c: Corner, vertices: seq<string>, corners: seq<Corner>)
    requires ParseFace(vertices) == Some(corners)
    ensures ParseFace([VertexText(c)] + vertices) == Some([c] + corners)
  {
    VertexParsed(c);
    assert ([VertexText(c)] + vertices)[1..] == vertices;
  }

  lemma TriangleParsed(a: Corner, b: Corner, c: Corner)
    ensures ParseFace([VertexText(a), VertexText(b), VertexText(c)]) == Some([a, b, c])
    ensures Fan([a, b, c], 3) == [a, b, c]
  {
    VertexFirst(c, [], []);
    VertexFirst(b, [VertexText(c)] + [], [c] + []);
    VertexFirst(a, [VertexText(b)] + ([VertexText(c)] + []), [b] + ([c] + []));
    assert [VertexText(a)] + ([VertexText(b)] + ([VertexText(c)] + []))
      == [VertexText(a), VertexText(b), VertexText(c)];
    assert [a] + ([b] + ([c] + [])) == [a, b, c];
  }

  function AddCorners(m: Mesh, corners: seq<Corner>): Mesh {
    m.(corners := m.corners + corners)
  }

  lemma MoreCorners(m: Mesh, x: seq<Corner>, y: seq<Corner>)
    ensures AddCorners(AddCorners(m, x), y) == AddCorners(m, x + y) && AddCorners(m, []) == m
  {
    assert m.corners + x + y == m.corners + (x + y) && m.corners + [] == m.corners;
  }

  lemma {:induction false} FacesParsed(floats: Floats, corners: seq<Corner>, m: Mesh)
    ensures AreLines(FaceLines(corners))
    ensures ParseLines(floats, FaceLines(corners), m) == Some(AddCorners(m, Whole(corners, 3)))
    decreases |corners|
  {
    MoreCorners(m, [], []);
    if |corners| >= 3 {
      var first, rest := [corners[0], corners[1], corners[2]], corners[3..];
      assert first == corners[..3];
      FaceLine(floats, corners[0], corners[1], corners[2], m);
      var more := AddCorners(m, first);
      FacesParsed(floats, rest, more);
      MoreCorners(m, first, Whole(rest, 3));
      FaceLinesFirst(floats, corners, m, more);
    }
  }

  lemma FaceLinesFirst(floats: Floats, corners: seq<Corner>, m: Mesh, more: Mesh)
    requires |corners| >= 3
    requires var line := Joined(["f", VertexText(corners[0]), VertexText(corners[1]), VertexText(corners[2])]);
      IsLine(line) && ParseLine(floats, line, m) == Some(more)
    ensures ParseLines(floats, FaceLines(corners), m) == ParseLines(floats, FaceLines(corners[3..]), more)
    ensures AreLines(FaceLines(corners[3..])) ==> AreLines(FaceLines(corners))
  {
    var lines := FaceLines(corners);
    assert lines[1..] == FaceLines(corners[3..]) && lines == [lines[0]] + lines[1..];
  }

  lemma {:induction false} WordsBegun(text: string, begun: string)
    requires begun != ""
    ensures Words(text, begun) != [] && begun <= Words(text, begun)[0]
    decreases |text|
  {
    if text != "" && !IsSpace(text[0]) {
      WordsBegun(text[1..], begun + [text[0]]);
    }
  }

  lemma CommentSkipped(floats: Floats, line: string, m: Mesh)
    requires line != "" && line[0] == '#'
    ensures ParseLine(floats, line, m) == Some(m)
  {
    WordsBegun(line[1..], "#");
    assert "" + [line[0]] == "#";
  }

  lemma CommentsSkipped(floats: Floats, first: string, second: string, m: Mesh)
    requires first != "" && first[0] == '#' && second != "" && second[0] == '#'
    ensures ParseLines(floats, [first, second], m) == Some(m)
  {
    var lines := [first, second];
    CommentSkipped(floats, first, m);
    CommentSkipped(floats, second, m);
    var last := [second];
    assert last[1..] == [];
    assert ParseLines(floats, last, m) == Some(m);
    assert lines[1..] == last;
  }

  lemma HeaderIsLines()
    ensures AreLines(HEADER)
  {
    FirstWords();
    JoinedIsLine(FIRST_WORDS);
    SecondWords();
    JoinedIsLine(SECOND_WORDS);
    BothLines(FIRST_COMMENT, SECOND_COMMENT);
  }

  lemma BothLines(x: string, y: string)
    requires IsLine(x) && IsLine(y)
    ensures AreLines([x, y])
  {
  }

  lemma FirstWords()
    ensures AreLines(FIRST_WORDS)
  {
    forall i | 0 <= i < |FIRST_WORDS|
      ensures IsLine(FIRST_WORDS[i])
    {
    }
  }

  lemma SecondWords()
    ensures AreLines(SECOND_WORDS)
  {
    forall i | 0 <= i < |SECOND_WORDS|
      ensures IsLine(SECOND_WORDS[i])
    {
    }
  }

  // What the text keeps of a mesh: the full groups.
  function Trim(m: Mesh): Mesh {
    Mesh(Whole(m.positions, 3), Whole(m.uvs, 2), Whole(m.normals, 3), Whole(m.corners, 3))
  }

  predicate Divisible(m: Mesh) {
    |m.positions| % 3 == 0 && |m.uvs| % 2 == 0 && |m.normals| % 3 == 0 && |m.corners| % 3 == 0
  }

  ghost predicate MeshSurvives(floats: Floats, m: Mesh) {
    Survive(floats, m.positions) && Survive(floats, m.uvs) && Survive(floats, m.normals)
  }

  lemma LinesParsed(floats: Floats, m: Mesh)
    requires MeshSurvives(floats, Trim(m))
    ensures AreLines(MeshLines(floats, m)) && ParseLines(floats, MeshLines(floats, m), EMPTY) == Some(Trim(m))
  {
    var faces := FaceLines(m.corners);
    var normals := GroupLines(floats, "vn", m.normals);
    var uvs := GroupLines(floats, "vt", m.uvs);
    var positions := GroupLines(floats, "v", m.positions);
    var m1 := AddGroup("v", EMPTY, Whole(m.positions, 3));
    var m2 := AddGroup("vt", m1, Whole(m.uvs, 2));
    var m3 := AddGroup("vn", m2, Whole(m.normals, 3));
    HeaderIsLines();
    CommentsSkipped(floats, FIRST_COMMENT, SECOND_COMMENT, EMPTY);
    GroupParsed(floats, "v", m.positions, EMPTY);
    GroupParsed(floats, "vt", m.uvs, m1);
    GroupParsed(floats, "vn", m.normals, m2);
    FacesParsed(floats, m.corners, m3);
    ParseThen(floats, HEADER, positions + (uvs + (normals + faces)), EMPTY, EMPTY);
    ParseThen(floats, positions, uvs + (normals + faces), EMPTY, m1);
    ParseThen(floats, uvs, normals + faces, m1, m2);
    ParseThen(floats, normals, faces, m2, m3);
    PutTogether(m);
  }

  lemma PutTogether(m: Mesh)
    ensures var t := Trim(m);
      AddCorners(AddGroup("vn", AddGroup("vt", AddGroup("v", EMPTY, t.positions), t.uvs), t.normals), t.corners) == t
  {
    var t := Trim(m);
    assert [] + t.positions == t.positions && [] + t.uvs == t.uvs && [] + t.normals == t.normals;
    assert [] + t.corners == t.corners;
  }

  lemma TrimKeeps(m: Mesh)
    ensures Trim(m) == m <==> Divisible(m)
    ensures Fits(m) ==> Fits(Trim(m))
  {
    WholeIsPrefix(m.positions, 3);
    WholeIsPrefix(m.uvs, 2);
    WholeIsPrefix(m.normals, 3);
    WholeIsPrefix(m.corners, 3);
    assert forall c <- Whole(m.corners, 3) :: c in m.corners;
  }

  // Decoding a file and encoding the text again gives the layout of its full groups, and so the same bytes exactly when
  // the counts are divisible by three, two, three and three.
  lemma RoundTrip(floats: Floats, bytes: seq<Byte>, m: Mesh)
    requires Unpack(bytes) == Unpacked(m) && MeshSurvives(floats, Trim(m))
    ensures Decode(floats, bytes).Text? && Fits(Trim(m))
    ensures Encode(floats, Decode(floats, bytes).text) == Some(Layout(Trim(m)))
    ensures Encode(floats, Decode(floats, bytes).text) == Some(bytes) <==> Divisible(m)
  {
    LinesParsed(floats, m);
    UnlinesSplit(MeshLines(floats, m));
    UnpackedIsLayout(bytes, m);
    TrimKeeps(m);
    UnpackedIsLayout(Layout(Trim(m)), Trim(m));
  }

  // ---- what the encoder writes ----

  lemma {:induction false} ParsedCount(floats: Floats, parts: seq<string>)
    ensures var r := ParseFloats(floats, parts); r.Some? ==> |r.value| == |parts|
  {
    if parts != [] {
      ParsedCount(floats, parts[1..]);
    }
  }

  lemma LineDivisible(floats: Floats, line: string, m: Mesh)
    requires Divisible(m)
    ensures var r := ParseLine(floats, line, m); r.Some? ==> Divisible(r.value)
  {
    var parts := Split(line);
    if parts != [] && |parts| >= GroupSize(parts[0]) + 1 {
      ParsedCount(floats, parts[1..GroupSize(parts[0]) + 1]);
    }
  }

  lemma {:induction false} LinesDivisible(floats: Floats, lines: seq<string>, m: Mesh)
    requires Divisible(m)
    ensures var r := ParseLines(floats, lines, m); r.Some? ==> Divisible(r.value)
    decreases |lines|
  {
    if lines != [] {
      LineDivisible(floats, lines[0], m);
      match ParseLine(floats, lines[0], m)
      case None =>
      case Some(more) => LinesDivisible(floats, lines[1..], more);
    }
  }

  // Whatever text the encoder accepts, its file decodes, and the decoded text is encoded to the same bytes.
  lemma EncodedRoundTrip(floats: Floats, text: string, bytes: seq<Byte>)
    requires Encode(floats, text) == Some(bytes)
    requires MeshSurvives(floats, ParseText(floats, text).value)
    ensures Decode(floats, bytes).Text? && Encode(floats, Decode(floats, bytes).text) == Some(bytes)
  {
    var m := ParseText(floats, text).value;
    LinesDivisible(floats, Lines(text), EMPTY);
    UnpackedIsLayout(bytes, m);
    TrimKeeps(m);
    RoundTrip(floats, bytes, m);
  }
}
