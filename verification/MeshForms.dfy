/** The forms of text that the mesh encoder reads, besides those that the decoder writes. */
module MeshForms {
  import opened Basics
  import opened MeshBytes
  import opened MeshText
  import opened MeshObj

  // ---- words and fields ----

  // Any space keeps words apart, alone or among others.
  lemma {:induction false} WordsApart(x: string, space: char, y: string, begun: string)
    requires IsSpace(space)
    ensures Words(x + [space] + y, begun) == Words(x, begun) + Split(y)
    decreases |x|
  {
    var text := x + [space] + y;
    if x == "" {
      assert text[0] == space && text[1..] == y;
    } else {
      assert text[0] == x[0] && text[1..] == x[1..] + [space] + y;
      WordsApart(x[1..], space, y, if IsSpace(x[0]) then "" else begun + [x[0]]);
      if IsSpace(x[0]) && begun != "" {
        Regrouped([begun], Words(x[1..], ""), Split(y));
      }
    }
  }

  // The words of a text: spaces stand between them, and a text without spaces is one word.
  lemma SplitIs(x: string, space: char, y: string)
    requires space == ' ' || '\t' <= space <= '\r'
    ensures Split("") == [] && (x != "" && !(exists c <- x :: IsSpace(c)) ==> Split(x) == [x])
    ensures Split(x + [space] + y) == Split(x) + Split(y)
  {
    WordsApart(x, space, y, "");
    if !(exists c <- x :: IsSpace(c)) {
      WordRead(x, "", "");
      assert x + "" == x && "" + x == x;
    }
  }

  lemma {:induction false} FieldsApart(x: string, y: string, begun: string)
    ensures Fields(x + "/" + y, begun) == Fields(x, begun) + Fields(y, "")
    decreases |x|
  {
    var text := x + "/" + y;
    if x == "" {
      assert text[0] == '/' && text[1..] == y;
    } else {
      assert text[0] == x[0] && text[1..] == x[1..] + "/" + y;
      FieldsApart(x[1..], y, if x[0] == '/' then "" else begun + [x[0]]);
      if x[0] == '/' {
        Regrouped([begun], Fields(x[1..], ""), Fields(y, ""));
      }
    }
  }

  lemma OneField(field: string)
    requires '/' !in field
    ensures Fields(field, "") == [field]
  {
    FieldRead(field, "", "");
    assert field + "" == field && "" + field == field;
  }

  // ---- vertices ----

  lemma DecimalField(i: int)
    ensures '/' !in Decimal(i) && Decimal(i) != "" && ParseIndex(Decimal(i)) == Some(i - 1)
    ensures Fields(Decimal(i), "") == [Decimal(i)]
  {
    DecimalParsed(i);
    assert forall c <- Decimal(i) :: c == '-' || IsDigit(c);
    OneField(Decimal(i));
  }

  lemma VertexOf(vertex: string, a: string, b: string, c: string)
    requires Fields(vertex, "") == [a, b, c] || (Fields(vertex, "") == [a, b] && c == "")
      || (Fields(vertex, "") == [a] && b == c == "")
    requires ParseIndex(a).Some? && ParseIndex(b).Some? && ParseIndex(c).Some?
    ensures ParseVertex(vertex) == Some(Corner(ParseIndex(a).value, ParseIndex(b).value, ParseIndex(c).value))
  {
    assert (Fields(vertex, "") + ["", ""])[..3] == [a, b, c];
  }

  // The fields of a vertex, of which those that are missing or empty stand for no index, -1.
  lemma VertexForms(i: int, j: int, k: int)
    ensures ParseVertex(Decimal(i)) == Some(Corner(i - 1, -1, -1))
    ensures ParseVertex(Decimal(i) + "/" + Decimal(j)) == Some(Corner(i - 1, j - 1, -1))
    ensures ParseVertex(Decimal(i) + "/" + "/" + Decimal(k)) == Some(Corner(i - 1, -1, k - 1))
    ensures ParseVertex(Decimal(i) + "/" + Decimal(j) + "/" + Decimal(k)) == Some(Corner(i - 1, j - 1, k - 1))
  {
    DecimalField(i);
    DecimalField(j);
    DecimalField(k);
    var a, b, c := Decimal(i), Decimal(j), Decimal(k);
    VertexOf(a, a, "", "");
    FieldsApart(a, b, "");
    VertexOf(a + "/" + b, a, b, "");
    EmptyField(a, c);
    VertexOf(a + "/" + "/" + c, a, "", c);
    ThreeFields(a, b, c);
    VertexOf(a + "/" + b + "/" + c, a, b, c);
  }

  lemma EmptyField(a: string, c: string)
    requires '/' !in a && '/' !in c
    ensures Fields(a + "/" + "/" + c, "") == [a, "", c]
  {
    ThreeFields(a, "", c);
    assert a + "/" + "" == a + "/";
  }

  // A sign in front of a number is read.
  lemma SignedText(n: nat)
    ensures var i: int := n;
      ParseInt("+" + Digits(n)) == Some(i) && ParseInt("-" + Digits(n)) == Some(-i) && ParseInt("") == None
  {
    DigitsParsed(n);
    assert ("+" + Digits(n))[1..] == Digits(n) && ("-" + Digits(n))[1..] == Digits(n);
  }

  // ---- lines ----

  lemma ParsedFloats(floats: Floats, parts: seq<string>)
    ensures match ParseFloats(floats, parts)
      case None => exists i :: 0 <= i < |parts| && floats.parse(parts[i]).None?
      case Some(words) =>
        |words| == |parts| && forall i :: 0 <= i < |parts| ==> floats.parse(parts[i]) == Some(words[i])
  {
    if parts != [] {
      ParsedFloats(floats, parts[1..]);
    }
  }

  // The first numbers of a line go to the list that its tag names; the line fails if one is missing or no number.
  lemma NumberLine(floats: Floats, line: string, m: Mesh, tag: string, fields: seq<string>)
    requires Split(line) == [tag] + fields && (tag == "v" || tag == "vt" || tag == "vn")
    ensures var n := if tag == "vt" then 2 else 3;
      match ParseLine(floats, line, m)
      case None => |fields| < n || exists i :: 0 <= i < n && floats.parse(fields[i]).None?
      case Some(more) =>
        && |fields| >= n && more.corners == m.corners
        && Extends(floats, m.positions, fields, if tag == "v" then 3 else 0, more.positions)
        && Extends(floats, m.uvs, fields, if tag == "vt" then 2 else 0, more.uvs)
        && Extends(floats, m.normals, fields, if tag == "vn" then 3 else 0, more.normals)
  {
    var parts := [tag] + fields;
    var n := if tag == "vt" then 2 else 3;
    assert parts[0] == tag && tag[0] == 'v';
    if |fields| >= n {
      assert parts[1..n + 1] == fields[..n];
      ParsedFloats(floats, fields[..n]);
    }
  }

  // The first fields, as numbers, come behind what there is.
  predicate Extends(floats: Floats, words: seq<Word>, fields: seq<string>, n: nat, more: seq<Word>) {
    && n <= |fields| && |more| == |words| + n && more[..|words|] == words
    && forall i :: 0 <= i < n ==> floats.parse(fields[i]) == Some(more[|words| + i])
  }

  // Comments, empty lines and lines with another tag change nothing.
  lemma OtherLine(floats: Floats, line: string, m: Mesh)
    requires var parts := Split(line);
      || parts == []
      || (parts[0] != "" && parts[0][0] == '#')
      || (parts[0] != "v" && parts[0] != "vt" && parts[0] != "vn" && parts[0] != "f")
    ensures ParseLine(floats, line, m) == Some(m)
  {
  }
}
