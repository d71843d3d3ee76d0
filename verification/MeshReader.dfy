/** Reading a binary mesh with an offset that moves over the file. */
module MeshReader {
  import opened Basics
  import opened MeshBytes

  lemma {:induction false} WordsRest(bytes: seq<Byte>, count: nat)
    ensures var r := ReadWords(bytes, count); r.Got? ==> 4 * count <= |bytes| && r.rest == bytes[4 * count..]
    decreases count
  {
    if count > 0 && |bytes| >= 4 {
      WordsRest(bytes[4..], count - 1);
    }
  }

  lemma CornerRest(bytes: seq<Byte>)
    ensures var r := ReadCorner(bytes); if |bytes| < 12 then r.Short? else r.Got? && r.rest == bytes[12..]
  {
  }

  function CornerAt(data: seq<Byte>, at: nat): Corner
    requires at + 12 <= |data|
  {
    CornerRest(data[at..]);
    ReadCorner(data[at..]).value
  }

  lemma OneMore(bytes: seq<Byte>, c: Corner, next: seq<Byte>, n: nat, corners: seq<Corner>, rest: seq<Byte>)
    requires ReadCorner(bytes) == Got(c, next) && ReadCorners(next, n) == Got(corners, rest)
    ensures ReadCorners(bytes, n + 1) == Got([c] + corners, rest)
  {
  }

  lemma OneThere(data: seq<Byte>, at: nat)
    requires at + 12 <= |data|
    ensures ReadCorner(data[at..]) == Got(CornerAt(data, at), data[at + 12..])
  {
    CornerRest(data[at..]);
    assert data[at..][12..] == data[at + 12..];
  }

  ghost predicate AreThere(data: seq<Byte>, at: nat, corners: seq<Corner>) {
    at + 12 * |corners| <= |data| && forall k :: 0 <= k < |corners| ==> corners[k] == CornerAt(data, at + 12 * k)
  }

  lemma RestThere(data: seq<Byte>, at: nat, corners: seq<Corner>)
    requires AreThere(data, at, corners) && corners != []
    ensures corners[0] == CornerAt(data, at) && AreThere(data, at + 12, corners[1..])
  {
    assert corners[0] == CornerAt(data, at + 12 * 0);
    forall k | 0 <= k < |corners| - 1
      ensures corners[1..][k] == CornerAt(data, at + 12 + 12 * k)
    {
      assert corners[1..][k] == corners[k + 1];
    }
  }

  lemma {:induction false} CornersHere(data: seq<Byte>, at: nat, corners: seq<Corner>)
    requires AreThere(data, at, corners)
    ensures ReadCorners(data[at..], |corners|) == Got(corners, data[at + 12 * |corners|..])
    decreases |corners|
  {
    if corners != [] {
      var rest := corners[1..];
      RestThere(data, at, corners);
      CornersHere(data, at + 12, rest);
      OneThere(data, at);
      OneMore(data[at..], corners[0], data[at + 12..], |rest|, rest, data[at + 12 * |corners|..]);
      assert corners == [corners[0]] + rest;
    }
  }

  lemma {:induction false} CornersShort(data: seq<Byte>, at: nat, count: nat)
    requires at <= |data| < at + 12 * count
    ensures ReadCorners(data[at..], count) == Short
    decreases count
  {
    CornerRest(data[at..]);
    if at + 12 <= |data| {
      assert data[at..][12..] == data[at + 12..];
      CornersShort(data, at + 12, count - 1);
    }
  }

  // The corners from a place of the file on, each one twelve bytes behind the one before.
  method CornersAt(data: seq<Byte>, offset: nat, count: nat) returns (corners: Option<seq<Corner>>)
    requires offset <= |data|
    ensures match ReadCorners(data[offset..], count)
      case Short => corners == None
      case Got(c, rest) => corners == Some(c) && offset + 12 * count <= |data| && rest == data[offset + 12 * count..]
  {
    var read: seq<Corner> := [];
    var i := 0;
    while i < count
      invariant 0 <= i <= count && |read| == i && AreThere(data, offset, read)
    {
      if |data| < offset + 12 * i + 12 {
        CornersShort(data, offset, count);
        return None;
      }
      read := read + [CornerAt(data, offset + 12 * i)];
      i := i + 1;
    }
    CornersHere(data, offset, read);
    corners := Some(read);
  }

  class Reader {
    const data: seq<Byte>
    var offset: int

    ghost predicate Valid()
      reads this
    {
      0 <= offset <= |data|
    }

    // What is left of the file.
    ghost function Left(): seq<Byte>
      reads this
      requires Valid()
    {
      data[offset..]
    }

    constructor (file: seq<Byte>)
      ensures data == file && Valid() && Left() == file
    {
      data, offset := file, 0;
    }

    method NextInt() returns (value: Option<int>)
      requires Valid()
      modifies this
      ensures Valid()
      ensures match ReadInt(old(Left()))
        case Short => value == None
        case Got(i, rest) => value == Some(i) && Left() == rest
    {
      match ReadInt(data[offset..])
      case Short =>
        value := None;
      case Got(i, _) =>
        value := Some(i);
        assert data[offset..][4..] == data[offset + 4..];
        offset := offset + 4;
    }

    method NextFloats(count: int) returns (values: Option<seq<Word>>)
      requires Valid()
      modifies this
      ensures Valid()
      ensures count < 0 ==> values == None
      ensures count >= 0 ==>
        match ReadWords(old(Left()), count)
        case Short => values == None
        case Got(words, rest) => values == Some(words) && Left() == rest
    {
      if count < 0 {
        return None;
      }
      match ReadWords(data[offset..], count)
      case Short =>
        values := None;
      case Got(words, _) =>
        WordsRest(data[offset..], count);
        assert data[offset..][4 * count..] == data[offset + 4 * count..];
        values := Some(words);
        offset := offset + 4 * count;
    }

    method NextCounted() returns (values: Option<seq<Word>>)
      requires Valid()
      modifies this
      ensures Valid()
      ensures match ReadCounted(old(Left()))
        case Short => values == None
        case Got(words, rest) => values == Some(words) && Left() == rest
    {
      var count := NextInt();
      if count == None {
        return None;
      }
      values := NextFloats(count.value);
    }

    // A negative count reads nothing and moves the offset back.
    method NextCorners(count: int) returns (corners: Option<seq<Corner>>)
      requires Valid()
      modifies this
      ensures count < 0 ==> corners == Some([]) && offset == old(offset) + 12 * count
      ensures count >= 0 ==>
        && Valid()
        && match ReadCorners(old(Left()), count)
           case Short => corners == None
           case Got(c, rest) => corners == Some(c) && Left() == rest
    {
      corners := Some([]);
      if count > 0 {
        corners := CornersAt(data, offset, count);
      }
      if corners.Some? {
        offset := offset + 12 * count;
      }
    }
  }

  method ReadLast(reader: Reader, positions: seq<Word>, uvs: seq<Word>, normals: seq<Word>) returns (r: Unpacked)
    requires reader.Valid()
    modifies reader
    ensures r == UnpackCorners(old(reader.Left()), positions, uvs, normals)
  {
    var count := reader.NextInt();
    if count == None {
      return StructError;
    }
    var corners := reader.NextCorners(count.value);
    if corners == None {
      return StructError;
    }
    if reader.offset != |reader.data| {
      return Mismatch;
    }
    r := Unpacked(Mesh(positions, uvs, normals, corners.value));
  }

  // The decoder's reading half.
  method ReadMesh(data: seq<Byte>) returns (r: Unpacked)
    ensures r == Unpack(data)
  {
    var reader := new Reader(data);
    var positions := reader.NextCounted();
    if positions == None {
      return StructError;
    }
    var uvs := reader.NextCounted();
    if uvs == None {
      return StructError;
    }
    var normals := reader.NextCounted();
    if normals == None {
      return StructError;
    }
    r := ReadLast(reader, positions.value, uvs.value, normals.value);
  }
}
