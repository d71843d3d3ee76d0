/** The file format of the allocation trace: the bytes of records, and that decoding reads them back. */
module TraceFormat {
  import opened TraceRecords

  function Power(k: nat): nat {
    if k == 0 then 1 else 256 * Power(k - 1)
  }

  // A number in k bytes, the low one first.
  function Little(n: nat, k: nat): (r: seq<Byte>)
    ensures |r| == k
    decreases k
  {
    if k == 0 then [] else [n % 256] + Little(n / 256, k - 1)
  }

  lemma LowByte(low: Byte, high: nat, limit: nat)
    ensures (low + 256 * high) % 256 == low && (low + 256 * high) / 256 == high
    ensures high < limit <==> low + 256 * high < 256 * limit
  {
  }

  lemma {:induction false} NumberWritten(n: nat, k: nat)
    requires n < Power(k)
    ensures Number(Little(n, k)) == n
    decreases k
  {
    if k > 0 {
      NumberWritten(n / 256, k - 1);
      assert Little(n, k)[1..] == Little(n / 256, k - 1);
    }
  }

  lemma {:induction false} BytesRead(bytes: seq<Byte>)
    ensures Number(bytes) < Power(|bytes|) && Little(Number(bytes), |bytes|) == bytes
  {
    if bytes != [] {
      BytesRead(bytes[1..]);
      LowByte(bytes[0], Number(bytes[1..]), Power(|bytes| - 1));
      assert bytes == [bytes[0]] + bytes[1..];
    }
  }

  // ---- records ----

  function Time(n: nat): (r: seq<Byte>)
    ensures |r| == 4
  {
    Little(n, 4)
  }

  function Field(n: nat): (r: seq<Byte>)
    ensures |r| == 8
  {
    Little(n, 8)
  }

  // A record is its command, the time, and then the fields.
  function Written(r: Record): seq<Byte> {
    match r
    case Malloc(time, size, address) => [1] + Time(time) + Field(size) + Field(address)
    case Realloc(time, previous, size, address) => [2] + Time(time) + Field(previous) + Field(size) + Field(address)
    case Free(time, address) => [3] + Time(time) + Field(address)
  }

  predicate IsTime(n: nat) {
    n < 0x1_0000_0000
  }

  predicate IsField(n: nat) {
    n < 0x1_0000_0000_0000_0000
  }

  predicate Fits(r: Record) {
    match r
    case Malloc(time, size, address) => IsTime(time) && IsField(size) && IsField(address)
    case Realloc(time, previous, size, address) =>
      IsTime(time) && IsField(previous) && IsField(size) && IsField(address)
    case Free(time, address) => IsTime(time) && IsField(address)
  }

  lemma Powers()
    ensures Power(4) == 0x1_0000_0000 && Power(8) == 0x1_0000_0000_0000_0000
  {
    assert Power(2) == 0x1_0000;
    assert Power(4) == 256 * Power(3) && Power(3) == 256 * Power(2);
    assert Power(5) == 256 * Power(4) && Power(6) == 256 * Power(5);
    assert Power(7) == 256 * Power(6) && Power(8) == 256 * Power(7);
  }

  lemma TimeWritten(n: nat)
    requires IsTime(n)
    ensures Number(Time(n)) == n
  {
    Powers();
    NumberWritten(n, 4);
  }

  lemma FieldWritten(n: nat)
    requires IsField(n)
    ensures Number(Field(n)) == n
  {
    Powers();
    NumberWritten(n, 8);
  }

  lemma TimeRead(bytes: seq<Byte>)
    requires |bytes| == 4
    ensures IsTime(Number(bytes)) && Time(Number(bytes)) == bytes
  {
    Powers();
    BytesRead(bytes);
  }

  lemma FieldRead(bytes: seq<Byte>)
    requires |bytes| == 8
    ensures IsField(Number(bytes)) && Field(Number(bytes)) == bytes
  {
    Powers();
    BytesRead(bytes);
  }

  // Where the parts of a record lie.
  lemma Start(command: Byte, time: seq<Byte>, fields: seq<Byte>, rest: seq<Byte>)
    requires |time| == 4
    ensures var bytes := [command] + time + (fields + rest);
      bytes[0] == command && bytes[1..5] == time && bytes[5..] == fields + rest
  {
  }

  lemma FieldsAt(bytes: seq<Byte>, fields: seq<seq<Byte>>, rest: seq<Byte>)
    requires |bytes| >= 5 && 1 <= |fields| <= 3 && forall f <- fields :: |f| == 8
    requires bytes[5..] == (if |fields| == 1 then fields[0]
      else if |fields| == 2 then fields[0] + fields[1] else fields[0] + fields[1] + fields[2]) + rest
    ensures |bytes| >= 5 + 8 * |fields| && bytes[5 + 8 * |fields|..] == rest
    ensures bytes[5..13] == fields[0]
    ensures |fields| >= 2 ==> bytes[13..21] == fields[1]
    ensures |fields| == 3 ==> bytes[21..29] == fields[2]
  {
    var behind := bytes[5..];
    assert |behind| == 8 * |fields| + |rest|;
    assert bytes[5..13] == behind[..8] && bytes[5 + 8 * |fields|..] == behind[8 * |fields|..];
    assert |fields| >= 2 ==> bytes[13..21] == behind[8..16];
    assert |fields| == 3 ==> bytes[21..29] == behind[16..24];
  }

  // The bytes of a record, with what comes behind it.
  function Bytes(r: Record, rest: seq<Byte>): seq<Byte> {
    match r
    case Malloc(time, size, address) => [1] + Time(time) + (Field(size) + Field(address) + rest)
    case Realloc(time, previous, size, address) =>
      [2] + Time(time) + (Field(previous) + Field(size) + Field(address) + rest)
    case Free(time, address) => [3] + Time(time) + (Field(address) + rest)
  }

  lemma BytesAre(r: Record, rest: seq<Byte>)
    ensures Written(r) + rest == Bytes(r, rest)
  {
    match r
    case Malloc(time, size, address) => Grouping([1] + Time(time), Field(size), Field(address), [], rest);
    case Realloc(time, previous, size, address) =>
      Grouping([2] + Time(time), Field(previous), Field(size), Field(address), rest);
    case Free(time, address) => Grouping([3] + Time(time), Field(address), [], [], rest);
  }

  lemma Grouping(start: seq<Byte>, x: seq<Byte>, y: seq<Byte>, z: seq<Byte>, rest: seq<Byte>)
    ensures start + x + rest == start + (x + rest)
    ensures start + x + y + rest == start + (x + y + rest)
    ensures start + x + y + z + rest == start + (x + y + z + rest)
  {
  }

  // Where the parts of these bytes are.
  ghost predicate PartsAre(bytes: seq<Byte>, command: Byte, time: seq<Byte>, fields: seq<seq<Byte>>, rest: seq<Byte>) {
    && |bytes| == 5 + 8 * |fields| + |rest| && bytes[0] == command && bytes[1..5] == time
    && bytes[5 + 8 * |fields|..] == rest
    && (|fields| >= 1 ==> bytes[5..13] == fields[0])
    && (|fields| >= 2 ==> bytes[13..21] == fields[1])
    && (|fields| >= 3 ==> bytes[21..29] == fields[2])
  }

  lemma FieldsFollow(command: Byte, time: seq<Byte>, joined: seq<Byte>, fields: seq<seq<Byte>>, rest: seq<Byte>)
    requires |time| == 4 && 1 <= |fields| <= 3 && forall f <- fields :: |f| == 8
    requires joined == (if |fields| == 1 then fields[0]
      else if |fields| == 2 then fields[0] + fields[1] else fields[0] + fields[1] + fields[2])
    ensures PartsAre([command] + time + (joined + rest), command, time, fields, rest)
  {
    Start(command, time, joined, rest);
    FieldsAt([command] + time + (joined + rest), fields, rest);
  }

  ghost predicate RecordParts(bytes: seq<Byte>, r: Record, rest: seq<Byte>) {
    match r
    case Malloc(time, size, address) => PartsAre(bytes, 1, Time(time), [Field(size), Field(address)], rest)
    case Realloc(time, previous, size, address) =>
      PartsAre(bytes, 2, Time(time), [Field(previous), Field(size), Field(address)], rest)
    case Free(time, address) => PartsAre(bytes, 3, Time(time), [Field(address)], rest)
  }

  lemma BytesParts(r: Record, rest: seq<Byte>)
    ensures RecordParts(Bytes(r, rest), r, rest)
  {
    match r
    case Malloc(time, size, address) =>
      FieldsFollow(1, Time(time), Field(size) + Field(address), [Field(size), Field(address)], rest);
    case Realloc(time, previous, size, address) =>
      FieldsFollow(2, Time(time), Field(previous) + Field(size) + Field(address),
        [Field(previous), Field(size), Field(address)], rest);
    case Free(time, address) =>
      FieldsFollow(3, Time(time), Field(address), [Field(address)], rest);
  }

  // What a record's bytes are read as.
  lemma RecordWritten(r: Record, bytes: seq<Byte>, rest: seq<Byte>)
    requires Fits(r) && bytes == Bytes(r, rest)
    ensures bytes != [] && 0 < EntrySize(bytes[0]) <= |bytes|
    ensures ReadRecord(bytes) == r && bytes[EntrySize(bytes[0])..] == rest
  {
    BytesParts(r, rest);
    TimeWritten(r.time);
    FieldWritten(r.address);
    if r.Realloc? {
      FieldWritten(r.previous);
    }
    if !r.Free? {
      FieldWritten(r.size);
    }
  }

  lemma Cut(bytes: seq<Byte>)
    requires |bytes| >= 13
    ensures bytes == [bytes[0]] + bytes[1..5] + (bytes[5..13] + bytes[13..])
    ensures |bytes| >= 21 ==> bytes[13..] == bytes[13..21] + bytes[21..]
    ensures |bytes| >= 29 ==> bytes[21..] == bytes[21..29] + bytes[29..]
  {
  }

  lemma Grouped(x: seq<Byte>, y: seq<Byte>, z: seq<Byte>, rest: seq<Byte>)
    ensures x + (y + rest) == x + y + rest && x + (y + (z + rest)) == x + y + z + rest
  {
  }

  // What is read as a record is that record, written.
  lemma RecordRead(bytes: seq<Byte>)
    requires bytes != [] && 0 < EntrySize(bytes[0]) <= |bytes|
    ensures Fits(ReadRecord(bytes)) && bytes == Bytes(ReadRecord(bytes), bytes[EntrySize(bytes[0])..])
  {
    Cut(bytes);
    TimeRead(bytes[1..5]);
    FieldRead(bytes[5..13]);
    if bytes[0] == 1 {
      FieldRead(bytes[13..21]);
      Grouped(bytes[5..13], bytes[13..21], [], bytes[21..]);
    } else if bytes[0] == 2 {
      FieldRead(bytes[13..21]);
      FieldRead(bytes[21..29]);
      Grouped(bytes[5..13], bytes[13..21], bytes[21..29], bytes[29..]);
    }
  }

  // ---- files ----

  function AllWritten(records: seq<Record>): seq<Byte> {
    if records == [] then [] else Written(records[0]) + AllWritten(records[1..])
  }

  predicate AllFit(records: seq<Record>) {
    forall r <- records :: Fits(r)
  }

  lemma DecodeFirst(bytes: seq<Byte>, r: Record, rest: seq<Byte>)
    requires bytes != [] && 0 < EntrySize(bytes[0]) <= |bytes|
    requires ReadRecord(bytes) == r && bytes[EntrySize(bytes[0])..] == rest
    ensures var d := Decode(rest); Decode(bytes) == Decoded([r] + d.records, d.rest, d.garbage)
  {
  }

  lemma OneMore(x: seq<Record>, y: seq<Record>)
    requires x != []
    ensures [x[0]] + (x[1..] + y) == x + y
  {
  }

  lemma FirstWritten(records: seq<Record>, rest: seq<Byte>)
    requires records != []
    ensures AllWritten(records) + rest == Bytes(records[0], AllWritten(records[1..]) + rest)
  {
    var first, more := Written(records[0]), AllWritten(records[1..]);
    Grouping(first, more, [], [], rest);
    BytesAre(records[0], more + rest);
  }

  // Written records are decoded as they are, whatever comes behind them.
  lemma {:induction false} RecordsRead(records: seq<Record>, rest: seq<Byte>)
    requires AllFit(records)
    ensures var d := Decode(rest);
      Decode(AllWritten(records) + rest) == Decoded(records + d.records, d.rest, d.garbage)
    decreases |records|
  {
    var d := Decode(rest);
    if records == [] {
      assert AllWritten(records) + rest == rest && records + d.records == d.records;
    } else {
      var bytes, behind := AllWritten(records) + rest, AllWritten(records[1..]) + rest;
      FirstWritten(records, rest);
      RecordWritten(records[0], bytes, behind);
      DecodeFirst(bytes, records[0], behind);
      RecordsRead(records[1..], rest);
      OneMore(records, d.records);
    }
  }

  // Bytes that start no whole record: none, garbage, or less than the record of their command.
  predicate StartsNoRecord(bytes: seq<Byte>) {
    bytes == []
    || (bytes[0] == 1 && |bytes| < 21) || (bytes[0] == 2 && |bytes| < 29) || (bytes[0] == 3 && |bytes| < 13)
    || bytes[0] == 0 || bytes[0] > 3
  }

  lemma StopsAtRest(bytes: seq<Byte>)
    requires bytes == [] || EntrySize(bytes[0]) == 0 || EntrySize(bytes[0]) > |bytes|
    ensures Decode(bytes).records == [] && Decode(bytes).rest == bytes && StartsNoRecord(bytes)
    ensures Decode(bytes).garbage <==> bytes != [] && (bytes[0] == 0 || bytes[0] > 3)
  {
  }

  // Every file is the records decoded from it, written one after another, and a rest that starts no record.
  lemma {:induction false} FileIsWritten(file: seq<Byte>)
    ensures var d := Decode(file);
      && file == AllWritten(d.records) + d.rest && AllFit(d.records) && StartsNoRecord(d.rest)
      && (d.garbage <==> d.rest != [] && (d.rest[0] == 0 || d.rest[0] > 3))
    decreases |file|
  {
    if file == [] || EntrySize(file[0]) == 0 || EntrySize(file[0]) > |file| {
      StopsAtRest(file);
      assert AllWritten([]) + file == file;
    } else {
      var r, rest := ReadRecord(file), file[EntrySize(file[0])..];
      RecordRead(file);
      DecodeFirst(file, r, rest);
      FileIsWritten(rest);
      var d, records := Decode(rest), [r] + Decode(rest).records;
      assert records[0] == r && records[1..] == d.records;
      FirstWritten(records, d.rest);
    }
  }
}
