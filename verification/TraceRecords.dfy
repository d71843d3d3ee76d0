/** The allocation trace: its binary records and what one of them does to the reader's state. */
module TraceRecords {

  type Byte = b: int | 0 <= b < 256

  const TWO64: nat := 0x1_0000_0000_0000_0000

  // A sum as uint64 keeps it.
  function Wrap(n: nat): nat {
    n % TWO64
  }

  function WrapAdd(x: nat, y: nat): nat {
    Wrap(x + y)
  }

  datatype Record =
    | Malloc(time: nat, size: nat, address: nat)
    | Realloc(time: nat, previous: nat, size: nat, address: nat)
    | Free(time: nat, address: nat)

  // A line of output.
  datatype Event =
    | Snapshot(time: nat, total: nat, unknownFrees: nat)
    | RepeatedEntry(address: nat, size: nat)
    | TimeBack(time: nat, after: nat)
    | Garbage(command: int)
    | CorruptEnd(left: nat)
    | Totals(mallocs: nat, reallocs: nat, frees: nat, unknownReallocs: nat)

  datatype Trace = Trace(
    time: nat,
    live: map<nat, nat>,
    mallocs: nat,
    reallocs: nat,
    frees: nat,
    unknownReallocs: nat,
    unknownFrees: nat,
    out: seq<Event>)

  const EMPTY: Trace := Trace(0, map[], 0, 0, 0, 0, 0, [])

  // ---- bytes to records ----

  // A little-endian number.
  function Number(bytes: seq<Byte>): nat {
    if bytes == [] then 0 else bytes[0] + 256 * Number(bytes[1..])
  }

  // Zero for a byte that starts no record.
  function EntrySize(command: Byte): (n: nat)
    ensures n <= 29
  {
    if command == 1 then 5 + 2 * 8
    else if command == 2 then 5 + 3 * 8
    else if command == 3 then 5 + 8
    else 0
  }

  function ReadRecord(bytes: seq<Byte>): Record
    requires bytes != [] && 0 < EntrySize(bytes[0]) <= |bytes|
  {
    var time := Number(bytes[1..5]);
    if bytes[0] == 1 then Malloc(time, Number(bytes[5..13]), Number(bytes[13..21]))
    else if bytes[0] == 2 then Realloc(time, Number(bytes[5..13]), Number(bytes[13..21]), Number(bytes[21..29]))
    else Free(time, Number(bytes[5..13]))
  }

  // The whole records in front, and what is left: nothing, the start of a record, or garbage.
  datatype Decoded = Decoded(records: seq<Record>, rest: seq<Byte>, garbage: bool)

  function Decode(bytes: seq<Byte>): (d: Decoded)
    ensures !d.garbage ==> |d.rest| <= 28
    ensures d.garbage ==> d.rest != []
    ensures |d.rest| <= |bytes|
    decreases |bytes|
  {
    if bytes == [] then Decoded([], [], false)
    else
      var size := EntrySize(bytes[0]);
      if size == 0 then Decoded([], bytes, true)
      else if |bytes| < size then Decoded([], bytes, false)
      else
        var d := Decode(bytes[size..]);
        Decoded([ReadRecord(bytes)] + d.records, d.rest, d.garbage)
  }

  // Decoding goes on from what was left when more bytes follow.
  function Resume(d: Decoded, y: seq<Byte>): Decoded {
    if d.garbage then Decoded(d.records, d.rest + y, true)
    else
      var e := Decode(d.rest + y);
      Decoded(d.records + e.records, e.rest, e.garbage)
  }

  // More bytes only continue what was left: decoding may stop and go on anywhere.
  lemma {:induction false} DecodeAppend(x: seq<Byte>, y: seq<Byte>)
    ensures Decode(x + y) == Resume(Decode(x), y)
    decreases |x|
  {
    if x == [] {
      assert x + y == y;
      assert [] + Decode(y).records == Decode(y).records;
    } else {
      var size := EntrySize(x[0]);
      assert (x + y)[0] == x[0];
      if size == 0 {
      } else if |x| < size {
        assert Decode(x) == Decoded([], x, false);
        assert [] + Decode(x + y).records == Decode(x + y).records;
      } else {
        var tail := Decode(x[size..]);
        assert (x + y)[size..] == x[size..] + y;
        DecodeAppend(x[size..], y);
        SameRecord(x, y);
        ResumeAfter(ReadRecord(x), tail, y);
      }
    }
  }

  lemma ResumeAfter(r: Record, d: Decoded, y: seq<Byte>)
    ensures Resume(d.(records := [r] + d.records), y) == Resume(d, y).(records := [r] + Resume(d, y).records)
  {
    if !d.garbage {
      var e := Decode(d.rest + y);
      assert [r] + d.records + e.records == [r] + (d.records + e.records);
    }
  }

  lemma SameRecord(x: seq<Byte>, y: seq<Byte>)
    requires x != [] && 0 < EntrySize(x[0]) <= |x|
    ensures ReadRecord(x + y) == ReadRecord(x)
  {
    var z := x + y;
    assert z[1..5] == x[1..5] && z[5..13] == x[5..13];
    if x[0] != 3 {
      assert z[13..21] == x[13..21];
    }
    if x[0] == 2 {
      assert z[21..29] == x[21..29];
    }
  }

  // ---- records to states ----

  ghost function SumOver(live: map<nat, nat>, keys: set<nat>): nat
    requires keys <= live.Keys
  {
    if keys == {} then 0 else var k :| k in keys; live[k] + SumOver(live, keys - {k})
  }

  lemma {:induction false} SumWithout(live: map<nat, nat>, keys: set<nat>, k: nat)
    requires k in keys && keys <= live.Keys
    ensures SumOver(live, keys) == live[k] + SumOver(live, keys - {k})
  {
    var p :| p in keys && SumOver(live, keys) == live[p] + SumOver(live, keys - {p});
    if p != k {
      SumWithout(live, keys - {p}, k);
      SumWithout(live, keys - {k}, p);
      assert keys - {p} - {k} == keys - {k} - {p};
    }
  }

  // All live bytes.
  ghost function Sum(live: map<nat, nat>): nat {
    SumOver(live, live.Keys)
  }

  ghost function PrintState(t: Trace): Trace {
    if t.time == 0 then t
    else t.(out := t.out + [Snapshot(t.time, Wrap(Sum(t.live)), t.unknownFrees)])
  }

  ghost function SetTime(t: Trace, time: nat): Trace {
    if time > t.time then PrintState(t).(time := time)
    else if time < t.time then t.(out := t.out + [TimeBack(time, t.time)])
    else t
  }

  function Add(t: Trace, address: nat, size: nat): Trace {
    if address in t.live then t.(out := t.out + [RepeatedEntry(address, size)])
    else t.(live := t.live[address := size])
  }

  function Account(t: Trace, r: Record): Trace {
    match r
    case Malloc(_, size, address) =>
      var u := Add(t, address, size);
      u.(mallocs := u.mallocs + 1)
    case Realloc(_, previous, size, address) =>
      if previous !in t.live then
        Add(t.(unknownReallocs := t.unknownReallocs + 1), address, size)
      else if previous != address then
        var u := Add(t.(live := t.live - {previous}), address, size);
        u.(reallocs := u.reallocs + 1)
      else
        t.(live := t.live[address := size], reallocs := t.reallocs + 1)
    case Free(_, address) =>
      if address !in t.live then t.(unknownFrees := t.unknownFrees + 1)
      else t.(live := t.live - {address}, frees := t.frees + 1)
  }

  ghost function Apply(t: Trace, r: Record): Trace {
    Account(SetTime(t, r.time), r)
  }

  ghost function ApplyAll(t: Trace, records: seq<Record>): Trace
    decreases |records|
  {
    if records == [] then t else ApplyAll(Apply(t, records[0]), records[1..])
  }

  lemma {:induction false} ApplyAppend(t: Trace, x: seq<Record>, y: seq<Record>)
    ensures ApplyAll(t, x + y) == ApplyAll(ApplyAll(t, x), y)
    decreases |x|
  {
    if x == [] {
      assert x + y == y;
    } else {
      assert (x + y)[1..] == x[1..] + y;
      ApplyAppend(Apply(t, x[0]), x[1..], y);
    }
  }

  // ---- one pass over a whole file ----

  function Signed(b: Byte): int {
    if b < 128 then b else b - 256
  }

  ghost function Stop(t: Trace, rest: seq<Byte>, garbage: bool): Trace
    requires garbage ==> rest != []
  {
    if garbage then t.(out := t.out + [Garbage(Signed(rest[0]))])
    else if rest != [] then t.(out := t.out + [CorruptEnd(|rest|)])
    else t
  }

  ghost function Finish(t: Trace): Trace {
    var u := PrintState(t);
    u.(out := u.out + [Totals(u.mallocs, u.reallocs, u.frees, u.unknownReallocs)])
  }

  // The run over these bytes, from a given state to the end.
  ghost function RunOver(t: Trace, bytes: seq<Byte>): Trace {
    var d := Decode(bytes);
    Finish(Stop(ApplyAll(t, d.records), d.rest, d.garbage))
  }

  ghost function WholeFile(file: seq<Byte>): Trace {
    RunOver(EMPTY, file)
  }

  // The run over more bytes is the run from the state after some of them.
  lemma RunOverAppend(t: Trace, x: seq<Byte>, y: seq<Byte>)
    ensures var d := Decode(x); var u := ApplyAll(t, d.records);
      RunOver(t, x + y) == if d.garbage then Finish(Stop(u, d.rest, true)) else RunOver(u, d.rest + y)
  {
    var d := Decode(x);
    DecodeAppend(x, y);
    ApplyAppend(t, d.records, Decode(d.rest + y).records);
  }
}
