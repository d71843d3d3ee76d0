/** The trace reader: a fixed buffer, filled by reads of any size. */
module TraceReader {
  import opened Basics
  import opened TraceRecords

  const BUFFER_SIZE: nat := 1024 * 1024

  class Reader {
    const buffer: array<Byte>
    var live: map<nat, nat>
    var time: nat
    var mallocs: nat
    var reallocs: nat
    var frees: nat
    var unknownReallocs: nat
    var unknownFrees: nat
    var out: seq<Event>

    constructor ()
      ensures View() == EMPTY && buffer.Length == BUFFER_SIZE && fresh(buffer)
    {
      buffer := new Byte[BUFFER_SIZE](i => 0);
      live, time, out := map[], 0, [];
      mallocs, reallocs, frees, unknownReallocs, unknownFrees := 0, 0, 0, 0, 0;
    }

    function View(): Trace
      reads this
    {
      Trace(time, live, mallocs, reallocs, frees, unknownReallocs, unknownFrees, out)
    }

    // The sum is taken in 64 bits, in the map's own order.
    method Full() returns (full: nat)
      ensures full == Wrap(Sum(live))
    {
      full := 0;
      var left := live.Keys;
      ghost var done: nat := 0;
      while left != {}
        invariant left <= live.Keys
        invariant done + SumOver(live, left) == Sum(live)
        invariant full == Wrap(done)
      {
        var address :| address in left;
        SumWithout(live, left, address);
        WrappedSum(full, done, live[address], done + live[address]);
        done := done + live[address];
        full := WrapAdd(full, live[address]);
        left := left - {address};
      }
    }

    method PrintState()
      modifies this`out
      ensures View() == TraceRecords.PrintState(old(View()))
    {
      if time == 0 {
        return;
      }
      var full := Full();
      out := out + [Snapshot(time, full, unknownFrees)];
    }

    method Add(address: nat, size: nat)
      modifies this`out, this`live
      ensures View() == TraceRecords.Add(old(View()), address, size)
    {
      if address in live {
        out := out + [RepeatedEntry(address, size)];
        return;
      }
      live := live[address := size];
    }

    method ParseMalloc(at: nat, ghost r: Record)
      requires at + 16 <= buffer.Length
      requires r.Malloc? && r.size == Number(buffer[at..at + 8]) && r.address == Number(buffer[at + 8..at + 16])
      modifies this
      ensures View() == Account(old(View()), r)
    {
      var size := Number(buffer[at..at + 8]);
      var address := Number(buffer[at + 8..at + 16]);
      Add(address, size);
      mallocs := mallocs + 1;
    }

    method ParseRealloc(at: nat, ghost r: Record)
      requires at + 24 <= buffer.Length
      requires r.Realloc? && r.previous == Number(buffer[at..at + 8])
      requires r.size == Number(buffer[at + 8..at + 16]) && r.address == Number(buffer[at + 16..at + 24])
      modifies this
      ensures View() == Account(old(View()), r)
    {
      var previous := Number(buffer[at..at + 8]);
      var size := Number(buffer[at + 8..at + 16]);
      var address := Number(buffer[at + 16..at + 24]);
      if previous !in live {
        unknownReallocs := unknownReallocs + 1;
        Add(address, size);
      } else if previous != address {
        live := live - {previous};
        Add(address, size);
        reallocs := reallocs + 1;
      } else {
        live := live[previous := size];
        reallocs := reallocs + 1;
      }
    }

    method ParseFree(at: nat, ghost r: Record)
      requires at + 8 <= buffer.Length
      requires r.Free? && r.address == Number(buffer[at..at + 8])
      modifies this
      ensures View() == Account(old(View()), r)
    {
      var address := Number(buffer[at..at + 8]);
      if address !in live {
        unknownFrees := unknownFrees + 1;
      } else {
        live := live - {address};
        frees := frees + 1;
      }
    }

    method ParseTime(newTime: nat)
      modifies this
      ensures View() == SetTime(old(View()), newTime)
    {
      if newTime > time {
        PrintState();
        time := newTime;
      } else if newTime < time {
        out := out + [TimeBack(newTime, time)];
      }
    }

    // One whole record at the start of the given range.
    method ParseRecord(at: nat, end: nat, ghost start: Trace, ghost bytes: seq<Byte>) returns (next: nat)
      requires at < end <= buffer.Length && 0 < EntrySize(buffer[at]) <= end - at
      requires SameEnd(start, bytes, View(), buffer[at..end])
      modifies this
      ensures next == at + EntrySize(buffer[at])
      ensures View() == Apply(old(View()), ReadRecord(buffer[at..end]))
      ensures SameEnd(start, bytes, View(), buffer[next..end])
    {
      next := at + EntrySize(buffer[at]);
      DecodeOne(View(), buffer[at..end]);
      assert buffer[at..end][EntrySize(buffer[at])..] == buffer[next..end];
      ghost var r := ReadRecord(buffer[at..end]);
      var command := buffer[at];
      Slice(buffer[..], at, end, 1, 5);
      Slice(buffer[..], at, end, 5, 13);
      if command != 3 {
        Slice(buffer[..], at, end, 13, 21);
      }
      if command == 2 {
        Slice(buffer[..], at, end, 21, 29);
      }
      ParseTime(Number(buffer[at + 1..at + 5]));
      if command == 1 {
        ParseMalloc(at + 5, r);
      } else if command == 2 {
        ParseRealloc(at + 5, r);
      } else {
        ParseFree(at + 5, r);
      }
    }

    // Returns the number of bytes parsed, or -1 on garbage.
    method Parse(end: nat) returns (result: int)
      requires end <= buffer.Length
      modifies this
      ensures var d := Decode(buffer[..end]); var t := ApplyAll(old(View()), d.records);
        if d.garbage then result == -1 && View() == Stop(t, d.rest, true)
        else 0 <= result <= end && buffer[result..end] == d.rest && View() == t
    {
      ghost var bytes := buffer[..end];
      ghost var start := View();
      var at := 0;
      while at < end
        invariant at <= end
        invariant SameEnd(start, bytes, View(), buffer[at..end])
      {
        var command := buffer[at];
        var entry := EntrySize(command);
        if entry == 0 {
          out := out + [Garbage(Signed(command))];
          return -1;
        }
        if end - at < entry {
          break;
        }
        at := ParseRecord(at, end, start, bytes);
      }
      result := at;
    }

    // Parses the buffer and moves what is left to its front; the run over these bytes and any that follow goes on.
    method ParseFront(data: nat, ghost after: seq<Byte>, ghost target: Trace) returns (parsed: int)
      requires data <= buffer.Length && RunOver(View(), buffer[..data] + after) == target
      modifies this, buffer
      ensures -1 <= parsed <= data
      ensures parsed < 0 ==> Finish(View()) == target
      ensures parsed >= 0 ==> Unparsed(buffer[..data - parsed])
      ensures parsed >= 0 ==> RunOver(View(), buffer[..data - parsed] + after) == target
    {
      AfterParse(View(), buffer[..data], after, target);
      ghost var rest := Decode(buffer[..data]).rest;
      parsed := Parse(data);
      if parsed >= 0 {
        if data - parsed > 0 {
          Move(parsed, data - parsed);
        }
        assert buffer[..data - parsed] == rest;
      }
    }

    // Whether the file's end, from this state on, gives the target.
    ghost predicate Remains(data: nat, file: seq<Byte>, pos: nat, target: Trace)
      reads this, buffer
    {
      && data <= buffer.Length == BUFFER_SIZE && pos <= |file|
      && Unparsed(buffer[..data])
      && RunOver(View(), buffer[..data] + file[pos..]) == target
    }

    // One turn of the loop: a read for the free part of the buffer, then a parse.
    method Turn(data: nat, file: seq<Byte>, pos: nat, cut: nat, ghost target: Trace)
      returns (stop: bool, newData: nat, newPos: nat)
      requires Remains(data, file, pos, target)
      modifies this, buffer
      ensures stop ==> Finish(View()) == target
      ensures !stop ==> newPos > pos && Remains(newData, file, newPos, target)
    {
      ghost var left := buffer[..data];
      newData, newPos := Read(data, file, pos, cut, target);
      if newPos == pos {
        assert left + file[pos..] == left;
        LeftoverOnly(View(), left);
        if data != 0 {
          out := out + [CorruptEnd(data)];
        }
        return true, newData, newPos;
      }
      var parsed := ParseFront(newData, file[newPos..], target);
      if parsed < 0 {
        return true, newData, newPos;
      }
      return false, newData - parsed, newPos;
    }

    // The result is that of one pass over the file, however the reads cut it.
    method Run(file: seq<Byte>, cut: nat -> nat)
      requires buffer.Length == BUFFER_SIZE && View() == EMPTY
      modifies this, buffer
      ensures View() == WholeFile(file)
    {
      var data: nat := 0;
      var pos: nat, round := 0, 0;
      var stop := false;
      assert buffer[..0] + file[0..] == file;
      while !stop
        invariant stop ==> Finish(View()) == WholeFile(file)
        invariant !stop ==> Remains(data, file, pos, WholeFile(file))
        decreases !stop, |file| - pos
      {
        stop, data, pos := Turn(data, file, pos, cut(round), WholeFile(file));
        round := round + 1;
      }
      PrintTotals();
    }

    method PrintTotals()
      modifies this`out
      ensures View() == Finish(old(View()))
    {
      PrintState();
      out := out + [Totals(mallocs, reallocs, frees, unknownReallocs)];
    }

    // fread: a chunk of any size from one byte to what was asked for and is left.
    method Read(data: nat, file: seq<Byte>, pos: nat, cut: nat, ghost target: Trace)
      returns (newData: nat, newPos: nat)
      requires Remains(data, file, pos, target)
      modifies buffer
      ensures newData - data == newPos - pos >= 0
      ensures newPos == pos <==> pos == |file|
      ensures newPos <= |file| && newData <= buffer.Length
      ensures buffer[..newData] == old(buffer[..data]) + file[pos..newPos]
      ensures RunOver(View(), buffer[..newData] + file[newPos..]) == target
    {
      var read := Min(1 + cut, Min(buffer.Length - data, |file| - pos));
      newData, newPos := data + read, pos + read;
      forall i | 0 <= i < read {
        buffer[data + i] := file[pos + i];
      }
      assert buffer[..newData] == old(buffer[..data]) + file[pos..newPos];
      assert buffer[..newData] + file[newPos..] == old(buffer[..data] + file[pos..]);
    }

    // memmove of the leftover to the front.
    method Move(from: nat, count: nat)
      requires from + count <= buffer.Length
      modifies buffer
      ensures buffer[..count] == old(buffer[from..from + count])
    {
      forall i | 0 <= i < count {
        buffer[i] := buffer[from + i];
      }
    }
  }

  lemma WrappedSum(full: nat, x: nat, y: nat, z: nat)
    requires full == Wrap(x) && z == x + y
    ensures WrapAdd(full, y) == Wrap(z)
  {
    assert z == x / TWO64 * TWO64 + (full + y);
    WrapMultiple(full + y, x / TWO64);
  }

  lemma WrapMultiple(z: nat, k: nat)
    ensures Wrap(k * TWO64 + z) == Wrap(z)
  {
  }

  lemma Slice(bytes: seq<Byte>, at: nat, end: nat, i: nat, j: nat)
    requires at <= end <= |bytes| && i <= j <= end - at
    ensures bytes[at..end][i..j] == bytes[at + i..at + j]
  {
    var x, y := bytes[at..end][i..j], bytes[at + i..at + j];
    assert |x| == |y| && forall k :: 0 <= k < |x| ==> x[k] == bytes[at + i + k];
  }

  // Parsing the bytes x from t and the bytes y from u ends alike.
  ghost predicate SameEnd(t: Trace, x: seq<Byte>, u: Trace, y: seq<Byte>) {
    var d, e := Decode(x), Decode(y);
    d.rest == e.rest && d.garbage == e.garbage && ApplyAll(t, d.records) == ApplyAll(u, e.records)
  }

  lemma DecodeOne(t: Trace, bytes: seq<Byte>)
    requires bytes != [] && 0 < EntrySize(bytes[0]) <= |bytes|
    ensures SameEnd(t, bytes, Apply(t, ReadRecord(bytes)), bytes[EntrySize(bytes[0])..])
  {
    var e := Decode(bytes[EntrySize(bytes[0])..]);
    assert ([ReadRecord(bytes)] + e.records)[1..] == e.records;
  }

  ghost predicate Unparsed(left: seq<Byte>) {
    Decode(left) == Decoded([], left, false)
  }

  // What a parse of these bytes leaves leads to the same end.
  lemma AfterParse(t: Trace, bytes: seq<Byte>, after: seq<Byte>, target: Trace)
    requires RunOver(t, bytes + after) == target
    ensures var d := Decode(bytes); var u := ApplyAll(t, d.records);
      if d.garbage then Finish(Stop(u, d.rest, true)) == target
      else Unparsed(d.rest) && RunOver(u, d.rest + after) == target
  {
    RunOverAppend(t, bytes, after);
    RestUnparsed(bytes);
  }

  lemma {:induction false} RestUnparsed(bytes: seq<Byte>)
    ensures var d := Decode(bytes); !d.garbage ==> Unparsed(d.rest)
    decreases |bytes|
  {
    if bytes != [] && 0 < EntrySize(bytes[0]) <= |bytes| {
      RestUnparsed(bytes[EntrySize(bytes[0])..]);
    }
  }

  // A leftover alone parses to nothing.
  lemma LeftoverOnly(t: Trace, left: seq<Byte>)
    requires Unparsed(left)
    ensures RunOver(t, left) == Finish(Stop(t, left, false))
  {
  }
}
