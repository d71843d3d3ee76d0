/** Everything that the trace reader prints, for every file, told address by address from the records alone. */
module TraceOutput {
  import opened Basics
  import opened TraceRecords
  import opened TraceLedger

  // ---- what the records say ----

  // The block that the reader has at an address: a block is not replaced, unless it is reallocated where it is.
  function Block(records: seq<Record>, a: nat): Option<nat> {
    if records == [] then None
    else
      var front, r := records[..|records| - 1], records[|records| - 1];
      var before := Block(front, a);
      match r
      case Malloc(_, size, address) => if a == address && before.None? then Some(size) else before
      case Realloc(_, previous, size, address) =>
        if a == address then (if before.None? || previous == address then Some(size) else before)
        else if a == previous then None
        else before
      case Free(_, address) => if a == address then None else before
  }

  function Blocks(records: seq<Record>): map<nat, nat> {
    map a | a in Touched(records) && Block(records, a).Some? :: Block(records, a).value
  }

  // The numbers of records of each kind, and of those that name a block the reader does not have.
  datatype Counts = Counts(mallocs: nat, reallocs: nat, frees: nat, unknownReallocs: nat, unknownFrees: nat)

  function CountsOf(records: seq<Record>): Counts {
    if records == [] then Counts(0, 0, 0, 0, 0)
    else
      var front, r := records[..|records| - 1], records[|records| - 1];
      var c := CountsOf(front);
      match r
      case Malloc(_, _, _) => c.(mallocs := c.mallocs + 1)
      case Realloc(_, previous, _, _) =>
        if Block(front, previous).Some? then c.(reallocs := c.reallocs + 1)
        else c.(unknownReallocs := c.unknownReallocs + 1)
      case Free(_, address) =>
        if Block(front, address).Some? then c.(frees := c.frees + 1) else c.(unknownFrees := c.unknownFrees + 1)
  }

  // The total at a time, unless that is zero.
  ghost function TotalLine(records: seq<Record>): seq<Event> {
    if Latest(records) == 0 then []
    else [Snapshot(Latest(records), Sum(Blocks(records)) % 0x1_0000_0000_0000_0000, CountsOf(records).unknownFrees)]
  }

  // A record that moves the clock on prints the total before it; one that comes too late says so.
  ghost function ClockLine(front: seq<Record>, time: nat): seq<Event> {
    if time > Latest(front) then TotalLine(front)
    else if time < Latest(front) then [TimeBack(time, Latest(front))]
    else []
  }

  // A block at an address that has one already is reported.
  ghost function RepeatLine(front: seq<Record>, r: Record): seq<Event> {
    match r
    case Malloc(_, size, address) => if Block(front, address).Some? then [RepeatedEntry(address, size)] else []
    case Realloc(_, previous, size, address) =>
      if Block(front, address).Some? && previous != address then [RepeatedEntry(address, size)] else []
    case Free(_, _) => []
  }

  ghost function LinesOf(front: seq<Record>, r: Record): seq<Event> {
    ClockLine(front, r.time) + RepeatLine(front, r)
  }

  ghost function Lines(records: seq<Record>): seq<Event> {
    if records == [] then []
    else Lines(records[..|records| - 1]) + LinesOf(records[..|records| - 1], records[|records| - 1])
  }

  // ---- the reader does that ----

  ghost predicate SameBlocks(records: seq<Record>, live: map<nat, nat>) {
    forall a: nat :: Block(records, a) == if a in live then Some(live[a]) else None
  }

  // The reader's state after some records.
  ghost predicate Told(records: seq<Record>, t: Trace) {
    && SameBlocks(records, t.live) && t.time == Latest(records) && t.out == Lines(records)
    && CountsOf(records) == Counts(t.mallocs, t.reallocs, t.frees, t.unknownReallocs, t.unknownFrees)
  }

  lemma BlockLast(front: seq<Record>, r: Record, a: nat)
    ensures var before := Block(front, a);
      Block(front + [r], a) ==
        match r
        case Malloc(_, size, address) => if a == address && before.None? then Some(size) else before
        case Realloc(_, previous, size, address) =>
          if a == address then (if before.None? || previous == address then Some(size) else before)
          else if a == previous then None
          else before
        case Free(_, address) => if a == address then None else before
  {
    assert (front + [r])[..|front|] == front;
  }

  lemma BlocksNext(front: seq<Record>, r: Record, t: Trace)
    requires SameBlocks(front, t.live)
    ensures SameBlocks(front + [r], Account(t, r).live)
  {
    forall a: nat
      ensures Block(front + [r], a) == if a in Account(t, r).live then Some(Account(t, r).live[a]) else None
    {
      BlockLast(front, r, a);
      assert Block(front, a) == if a in t.live then Some(t.live[a]) else None;
    }
  }

  lemma {:induction false} BlockIsTouched(records: seq<Record>, a: nat)
    requires Block(records, a).Some?
    ensures a in Touched(records)
    decreases |records|
  {
    if records != [] && records[|records| - 1].address != a {
      BlockIsTouched(records[..|records| - 1], a);
    }
  }

  lemma OneMap(records: seq<Record>, live: map<nat, nat>)
    requires SameBlocks(records, live)
    ensures live == Blocks(records)
  {
    forall a: nat
      ensures a in live <==> a in Blocks(records)
    {
      assert Block(records, a) == if a in live then Some(live[a]) else None;
      if a in live {
        BlockIsTouched(records, a);
      }
    }
  }

  lemma CountsNext(front: seq<Record>, r: Record, t: Trace)
    requires SameBlocks(front, t.live)
    requires CountsOf(front) == Counts(t.mallocs, t.reallocs, t.frees, t.unknownReallocs, t.unknownFrees)
    ensures var u := Account(t, r);
      CountsOf(front + [r]) == Counts(u.mallocs, u.reallocs, u.frees, u.unknownReallocs, u.unknownFrees)
  {
    assert (front + [r])[..|front|] == front;
    match r
    case Malloc(_, _, _) =>
    case Realloc(_, previous, _, _) =>
      assert Block(front, previous).Some? <==> previous in t.live;
    case Free(_, address) =>
      assert Block(front, address).Some? <==> address in t.live;
  }

  lemma TotalPrinted(records: seq<Record>, t: Trace)
    requires SameBlocks(records, t.live) && t.time == Latest(records)
    requires t.unknownFrees == CountsOf(records).unknownFrees
    ensures PrintState(t).out == t.out + TotalLine(records) && PrintState(t) == t.(out := PrintState(t).out)
  {
    OneMap(records, t.live);
  }

  lemma AccountPrinted(front: seq<Record>, r: Record, t: Trace)
    requires SameBlocks(front, t.live)
    ensures Account(t, r).out == t.out + RepeatLine(front, r) && Account(t, r).time == t.time
  {
    assert r.address in t.live <==> Block(front, r.address).Some?;
    assert r.Realloc? ==> (r.previous in t.live <==> Block(front, r.previous).Some?);
  }

  lemma ClockPrinted(front: seq<Record>, time: nat, t: Trace)
    requires Told(front, t)
    ensures var u := SetTime(t, time);
      u == t.(time := if time > Latest(front) then time else Latest(front), out := t.out + ClockLine(front, time))
  {
    TotalPrinted(front, t);
  }

  lemma TimeNext(front: seq<Record>, r: Record)
    ensures Latest(front + [r]) == if r.time > Latest(front) then r.time else Latest(front)
    ensures Lines(front + [r]) == Lines(front) + LinesOf(front, r)
  {
    assert (front + [r])[..|front|] == front;
  }

  lemma ToldNext(front: seq<Record>, r: Record, t: Trace)
    requires Told(front, t)
    ensures Told(front + [r], Apply(t, r))
  {
    var u := SetTime(t, r.time);
    ClockPrinted(front, r.time, t);
    TimeNext(front, r);
    BlocksNext(front, r, u);
    CountsNext(front, r, u);
    AccountPrinted(front, r, u);
    assert t.out + ClockLine(front, r.time) + RepeatLine(front, r) == t.out + LinesOf(front, r);
  }

  lemma {:induction false} AllTold(records: seq<Record>)
    ensures Told(records, After(records))
    decreases |records|
  {
    if records != [] {
      var front, r := records[..|records| - 1], records[|records| - 1];
      assert records == front + [r];
      AllTold(front);
      AfterLast(front, r);
      ToldNext(front, r, After(front));
    }
  }

  // The complaint about what is left of a file: a byte that starts no record, as a signed char, or the size of a record
  // cut off.
  function EndLine(rest: seq<Byte>, garbage: bool): seq<Event> {
    if rest == [] then []
    else if garbage then
      var command: int := rest[0];
      [Garbage(if command >= 128 then command - 256 else command)]
    else [CorruptEnd(|rest|)]
  }

  lemma EndPrinted(t: Trace, rest: seq<Byte>, garbage: bool)
    requires garbage ==> rest != []
    ensures Stop(t, rest, garbage) == t.(out := t.out + EndLine(rest, garbage))
  {
  }

  // Whatever a file holds, exactly these lines are printed for it: those of its records, the complaint about its end,
  // the last total, and the counts.
  lemma AllPrinted(file: seq<Byte>)
    ensures var d := Decode(file);
      var c := CountsOf(d.records);
      WholeFile(file).out == Lines(d.records) + EndLine(d.rest, d.garbage) + TotalLine(d.records)
        + [Totals(c.mallocs, c.reallocs, c.frees, c.unknownReallocs)]
  {
    var d := Decode(file);
    var t := After(d.records);
    AllTold(d.records);
    EndPrinted(t, d.rest, d.garbage);
    TotalPrinted(d.records, Stop(t, d.rest, d.garbage));
  }
}
