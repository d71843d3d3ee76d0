/** What the counters and the map of the trace reader add up to. */
module TraceLedger {
  import opened Basics
  import opened TraceRecords

  ghost function After(records: seq<Record>): Trace {
    ApplyAll(EMPTY, records)
  }

  lemma AfterLast(records: seq<Record>, r: Record)
    ensures After(records + [r]) == Apply(After(records), r)
  {
    ApplyAppend(EMPTY, records, [r]);
  }

  // ---- conservation ----

  function Repeats(out: seq<Event>): nat {
    if out == [] then 0 else Repeats(out[..|out| - 1]) + (if out[|out| - 1].RepeatedEntry? then 1 else 0)
  }

  lemma RepeatsLast(out: seq<Event>, e: Event)
    ensures Repeats(out + [e]) == Repeats(out) + (if e.RepeatedEntry? then 1 else 0)
  {
    assert (out + [e])[..|out|] == out;
  }

  // Moving the clock only prints.
  lemma SetTimeKeeps(t: Trace, time: nat)
    ensures SetTime(t, time) == t.(time := SetTime(t, time).time, out := SetTime(t, time).out)
    ensures Repeats(SetTime(t, time).out) == Repeats(t.out)
  {
    RepeatsLast(t.out, Snapshot(t.time, Wrap(Sum(t.live)), t.unknownFrees));
    RepeatsLast(t.out, TimeBack(time, t.time));
  }

  lemma AddCounts(t: Trace, address: nat, size: nat)
    ensures var u := Add(t, address, size);
      && |u.live| + Repeats(u.out) == |t.live| + Repeats(t.out) + 1
      && u == t.(live := u.live, out := u.out)
  {
    RepeatsLast(t.out, RepeatedEntry(address, size));
  }

  lemma RemoveCounts(live: map<nat, nat>, address: nat)
    requires address in live
    ensures |live - {address}| == |live| - 1
  {
    assert (live - {address}).Keys == live.Keys - {address};
  }

  ghost function Held(t: Trace): nat {
    |t.live| + t.frees + Repeats(t.out)
  }

  ghost function Brought(t: Trace): nat {
    t.mallocs + t.unknownReallocs
  }

  ghost function Counted(t: Trace): nat {
    t.mallocs + t.reallocs + t.frees + t.unknownReallocs + t.unknownFrees
  }

  lemma AccountBalanced(t: Trace, r: Record)
    ensures Held(Account(t, r)) - Brought(Account(t, r)) == Held(t) - Brought(t)
    ensures Counted(Account(t, r)) == Counted(t) + 1
  {
    match r
    case Malloc(_, size, address) =>
      AddCounts(t, address, size);
    case Realloc(_, previous, size, address) =>
      if previous !in t.live {
        AddCounts(t.(unknownReallocs := t.unknownReallocs + 1), address, size);
      } else if previous != address {
        RemoveCounts(t.live, previous);
        AddCounts(t.(live := t.live - {previous}), address, size);
      } else {
        assert t.live[address := size].Keys == t.live.Keys;
        assert |t.live[address := size].Keys| == |t.live.Keys|;
      }
    case Free(_, address) =>
      if address in t.live {
        RemoveCounts(t.live, address);
      }
  }

  // Every block brought in is live, freed or was reported as repeated, and every record is counted once.
  lemma {:induction false} Conservation(records: seq<Record>)
    ensures Held(After(records)) == Brought(After(records))
    ensures Counted(After(records)) == |records|
    decreases |records|
  {
    if records != [] {
      var front, r := records[..|records| - 1], records[|records| - 1];
      Conservation(front);
      assert records == front + [r];
      AfterLast(front, r);
      SetTimeKeeps(After(front), r.time);
      AccountBalanced(SetTime(After(front), r.time), r);
    }
  }

  // ---- consistent heaps ----

  // The block at an address, as the last record that touches the address leaves it.
  function LiveSize(records: seq<Record>, address: nat): Option<nat> {
    if records == [] then None
    else
      var front, r := records[..|records| - 1], records[|records| - 1];
      match r
      case Malloc(_, size, a) => if a == address then Some(size) else LiveSize(front, address)
      case Realloc(_, previous, size, a) =>
        if a == address then Some(size)
        else if previous == address then None
        else LiveSize(front, address)
      case Free(_, a) => if a == address then None else LiveSize(front, address)
  }

  // What a heap can do next: new blocks at unused addresses, old blocks that exist.
  predicate Possible(records: seq<Record>, r: Record) {
    match r
    case Malloc(_, _, address) => LiveSize(records, address).None?
    case Realloc(_, previous, _, address) =>
      LiveSize(records, previous).Some? && (address == previous || LiveSize(records, address).None?)
    case Free(_, address) => LiveSize(records, address).Some?
  }

  predicate Consistent(records: seq<Record>) {
    records == []
    || (Consistent(records[..|records| - 1]) && Possible(records[..|records| - 1], records[|records| - 1]))
  }

  ghost predicate SameHeap(records: seq<Record>, live: map<nat, nat>) {
    forall a: nat :: LiveSize(records, a) == if a in live then Some(live[a]) else None
  }

  lemma SameHeapNext(records: seq<Record>, r: Record, t: Trace)
    requires SameHeap(records, t.live) && Possible(records, r)
    ensures SameHeap(records + [r], Apply(t, r).live)
    ensures Complaints(Apply(t, r)) == Complaints(t)
  {
    var u := SetTime(t, r.time);
    var after := records + [r];
    SetTimeKeeps(t, r.time);
    assert after[..|after| - 1] == records && u.live == t.live;
    forall a: nat
      ensures LiveSize(after, a) == if a in Apply(t, r).live then Some(Apply(t, r).live[a]) else None
    {
      assert LiveSize(records, a) == if a in t.live then Some(t.live[a]) else None;
    }
  }

  ghost function Complaints(t: Trace): nat {
    t.unknownReallocs + t.unknownFrees + Repeats(t.out)
  }

  // The same, of the reader's map.
  predicate PossibleIn(live: map<nat, nat>, r: Record) {
    match r
    case Malloc(_, _, address) => address !in live
    case Realloc(_, previous, _, address) => previous in live && (address == previous || address !in live)
    case Free(_, address) => address in live
  }

  lemma SamePossible(records: seq<Record>, r: Record, live: map<nat, nat>)
    requires SameHeap(records, live)
    ensures Possible(records, r) <==> PossibleIn(live, r)
  {
  }

  lemma AccountComplains(t: Trace, r: Record)
    ensures Complaints(Account(t, r)) >= Complaints(t) + (if PossibleIn(t.live, r) then 0 else 1)
  {
    if r.Malloc? || r.Realloc? {
      RepeatsLast(t.out, RepeatedEntry(r.address, r.size));
    }
  }

  lemma Complains(records: seq<Record>, r: Record, t: Trace)
    requires SameHeap(records, t.live)
    ensures Complaints(Apply(t, r)) >= Complaints(t) + (if Possible(records, r) then 0 else 1)
  {
    SamePossible(records, r, t.live);
    SetTimeKeeps(t, r.time);
    AccountComplains(SetTime(t, r.time), r);
  }

  lemma ComplaintsStay(t: Trace, r: Record)
    ensures Complaints(Apply(t, r)) >= Complaints(t)
  {
    SetTimeKeeps(t, r.time);
    AccountComplains(SetTime(t, r.time), r);
  }

  // After these records the reader has complained exactly if they are not consistent, and else it has the heap.
  ghost predicate Judged(records: seq<Record>, t: Trace) {
    && (Consistent(records) <==> Complaints(t) == 0)
    && (Consistent(records) ==> SameHeap(records, t.live))
  }

  lemma JudgedNext(front: seq<Record>, r: Record, t: Trace)
    requires Judged(front, t)
    ensures Judged(front + [r], Apply(t, r))
  {
    var records := front + [r];
    assert records[..|records| - 1] == front;
    assert Consistent(records) <==> Consistent(front) && Possible(front, r);
    if !Consistent(front) {
      ComplaintsStay(t, r);
    } else if Possible(front, r) {
      SameHeapNext(front, r, t);
    } else {
      Complains(front, r, t);
    }
  }

  lemma JudgedAppend(front: seq<Record>, r: Record)
    requires Judged(front, After(front))
    ensures Judged(front + [r], After(front + [r]))
  {
    AfterLast(front, r);
    JudgedNext(front, r, After(front));
  }

  lemma NothingJudged()
    ensures Judged([], After([]))
  {
  }

  lemma {:induction false} AllJudged(records: seq<Record>)
    ensures Judged(records, After(records))
    decreases |records|
  {
    if records == [] {
      NothingJudged();
    } else {
      var front, r := records[..|records| - 1], records[|records| - 1];
      assert records == front + [r];
      AllJudged(front);
      JudgedAppend(front, r);
    }
  }

  // The reader complains about nothing exactly for traces of a consistent heap, and then its map is that heap.
  lemma ConsistentTrace(records: seq<Record>)
    ensures Consistent(records) <==> Complaints(After(records)) == 0
    ensures Consistent(records) ==> SameHeap(records, After(records).live)
  {
    AllJudged(records);
  }

  // ---- printed totals ----

  function Latest(records: seq<Record>): nat {
    if records == [] then 0
    else
      var before := Latest(records[..|records| - 1]);
      if records[|records| - 1].time > before then records[|records| - 1].time else before
  }

  function Touched(records: seq<Record>): set<nat> {
    if records == [] then {}
    else Touched(records[..|records| - 1]) + {records[|records| - 1].address}
  }

  // The heap of a trace, from its records alone.
  function Heap(records: seq<Record>): map<nat, nat> {
    map a | a in Touched(records) && LiveSize(records, a).Some? :: LiveSize(records, a).value
  }

  lemma {:induction false} LiveIsTouched(records: seq<Record>, a: nat)
    requires LiveSize(records, a).Some?
    ensures a in Touched(records)
    decreases |records|
  {
    if records != [] && records[|records| - 1].address != a {
      LiveIsTouched(records[..|records| - 1], a);
    }
  }

  lemma OneHeap(records: seq<Record>, live: map<nat, nat>)
    requires SameHeap(records, live)
    ensures live == Heap(records)
  {
    forall a: nat
      ensures a in live <==> a in Heap(records)
    {
      assert LiveSize(records, a) == if a in live then Some(live[a]) else None;
      if a in live {
        LiveIsTouched(records, a);
      }
    }
  }

  // The line printed when a record moves the clock on, with the bytes live before it.
  ghost function Line(before: nat, time: nat, live: map<nat, nat>, unknownFrees: nat): seq<Event> {
    if time > before > 0 then [Snapshot(before, Wrap(Sum(live)), unknownFrees)] else []
  }

  // One snapshot for every record that moves the clock on, with the bytes live before it.
  ghost function SnapshotsDue(records: seq<Record>): seq<Event> {
    if records == [] then []
    else
      var front, r := records[..|records| - 1], records[|records| - 1];
      SnapshotsDue(front) + Line(Latest(front), r.time, Heap(front), 0)
  }

  lemma SnapshotsDueLast(front: seq<Record>, r: Record)
    ensures SnapshotsDue(front + [r]) == SnapshotsDue(front) + Line(Latest(front), r.time, Heap(front), 0)
  {
    assert (front + [r])[..|front|] == front;
  }

  function Snapshots(out: seq<Event>): seq<Event> {
    if out == [] then []
    else Snapshots(out[..|out| - 1]) + if out[|out| - 1].Snapshot? then [out[|out| - 1]] else []
  }

  lemma SnapshotsLast(out: seq<Event>, e: Event)
    ensures Snapshots(out + [e]) == Snapshots(out) + if e.Snapshot? then [e] else []
  {
    assert (out + [e])[..|out|] == out;
  }

  lemma AccountPrintsNoTotal(t: Trace, r: Record)
    ensures Account(t, r).time == t.time && Snapshots(Account(t, r).out) == Snapshots(t.out)
  {
    if r.Malloc? || r.Realloc? {
      SnapshotsLast(t.out, RepeatedEntry(r.address, r.size));
    }
  }

  lemma SetTimePrints(t: Trace, time: nat)
    ensures SetTime(t, time).time == if time > t.time then time else t.time
    ensures Snapshots(SetTime(t, time).out) == Snapshots(t.out) + Line(t.time, time, t.live, t.unknownFrees)
  {
    SnapshotsLast(t.out, Snapshot(t.time, Wrap(Sum(t.live)), t.unknownFrees));
    SnapshotsLast(t.out, TimeBack(time, t.time));
  }

  lemma ApplyPrints(t: Trace, r: Record)
    ensures Apply(t, r).time == if r.time > t.time then r.time else t.time
    ensures Snapshots(Apply(t, r).out) == Snapshots(t.out) + Line(t.time, r.time, t.live, t.unknownFrees)
  {
    SetTimePrints(t, r.time);
    AccountPrintsNoTotal(SetTime(t, r.time), r);
  }

  lemma PrintedNext(front: seq<Record>, r: Record, t: Trace)
    requires Snapshots(t.out) == SnapshotsDue(front) && t.time == Latest(front)
    requires t.live == Heap(front) && t.unknownFrees == 0
    ensures Snapshots(Apply(t, r).out) == SnapshotsDue(front + [r]) && Apply(t, r).time == Latest(front + [r])
  {
    ApplyPrints(t, r);
    SnapshotsDueLast(front, r);
    assert (front + [r])[..|front|] == front;
  }

  ghost predicate Totalled(records: seq<Record>, t: Trace) {
    Snapshots(t.out) == SnapshotsDue(records) && t.time == Latest(records)
  }

  lemma HeapAfter(records: seq<Record>)
    requires Consistent(records)
    ensures After(records).live == Heap(records) && After(records).unknownFrees == 0
  {
    ConsistentTrace(records);
    OneHeap(records, After(records).live);
  }

  lemma TotalledAppend(front: seq<Record>, r: Record)
    requires Consistent(front) && Totalled(front, After(front))
    ensures Totalled(front + [r], After(front + [r]))
  {
    HeapAfter(front);
    AfterLast(front, r);
    PrintedNext(front, r, After(front));
  }

  // On a consistent trace every printed total is the sum of the blocks live at that point.
  lemma {:induction false} PrintedTotals(records: seq<Record>)
    requires Consistent(records)
    ensures Snapshots(After(records).out) == SnapshotsDue(records)
    ensures After(records).time == Latest(records)
    decreases |records|
  {
    if records != [] {
      var front, r := records[..|records| - 1], records[|records| - 1];
      assert records == front + [r];
      PrintedTotals(front);
      TotalledAppend(front, r);
    }
  }

  lemma StopPrintsNoTotal(t: Trace, rest: seq<Byte>, garbage: bool)
    requires garbage ==> rest != []
    ensures Stop(t, rest, garbage) == t.(out := Stop(t, rest, garbage).out)
    ensures Snapshots(Stop(t, rest, garbage).out) == Snapshots(t.out)
  {
    if garbage {
      SnapshotsLast(t.out, Garbage(Signed(rest[0])));
    } else {
      SnapshotsLast(t.out, CorruptEnd(|rest|));
    }
  }

  // The total printed at the end, unless the clock never moved.
  ghost function LastLine(time: nat, live: map<nat, nat>, unknownFrees: nat): seq<Event> {
    if time == 0 then [] else [Snapshot(time, Wrap(Sum(live)), unknownFrees)]
  }

  lemma FinishPrints(t: Trace)
    ensures Snapshots(Finish(t).out) == Snapshots(t.out) + LastLine(t.time, t.live, t.unknownFrees)
  {
    SnapshotsLast(t.out, Snapshot(t.time, Wrap(Sum(t.live)), t.unknownFrees));
    SnapshotsLast(PrintState(t).out, Totals(t.mallocs, t.reallocs, t.frees, t.unknownReallocs));
  }

  // The totals printed for a whole file whose records are a consistent trace, however the file ends: those at the
  // changes of the clock, and at the end that of the blocks left.
  lemma FileTotals(file: seq<Byte>)
    requires Consistent(Decode(file).records)
    ensures var records := Decode(file).records;
      Snapshots(WholeFile(file).out) == SnapshotsDue(records) + LastLine(Latest(records), Heap(records), 0)
  {
    var d := Decode(file);
    var t := After(d.records);
    PrintedTotals(d.records);
    HeapAfter(d.records);
    StopPrintsNoTotal(t, d.rest, d.garbage);
    FinishPrints(Stop(t, d.rest, d.garbage));
  }
}
