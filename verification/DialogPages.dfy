/** What the requests for pages of a list ask for, and what their answers leave. */
module DialogPages {
  import opened Basics
  import opened Dialogs
  import opened DialogRuns
  import opened DialogReloads

  // ---- each step, load by load ----

  // Asking for more sends a request for the page at the offset of the load, and one for its pinned dialogs if they were
  // not asked for.
  lemma RequestMoreLoad(s: State, k: Key)
    requires Ready(s, k)
    ensures var load, t := Get(s, k).value, RequestMore(s, k);
      var pinned := !load.pinnedReceived && load.pinnedRequestId == 0;
      && Get(t, k) == Some(load.(
           requestId := s.next,
           pinnedRequestId := if pinned then s.next + 1 else load.pinnedRequestId))
      && t.lists == s.lists[s.next := Query(k, load.offset, if load.offset.date == 0 then 20 else 500)]
      && t.pins == (if pinned then s.pins[s.next + 1 := k] else s.pins)
  {
    var load := Get(s, k).value;
    var after := load.(requestId := s.next);
    var t := SendList(s, k, load);
    GetPut(s, k, after);
    assert Get(t, k) == Some(after);
    GetPut(t, k, after.(pinnedRequestId := t.next));
  }

  lemma RequestMoreGet(s: State, j: Key, k: Key)
    ensures Get(RequestMore(s, j), k) ==
      if j == k && Ready(s, k) then Get(RequestMore(s, k), k) else Get(s, k)
  {
    RequestMoreEffect(s, j);
  }

  // The part of a load that requests do not change.
  predicate SameProgress(x: Load, y: Load) {
    && y.offset == x.offset && y.born == x.born
    && y.listReceived == x.listReceived && y.pinnedReceived == x.pinnedReceived
  }

  lemma RequestMoreProgress(s: State, j: Key, k: Key)
    requires Get(s, k).Some?
    ensures Get(RequestMore(s, j), k).Some? && SameProgress(Get(s, k).value, Get(RequestMore(s, j), k).value)
  {
    RequestMoreGet(s, j, k);
    if j == k && Ready(s, k) {
      RequestMoreLoad(s, k);
    }
  }

  lemma RequestProgress(s: State, j: Key, k: Key)
    requires Get(s, k).Some?
    ensures Get(Request(s, j), k).Some? && SameProgress(Get(s, k).value, Get(Request(s, j), k).value)
  {
    GetPut(s, j, Fresh(s.births));
    var u := if j.Folder? && Get(s, j).None? then Create(s, j) else s;
    assert Get(u, k) == Get(s, k);
    RequestMoreProgress(u, j, k);
  }

  lemma NewProgress(s: State, j: Key, k: Key)
    requires Get(s, k).None?
    ensures if j == k && k.Folder? then
        Get(Request(s, j), k).Some? && SameProgress(Fresh(s.births), Get(Request(s, j), k).value)
      else Get(Request(s, j), k).None?
  {
    GetPut(s, j, Fresh(s.births));
    var u := if j.Folder? && Get(s, j).None? then Create(s, j) else s;
    assert Get(u, k) == if j == k && k.Folder? then Some(Fresh(s.births)) else None;
    if j == k && k.Folder? {
      RequestMoreProgress(u, j, k);
    } else {
      RequestMoreGet(u, j, k);
    }
  }

  lemma FinishGet(s: State, j: Key, k: Key)
    ensures Get(LoadFinish(s, j), k) ==
      if j == k && Get(s, k).Some? && Get(s, k).value.listReceived && Get(s, k).value.pinnedReceived then None
      else Get(s, k)
  {
    var load := Get(s, j);
    if load.Some? {
      GetPut(s, j, load.value);
      assert Get(Log(Drop(s, j), Notified(load.value.born, j)), k) == Get(Drop(s, j), k);
    }
  }

  lemma ReceivedGet(s: State, k: Key, load: Load)
    ensures Get(ListReceived(s, k, load), k) ==
      if load.pinnedReceived then None else Some(load.(listReceived := true))
  {
    var after := load.(listReceived := true);
    var u := Log(Put(s, k, after), ListArrived(load.born));
    GetPut(s, k, after);
    assert Get(u, k) == Some(after);
    FinishGet(u, k, k);
  }

  lemma AnswerGet(s: State, r: RequestId, result: Result)
    requires r in s.lists && Get(s, s.lists[r].key).Some?
    ensures var k := s.lists[r].key; var load := Get(s, k).value;
      Get(Answer(s, r, result), k) ==
        match result
        case NotModified => Some(load)
        case Slice(Some(offset)) => Some(load.(offset := offset, requestId := 0))
        case _ => if load.pinnedReceived then None else Some(load.(listReceived := true))
  {
    var k := s.lists[r].key;
    var u := s.(lists := s.lists - {r});
    var load := Get(s, k).value;
    assert Get(u, k) == Some(load);
    match result
    case NotModified =>
    case Slice(Some(offset)) => GetPut(u, k, load.(offset := offset, requestId := 0));
    case FullList => ReceivedGet(u, k, load);
    case Slice(None) => ReceivedGet(u, k, load);
  }

  lemma PinnedDoneGet(s: State, r: RequestId, k: Key)
    requires r in s.pins && Get(s, s.pins[r]).Some?
    ensures Get(PinnedDone(s, r), k) ==
      if s.pins[r] != k then Get(s, k)
      else if Get(s, k).value.listReceived then None
      else Some(Get(s, k).value.(pinnedRequestId := 0, pinnedReceived := true))
  {
    MarkPinnedChanges(s, r);
    FinishGet(MarkPinned(s, r), s.pins[r], k);
  }

  lemma RequestPinnedGet(s: State, j: Key, k: Key)
    requires Get(s, k).Some?
    ensures Get(RequestPinned(s, j), k).Some? && SameProgress(Get(s, k).value, Get(RequestPinned(s, j), k).value)
  {
    if Get(s, j).Some? {
      GetPut(s, j, Get(s, j).value.(pinnedRequestId := s.next));
    }
  }

  // ---- the progress of a load ----

  // The step brings the end of the list.
  predicate EndsList(s: State, step: Step, k: Key)
    requires Allowed(s, step)
  {
    match step
    case ListDoneStep(r, FullList) => s.lists[r].key == k
    case ListDoneStep(r, Slice(None)) => s.lists[r].key == k
    case _ => false
  }

  // The step answers the request for pinned dialogs, well or badly.
  predicate EndsPinned(s: State, step: Step, k: Key)
    requires Allowed(s, step)
  {
    match step
    case PinnedDoneStep(r) => s.pins[r] == k
    case _ => false
  }

  // The step brings a page, behind which the next one is at this offset.
  function TurnsTo(s: State, step: Step, k: Key): Option<Offset>
    requires Allowed(s, step)
  {
    match step
    case ListDoneStep(r, Slice(Some(offset))) => if s.lists[r].key == k then Some(offset) else None
    case _ => None
  }

  /** A load moves on to the offset that each page brings, notes the end of its list and its pinned dialogs when they
      come, and is dropped exactly when both have come; nothing else changes that. */
  lemma LoadProgress(s: State, step: Step, k: Key)
    requires Inv(s) && Allowed(s, step) && Get(s, k).Some?
    ensures var x, y := Get(s, k).value, Get(Next(s, step), k);
      var list, pinned := x.listReceived || EndsList(s, step, k), x.pinnedReceived || EndsPinned(s, step, k);
      var to := TurnsTo(s, step, k);
      if list && pinned then y.None?
      else
        && y.Some? && y.value.listReceived == list && y.value.pinnedReceived == pinned && y.value.born == x.born
        && y.value.offset == if to.Some? then to.value else x.offset
  {
    assert LoadFits(s, k, Get(s, k).value) && Unfinished(s, k);
    match step
    case RequestStep(j) => RequestProgress(s, j, k);
    case IfNeededStep(o) => IfNeededProgress(s, o, k);
    case ListDoneStep(r, result) =>
      assert ListFits(s, r, s.lists[r]);
      AnswerEffect(s, r, result);
      AnswerGet(s, r, result);
    case ListFailedStep(r) =>
      assert ListFits(s, r, s.lists[r]);
      FailureEffect(s, r);
    case PinnedDoneStep(r) =>
      assert PinFits(s, r, s.pins[r]);
      PinnedDoneGet(s, r, k);
    case RequestPinnedStep(j) => RequestPinnedGet(s, j, k);
    case TillStep(_) =>
  }

  lemma IfNeededProgress(s: State, o: Outside, k: Key)
    requires Get(s, k).Some?
    ensures Get(RequestMoreIfNeeded(s, o), k).Some?
    ensures SameProgress(Get(s, k).value, Get(RequestMoreIfNeeded(s, o), k).value)
  {
    RequestProgress(s, Main, k);
    if o.archive.Some? {
      RequestMoreProgress(s, Folder(o.archive.value), k);
    }
  }

  // A list without a load gets one when its folder is asked for, which starts at the beginning.
  lemma LoadStarts(s: State, step: Step, k: Key)
    requires Inv(s) && Allowed(s, step) && Get(s, k).None?
    ensures var y := Get(Next(s, step), k);
      && (y.Some? <==> step == RequestStep(k) && k.Folder?)
      && (y.Some? ==>
           && y.value.offset == Offset(0, 0, 0) && y.value.born == s.births
           && !y.value.listReceived && !y.value.pinnedReceived)
  {
    if step.RequestStep? {
      NewProgress(s, step.key, k);
    } else {
      AbsentStep(s, step, k);
    }
  }

  // ---- runs ----

  // The offset that the pages of a list have brought so far, since its load was made.
  ghost function LastTurn(s: State, steps: seq<Step>, k: Key, offset: Offset): Offset
    requires IsRun(s, steps)
    decreases |steps|
  {
    if steps == [] then offset
    else
      var to := TurnsTo(s, steps[0], k);
      var next :=
        if Get(s, k).None? then Offset(0, 0, 0) else if to.Some? then to.value else offset;
      LastTurn(Next(s, steps[0]), steps[1..], k, next)
  }

  lemma {:induction false} OffsetInRun(s: State, steps: seq<Step>, k: Key, offset: Offset)
    requires Inv(s) && IsRun(s, steps) && (Get(s, k).Some? ==> Get(s, k).value.offset == offset)
    ensures Get(Run(s, steps), k).Some? ==> Get(Run(s, steps), k).value.offset == LastTurn(s, steps, k, offset)
    decreases |steps|
  {
    if steps != [] {
      var to := TurnsTo(s, steps[0], k);
      var next := if Get(s, k).None? then Offset(0, 0, 0) else if to.Some? then to.value else offset;
      if Get(s, k).Some? {
        LoadProgress(s, steps[0], k);
      } else {
        LoadStarts(s, steps[0], k);
      }
      Keeps(s, steps[0]);
      OffsetInRun(Next(s, steps[0]), steps[1..], k, next);
    }
  }

  // A request for a page asks at the offset that the last page of its list brought, or without one if there was none
  // since the load was made; for 20 dialogs when it has no date, and else for 500.
  lemma PageAsked(steps: seq<Step>, r: RequestId)
    requires IsRun(INITIAL, steps) && r in Run(INITIAL, steps).lists
    ensures var s := Run(INITIAL, steps); var q := s.lists[r];
      && q.offset == LastTurn(INITIAL, steps, q.key, Offset(0, 0, 0))
      && q.limit == (if q.offset.date == 0 then 20 else 500)
      && Get(s, q.key).Some? && q.offset.date == Get(s, q.key).value.offset.date
      && q.offset.id == Get(s, q.key).value.offset.id && q.offset.peer == Get(s, q.key).value.offset.peer
  {
    var s := Run(INITIAL, steps);
    var k := s.lists[r].key;
    AnswerFindsLoad(steps, r);
    InitialInv();
    OffsetInRun(INITIAL, steps, k, Offset(0, 0, 0));
  }
}
