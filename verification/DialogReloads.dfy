/** Whether a list is asked for again: after it was received, and after its load got stuck. */
module DialogReloads {
  import opened Basics
  import opened DialogRuns
  import opened Dialogs

  // ---- a list that was received ----

  // The step sends a request for a page of this list.
  ghost predicate Sends(s: State, step: Step, k: Key)
    requires Allowed(s, step)
  {
    exists r <- Next(s, step).lists :: r !in s.lists && Next(s, step).lists[r].key == k
  }

  // The step asks for more of this list, and loading is not blocked.
  predicate Asks(s: State, step: Step, k: Key) {
    && !s.blocked
    && match step
       case RequestStep(j) => j == k
       case IfNeededStep(o) =>
         && !o.exceptions
         && if s.main.Some? && !s.main.value.listReceived then k == Main
            else o.archive.Some? && k == Folder(o.archive.value)
       case _ => false
  }

  // The step asks for a folder that has no load state.
  predicate Opens(s: State, step: Step, k: Key) {
    step == RequestStep(k) && k.Folder? && Get(s, k).None?
  }

  ghost predicate SentLater(s: State, steps: seq<Step>, k: Key)
    requires IsRun(s, steps)
    decreases |steps|
  {
    steps != [] && (Sends(s, steps[0], k) || SentLater(Next(s, steps[0]), steps[1..], k))
  }

  ghost predicate AskedLater(s: State, steps: seq<Step>, k: Key)
    requires IsRun(s, steps)
    decreases |steps|
  {
    steps != [] && (Asks(s, steps[0], k) || AskedLater(Next(s, steps[0]), steps[1..], k))
  }

  // A folder without a load state is asked for, and then or later it is asked for while loading is not blocked.
  ghost predicate OpenedLater(s: State, steps: seq<Step>, k: Key)
    requires IsRun(s, steps)
    decreases |steps|
  {
    steps != []
    && ((Opens(s, steps[0], k) && AskedLater(s, steps, k)) || OpenedLater(Next(s, steps[0]), steps[1..], k))
  }

  lemma {:induction false} OpenedIsAsked(s: State, steps: seq<Step>, k: Key)
    requires IsRun(s, steps) && OpenedLater(s, steps, k)
    ensures AskedLater(s, steps, k) && k.Folder?
    decreases |steps|
  {
    if !(Opens(s, steps[0], k) && AskedLater(s, steps, k)) {
      OpenedIsAsked(Next(s, steps[0]), steps[1..], k);
    }
  }

  // Loading is not blocked, and the list has a load state without a request.
  predicate Ready(s: State, k: Key) {
    !s.blocked && Get(s, k).Some? && Get(s, k).value.requestId == 0
  }

  lemma RequestMoreEffect(s: State, k: Key)
    ensures var t := RequestMore(s, k);
      && OthersSame(s, t, k)
      && (if Ready(s, k) then
            t.lists == s.lists[s.next := QueryOf(k, Get(s, k).value)] && Get(t, k).Some?
            && Get(t, k).value.requestId == s.next && Get(t, k).value.listReceived == Get(s, k).value.listReceived
          else t == s)
  {
    if Ready(s, k) {
      var load := Get(s, k).value;
      GetPut(s, k, load.(requestId := s.next));
      var t := SendList(s, k, load);
      GetPut(t, k, load.(requestId := s.next, pinnedRequestId := t.next));
    }
  }

  lemma NextIsFree(s: State)
    requires Inv(s)
    ensures s.next !in s.lists
  {
    assert s.next in s.lists ==> ListFits(s, s.next, s.lists[s.next]);
  }

  // What a step that asks for some list does to this one.
  lemma RequestMoreSends(s: State, j: Key, k: Key)
    requires Inv(s)
    ensures var t := RequestMore(s, j);
      && ((exists r <- t.lists :: r !in s.lists && t.lists[r].key == k) <==> j == k && Ready(s, k))
      && (j != k || !Ready(s, k) ==> Get(t, k) == Get(s, k))
  {
    RequestMoreEffect(s, j);
    NextIsFree(s);
    if Ready(s, j) {
      assert s.next in RequestMore(s, j).lists;
    }
  }

  // ---- what answers and failures do to a list ----

  lemma ReceivedEffect(s: State, k: Key, load: Load)
    ensures var t := ListReceived(s, k, load);
      && OthersSame(s, t, k) && t.lists == s.lists
      && (Get(t, k).Some? ==> Get(t, k).value == load.(listReceived := true))
  {
    var after := load.(listReceived := true);
    var u := Put(s, k, after);
    var v := Log(u, ListArrived(load.born));
    GetPut(s, k, after);
    assert forall j: Key :: Get(v, j) == Get(u, j);
    GetPut(v, k, after);
    assert forall j: Key, e: Event :: Get(Log(Drop(v, k), e), j) == Get(Drop(v, k), j);
  }

  // The list part of a load after an answer.
  ghost predicate Answered(load: Load, after: Option<Load>, result: Result) {
    match result
    case NotModified => after == Some(load)
    case Slice(Some(offset)) => after == Some(load.(offset := offset, requestId := 0))
    case _ => after.Some? ==> after.value == load.(listReceived := true)
  }

  lemma AnswerEffect(s: State, r: RequestId, result: Result)
    requires r in s.lists && Get(s, s.lists[r].key).Some?
    ensures var t := Answer(s, r, result); var k := s.lists[r].key;
      OthersSame(s, t, k) && t.lists == s.lists - {r} && Answered(Get(s, k).value, Get(t, k), result)
  {
    var k := s.lists[r].key;
    var u := s.(lists := s.lists - {r});
    var load := Get(s, k).value;
    assert forall j: Key :: Get(u, j) == Get(s, j);
    match result
    case NotModified =>
    case Slice(Some(offset)) => GetPut(u, k, load.(offset := offset, requestId := 0));
    case FullList => ReceivedEffect(u, k, load);
    case Slice(None) => ReceivedEffect(u, k, load);
  }

  lemma FailureEffect(s: State, r: RequestId)
    requires r in s.lists && Get(s, s.lists[r].key).Some?
    ensures var t := ListFailed(s, r); var k := s.lists[r].key;
      OthersSame(s, t, k) && t.lists == s.lists - {r} && Get(t, k) == Some(Get(s, k).value.(requestId := 0))
  {
    var u := s.(lists := s.lists - {r});
    assert forall j: Key :: Get(u, j) == Get(s, j);
    GetPut(u, s.lists[r].key, Get(s, s.lists[r].key).value.(requestId := 0));
  }

  // Two loads with the same list part.
  predicate SameList(x: Load, y: Load) {
    x.requestId == y.requestId && x.listReceived == y.listReceived
  }

  // Nothing happens to the list; a load whose list was received may be dropped.
  ghost predicate ListSame(s: State, t: State, k: Key) {
    match (Get(s, k), Get(t, k))
    case (None, after) => after.None?
    case (Some(x), None) => x.listReceived
    case (Some(x), Some(y)) => SameList(x, y)
  }

  lemma PinnedEffect(s: State, r: RequestId, k: Key)
    requires r in s.pins && Get(s, s.pins[r]).Some?
    ensures var t := PinnedDone(s, r); t.lists == s.lists && ListSame(s, t, k)
  {
    var t := MarkPinned(s, r);
    MarkPinnedChanges(s, r);
    GetPut(t, s.pins[r], Get(t, s.pins[r]).value);
    assert forall j: Key, e: Event :: Get(Log(Drop(t, s.pins[r]), e), j) == Get(Drop(t, s.pins[r]), j);
  }

  lemma PinnedRequestEffect(s: State, j: Key, k: Key)
    ensures var t := RequestPinned(s, j); t.lists == s.lists && ListSame(s, t, k)
  {
    if Get(s, j).Some? {
      GetPut(s, j, Get(s, j).value.(pinnedRequestId := s.next));
    }
  }

  // An answer or failure of a request never sends one.
  lemma AnswersSendNothing(s: State, step: Step, k: Key)
    requires Inv(s) && Allowed(s, step) && !step.RequestStep? && !step.IfNeededStep?
    ensures !Sends(s, step, k)
    ensures (Get(s, k).None? || Get(s, k).value.requestId == 0 || Get(s, k).value.listReceived) ==>
      ListSame(s, Next(s, step), k)
  {
    match step
    case ListDoneStep(r, result) =>
      assert ListFits(s, r, s.lists[r]);
      AnswerEffect(s, r, result);
    case ListFailedStep(r) =>
      assert ListFits(s, r, s.lists[r]);
      FailureEffect(s, r);
    case PinnedDoneStep(r) =>
      assert PinFits(s, r, s.pins[r]);
      PinnedEffect(s, r, k);
    case RequestPinnedStep(j) => PinnedRequestEffect(s, j, k);
    case TillStep(_) =>
  }

  // ---- the three stages of a list that was received ----

  lemma ReceivedStep(s: State, step: Step, k: Key)
    requires Inv(s) && Allowed(s, step) && Get(s, k).Some? && Get(s, k).value.listReceived
    ensures !Sends(s, step, k)
    ensures Get(Next(s, step), k).None? || Get(Next(s, step), k).value.listReceived
  {
    assert LoadFits(s, k, Get(s, k).value);
    match step
    case RequestStep(j) => RequestSends(s, j, k);
    case IfNeededStep(o) => IfNeededSends(s, o, k);
    case _ => AnswersSendNothing(s, step, k);
  }

  lemma RequestSends(s: State, j: Key, k: Key)
    requires Inv(s)
    ensures Sends(s, RequestStep(j), k) <==> j == k && !s.blocked && (Ready(s, k) || Opens(s, RequestStep(j), k))
    ensures j != k ==> Get(Request(s, j), k) == Get(s, k)
    ensures j == k && !Opens(s, RequestStep(j), k) && !Ready(s, k) ==> Get(Request(s, j), k) == Get(s, k)
    ensures Opens(s, RequestStep(k), k) && s.blocked ==>
      Get(Request(s, k), k).Some? && Get(Request(s, k), k).value.requestId == 0
  {
    var u := if j.Folder? && Get(s, j).None? then Create(s, j) else s;
    if j.Folder? && Get(s, j).None? {
      CreateKeeps(s, j);
      GetPut(s, j, Fresh(s.births));
    }
    RequestMoreSends(u, j, k);
  }

  lemma IfNeededSends(s: State, o: Outside, k: Key)
    requires Inv(s)
    ensures Sends(s, IfNeededStep(o), k) <==> Asks(s, IfNeededStep(o), k) && Ready(s, k)
    ensures !Sends(s, IfNeededStep(o), k) ==> Get(RequestMoreIfNeeded(s, o), k) == Get(s, k)
  {
    RequestMoreSends(s, Main, k);
    if o.archive.Some? {
      RequestMoreSends(s, Folder(o.archive.value), k);
    }
  }

  lemma AbsentStep(s: State, step: Step, k: Key)
    requires Inv(s) && Allowed(s, step) && Get(s, k).None?
    ensures Sends(s, step, k) <==> Opens(s, step, k) && !s.blocked
    ensures !Opens(s, step, k) ==> Get(Next(s, step), k).None?
    ensures Opens(s, step, k) && s.blocked ==> Get(Next(s, step), k).Some? && Get(Next(s, step), k).value.requestId == 0
  {
    match step
    case RequestStep(j) => RequestSends(s, j, k);
    case IfNeededStep(o) => IfNeededSends(s, o, k);
    case _ => AnswersSendNothing(s, step, k);
  }

  lemma WaitingStep(s: State, step: Step, k: Key)
    requires Inv(s) && Allowed(s, step) && Get(s, k).Some? && Get(s, k).value.requestId == 0
    ensures Sends(s, step, k) <==> Asks(s, step, k)
    ensures !Asks(s, step, k) ==> Get(Next(s, step), k).Some? && Get(Next(s, step), k).value.requestId == 0
  {
    assert LoadFits(s, k, Get(s, k).value);
    match step
    case RequestStep(j) => RequestSends(s, j, k);
    case IfNeededStep(o) => IfNeededSends(s, o, k);
    case _ => AnswersSendNothing(s, step, k);
  }

  lemma {:induction false} WaitingRun(s: State, steps: seq<Step>, k: Key)
    requires Inv(s) && IsRun(s, steps) && Get(s, k).Some? && Get(s, k).value.requestId == 0
    ensures SentLater(s, steps, k) <==> AskedLater(s, steps, k)
    decreases |steps|
  {
    if steps != [] {
      WaitingStep(s, steps[0], k);
      if !Asks(s, steps[0], k) {
        Keeps(s, steps[0]);
        WaitingRun(Next(s, steps[0]), steps[1..], k);
      }
    }
  }

  lemma {:induction false} AbsentRun(s: State, steps: seq<Step>, k: Key)
    requires Inv(s) && IsRun(s, steps) && Get(s, k).None?
    ensures SentLater(s, steps, k) <==> OpenedLater(s, steps, k)
    decreases |steps|
  {
    if steps != [] {
      var step, t, rest := steps[0], Next(s, steps[0]), steps[1..];
      AbsentStep(s, step, k);
      Keeps(s, step);
      if !Opens(s, step, k) {
        AbsentRun(t, rest, k);
      } else if s.blocked {
        WaitingRun(t, rest, k);
        if OpenedLater(t, rest, k) {
          OpenedIsAsked(t, rest, k);
        }
      }
    }
  }

  // Once a list is received, whether its load state is still there or was dropped, a request for a page of it is sent
  // later exactly when it is a folder that is asked for without a load state, and then or later while loading is not
  // blocked. The main list is never asked for again.
  lemma {:induction false} RequestAfterList(s: State, steps: seq<Step>, k: Key)
    requires Inv(s) && IsRun(s, steps) && (Get(s, k).Some? ==> Get(s, k).value.listReceived)
    ensures SentLater(s, steps, k) <==> OpenedLater(s, steps, k)
    ensures SentLater(s, steps, k) ==> k.Folder?
    decreases |steps|
  {
    if Get(s, k).None? {
      AbsentRun(s, steps, k);
    } else if steps != [] {
      ReceivedStep(s, steps[0], k);
      Keeps(s, steps[0]);
      RequestAfterList(Next(s, steps[0]), steps[1..], k);
    }
    if OpenedLater(s, steps, k) {
      OpenedIsAsked(s, steps, k);
    }
  }

  lemma FolderStates()
    ensures var s := Request(INITIAL, Folder(1));
      && s.lists == map[1 := Query(Folder(1), NO_OFFSET, FIRST_LOAD)]
      && s.pins == map[2 := Folder(1)] && s.next == 3 && !s.blocked
      && Get(s, Folder(1)) == Some(Load(NO_OFFSET, 1, false, 2, false, 1))
  {
  }

  lemma FolderReceived(s: State)
    requires s == Request(INITIAL, Folder(1))
    ensures 1 in s.lists
    ensures var t := Answer(s, 1, FullList);
      && t.lists == map[] && t.pins == map[2 := Folder(1)] && t.next == 3 && !t.blocked
      && Get(t, Folder(1)) == Some(Load(NO_OFFSET, 1, true, 2, false, 1))
  {
    FolderStates();
  }

  lemma FolderDropped(t: State)
    requires t.lists == map[] && t.pins == map[2 := Folder(1)] && t.next == 3 && !t.blocked
    requires Get(t, Folder(1)) == Some(Load(NO_OFFSET, 1, true, 2, false, 1))
    ensures var u := PinnedDone(t, 2);
      && u.lists == map[] && u.next == 3 && !u.blocked && Get(u, Folder(1)) == None && Notified(1, Folder(1)) in u.log
  {
    var u := PinnedDone(t, 2);
    assert u.log[|u.log| - 1] == Notified(1, Folder(1));
  }

  // Asked for once more, a folder whose dialogs were all loaded is loaded again.
  lemma FolderLoadedAgain()
    ensures var loaded := [RequestStep(Folder(1)), ListDoneStep(1, FullList), PinnedDoneStep(2)];
      && IsRun(INITIAL, loaded) && Notified(1, Folder(1)) in Run(INITIAL, loaded).log
      && Sends(Run(INITIAL, loaded), RequestStep(Folder(1)), Folder(1))
  {
    var s := Request(INITIAL, Folder(1));
    FolderStates();
    FolderReceived(s);
    var t := Answer(s, 1, FullList);
    FolderDropped(t);
    var u := PinnedDone(t, 2);
    ThreeSteps(INITIAL, RequestStep(Folder(1)), ListDoneStep(1, FullList), PinnedDoneStep(2));
    SentAgain(u);
  }

  lemma SentAgain(u: State)
    requires u.lists == map[] && u.next == 3 && !u.blocked && Get(u, Folder(1)) == None
    ensures Sends(u, RequestStep(Folder(1)), Folder(1))
  {
    var v := Next(u, RequestStep(Folder(1)));
    assert 3 in v.lists && v.lists[3].key == Folder(1);
  }

  lemma ThreeSteps(s: State, x: Step, y: Step, z: Step)
    requires Allowed(s, x) && Allowed(Next(s, x), y) && Allowed(Next(Next(s, x), y), z)
    ensures IsRun(s, [x, y, z]) && Run(s, [x, y, z]) == Next(Next(Next(s, x), y), z)
  {
    OneStep(Next(Next(s, x), y), z);
    assert [y, z][1..] == [z] && [x, y, z][1..] == [y, z];
    assert Run(Next(s, x), [y, z]) == Run(Next(Next(s, x), y), [z]);
  }

  // ---- a load that is stuck ----

  // The load waits for a request that is not on its way.
  ghost predicate Stuck(s: State, k: Key) {
    Get(s, k).Some? && Get(s, k).value.requestId > 0 && !Get(s, k).value.listReceived && ListIdle(s, k)
  }

  // The requests for this list that are on their way are the same, or there is one.
  lemma RequestsStay(s: State, j: Key, k: Key)
    requires Inv(s) && !Stuck(s, k)
    ensures !Stuck(RequestMore(s, j), k)
  {
    RequestMoreEffect(s, j);
    NextIsFree(s);
    var t := RequestMore(s, j);
    if Ready(s, j) && j == k {
      assert t.lists[s.next].key == k;
    } else if Stuck(t, k) {
      forall r <- s.lists
        ensures s.lists[r].key != k
      {
        assert t.lists[r] == s.lists[r];
      }
    }
  }

  lemma RequestStays(s: State, j: Key, k: Key)
    requires Inv(s) && !Stuck(s, k)
    ensures !Stuck(Request(s, j), k)
  {
    if j.Folder? && Get(s, j).None? {
      CreateKeeps(s, j);
      GetPut(s, j, Fresh(s.births));
      RequestsStay(Create(s, j), j, k);
    } else {
      RequestsStay(s, j, k);
    }
  }

  lemma IdleWithout(s: State, t: State, r: RequestId, k: Key)
    requires ListsFit(s) && r in s.lists && t.lists == s.lists - {r}
    ensures if s.lists[r].key == k then ListIdle(t, k) else ListIdle(t, k) <==> ListIdle(s, k)
  {
    assert ListFits(s, r, s.lists[r]);
    forall q <- s.lists
      ensures s.lists[q].key == s.lists[r].key ==> q == r
    {
      assert ListFits(s, q, s.lists[q]);
    }
    assert forall q <- s.lists :: q != r ==> q in t.lists && t.lists[q] == s.lists[q];
    assert forall q <- t.lists :: q in s.lists && t.lists[q] == s.lists[q];
  }

  // A load gets stuck exactly by an answer that the list is not modified.
  lemma GetsStuck(s: State, step: Step, k: Key)
    requires Inv(s) && Allowed(s, step) && !Stuck(s, k)
    ensures Stuck(Next(s, step), k)
      <==> step.ListDoneStep? && step.result.NotModified? && s.lists[step.r].key == k
  {
    match step
    case RequestStep(j) =>
      RequestStays(s, j, k);
    case IfNeededStep(o) =>
      RequestsStay(s, Main, k);
      if o.archive.Some? {
        RequestsStay(s, Folder(o.archive.value), k);
      }
    case ListDoneStep(r, result) =>
      assert ListFits(s, r, s.lists[r]);
      AnswerEffect(s, r, result);
      IdleWithout(s, Answer(s, r, result), r, k);
    case ListFailedStep(r) =>
      assert ListFits(s, r, s.lists[r]);
      FailureEffect(s, r);
      IdleWithout(s, ListFailed(s, r), r, k);
    case PinnedDoneStep(r) =>
      assert PinFits(s, r, s.pins[r]);
      PinnedEffect(s, r, k);
    case RequestPinnedStep(j) => PinnedRequestEffect(s, j, k);
    case TillStep(_) =>
  }

  ghost predicate ListsInclude(s: State, t: State) {
    forall r <- s.lists :: r in t.lists && t.lists[r] == s.lists[r]
  }

  lemma RequestMoreGrows(s: State, k: Key)
    requires s.next !in s.lists
    ensures ListsInclude(s, RequestMore(s, k))
  {
    RequestMoreEffect(s, k);
  }

  lemma ListsGrow(s: State, step: Step)
    requires Inv(s) && (step.RequestStep? || step.IfNeededStep?)
    ensures ListsInclude(s, Next(s, step))
  {
    NextIsFree(s);
    match step
    case RequestStep(j) =>
      RequestMoreGrows(s, j);
      RequestMoreGrows(Create(s, j), j);
      CreateLists(s, j);
    case IfNeededStep(o) =>
      RequestMoreGrows(s, Main);
      if o.archive.Some? {
        RequestMoreGrows(s, Folder(o.archive.value));
      }
  }

  lemma CreateLists(s: State, k: Key)
    ensures Create(s, k).lists == s.lists && Create(s, k).next == s.next
  {
  }

  lemma StaysStuck(s: State, step: Step, k: Key)
    requires Inv(s) && Allowed(s, step) && Stuck(s, k)
    ensures Stuck(Next(s, step), k) && !Sends(s, step, k)
  {
    match step
    case RequestStep(j) =>
      RequestSends(s, j, k);
      ListsGrow(s, step);
    case IfNeededStep(o) =>
      IfNeededSends(s, o, k);
      ListsGrow(s, step);
    case ListDoneStep(r, result) =>
      assert ListFits(s, r, s.lists[r]);
      AnswerEffect(s, r, result);
      IdleWithout(s, Answer(s, r, result), r, k);
    case ListFailedStep(r) =>
      assert ListFits(s, r, s.lists[r]);
      FailureEffect(s, r);
      IdleWithout(s, ListFailed(s, r), r, k);
    case PinnedDoneStep(r) =>
      assert PinFits(s, r, s.pins[r]);
      PinnedEffect(s, r, k);
    case RequestPinnedStep(j) => PinnedRequestEffect(s, j, k);
    case TillStep(_) =>
  }

  // A stuck load stays stuck: however the run goes on, its list is never asked for again, received or announced.
  lemma {:induction false} StuckForever(s: State, steps: seq<Step>, k: Key)
    requires Inv(s) && IsRun(s, steps) && Stuck(s, k)
    ensures Stuck(Run(s, steps), k) && !SentLater(s, steps, k)
    decreases |steps|
  {
    if steps != [] {
      StaysStuck(s, steps[0], k);
      Keeps(s, steps[0]);
      StuckForever(Next(s, steps[0]), steps[1..], k);
    }
  }

  // One answer is enough to stop the main list.
  lemma MainGetsStuck()
    ensures var steps := [RequestStep(Main), ListDoneStep(1, NotModified)];
      IsRun(INITIAL, steps) && Stuck(Run(INITIAL, steps), Main)
  {
    var s := Next(INITIAL, RequestStep(Main));
    assert s.lists == map[1 := Query(Main, NO_OFFSET, FIRST_LOAD)];
    LastStep(INITIAL, [], RequestStep(Main));
    LastStep(INITIAL, [] + [RequestStep(Main)], ListDoneStep(1, NotModified));
    assert [] + [RequestStep(Main)] + [ListDoneStep(1, NotModified)]
      == [RequestStep(Main), ListDoneStep(1, NotModified)];
  }
}
