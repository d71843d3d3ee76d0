/** When dialog requests are sent and held back: pinned dialogs are asked for, and old pages of the main list wait. */
module DialogGuards {
  import opened Basics
  import opened Dialogs
  import opened DialogRuns
  import opened DialogReloads
  import opened DialogPages

  // ---- pinned dialogs ----

  predicate IsStarted(load: Load) {
    load.requestId > 0 || load.offset.date != 0 || load.listReceived
  }

  // The pinned dialogs of a load that has begun are on their way or there.
  predicate PinnedAsked(load: Option<Load>) {
    load.Some? && IsStarted(load.value) ==> load.value.pinnedRequestId > 0 || load.value.pinnedReceived
  }

  lemma RequestMorePinned(s: State, j: Key, k: Key)
    requires PinnedAsked(Get(s, k))
    ensures PinnedAsked(Get(RequestMore(s, j), k))
  {
    RequestMoreGet(s, j, k);
    if j == k && Ready(s, k) {
      RequestMoreLoad(s, k);
    }
  }

  lemma RequestPinnedToo(s: State, j: Key, k: Key)
    requires PinnedAsked(Get(s, k))
    ensures PinnedAsked(Get(Request(s, j), k))
  {
    GetPut(s, j, Fresh(s.births));
    var u := if j.Folder? && Get(s, j).None? then Create(s, j) else s;
    assert Get(u, k) == if j == k && k.Folder? && Get(s, k).None? then Some(Fresh(s.births)) else Get(s, k);
    RequestMorePinned(u, j, k);
  }

  lemma PinnedStep(s: State, step: Step, k: Key)
    requires Inv(s) && Allowed(s, step) && PinnedAsked(Get(s, k))
    ensures PinnedAsked(Get(Next(s, step), k))
  {
    match step
    case RequestStep(j) => RequestPinnedToo(s, j, k);
    case IfNeededStep(o) =>
      RequestPinnedToo(s, Main, k);
      if o.archive.Some? {
        RequestMorePinned(s, Folder(o.archive.value), k);
      }
    case ListDoneStep(r, result) =>
      assert ListFits(s, r, s.lists[r]);
      AnswerEffect(s, r, result);
      AnswerGet(s, r, result);
    case ListFailedStep(r) =>
      assert ListFits(s, r, s.lists[r]);
      FailureEffect(s, r);
    case PinnedDoneStep(r) =>
      assert PinFits(s, r, s.pins[r]);
      PinnedDoneGet(s, r, k);
    case RequestPinnedStep(j) =>
      if Get(s, j).Some? {
        GetPut(s, j, Get(s, j).value.(pinnedRequestId := s.next));
      }
    case TillStep(_) =>
  }

  lemma {:induction false} PinnedInRun(s: State, steps: seq<Step>, k: Key)
    requires Inv(s) && IsRun(s, steps) && PinnedAsked(Get(s, k))
    ensures PinnedAsked(Get(Run(s, steps), k))
    decreases |steps|
  {
    if steps != [] {
      PinnedStep(s, steps[0], k);
      Keeps(s, steps[0]);
      PinnedInRun(Next(s, steps[0]), steps[1..], k);
    }
  }

  // A list whose pages have been asked for has its pinned dialogs, or a request for them is on its way.
  lemma PinnedOnTheWay(steps: seq<Step>, k: Key)
    requires IsRun(INITIAL, steps) && Get(Run(INITIAL, steps), k).Some?
    ensures var s := Run(INITIAL, steps); var load := Get(s, k).value;
      load.requestId > 0 || load.offset.date != 0 || load.listReceived ==>
        load.pinnedReceived || (load.pinnedRequestId in s.pins && s.pins[load.pinnedRequestId] == k)
  {
    var s := Run(INITIAL, steps);
    InitialInv();
    PinnedInRun(INITIAL, steps, k);
    Reachable(steps);
    assert LoadFits(s, k, Get(s, k).value);
  }

  // ---- the block ----

  // The main list waits for a page that is older than a date to load to.
  predicate IsOld(s: State) {
    && s.main.Some? && !s.main.value.listReceived && s.main.value.requestId == 0
    && s.till > 0 && 0 < s.main.value.offset.date <= s.till
  }

  predicate BlockedWhenOld(s: State) {
    s.blocked ==> IsOld(s)
  }

  lemma RequestMoreBlock(s: State, k: Key)
    requires BlockedWhenOld(s)
    ensures BlockedWhenOld(RequestMore(s, k))
    ensures (s.blocked <==> IsOld(s)) ==> (RequestMore(s, k).blocked <==> IsOld(RequestMore(s, k)))
    ensures RequestMore(s, k).till == s.till
  {
    RequestMoreEffect(s, k);
    assert Get(s, Main) == s.main && Get(RequestMore(s, k), Main) == RequestMore(s, k).main;
  }

  // A request never blocks or unblocks loading: only answers for the main list and new dates do.
  lemma RequestLeavesBlock(s: State, k: Key)
    requires Inv(s)
    ensures RequestMore(s, k).blocked == s.blocked && Request(s, k).blocked == s.blocked
  {
    RequestMoreLeavesBlock(s, k);
    if k.Folder? && Get(s, k).None? {
      RequestMoreLeavesBlock(Create(s, k), k);
    }
  }

  lemma RequestMoreLeavesBlock(s: State, k: Key)
    requires s.next > 0
    ensures RequestMore(s, k).blocked == s.blocked
  {
    RequestMoreEffect(s, k);
    assert Get(RequestMore(s, k), Main) == RequestMore(s, k).main;
  }

  lemma RequestBlock(s: State, k: Key)
    requires BlockedWhenOld(s)
    ensures BlockedWhenOld(Request(s, k))
    ensures (s.blocked <==> IsOld(s)) ==> (Request(s, k).blocked <==> IsOld(Request(s, k)))
  {
    var u := if k.Folder? && Get(s, k).None? then Create(s, k) else s;
    RequestMoreBlock(u, k);
  }

  lemma IfNeededBlock(s: State, o: Outside)
    requires BlockedWhenOld(s)
    ensures BlockedWhenOld(RequestMoreIfNeeded(s, o))
    ensures (s.blocked <==> IsOld(s)) ==>
      (RequestMoreIfNeeded(s, o).blocked <==> IsOld(RequestMoreIfNeeded(s, o)))
  {
    RequestBlock(s, Main);
    if o.archive.Some? {
      RequestMoreBlock(s, Folder(o.archive.value));
    }
  }

  // A blocked main list has no request that an answer could come to.
  lemma AnswerBlock(s: State, step: Step)
    requires Inv(s) && Allowed(s, step) && BlockedWhenOld(s)
    requires step.ListDoneStep? || step.ListFailedStep? || step.PinnedDoneStep?
    ensures BlockedWhenOld(Next(s, step))
  {
    assert Get(s, Main) == s.main && Get(Next(s, step), Main) == Next(s, step).main;
    AnswerGuard(s, step);
    match step
    case ListDoneStep(r, result) =>
      assert ListFits(s, r, s.lists[r]);
      AnswerEffect(s, r, result);
    case ListFailedStep(r) =>
      assert ListFits(s, r, s.lists[r]);
      FailureEffect(s, r);
    case PinnedDoneStep(r) =>
      assert PinFits(s, r, s.pins[r]);
      PinnedDoneGet(s, r, Main);
  }

  predicate SameGuard(s: State, t: State) {
    t.till == s.till && t.blocked == s.blocked
  }

  lemma FinishGuard(s: State, k: Key)
    ensures SameGuard(s, LoadFinish(s, k))
  {
  }

  lemma ReceivedGuard(s: State, k: Key, load: Load)
    ensures SameGuard(s, ListReceived(s, k, load))
  {
    FinishGuard(Log(Put(s, k, load.(listReceived := true)), ListArrived(load.born)), k);
  }

  lemma ResultGuard(s: State, k: Key, result: Result)
    ensures SameGuard(s, ApplyResult(s, k, result))
  {
    if Get(s, k).Some? {
      ReceivedGuard(s, k, Get(s, k).value);
    }
  }

  lemma AnswerGuard(s: State, step: Step)
    requires Allowed(s, step) && (step.ListDoneStep? || step.ListFailedStep? || step.PinnedDoneStep?)
    ensures SameGuard(s, Next(s, step))
  {
    match step
    case ListDoneStep(r, result) => ResultGuard(s.(lists := s.lists - {r}), s.lists[r].key, result);
    case ListFailedStep(_) =>
    case PinnedDoneStep(r) =>
      if Get(s, s.pins[r]).Some? {
        FinishGuard(MarkPinned(s, r), s.pins[r]);
      }
  }

  lemma BlockStep(s: State, step: Step)
    requires Inv(s) && Allowed(s, step) && BlockedWhenOld(s)
    ensures BlockedWhenOld(Next(s, step))
  {
    match step
    case RequestStep(k) => RequestBlock(s, k);
    case IfNeededStep(o) => IfNeededBlock(s, o);
    case TillStep(_) =>
    case RequestPinnedStep(_) =>
    case _ => AnswerBlock(s, step);
  }

  lemma {:induction false} BlockInRun(s: State, steps: seq<Step>)
    requires Inv(s) && IsRun(s, steps) && BlockedWhenOld(s)
    ensures BlockedWhenOld(Run(s, steps))
    decreases |steps|
  {
    if steps != [] {
      BlockStep(s, steps[0]);
      Keeps(s, steps[0]);
      BlockInRun(Next(s, steps[0]), steps[1..]);
    }
  }

  // Loading is blocked only while the next page of the main list is not newer than the date to load to; a new date
  // blocks it exactly then.
  lemma BlockedOnlyWhenOld(steps: seq<Step>, till: int)
    requires IsRun(INITIAL, steps)
    ensures var s := Run(INITIAL, steps);
      && (s.blocked ==> IsOld(s))
      && (Next(s, TillStep(till)).blocked <==> IsOld(Next(s, TillStep(till)))) && Next(s, TillStep(till)).till == till
  {
    InitialInv();
    BlockInRun(INITIAL, steps);
  }

  lemma LookBlock(t: State)
    requires BlockedWhenOld(t)
    ensures var u := if t.main.None? || !t.main.value.listReceived then Refresh(t) else t; u.blocked <==> IsOld(u)
  {
  }

  lemma FoldersBlock(s: State, r: RequestId, result: Result, folders: seq<nat>)
    requires Inv(s) && BlockedWhenOld(s) && Allowed(s, ListDoneStep(r, result))
    ensures BlockedWhenOld(RequestFolders(Answer(s, r, result), folders))
  {
    var first := HandledRun(s, ListDoneStep(r, result), folders);
    BlockInRun(s, first);
  }

  // After the handler of a page of the main list the block is as the new offset says.
  lemma BlockedAfterPage(steps: seq<Step>, r: RequestId, result: Result, folders: seq<nat>, o: Outside)
    requires IsRun(INITIAL, steps) && Allowed(Run(INITIAL, steps), ListDoneStep(r, result))
    requires Run(INITIAL, steps).lists[r].key == Main
    ensures var t := ListDone(Run(INITIAL, steps), r, result, folders, o);
      t.blocked <==> IsOld(t)
  {
    var s := Run(INITIAL, steps);
    Reachable(steps);
    InitialInv();
    BlockInRun(INITIAL, steps);
    PageBlock(s, r, result, folders, o);
  }

  lemma PageBlock(s: State, r: RequestId, result: Result, folders: seq<nat>, o: Outside)
    requires Inv(s) && BlockedWhenOld(s) && Allowed(s, ListDoneStep(r, result)) && s.lists[r].key == Main
    ensures var t := ListDone(s, r, result, folders, o); t.blocked <==> IsOld(t)
  {
    var asked := if result.NotModified? then [] else folders;
    FoldersBlock(s, r, result, asked);
    var t := RequestFolders(Answer(s, r, result), asked);
    LookBlock(t);
    IfNeededBlock(if t.main.None? || !t.main.value.listReceived then Refresh(t) else t, o);
  }
}
