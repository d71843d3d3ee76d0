/** What holds in every run of the loading of dialog lists. */
module DialogRuns {
  import opened Dialogs

  ghost predicate IsRun(s: State, steps: seq<Step>)
    decreases |steps|
  {
    steps == [] || (Allowed(s, steps[0]) && IsRun(Next(s, steps[0]), steps[1..]))
  }

  ghost function Run(s: State, steps: seq<Step>): State
    requires IsRun(s, steps)
    decreases |steps|
  {
    if steps == [] then s else Run(Next(s, steps[0]), steps[1..])
  }

  lemma InitialInv()
    ensures Inv(INITIAL)
  {
    var e := Created(0, Main);
    assert Proper([]);
    assert INITIAL.log == [] + [e];
    ProperNext([], e);
    assert LoadFits(INITIAL, Main, Fresh(0));
  }

  lemma {:induction false} RunKeeps(s: State, steps: seq<Step>)
    requires Inv(s) && IsRun(s, steps)
    ensures Inv(Run(s, steps))
    decreases |steps|
  {
    if steps != [] {
      Keeps(s, steps[0]);
      RunKeeps(Next(s, steps[0]), steps[1..]);
    }
  }

  lemma Reachable(steps: seq<Step>)
    requires IsRun(INITIAL, steps)
    ensures Inv(Run(INITIAL, steps))
  {
    InitialInv();
    RunKeeps(INITIAL, steps);
  }

  lemma {:induction false} RunAppend(s: State, first: seq<Step>, second: seq<Step>)
    requires IsRun(s, first)
    ensures IsRun(s, first + second) <==> IsRun(Run(s, first), second)
    ensures IsRun(s, first + second) ==> Run(s, first + second) == Run(Run(s, first), second)
    decreases |first|
  {
    if first == [] {
      assert first + second == second;
    } else {
      assert (first + second)[0] == first[0] && (first + second)[1..] == first[1..] + second;
      RunAppend(Next(s, first[0]), first[1..], second);
    }
  }

  // ---- the handlers are made of steps ----

  function FolderSteps(folders: seq<nat>): seq<Step> {
    if folders == [] then [] else [RequestStep(Folder(folders[0]))] + FolderSteps(folders[1..])
  }

  lemma {:induction false} FoldersRun(s: State, folders: seq<nat>)
    ensures IsRun(s, FolderSteps(folders)) && Run(s, FolderSteps(folders)) == RequestFolders(s, folders)
    decreases |folders|
  {
    if folders != [] {
      FoldersRun(Request(s, Folder(folders[0])), folders[1..]);
      assert FolderSteps(folders)[1..] == FolderSteps(folders[1..]);
    }
  }

  lemma OneStep(s: State, step: Step)
    requires Allowed(s, step)
    ensures IsRun(s, [step]) && Run(s, [step]) == Next(s, step)
  {
    assert [step][1..] == [];
  }

  lemma LastStep(s: State, steps: seq<Step>, step: Step)
    requires IsRun(s, steps) && Allowed(Run(s, steps), step)
    ensures IsRun(s, steps + [step]) && Run(s, steps + [step]) == Next(Run(s, steps), step)
  {
    OneStep(Run(s, steps), step);
    RunAppend(s, steps, [step]);
  }

  lemma {:induction false} FolderStepsAre(folders: seq<nat>)
    ensures |FolderSteps(folders)| == |folders|
    ensures forall i :: 0 <= i < |folders| ==> FolderSteps(folders)[i] == RequestStep(Folder(folders[i]))
  {
    if folders != [] {
      FolderStepsAre(folders[1..]);
    }
  }

  // An answer, and then a request for each folder.
  predicate AreHandled(steps: seq<Step>, answer: Step, folders: seq<nat>) {
    && |steps| == 1 + |folders| && steps[0] == answer
    && forall i :: 0 <= i < |folders| ==> steps[1 + i] == RequestStep(Folder(folders[i]))
  }

  lemma HandledRun(s: State, answer: Step, folders: seq<nat>) returns (steps: seq<Step>)
    requires Allowed(s, answer)
    ensures AreHandled(steps, answer, folders)
    ensures IsRun(s, steps) && Run(s, steps) == RequestFolders(Next(s, answer), folders)
  {
    OneStep(s, answer);
    FoldersRun(Next(s, answer), folders);
    FolderStepsAre(folders);
    steps := [answer] + FolderSteps(folders);
    RunAppend(s, [answer], FolderSteps(folders));
  }

  predicate IsReceived(s: State, k: Key) {
    Get(s, k).Some? && Get(s, k).value.listReceived
  }

  // The handler of a page is a run of steps, so whatever holds in every run holds before and after it: the answer, a
  // request for each folder that it applies, a fresh look at the block for the main list unless that waits for its
  // pinned dialogs only, and the request for more.
  lemma ListDoneIsRun(s: State, r: RequestId, result: Result, folders: seq<nat>, o: Outside)
    returns (first: seq<Step>, steps: seq<Step>)
    requires Allowed(s, ListDoneStep(r, result))
    ensures AreHandled(first, ListDoneStep(r, result), if result == NotModified then [] else folders)
    ensures IsRun(s, first)
    ensures var t := Run(s, first);
      var looks := if s.lists[r].key == Main && !IsReceived(t, Main) then [TillStep(t.till)] else [];
      steps == first + looks + [IfNeededStep(o)]
    ensures IsRun(s, steps) && Run(s, steps) == ListDone(s, r, result, folders, o)
  {
    var asked := if result.NotModified? then [] else folders;
    first := HandledRun(s, ListDoneStep(r, result), asked);
    var t := Run(s, first);
    steps := first;
    if s.lists[r].key == Main && !IsReceived(t, Main) {
      LastStep(s, steps, TillStep(t.till));
      steps := steps + [TillStep(t.till)];
      assert Refresh(t.(till := t.till)) == Refresh(t);
    } else {
      assert first + [] == first;
    }
    LastStep(s, steps, IfNeededStep(o));
    steps := steps + [IfNeededStep(o)];
  }

  lemma PinnedAppliedIsRun(s: State, r: RequestId, folders: seq<nat>) returns (steps: seq<Step>)
    requires r in s.pins
    ensures AreHandled(steps, PinnedDoneStep(r), folders)
    ensures IsRun(s, steps) && Run(s, steps) == PinnedApplied(s, r, folders)
  {
    steps := HandledRun(s, PinnedDoneStep(r), folders);
  }

  // ---- what holds in every run ----

  // Of every list at most one request for a page and one for the pinned dialogs are on their way.
  lemma OneRequestOfAKind(steps: seq<Step>, q: RequestId, r: RequestId)
    requires IsRun(INITIAL, steps)
    ensures var s := Run(INITIAL, steps);
      && (q in s.lists && r in s.lists && s.lists[q].key == s.lists[r].key ==> q == r)
      && (q in s.pins && r in s.pins && s.pins[q] == s.pins[r] ==> q == r)
  {
    var s := Run(INITIAL, steps);
    Reachable(steps);
    assert q in s.lists ==> ListFits(s, q, s.lists[q]);
    assert r in s.lists ==> ListFits(s, r, s.lists[r]);
    assert q in s.pins ==> PinFits(s, q, s.pins[q]);
    assert r in s.pins ==> PinFits(s, r, s.pins[r]);
  }

  // The answer to a list request finds its load, at the offset it was sent with; a failure never misses it.
  lemma AnswerFindsLoad(steps: seq<Step>, r: RequestId)
    requires IsRun(INITIAL, steps)
    ensures var s := Run(INITIAL, steps);
      && !s.crashed
      && (r in s.lists ==>
           var load := Get(s, s.lists[r].key);
           load.Some? && !load.value.listReceived && s.lists[r] == QueryOf(s.lists[r].key, load.value))
  {
    var s := Run(INITIAL, steps);
    Reachable(steps);
    assert r in s.lists ==> ListFits(s, r, s.lists[r]);
  }

  lemma {:induction false} ProperOnce(log: seq<Event>, e: Event)
    requires Proper(log)
    ensures multiset(log)[e] == if e in log then 1 else 0
    decreases |log|
  {
    if log != [] {
      var before := log[..|log| - 1];
      assert log == before + [log[|log| - 1]];
      ProperOnce(before, e);
    }
  }

  lemma {:induction false} NotifiedLast(log: seq<Event>, i: nat)
    requires Proper(log) && i < |log| && log[i].Notified?
    ensures Created(log[i].born, log[i].key) in log[..i]
    ensures ListArrived(log[i].born) in log[..i] && PinnedArrived(log[i].born) in log[..i]
    decreases |log|
  {
    if i < |log| - 1 {
      NotifiedLast(log[..|log| - 1], i);
      assert log[..|log| - 1][..i] == log[..i];
    }
  }

  // A load state is announced exactly once when both its parts have arrived, after them, and not at all before.
  lemma AnnouncedOnce(steps: seq<Step>, born: nat, k: Key)
    requires IsRun(INITIAL, steps) && Created(born, k) in Run(INITIAL, steps).log
    ensures var log := Run(INITIAL, steps).log;
      && multiset(log)[Notified(born, k)] == (if ListArrived(born) in log && PinnedArrived(born) in log then 1 else 0)
      && forall i :: 0 <= i < |log| && log[i] == Notified(born, k) ==>
           ListArrived(born) in log[..i] && PinnedArrived(born) in log[..i]
  {
    var s := Run(INITIAL, steps);
    Reachable(steps);
    ProperOnce(s.log, Notified(born, k));
    forall i | 0 <= i < |s.log| && s.log[i] == Notified(born, k)
      ensures ListArrived(born) in s.log[..i] && PinnedArrived(born) in s.log[..i]
    {
      NotifiedLast(s.log, i);
    }
    if Notified(born, k) !in s.log {
      assert LoadFits(s, k, Get(s, k).value) && Unfinished(s, k);
    }
  }

  // The main list is loaded, and announced, at most once.
  lemma MainOnce(steps: seq<Step>, born: nat)
    requires IsRun(INITIAL, steps) && Notified(born, Main) in Run(INITIAL, steps).log
    ensures born == 0 && Get(Run(INITIAL, steps), Main).None?
  {
    var s := Run(INITIAL, steps);
    Reachable(steps);
    var i :| 0 <= i < |s.log| && s.log[i] == Notified(born, Main);
    NotifiedLast(s.log, i);
    assert Get(s, Main).Some? ==> LoadFits(s, Main, Get(s, Main).value);
  }
}
