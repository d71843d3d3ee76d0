/** Downloading a playlist with a bounded number of processes. */
module Playlist {
  import opened Basics

  datatype Event =
    | Started(index: nat)
    | Done(completed: nat)

  /** The playlist state of the engine, the processes that are alive, and what happened in this run:
      what was started and announced, and the exit codes of the items that finished. */
  datatype State = State(
    count: nat,
    nextIndex: nat,
    activeCount: int,
    completedCount: nat,
    maxConcurrency: int,
    active: set<nat>,
    cancelled: bool,
    downloading: bool,
    live: set<nat>,
    codes: map<nat, int>,
    events: seq<Event>)

  // Starts the next item, or announces the end when nothing is left to wait for.
  function ProcessNext(s: State): State {
    if s.cancelled then s
    else if s.nextIndex >= s.count then
      if s.activeCount == 0 then s.(downloading := false, events := s.events + [Done(s.completedCount)]) else s
    else
      s.(
        nextIndex := s.nextIndex + 1,
        activeCount := s.activeCount + 1,
        active := s.active + {s.nextIndex},
        live := s.live + {s.nextIndex},
        events := s.events + [Started(s.nextIndex)])
  }

  function ProcessTimes(s: State, n: nat): State
    decreases n
  {
    if n == 0 then s else ProcessNext(ProcessTimes(s, n - 1))
  }

  function Begin(count: nat, maxConcurrency: int): State {
    var s := State(count, 0, 0, 0, maxConcurrency, {}, false, true, {}, map[], []);
    if Min(maxConcurrency, count) <= 0 then s else ProcessTimes(s, Min(maxConcurrency, count))
  }

  // What a finished process leaves behind before the next item is looked at.
  function Left(s: State, index: nat, code: int): State {
    s.(
      activeCount := s.activeCount - 1,
      completedCount := if code == 0 then s.completedCount + 1 else s.completedCount,
      active := s.active - {index},
      live := s.live - {index},
      codes := s.codes[index := code])
  }

  // A process has ended.
  function Finished(s: State, index: nat, code: int): State {
    var t := Left(s, index, code);
    if !t.cancelled then ProcessNext(t)
    else if t.activeCount == 0 then t.(downloading := false) else t
  }

  // Killing a process ends it at once or, when it does not end in time, later.
  datatype Death = Death(index: nat, code: int)

  function Deaths(s: State, deaths: seq<Death>): State
    decreases |deaths|
  {
    if deaths == [] then s else Deaths(Finished(s, deaths[0].index, deaths[0].code), deaths[1..])
  }

  function Cancel(s: State, deaths: seq<Death>): State {
    var t := Deaths(s.(cancelled := true, downloading := false), deaths);
    t.(active := {}, activeCount := 0)
  }

  datatype Step =
    | FinishedStep(index: nat, code: int)
    | CancelStep(deaths: seq<Death>)

  // The processes that die are alive, and each dies once.
  predicate Dying(live: set<nat>, deaths: seq<Death>) {
    deaths == [] || (deaths[0].index in live && Dying(live - {deaths[0].index}, deaths[1..]))
  }

  predicate Allowed(s: State, step: Step) {
    match step
    case FinishedStep(index, _) => index in s.live
    case CancelStep(deaths) => Dying(s.live, deaths)
  }

  function Next(s: State, step: Step): State
    requires Allowed(s, step)
  {
    match step
    case FinishedStep(index, code) => Finished(s, index, code)
    case CancelStep(deaths) => Cancel(s, deaths)
  }

  // ---- what every step keeps ----

  // The items that exited with code zero.
  function Successes(codes: map<nat, int>): set<nat> {
    set k | k in codes && codes[k] == 0
  }

  function Starts(n: nat): (r: seq<Event>)
    ensures |r| == n && forall i :: 0 <= i < n ==> r[i] == Started(i)
  {
    if n == 0 then [] else Starts(n - 1) + [Started(n - 1)]
  }

  ghost predicate AllFinished(s: State) {
    s.count > 0 && |s.codes| == s.count
  }

  // An uncancelled run: items start in order, the started ones are alive or have finished, and the end is announced
  // last.
  ghost predicate Running(s: State) {
    && !s.cancelled
    && s.nextIndex <= s.count
    && s.live == s.active && s.live !! s.codes.Keys && s.live + s.codes.Keys == Below(s.nextIndex)
    && s.activeCount == |s.live|
    && s.completedCount == |Successes(s.codes)|
    && s.events == Starts(s.nextIndex) + (if AllFinished(s) then [Done(s.completedCount)] else [])
    && (s.downloading <==> !AllFinished(s))
  }

  // Between events as many processes run as may and as there is work for.
  ghost predicate Full(s: State) {
    s.activeCount == Min(s.maxConcurrency, s.count - |s.codes|)
  }

  ghost predicate Inv(s: State) {
    Running(s) && s.maxConcurrency >= 1 && s.count > 0 && Full(s)
  }

  lemma Counts(s: State)
    requires Running(s)
    ensures s.activeCount + |s.codes| == s.nextIndex
  {
    BelowCount(s.nextIndex);
    assert |s.live + s.codes.Keys| == |s.live| + |s.codes.Keys|;
    assert |s.codes.Keys| == |s.codes|;
  }

  lemma StartedSet(live: set<nat>, done: set<nat>, n: nat)
    requires live !! done && live + done == Below(n)
    ensures n !in live && n !in done
    ensures (live + {n}) !! done && (live + {n}) + done == Below(n + 1) && |live + {n}| == |live| + 1
  {
    assert n !in live + done;
  }

  lemma StillRuns(s: State)
    requires Running(s) && s.nextIndex < s.count
    ensures !AllFinished(s) && s.events == Starts(s.nextIndex)
  {
    Counts(s);
    assert Starts(s.nextIndex) + [] == Starts(s.nextIndex);
  }

  // Starting an item keeps the run in order.
  lemma StartKeeps(s: State)
    requires Running(s) && s.nextIndex < s.count
    ensures Running(ProcessNext(s)) && ProcessNext(s).nextIndex == s.nextIndex + 1 && ProcessNext(s).codes == s.codes
    ensures ProcessNext(s).maxConcurrency == s.maxConcurrency && ProcessNext(s).count == s.count
  {
    StillRuns(s);
    StartedSet(s.live, s.codes.Keys, s.nextIndex);
    assert Starts(s.nextIndex + 1) == Starts(s.nextIndex) + [Started(s.nextIndex)];
  }

  // The next n items have been started.
  ghost predicate StartedFrom(s: State, t: State, n: nat) {
    && Running(t) && t.nextIndex == s.nextIndex + n && t.codes == s.codes
    && t.maxConcurrency == s.maxConcurrency && t.count == s.count
  }

  lemma NoneStarted(s: State)
    requires Running(s)
    ensures StartedFrom(s, s, 0)
  {
  }

  lemma StartOneMore(s: State, t: State, n: nat)
    requires StartedFrom(s, t, n) && t.nextIndex < t.count
    ensures StartedFrom(s, ProcessNext(t), n + 1)
  {
    StartKeeps(t);
  }

  lemma {:induction false} TimesKeeps(s: State, n: nat, kept: (State, nat) -> bool)
    requires kept(s, 0) && forall t, k: nat :: k < n && kept(t, k) ==> kept(ProcessNext(t), k + 1)
    ensures kept(ProcessTimes(s, n), n)
  {
    if n > 0 {
      TimesKeeps(s, n - 1, kept);
      assert kept(ProcessNext(ProcessTimes(s, n - 1)), n - 1 + 1);
    }
  }

  lemma StartAll(s: State, n: nat)
    requires Running(s) && s.nextIndex + n <= s.count
    ensures StartedFrom(s, ProcessTimes(s, n), n)
  {
    NoneStarted(s);
    forall t, k: nat | k < n && StartedFrom(s, t, k)
      ensures StartedFrom(s, ProcessNext(t), k + 1)
    {
      StartOneMore(s, t, k);
    }
    TimesKeeps(s, n, (t: State, k: nat) => StartedFrom(s, t, k));
  }

  lemma NothingStarted(s: State)
    requires s == State(s.count, 0, 0, 0, s.maxConcurrency, {}, false, true, {}, map[], []) && s.count > 0
    ensures Running(s)
  {
    assert s.codes.Keys == {} && Below(0) == {} && Starts(0) == [];
    assert Successes(s.codes) == {} && |s.codes| == 0;
  }

  lemma BeginInv(count: nat, maxConcurrency: int)
    requires count > 0 && maxConcurrency >= 1
    ensures Inv(Begin(count, maxConcurrency))
    ensures Begin(count, maxConcurrency).count == count && Begin(count, maxConcurrency).maxConcurrency == maxConcurrency
  {
    var s := State(count, 0, 0, 0, maxConcurrency, {}, false, true, {}, map[], []);
    NothingStarted(s);
    StartAll(s, Min(maxConcurrency, count));
    Counts(Begin(count, maxConcurrency));
  }

  // A finished process leaves its place to the next item, or ends the run.
  lemma FinishedKeeps(s: State, index: nat, code: int)
    requires Inv(s) && index in s.live
    ensures Inv(Finished(s, index, code))
  {
    Counts(s);
    FinishedSets(s, index, code);
    if s.nextIndex < s.count {
      NextTakesPlace(s, Left(s, index, code));
    } else {
      var t := Left(s, index, code);
      if t.activeCount > 0 {
        OthersFinish(s, t);
      } else {
        RunIsOver(s, t);
      }
    }
  }

  // One process fewer is alive and one item more has finished.
  ghost predicate OneLess(s: State, t: State) {
    && !t.cancelled && t.nextIndex == s.nextIndex && t.count == s.count && t.maxConcurrency == s.maxConcurrency
    && t.live == t.active && t.live !! t.codes.Keys && t.live + t.codes.Keys == Below(t.nextIndex)
    && t.activeCount == |t.live| == |s.live| - 1 && |t.codes| == |s.codes| + 1
    && t.completedCount == |Successes(t.codes)|
    && t.events == s.events && t.downloading == s.downloading
  }

  lemma NextTakesPlace(s: State, t: State)
    requires Inv(s) && OneLess(s, t) && s.nextIndex < s.count && s.activeCount + |s.codes| == s.nextIndex
    ensures Inv(ProcessNext(t))
  {
    assert !AllFinished(s) && !AllFinished(t);
    StartKeeps(t);
    Counts(ProcessNext(t));
  }

  // When every item has been started, the others are waited for.
  lemma OthersFinish(s: State, t: State)
    requires Inv(s) && OneLess(s, t) && s.nextIndex == s.count && s.activeCount + |s.codes| == s.nextIndex
    requires t.activeCount > 0
    ensures Inv(t) && ProcessNext(t) == t
  {
    assert !AllFinished(s) && !AllFinished(t);
  }

  // The last one ends the run.
  lemma RunIsOver(s: State, t: State)
    requires Inv(s) && OneLess(s, t) && s.nextIndex == s.count && s.activeCount + |s.codes| == s.nextIndex
    requires t.activeCount == 0
    ensures Inv(ProcessNext(t))
  {
    assert !AllFinished(s) && AllFinished(t);
    assert s.events == Starts(s.nextIndex);
  }

  lemma FinishedSets(s: State, index: nat, code: int)
    requires Running(s) && index in s.live
    ensures var live, codes := s.live - {index}, s.codes[index := code];
      && index !in s.codes && |live| == |s.live| - 1 && |codes| == |s.codes| + 1
      && live !! codes.Keys && live + codes.Keys == Below(s.nextIndex)
      && |Successes(codes)| == |Successes(s.codes)| + (if code == 0 then 1 else 0)
  {
    MovedIndex(s.live, s.codes.Keys, index);
    CodeAdded(s.codes, index, code);
  }

  lemma MovedIndex(live: set<nat>, done: set<nat>, index: nat)
    requires index in live && live !! done
    ensures index !in done && |live - {index}| == |live| - 1
    ensures live - {index} !! done + {index} && live - {index} + (done + {index}) == live + done
  {
  }

  lemma CodeAdded(codes: map<nat, int>, index: nat, code: int)
    requires index !in codes
    ensures codes[index := code].Keys == codes.Keys + {index} && |codes[index := code]| == |codes| + 1
    ensures |Successes(codes[index := code])| == |Successes(codes)| + (if code == 0 then 1 else 0)
  {
    KeyAdded(codes, index, code);
    SuccessAdded(codes, index, code);
  }

  lemma KeyAdded(codes: map<nat, int>, index: nat, code: int)
    requires index !in codes
    ensures codes[index := code].Keys == codes.Keys + {index} && |codes[index := code]| == |codes| + 1
  {
    var more := codes[index := code];
    assert more.Keys == codes.Keys + {index};
    assert |more| == |more.Keys| && |codes| == |codes.Keys|;
  }

  lemma SuccessAdded(codes: map<nat, int>, index: nat, code: int)
    requires index !in codes
    ensures |Successes(codes[index := code])| == |Successes(codes)| + (if code == 0 then 1 else 0)
  {
    var more := codes[index := code];
    assert index !in Successes(codes);
    if code == 0 {
      assert Successes(more) == Successes(codes) + {index};
    } else {
      assert Successes(more) == Successes(codes);
    }
  }

  // ---- cancelled runs ----

  // After a cancel, however late its processes end, no event is added.
  ghost predicate Stopped(s: State, events: seq<Event>) {
    s.cancelled && !s.downloading && s.events == events
  }

  lemma FinishedStopped(s: State, index: nat, code: int)
    requires s.cancelled
    ensures var t := Finished(s, index, code); t.cancelled && t.events == s.events && (t.downloading ==> s.downloading)
  {
  }

  lemma {:induction false} DeathsStopped(s: State, deaths: seq<Death>)
    requires s.cancelled
    ensures var t := Deaths(s, deaths); t.cancelled && t.events == s.events && (t.downloading ==> s.downloading)
    decreases |deaths|
  {
    if deaths != [] {
      DeathsStopped(Finished(s, deaths[0].index, deaths[0].code), deaths[1..]);
    }
  }

  lemma CancelStops(s: State, deaths: seq<Death>)
    ensures Stopped(Cancel(s, deaths), s.events)
  {
    DeathsStopped(s.(cancelled := true, downloading := false), deaths);
  }

  // Whoever died.
  function DeadOf(deaths: seq<Death>): set<nat> {
    if deaths == [] then {} else {deaths[0].index} + DeadOf(deaths[1..])
  }

  lemma {:induction false} DeathsKill(s: State, deaths: seq<Death>)
    requires s.cancelled
    ensures Deaths(s, deaths).live == s.live - DeadOf(deaths) && Deaths(s, deaths).count == s.count
    ensures forall d <- deaths :: d.index in DeadOf(deaths)
    decreases |deaths|
  {
    if deaths != [] {
      DeathsKill(Finished(s, deaths[0].index, deaths[0].code), deaths[1..]);
      assert s.live - {deaths[0].index} - DeadOf(deaths[1..]) == s.live - DeadOf(deaths);
    }
  }

  // A cancel leaves alive only the processes that did not die in time, forgets them, and ends the download.
  lemma CancelLeaves(s: State, deaths: seq<Death>)
    ensures var t := Cancel(s, deaths);
      && t.live == s.live - DeadOf(deaths) && t.active == {} && t.activeCount == 0
      && t.cancelled && !t.downloading && t.events == s.events
  {
    DeathsKill(s.(cancelled := true, downloading := false), deaths);
    CancelStops(s, deaths);
  }

  // ---- runs ----

  ghost predicate IsRun(s: State, steps: seq<Step>)
    decreases |steps|
  {
    steps == [] || (Allowed(s, steps[0]) && IsRun(Next(s, steps[0]), steps[1..]))
  }

  ghost predicate Uncancelled(s: State, steps: seq<Step>) {
    IsRun(s, steps) && forall step <- steps :: step.FinishedStep?
  }

  ghost function Run(s: State, steps: seq<Step>): State
    requires IsRun(s, steps)
    decreases |steps|
  {
    if steps == [] then s else Run(Next(s, steps[0]), steps[1..])
  }

  lemma {:induction false} RunKeeps(s: State, steps: seq<Step>)
    requires Inv(s) && Uncancelled(s, steps)
    ensures Inv(Run(s, steps))
    decreases |steps|
  {
    if steps != [] {
      assert steps[0] in steps && forall step <- steps[1..] :: step in steps;
      FinishedKeeps(s, steps[0].index, steps[0].code);
      RunKeeps(Next(s, steps[0]), steps[1..]);
    }
  }

  // Between the events of an uncancelled run the number of processes is the greatest the bound and the work left allow,
  // the items start once and in order, and the end is announced, with the number of zero exit codes,
  // exactly when every item has finished, and then once and last.
  lemma UncancelledRun(count: nat, maxConcurrency: int, steps: seq<Step>)
    requires count > 0 && maxConcurrency >= 1 && Uncancelled(Begin(count, maxConcurrency), steps)
    ensures var s := Run(Begin(count, maxConcurrency), steps);
      && s.count == count && s.maxConcurrency == maxConcurrency
      && s.activeCount == |s.live| == Min(s.maxConcurrency, s.count - |s.codes|)
      && s.live == s.active && s.live !! s.codes.Keys && s.live + s.codes.Keys == Below(s.nextIndex)
      && s.events == Starts(s.nextIndex) + (if |s.codes| == s.count then [Done(|Successes(s.codes)|)] else [])
      && (s.downloading <==> |s.codes| != s.count)
  {
    var t := Begin(count, maxConcurrency);
    BeginInv(count, maxConcurrency);
    RunKeeps(t, steps);
    RunConstants(t, steps);
    InvMeans(Run(t, steps));
  }

  lemma InvMeans(s: State)
    requires Inv(s)
    ensures s.activeCount == |s.live| == Min(s.maxConcurrency, s.count - |s.codes|)
    ensures s.live == s.active && s.live !! s.codes.Keys && s.live + s.codes.Keys == Below(s.nextIndex)
    ensures s.events == Starts(s.nextIndex) + (if |s.codes| == s.count then [Done(|Successes(s.codes)|)] else [])
    ensures s.downloading <==> |s.codes| != s.count
  {
  }

  lemma NextConstants(s: State, step: Step)
    requires Allowed(s, step) && step.FinishedStep?
    ensures Next(s, step).count == s.count && Next(s, step).maxConcurrency == s.maxConcurrency
  {
  }

  lemma {:induction false} RunConstants(s: State, steps: seq<Step>)
    requires Uncancelled(s, steps)
    ensures Run(s, steps).count == s.count && Run(s, steps).maxConcurrency == s.maxConcurrency
    decreases |steps|
  {
    if steps != [] {
      assert steps[0] in steps && forall step <- steps[1..] :: step in steps;
      NextConstants(s, steps[0]);
      RunConstants(Next(s, steps[0]), steps[1..]);
    }
  }

  // When no process is alive any more, an uncancelled run has announced its end.
  lemma RunEnds(count: nat, maxConcurrency: int, steps: seq<Step>)
    requires count > 0 && maxConcurrency >= 1 && Uncancelled(Begin(count, maxConcurrency), steps)
    ensures var s := Run(Begin(count, maxConcurrency), steps);
      s.live == {} <==> s.events == Starts(count) + [Done(|Successes(s.codes)|)]
  {
    BeginInv(count, maxConcurrency);
    RunKeeps(Begin(count, maxConcurrency), steps);
    RunConstants(Begin(count, maxConcurrency), steps);
    EndsWhenIdle(Run(Begin(count, maxConcurrency), steps));
  }

  lemma EndsWhenIdle(s: State)
    requires Inv(s)
    ensures s.live == {} <==> s.events == Starts(s.count) + [Done(|Successes(s.codes)|)]
  {
    Counts(s);
    if s.live != {} {
      assert !AllFinished(s);
      assert |s.events| == s.nextIndex;
    }
  }

  // After a cancel nothing starts and the end is not announced.
  lemma {:induction false} NothingAfterCancel(s: State, steps: seq<Step>, events: seq<Event>)
    requires Stopped(s, events) && IsRun(s, steps)
    ensures Stopped(Run(s, steps), events)
    decreases |steps|
  {
    if steps != [] {
      match steps[0] {
        case FinishedStep(index, code) => FinishedStopped(s, index, code);
        case CancelStep(deaths) => CancelStops(s, deaths);
      }
      NothingAfterCancel(Next(s, steps[0]), steps[1..], events);
    }
  }

  lemma CancelledRun(s: State, deaths: seq<Death>, steps: seq<Step>)
    requires Allowed(s, CancelStep(deaths)) && IsRun(Cancel(s, deaths), steps)
    ensures Run(Cancel(s, deaths), steps).events == s.events && !Run(Cancel(s, deaths), steps).downloading
  {
    CancelStops(s, deaths);
    NothingAfterCancel(Cancel(s, deaths), steps, s.events);
  }

  lemma IdleRun(s: State, steps: seq<Step>)
    requires s.live == {} && Uncancelled(s, steps)
    ensures steps == []
  {
    assert forall i :: 0 <= i < |steps| ==> steps[i] in steps;
  }

  // The run in which nothing happens.
  predicate Idle(steps: seq<Step>, s: State) {
    steps == [] && s.events == [] && s.live == {} && s.downloading
  }

  // The end is announced in some run exactly when there is an item and room for a process. Otherwise no process starts
  // in any run, and the download stays marked as running.
  lemma EndIsReachable(count: nat, maxConcurrency: int)
    ensures (exists steps: seq<Step>, completed: nat :: FinishedRun(count, maxConcurrency, steps, completed))
      <==> count > 0 && maxConcurrency >= 1
    ensures count == 0 || maxConcurrency < 1 ==>
      forall steps: seq<Step> :: Uncancelled(Begin(count, maxConcurrency), steps)
        ==> Idle(steps, Run(Begin(count, maxConcurrency), steps))
  {
    if count > 0 && maxConcurrency >= 1 {
      BeginInv(count, maxConcurrency);
      var steps := FinishAll(Begin(count, maxConcurrency));
      RunEnds(count, maxConcurrency, steps);
      var s := Run(Begin(count, maxConcurrency), steps);
      assert s.events[|s.events| - 1] == Done(|Successes(s.codes)|);
      assert FinishedRun(count, maxConcurrency, steps, |Successes(s.codes)|);
    } else {
      forall steps: seq<Step> | Uncancelled(Begin(count, maxConcurrency), steps)
        ensures Idle(steps, Run(Begin(count, maxConcurrency), steps))
      {
        IdleRun(Begin(count, maxConcurrency), steps);
      }
    }
  }

  ghost predicate FinishedRun(count: nat, maxConcurrency: int, steps: seq<Step>, completed: nat) {
    && Uncancelled(Begin(count, maxConcurrency), steps)
    && Done(completed) in Run(Begin(count, maxConcurrency), steps).events
  }

  lemma FinishedBound(s: State)
    requires Inv(s)
    ensures |s.codes| <= s.count && forall k <- s.live :: k !in s.codes
  {
    Counts(s);
  }

  lemma FinishedCodes(s: State, k: nat)
    requires k !in s.codes
    ensures |Finished(s, k, 0).codes| == |s.codes| + 1
  {
    KeyAdded(s.codes, k, 0);
  }

  // Steps that finish every process.
  lemma {:induction false} FinishAll(s: State) returns (steps: seq<Step>)
    requires Inv(s)
    ensures Uncancelled(s, steps) && Run(s, steps).live == {}
    decreases s.count - |s.codes|
  {
    if s.live == {} {
      steps := [];
    } else {
      var k :| k in s.live;
      FinishedBound(s);
      FinishedCodes(s, k);
      FinishedKeeps(s, k, 0);
      FinishedBound(Finished(s, k, 0));
      NextConstants(s, FinishedStep(k, 0));
      var rest := FinishAll(Finished(s, k, 0));
      steps := [FinishedStep(k, 0)] + rest;
      assert steps[1..] == rest;
    }
  }
}
