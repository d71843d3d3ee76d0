/** Events posted from the shell page to the frame it shows: they wait while the frame loads. */
module FrameQueue {
  import opened Basics

  datatype Event = Event(name: string, data: string)

  datatype Pending = Pending(generation: nat, event: Event)

  // A message handed to the window of a frame. A frame is named by the generation it was created for.
  datatype Sent = Sent(frame: nat, event: Event)

  const MAX_PENDING: nat := 64

  const RELOAD_IFRAME := Event("reload_iframe", "{}")

  datatype State = State(
    frame: Option<nat>,
    generation: nat,
    loaded: bool,
    reloadSupported: bool,
    timer: bool,
    pending: seq<Pending>,
    sent: seq<Sent>)

  const INITIAL := State(None, 0, false, false, false, [], [])

  // What a frame says to the shell.
  datatype Message = Ready(reloadSupported: bool) | WillReload

  datatype Step =
    | Post(event: Event)
    | Loaded(frame: nat)
    | Said(frame: nat, message: Message)
    | Bootstrap
    | Reload
    | TimeOut

  // The youngest entries of a queue.
  function Youngest<T>(queue: seq<T>, n: nat): seq<T> {
    if |queue| <= n then queue else queue[|queue| - n..]
  }

  function Send(s: State, event: Event, generation: nat): State {
    if s.frame.None? || generation != s.generation then s
    else s.(sent := s.sent + [Sent(s.frame.value, event)])
  }

  function PostEvent(s: State, event: Event): State {
    if s.frame.None? || !s.loaded then
      s.(pending := Youngest(s.pending + [Pending(s.generation, event)], MAX_PENDING))
    else
      Send(s, event, s.generation)
  }

  function FlushOne(s: State, p: Pending): State {
    if p.generation == s.generation then Send(s, p.event, p.generation) else s
  }

  function FlushAll(s: State, queue: seq<Pending>): State
    decreases |queue|
  {
    if queue == [] then s else FlushAll(FlushOne(s, queue[0]), queue[1..])
  }

  function Flush(s: State): State {
    FlushAll(s.(pending := []), s.pending)
  }

  function FrameLoaded(s: State, frame: nat): State {
    if s.frame != Some(frame) || frame != s.generation then s else Flush(s.(loaded := true))
  }

  function Create(s: State): State {
    s.(
      generation := s.generation + 1,
      frame := Some(s.generation + 1),
      loaded := false,
      reloadSupported := false,
      timer := false,
      pending := [])
  }

  function Hear(s: State, frame: nat, message: Message): State {
    if s.frame != Some(frame) then s
    else
      match message
      case Ready(supported) => s.(reloadSupported := supported)
      case WillReload => s.(timer := false, loaded := false)
  }

  function ReloadFrame(s: State): State {
    if s.frame.None? then s
    else if s.reloadSupported && s.loaded then Send(s, RELOAD_IFRAME, s.generation).(timer := true)
    else Create(s)
  }

  // Only a frame that was created loads or speaks, and only a timer that is set runs out.
  predicate Allowed(s: State, step: Step) {
    match step
    case Loaded(frame) => 1 <= frame <= s.generation
    case Said(frame, _) => 1 <= frame <= s.generation
    case TimeOut => s.timer
    case _ => true
  }

  function Next(s: State, step: Step): State {
    match step
    case Post(event) => PostEvent(s, event)
    case Loaded(frame) => FrameLoaded(s, frame)
    case Said(frame, message) => Hear(s, frame, message)
    case Bootstrap => Create(s)
    case Reload => ReloadFrame(s)
    case TimeOut => Create(s.(timer := false))
  }

  predicate IsRun(s: State, steps: seq<Step>)
    decreases |steps|
  {
    steps == [] || (Allowed(s, steps[0]) && IsRun(Next(s, steps[0]), steps[1..]))
  }

  function Run(s: State, steps: seq<Step>): State
    decreases |steps|
  {
    if steps == [] then s else Run(Next(s, steps[0]), steps[1..])
  }

  // ---- what every step keeps ----

  ghost predicate Inv(s: State) {
    && s.frame == (if s.generation == 0 then None else Some(s.generation))
    && (forall p <- s.pending :: p.generation == s.generation)
    && |s.pending| <= MAX_PENDING
    && (s.loaded ==> s.frame.Some? && s.pending == [])
    && (s.timer ==> s.loaded)
  }

  function Tagged(frame: nat, queue: seq<Pending>): (r: seq<Sent>)
    ensures |r| == |queue| && forall i :: 0 <= i < |r| ==> r[i] == Sent(frame, queue[i].event)
  {
    if queue == [] then [] else [Sent(frame, queue[0].event)] + Tagged(frame, queue[1..])
  }

  lemma FlushFirst(s: State, queue: seq<Pending>)
    requires queue != [] && s.frame == Some(s.generation) && queue[0].generation == s.generation
    ensures FlushAll(s, queue) == FlushAll(s.(sent := s.sent + [Sent(s.generation, queue[0].event)]), queue[1..])
  {
    assert FlushOne(s, queue[0]) == s.(sent := s.sent + [Sent(s.generation, queue[0].event)]);
  }

  lemma TaggedFirst(sent: seq<Sent>, frame: nat, queue: seq<Pending>)
    requires queue != []
    ensures sent + [Sent(frame, queue[0].event)] + Tagged(frame, queue[1..]) == sent + Tagged(frame, queue)
  {
  }

  // Flushing sends every waiting event, in order: the two comparisons of generations never drop one.
  lemma {:induction false} FlushSendsAll(s: State, queue: seq<Pending>)
    requires s.frame == Some(s.generation) && forall p <- queue :: p.generation == s.generation
    ensures FlushAll(s, queue) == s.(sent := s.sent + Tagged(s.generation, queue))
    decreases |queue|
  {
    if queue == [] {
      assert s.sent + Tagged(s.generation, queue) == s.sent;
    } else {
      assert queue[0] in queue && forall p <- queue[1..] :: p in queue;
      FlushFirst(s, queue);
      TaggedFirst(s.sent, s.generation, queue);
      FlushSendsAll(s.(sent := s.sent + [Sent(s.generation, queue[0].event)]), queue[1..]);
    }
  }

  lemma NextKeeps(s: State, step: Step)
    requires Inv(s) && Allowed(s, step)
    ensures Inv(Next(s, step))
  {
    match step
    case Post(event) =>
      assert forall p <- s.pending + [Pending(s.generation, event)] :: p.generation == s.generation;
    case Loaded(frame) =>
      if frame == s.generation {
        FlushSendsAll(s.(loaded := true, pending := []), s.pending);
      }
    case _ =>
  }

  lemma {:induction false} RunKeeps(s: State, steps: seq<Step>)
    requires Inv(s) && IsRun(s, steps)
    ensures Inv(Run(s, steps))
    decreases |steps|
  {
    if steps != [] {
      NextKeeps(s, steps[0]);
      RunKeeps(Next(s, steps[0]), steps[1..]);
    }
  }

  // In every reachable state what waits is for the frame shown, there is a bounded number of it, and nothing waits for
  // a loaded frame. When the timer runs out nothing waits, so a reload that gets no answer loses no event.
  lemma Reachable(steps: seq<Step>)
    requires IsRun(INITIAL, steps)
    ensures var s := Run(INITIAL, steps);
      && (forall p <- s.pending :: p.generation == s.generation) && |s.pending| <= MAX_PENDING
      && (s.loaded ==> s.frame == Some(s.generation) && s.pending == [])
      && (s.timer ==> s.pending == [])
  {
    RunKeeps(INITIAL, steps);
  }

  lemma {:induction false} RunAppend(s: State, first: seq<Step>, second: seq<Step>)
    ensures Run(s, first + second) == Run(Run(s, first), second)
    ensures IsRun(s, first + second) <==> IsRun(s, first) && IsRun(Run(s, first), second)
    decreases |first|
  {
    if first == [] {
      assert first + second == second;
    } else {
      assert (first + second)[0] == first[0] && (first + second)[1..] == first[1..] + second;
      RunAppend(Next(s, first[0]), first[1..], second);
    }
  }

  // What a replaced frame does, loading or speaking, can be struck out of a run.
  lemma ReplacedFramesAreMute(before: seq<Step>, late: Step, after: seq<Step>)
    requires IsRun(INITIAL, before + [late] + after)
    requires late.Loaded? || late.Said?
    requires late.frame < Run(INITIAL, before).generation
    ensures IsRun(INITIAL, before + after) && Run(INITIAL, before + [late] + after) == Run(INITIAL, before + after)
  {
    RunAppend(INITIAL, before + [late], after);
    RunAppend(INITIAL, before, [late]);
    RunAppend(INITIAL, before, after);
    RunKeeps(INITIAL, before);
    var s := Run(INITIAL, before);
    assert Next(s, late) == s;
    assert Run(s, [late]) == Run(Next(s, late), []);
  }

  // ---- which events arrive ----

  // The frame of this generation goes away with the step. (Before it loads: a loaded frame may be asked to reload
  // itself.)
  predicate Replaces(generation: nat, step: Step) {
    step.Bootstrap? || step.TimeOut? || (step.Reload? && generation > 0)
  }

  // An event that waits for the frame, with this many younger ones behind it, arrives in the run that follows.
  predicate Arrives(generation: nat, rest: seq<Step>, younger: nat)
    decreases |rest|
  {
    if rest == [] || Replaces(generation, rest[0]) then false
    else if rest[0] == Loaded(generation) then younger < 64
    else Arrives(generation, rest[1..], if rest[0].Post? then younger + 1 else younger)
  }

  // The messages of a run as a reader of the posts would list them: each post to a loaded frame, each post that arrives
  // later, and the requests to reload, all at the place where they were made.
  function Expected(s: State, steps: seq<Step>): seq<Sent>
    decreases |steps|
  {
    if steps == [] then []
    else
      var here :=
        match steps[0]
        case Post(event) =>
          if s.loaded || Arrives(s.generation, steps[1..], 0) then [Sent(s.generation, event)] else []
        case Reload =>
          if s.loaded && s.reloadSupported then [Sent(s.generation, Event("reload_iframe", "{}"))] else []
        case _ => [];
      here + Expected(Next(s, steps[0]), steps[1..])
  }

  function ExpectedOfPending(generation: nat, queue: seq<Pending>, steps: seq<Step>): seq<Sent>
    decreases |queue|
  {
    if queue == [] then []
    else
      (if Arrives(generation, steps, |queue| - 1) then [Sent(generation, queue[0].event)] else [])
      + ExpectedOfPending(generation, queue[1..], steps)
  }

  lemma {:induction false} TooOld(generation: nat, rest: seq<Step>, younger: nat)
    requires younger >= MAX_PENDING
    ensures !Arrives(generation, rest, younger)
    decreases |rest|
  {
    if rest != [] {
      TooOld(generation, rest[1..], if rest[0].Post? then younger + 1 else younger);
    }
  }

  // A further post makes every waiting event older by one.
  lemma {:induction false} PendingPost(generation: nat, queue: seq<Pending>, event: Event, rest: seq<Step>)
    ensures ExpectedOfPending(generation, queue + [Pending(generation, event)], rest)
      == ExpectedOfPending(generation, queue, [Post(event)] + rest)
        + (if Arrives(generation, rest, 0) then [Sent(generation, event)] else [])
    decreases |queue|
  {
    var more := queue + [Pending(generation, event)];
    var steps := [Post(event)] + rest;
    assert steps[1..] == rest;
    if queue == [] {
      assert more[1..] == [];
    } else {
      assert more[1..] == queue[1..] + [Pending(generation, event)];
      PendingPost(generation, queue[1..], event, rest);
      assert Arrives(generation, steps, |queue| - 1) == Arrives(generation, rest, |more| - 1);
    }
  }

  lemma PendingYoungest(generation: nat, queue: seq<Pending>, rest: seq<Step>)
    requires |queue| <= MAX_PENDING + 1
    ensures ExpectedOfPending(generation, Youngest(queue, MAX_PENDING), rest)
      == ExpectedOfPending(generation, queue, rest)
  {
    if |queue| == MAX_PENDING + 1 {
      TooOld(generation, rest, MAX_PENDING);
    }
  }

  // A step that neither posts, loads nor replaces the frame changes nothing for what waits.
  lemma {:induction false} PendingSkip(generation: nat, queue: seq<Pending>, steps: seq<Step>)
    requires steps != [] && !steps[0].Post? && !Replaces(generation, steps[0]) && steps[0] != Loaded(generation)
    ensures ExpectedOfPending(generation, queue, steps) == ExpectedOfPending(generation, queue, steps[1..])
    decreases |queue|
  {
    if queue != [] {
      PendingSkip(generation, queue[1..], steps);
    }
  }

  lemma {:induction false} PendingLoaded(generation: nat, queue: seq<Pending>, steps: seq<Step>)
    requires steps != [] && steps[0] == Loaded(generation) && |queue| <= MAX_PENDING
    ensures ExpectedOfPending(generation, queue, steps) == Tagged(generation, queue)
    decreases |queue|
  {
    if queue != [] {
      PendingLoaded(generation, queue[1..], steps);
    }
  }

  lemma {:induction false} PendingLost(generation: nat, queue: seq<Pending>, steps: seq<Step>)
    requires steps == [] || Replaces(generation, steps[0])
    ensures ExpectedOfPending(generation, queue, steps) == []
    decreases |queue|
  {
    if queue != [] {
      PendingLost(generation, queue[1..], steps);
    }
  }

  // What one step sends and leaves waiting.
  ghost predicate Accounted(s: State, steps: seq<Step>, t: State) {
    t.sent == s.sent + ExpectedOfPending(s.generation, s.pending, steps) + Expected(s, steps)
  }

  lemma PostAccounts(s: State, event: Event, rest: seq<Step>, t: State)
    requires Inv(s) && Accounted(PostEvent(s, event), rest, t)
    ensures Accounted(s, [Post(event)] + rest, t)
  {
    var steps := [Post(event)] + rest;
    assert steps[0] == Post(event) && steps[1..] == rest;
    if !s.loaded {
      PendingPost(s.generation, s.pending, event, rest);
      PendingYoungest(s.generation, s.pending + [Pending(s.generation, event)], rest);
    }
  }

  lemma LoadAccounts(s: State, frame: nat, rest: seq<Step>, t: State)
    requires Inv(s) && 1 <= frame <= s.generation && Accounted(FrameLoaded(s, frame), rest, t)
    ensures Accounted(s, [Loaded(frame)] + rest, t)
  {
    var steps := [Loaded(frame)] + rest;
    assert steps[0] == Loaded(frame) && steps[1..] == rest;
    if frame == s.generation {
      FlushSendsAll(s.(loaded := true, pending := []), s.pending);
      PendingLoaded(s.generation, s.pending, steps);
    } else {
      PendingSkip(s.generation, s.pending, steps);
    }
  }

  lemma OtherAccounts(s: State, step: Step, rest: seq<Step>, t: State)
    requires Inv(s) && Allowed(s, step) && !step.Post? && !step.Loaded? && Accounted(Next(s, step), rest, t)
    ensures Accounted(s, [step] + rest, t)
  {
    var steps := [step] + rest;
    assert steps[0] == step && steps[1..] == rest;
    if Replaces(s.generation, step) {
      PendingLost(s.generation, s.pending, steps);
    } else {
      PendingSkip(s.generation, s.pending, steps);
    }
  }

  lemma NextAccounts(s: State, step: Step, rest: seq<Step>, t: State)
    requires Inv(s) && Allowed(s, step) && Accounted(Next(s, step), rest, t)
    ensures Accounted(s, [step] + rest, t)
  {
    match step
    case Post(event) => PostAccounts(s, event, rest, t);
    case Loaded(frame) => LoadAccounts(s, frame, rest, t);
    case _ => OtherAccounts(s, step, rest, t);
  }

  lemma {:induction false} RunAccounts(s: State, steps: seq<Step>)
    requires Inv(s) && IsRun(s, steps)
    ensures Accounted(s, steps, Run(s, steps))
    decreases |steps|
  {
    if steps == [] {
      PendingLost(s.generation, s.pending, steps);
    } else {
      NextKeeps(s, steps[0]);
      RunAccounts(Next(s, steps[0]), steps[1..]);
      NextAccounts(s, steps[0], steps[1..], Run(s, steps));
      assert steps == [steps[0]] + steps[1..];
    }
  }

  // Every frame receives, in the order they were posted, exactly the events posted while it was loaded and those that
  // waited for it to load with fewer than the bound behind them.
  lemma SentIsExpected(steps: seq<Step>)
    requires IsRun(INITIAL, steps)
    ensures Run(INITIAL, steps).sent == Expected(INITIAL, steps)
  {
    RunAccounts(INITIAL, steps);
  }

  // The posts among some steps.
  function Posts(steps: seq<Step>): nat {
    if steps == [] then 0 else (if steps[0].Post? then 1 else 0) + Posts(steps[1..])
  }

  // The frame loads at this step, for the first time and before it is replaced.
  predicate LoadsAt(generation: nat, rest: seq<Step>, at: nat) {
    && at < |rest| && rest[at] == Loaded(generation)
    && forall k :: 0 <= k < at ==> !Replaces(generation, rest[k]) && rest[k] != Loaded(generation)
  }

  // A waiting event arrives exactly when its frame loads before it is replaced,
  // with fewer than the bound posted between.
  lemma {:induction false} ArrivesIff(generation: nat, rest: seq<Step>, younger: nat)
    ensures Arrives(generation, rest, younger)
      <==> exists at: nat :: LoadsAt(generation, rest, at) && younger + Posts(rest[..at]) < MAX_PENDING
    decreases |rest|
  {
    if rest == [] {
    } else if Replaces(generation, rest[0]) || rest[0] == Loaded(generation) {
      forall at: nat | LoadsAt(generation, rest, at)
        ensures at == 0
      {
      }
      assert Posts(rest[..0]) == 0;
      assert rest[0] == Loaded(generation) ==> LoadsAt(generation, rest, 0);
    } else {
      var more := if rest[0].Post? then younger + 1 else younger;
      ArrivesIff(generation, rest[1..], more);
      forall at: nat
        ensures LoadsAt(generation, rest[1..], at) <==> LoadsAt(generation, rest, at + 1)
        ensures at < |rest[1..]| ==> younger + Posts(rest[..at + 1]) == more + Posts(rest[1..][..at])
      {
        LoadsLater(generation, rest, at);
      }
      assert !LoadsAt(generation, rest, 0);
      if Arrives(generation, rest, younger) {
        var at: nat :| LoadsAt(generation, rest[1..], at) && more + Posts(rest[1..][..at]) < MAX_PENDING;
        assert LoadsAt(generation, rest, at + 1) && younger + Posts(rest[..at + 1]) < MAX_PENDING;
      }
      if at: nat :| LoadsAt(generation, rest, at) && younger + Posts(rest[..at]) < MAX_PENDING {
        assert at - 1 + 1 == at && LoadsAt(generation, rest[1..], at - 1);
        assert more + Posts(rest[1..][..at - 1]) < MAX_PENDING;
      }
    }
  }

  lemma LoadsLater(generation: nat, rest: seq<Step>, at: nat)
    requires rest != [] && !Replaces(generation, rest[0]) && rest[0] != Loaded(generation)
    ensures LoadsAt(generation, rest[1..], at) <==> LoadsAt(generation, rest, at + 1)
    ensures at < |rest| - 1 ==> Posts(rest[..at + 1]) == (if rest[0].Post? then 1 else 0) + Posts(rest[1..][..at])
  {
    if LoadsAt(generation, rest[1..], at) {
      forall k | 0 <= k < at + 1
        ensures !Replaces(generation, rest[k]) && rest[k] != Loaded(generation)
      {
        assert k > 0 ==> rest[k] == rest[1..][k - 1];
      }
    }
    if LoadsAt(generation, rest, at + 1) {
      forall k | 0 <= k < at
        ensures !Replaces(generation, rest[1..][k]) && rest[1..][k] != Loaded(generation)
      {
        assert rest[1..][k] == rest[k + 1];
      }
    }
    if at < |rest| - 1 {
      assert rest[..at + 1][1..] == rest[1..][..at];
    }
  }
}
