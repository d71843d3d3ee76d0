/** What the flags of the frame mean, told from the steps of a run alone. */
module FrameHistory {
  import opened Basics
  import opened FrameQueue

  // At the end of the run this step has been taken, and none behind it undoes it.
  ghost predicate Lasts(steps: seq<Step>, step: Step, undo: Step) {
    exists i :: StandsAt(steps, i, step, undo)
  }

  predicate StandsAt(steps: seq<Step>, i: int, step: Step, undo: Step) {
    0 <= i < |steps| && steps[i] == step && forall j :: i < j < |steps| ==> steps[j] != undo
  }

  lemma LastsMore(steps: seq<Step>, last: Step, step: Step, undo: Step)
    requires step != undo
    ensures Lasts(steps + [last], step, undo) <==> last == step || (last != undo && Lasts(steps, step, undo))
  {
    var more := steps + [last];
    assert forall j :: 0 <= j < |steps| ==> more[j] == steps[j];
    if last == step {
      assert StandsAt(more, |steps|, step, undo);
    }
    if i :| StandsAt(steps, i, step, undo) && last != undo {
      assert StandsAt(more, i, step, undo);
    }
    if i :| StandsAt(more, i, step, undo) && last != step {
      assert more[|steps|] == last;
      assert StandsAt(steps, i, step, undo);
    }
  }

  lemma RunLast(steps: seq<Step>, last: Step)
    requires IsRun(INITIAL, steps + [last])
    ensures IsRun(INITIAL, steps) && Allowed(Run(INITIAL, steps), last)
    ensures Run(INITIAL, steps + [last]) == Next(Run(INITIAL, steps), last)
  {
    RunAppend(INITIAL, steps, [last]);
    assert [last][1..] == [];
  }

  // A frame that does not exist has neither loaded nor spoken.
  lemma {:induction false} NothingFromLaterFrames(steps: seq<Step>, g: nat)
    requires IsRun(INITIAL, steps) && (g > Run(INITIAL, steps).generation || g == 0)
    ensures Loaded(g) !in steps && forall message :: Said(g, message) !in steps
    decreases |steps|
  {
    if steps != [] {
      var front, last := steps[..|steps| - 1], steps[|steps| - 1];
      assert steps == front + [last];
      RunLast(front, last);
      GenerationGrows(Run(INITIAL, front), last);
      NothingFromLaterFrames(front, g);
    }
  }

  // A step that makes a new frame.
  predicate Creates(s: State, step: Step) {
    match step
    case Bootstrap => true
    case TimeOut => true
    case Reload => s.generation > 0 && !(s.loaded && s.reloadSupported)
    case _ => false
  }

  lemma GenerationGrows(s: State, step: Step)
    ensures s.frame == (if s.generation == 0 then None else Some(s.generation)) ==>
      Next(s, step).generation == s.generation + if Creates(s, step) then 1 else 0
    ensures s.generation <= Next(s, step).generation
  {
    if step.Loaded? {
      FlushKeeps(s.(loaded := true, pending := []), s.pending);
    }
  }

  lemma {:induction false} FlushKeeps(s: State, queue: seq<Pending>)
    ensures FlushAll(s, queue) == s.(sent := FlushAll(s, queue).sent)
    decreases |queue|
  {
    if queue != [] {
      FlushKeeps(FlushOne(s, queue[0]), queue[1..]);
    }
  }

  // What one step does to the flags.
  lemma FlagsNext(s: State, step: Step)
    requires Inv(s) && Allowed(s, step)
    ensures var t, g := Next(s, step), s.generation;
      if Creates(s, step) then !t.loaded && !t.reloadSupported && !t.timer && t.pending == []
      else
        && (t.loaded <==> (step == Loaded(g) && g > 0) || (s.loaded && step != Said(g, WillReload)))
        && (t.reloadSupported <==>
             (step == Said(g, Ready(true)) && g > 0) || (s.reloadSupported && step != Said(g, Ready(false))))
        && (t.timer <==>
             (step == Reload && s.loaded && s.reloadSupported) || (s.timer && step != Said(g, WillReload)))
  {
    if step.Loaded? {
      FlushKeeps(s.(loaded := true, pending := []), s.pending);
    }
  }

  // The flags of the frame shown.
  ghost predicate Explained(steps: seq<Step>, s: State) {
    var g := s.generation;
    && (s.loaded <==> Lasts(steps, Loaded(g), Said(g, WillReload)))
    && (s.reloadSupported <==> Lasts(steps, Said(g, Ready(true)), Said(g, Ready(false))))
  }

  lemma ExplainedNext(steps: seq<Step>, last: Step)
    requires IsRun(INITIAL, steps + [last]) && Explained(steps, Run(INITIAL, steps)) && Inv(Run(INITIAL, steps))
    ensures Explained(steps + [last], Run(INITIAL, steps + [last]))
  {
    var s := Run(INITIAL, steps);
    RunLast(steps, last);
    var t := Next(s, last);
    var g := t.generation;
    GenerationGrows(s, last);
    FlagsNext(s, last);
    LastsMore(steps, last, Loaded(g), Said(g, WillReload));
    LastsMore(steps, last, Said(g, Ready(true)), Said(g, Ready(false)));
    if Creates(s, last) || g == 0 {
      NothingFromLaterFrames(steps, g);
    }
  }

  lemma {:induction false} AllExplained(steps: seq<Step>)
    requires IsRun(INITIAL, steps)
    ensures Explained(steps, Run(INITIAL, steps)) && Inv(Run(INITIAL, steps))
    decreases |steps|
  {
    if steps != [] {
      var front, last := steps[..|steps| - 1], steps[|steps| - 1];
      assert steps == front + [last];
      RunLast(front, last);
      AllExplained(front);
      NextKeeps(Run(INITIAL, front), last);
      ExplainedNext(front, last);
    }
  }

  // The frame shown is loaded exactly when it has loaded and not announced to reload itself since; it can reload itself
  // exactly when it said so in its last greeting.
  lemma FlagsOfFrame(steps: seq<Step>)
    requires IsRun(INITIAL, steps)
    ensures var s := Run(INITIAL, steps);
      var g := s.generation;
      && s.frame == (if g == 0 then None else Some(g))
      && (s.loaded <==> Lasts(steps, Loaded(g), Said(g, WillReload)))
      && (s.reloadSupported <==> Lasts(steps, Said(g, Ready(true)), Said(g, Ready(false))))
  {
    AllExplained(steps);
  }

  // A new frame is made by a bootstrap, when the timer runs out, and by a reload of a frame that is not loaded or that
  // cannot reload itself; the timer is set by any other reload, until the frame announces its own or is replaced.
  lemma FramesAndTimer(steps: seq<Step>, last: Step)
    requires IsRun(INITIAL, steps + [last])
    ensures var s, t := Run(INITIAL, steps), Run(INITIAL, steps + [last]);
      && t.generation == s.generation + (if Creates(s, last) then 1 else 0)
      && (t.timer <==>
           !Creates(s, last)
           && ((last == Reload && s.loaded && s.reloadSupported)
               || (s.timer && last != Said(s.generation, WillReload))))
  {
    RunLast(steps, last);
    AllExplained(steps);
    GenerationGrows(Run(INITIAL, steps), last);
    FlagsNext(Run(INITIAL, steps), last);
  }
}
