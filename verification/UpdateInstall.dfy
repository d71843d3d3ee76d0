/** Carrying out the plan of an update: directories first, then files, stopping at the first failure. */
module UpdateInstall {
  import opened UpdateTree
  import opened UpdateScan
  import opened UpdateEffects

  // Whether a step works can depend on how many came before it.
  ghost predicate AllWork<T>(steps: seq<T>, at: nat, works: (T, nat) -> bool) {
    forall i :: 0 <= i < |steps| ==> works(steps[i], at + i)
  }

  ghost predicate FirstFailure<T>(taken: seq<T>, at: nat, works: (T, nat) -> bool) {
    var last := |taken| - 1;
    last >= 0 && AllWork(taken[..last], at, works) && !works(taken[last], at + last)
  }

  // The steps of a job that stops after the first one that fails: all of them, or those up to the failure.
  ghost predicate Taken<T>(ok: bool, taken: seq<T>, steps: seq<T>, at: nat, works: (T, nat) -> bool) {
    if ok then taken == steps && AllWork(steps, at, works)
    else taken <= steps && FirstFailure(taken, at, works)
  }

  // The outcomes of the steps determine which are taken, and whether the job succeeds.
  lemma TakenIs<T>(ok: bool, taken: seq<T>, steps: seq<T>, at: nat, works: (T, nat) -> bool)
    requires Taken(ok, taken, steps, at, works)
    ensures ok <==> AllWork(steps, at, works)
    ensures forall ok2: bool, taken2 :: Taken(ok2, taken2, steps, at, works) ==> ok2 == ok && taken2 == taken
  {
    TakenOk(ok, taken, steps, at, works);
    forall ok2: bool, taken2 | Taken(ok2, taken2, steps, at, works)
      ensures ok2 == ok && taken2 == taken
    {
      TakenOk(ok2, taken2, steps, at, works);
      if !ok {
        NoLonger(taken, taken2, steps, at, works);
        NoLonger(taken2, taken, steps, at, works);
        assert taken == steps[..|taken|] && taken2 == steps[..|taken2|];
      }
    }
  }

  lemma TakenOk<T>(ok: bool, taken: seq<T>, steps: seq<T>, at: nat, works: (T, nat) -> bool)
    requires Taken(ok, taken, steps, at, works)
    ensures ok <==> AllWork(steps, at, works)
  {
    if !ok {
      var last := |taken| - 1;
      assert steps[last] == taken[last];
    }
  }

  lemma NoLonger<T>(x: seq<T>, y: seq<T>, steps: seq<T>, at: nat, works: (T, nat) -> bool)
    requires x <= steps && y <= steps && FirstFailure(x, at, works) && FirstFailure(y, at, works)
    ensures |x| >= |y|
  {
  }

  lemma AllWorkAppend<T>(x: seq<T>, y: seq<T>, at: nat, works: (T, nat) -> bool)
    requires AllWork(x, at, works) && AllWork(y, at + |x|, works)
    ensures AllWork(x + y, at, works)
  {
    forall i | 0 <= i < |x + y|
      ensures works((x + y)[i], at + i)
    {
      assert i >= |x| ==> works(y[i - |x|], at + |x| + (i - |x|));
    }
  }

  lemma LastStep<T>(before: seq<T>, last: T, at: nat, works: (T, nat) -> bool)
    requires AllWork(before, at, works)
    ensures if works(last, at + |before|) then AllWork(before + [last], at, works)
      else FirstFailure(before + [last], at, works)
  {
    assert (before + [last])[..|before|] == before;
  }

  // A failure among steps that come after others that work.
  lemma LaterFailure<T>(before: seq<T>, taken: seq<T>, at: nat, works: (T, nat) -> bool)
    requires AllWork(before, at, works) && FirstFailure(taken, at + |before|, works)
    ensures FirstFailure(before + taken, at, works)
  {
    var last := |taken| - 1;
    AllWorkAppend(before, taken[..last], at, works);
    assert (before + taken)[..|before| + last] == before + taken[..last];
    assert at + |before| + last == at + (|before| + last);
  }

  // ---- making a path ----

  // The directories named by the parts of the path up to a place, each with its parents.
  function Parents(path: string, n: nat): seq<string>
    requires n <= |path|
  {
    if n == 0 then []
    else Parents(path, n - 1) + if IsPart(path, n - 1) then [path[..n - 1]] else []
  }

  // A slash that ends a part: not one at the start and not one of two in a row.
  predicate IsPart(path: string, k: nat)
    requires k < |path|
  {
    path[k] == '/' && k > 0 && path[k - 1] != '/'
  }

  function MkdirCalls(path: string): seq<string> {
    Parents(path, |path|) + [path]
  }

  // Exactly the parents are made.
  lemma {:induction false} ParentsAreParts(path: string, n: nat)
    requires n <= |path|
    ensures forall dir :: dir in Parents(path, n) <==> exists k: nat :: k < n && IsPart(path, k) && dir == path[..k]
  {
    if n > 0 {
      ParentsAreParts(path, n - 1);
    }
  }

  // They are made from the shortest to the longest, each one a part of the next.
  lemma {:induction false} ParentsInOrder(path: string, n: nat)
    requires n <= |path|
    ensures forall i, j :: 0 <= i < j < |Parents(path, n)| ==> Parents(path, n)[i] < Parents(path, n)[j]
    ensures forall i :: 0 <= i < |Parents(path, n)| ==> |Parents(path, n)[i]| < n && Parents(path, n)[i] <= path
  {
    if n > 0 {
      ParentsInOrder(path, n - 1);
      var before := Parents(path, n - 1);
      if IsPart(path, n - 1) {
        assert forall i :: 0 <= i < |before| ==> before[i] < path[..n - 1];
      }
    }
  }

  // The string in a buffer ends at its first null character.
  function CString(buffer: seq<char>): string {
    if buffer == [] || buffer[0] == '\0' then [] else [buffer[0]] + CString(buffer[1..])
  }

  lemma {:induction false} CStringIs(buffer: seq<char>, n: nat)
    requires n < |buffer| && buffer[n] == '\0' && '\0' !in buffer[..n]
    ensures CString(buffer) == buffer[..n]
    decreases n
  {
    if n > 0 {
      assert buffer[0] in buffer[..n];
      assert buffer[1..][..n - 1] == buffer[..n][1..];
      CStringIs(buffer[1..], n - 1);
    }
  }

  // The first slash of the path from the start of a part on, or its end.
  ghost predicate AtSlash(path: string, pp: nat, sp: nat, found: bool) {
    && pp <= sp <= |path| && (pp > 0 ==> path[pp - 1] == '/')
    && (forall k :: pp <= k < sp ==> path[k] != '/')
    && (found <==> sp < |path|) && (found ==> path[sp] == '/')
  }

  method FindSlash(buffer: array<char>, pp: nat, ghost path: string) returns (found: bool, sp: nat)
    requires buffer[..] == path + ['\0'] && '\0' !in path && pp <= |path| && (pp > 0 ==> path[pp - 1] == '/')
    ensures AtSlash(path, pp, sp, found)
  {
    sp := pp;
    assert forall k :: 0 <= k < |path| ==> buffer[..][k] == path[k] && path[k] in path;
    while buffer[sp] != '\0' && buffer[sp] != '/'
      invariant pp <= sp <= |path| && forall k :: pp <= k < sp ==> path[k] != '/'
      decreases |path| - sp
    {
      sp := sp + 1;
    }
    found := buffer[sp] == '/';
  }

  // Cuts the buffer at a slash, makes the directory that is left, and mends the buffer.
  method MakeParent(buffer: array<char>, sp: nat, at: nat, works: (string, nat) -> bool, ghost text: string)
    returns (ok: bool, dir: string)
    requires buffer[..] == text + ['\0'] && '\0' !in text && sp < |text| && text[sp] == '/'
    modifies buffer
    ensures dir == text[..sp] && ok == works(dir, at)
    ensures ok ==> buffer[..] == old(buffer[..])
  {
    ghost var before := buffer[..];
    assert forall k :: 0 <= k < |text| ==> before[k] == text[k] && text[k] in text;
    buffer[sp] := '\0';
    assert buffer[..] == before[sp := '\0'];
    assert buffer[..][..sp] == text[..sp];
    CStringIs(buffer[..], sp);
    dir := CString(buffer[..]);
    ok := works(dir, at);
    if ok {
      buffer[sp] := '/';
      assert buffer[..] == before;
    }
  }

  lemma {:induction false} ParentsSkip(path: string, from: nat, at: nat)
    requires from <= at <= |path| && forall k :: from <= k < at ==> path[k] != '/'
    ensures Parents(path, at) == Parents(path, from)
    decreases at
  {
    if from < at {
      ParentsSkip(path, from, at - 1);
    }
  }

  // The directories up to a place are made.
  ghost predicate Begun(made: seq<string>, path: string, pp: nat, at: nat, works: (string, nat) -> bool) {
    pp <= |path| && made == Parents(path, pp) && AllWork(made, at, works)
  }

  // Makes the directories of a path in a buffer that is cut at each slash and mended again.
  method MakePath(path: string, at: nat, works: (string, nat) -> bool) returns (ok: bool, made: seq<string>)
    requires '\0' !in path
    ensures Taken(ok, made, MkdirCalls(path), at, works)
  {
    var buffer := new char[|path| + 1](i requires i >= 0 => if i < |path| then path[i] else '\0');
    assert buffer[..] == path + ['\0'];
    made := [];
    var pp := 0;
    var found, sp := FindSlash(buffer, pp, path);
    while found
      invariant buffer[..] == path + ['\0']
      invariant AtSlash(path, pp, sp, found) && Begun(made, path, pp, at, works)
      decreases |path| - sp
    {
      ok, made := MakePart(buffer, pp, sp, made, at, works, path);
      if !ok {
        return;
      }
      pp := sp + 1;
      found, sp := FindSlash(buffer, pp, path);
    }
    LastMade(path, pp, sp, made, at, works);
    ok := works(path, at + |made|);
    made := made + [path];
  }

  // Without another slash only the path itself is left.
  lemma LastMade(path: string, pp: nat, sp: nat, made: seq<string>, at: nat, works: (string, nat) -> bool)
    requires AtSlash(path, pp, sp, false) && Begun(made, path, pp, at, works)
    ensures Taken(works(path, at + |made|), made + [path], MkdirCalls(path), at, works)
  {
    ParentsSkip(path, pp, sp);
    LastStep(made, path, at, works);
  }

  // One turn of the loop.
  method MakePart(buffer: array<char>, pp: nat, sp: nat, made: seq<string>, at: nat, works: (string, nat) -> bool,
      ghost path: string)
    returns (ok: bool, more: seq<string>)
    requires buffer[..] == path + ['\0'] && '\0' !in path
    requires AtSlash(path, pp, sp, true) && Begun(made, path, pp, at, works)
    modifies buffer
    ensures ok ==> buffer[..] == old(buffer[..]) && Begun(more, path, sp + 1, at, works)
    ensures !ok ==> Taken(ok, more, MkdirCalls(path), at, works)
  {
    ParentsSkip(path, pp, sp);
    if sp == pp {
      return true, made;
    }
    var dir;
    ok, dir := MakeParent(buffer, sp, at + |made|, works, path);
    assert Parents(path, sp + 1) == made + [dir];
    more := made + [dir];
    PartMade(path, made, dir, sp + 1, at, works);
  }

  // The directory at a slash is one more that is made, or the first one that cannot be made.
  lemma PartMade(path: string, made: seq<string>, dir: string, n: nat, at: nat, works: (string, nat) -> bool)
    requires n <= |path| && Parents(path, n) == made + [dir] && AllWork(made, at, works)
    ensures if works(dir, at + |made|) then Begun(made + [dir], path, n, at, works)
      else Taken(false, made + [dir], MkdirCalls(path), at, works)
  {
    LastStep(made, dir, at, works);
    ParentsPrefix(path, n, |path|);
  }

  // The calls up to a place are the first ones.
  lemma {:induction false} ParentsPrefix(path: string, n: nat, m: nat)
    requires n <= m <= |path|
    ensures Parents(path, n) <= Parents(path, m)
    decreases m
  {
    if n < m {
      ParentsPrefix(path, n, m - 1);
    }
  }

  // ---- the installation ----

  function Mkdirs(dirs: seq<string>): seq<Effect> {
    seq(|dirs|, i requires 0 <= i < |dirs| => Mkdir(dirs[i]))
  }

  // Making one directory with its parents.
  function PathSteps(dir: string): seq<Effect> {
    if dir == "" then [] else Mkdirs(MkdirCalls(dir))
  }

  // Forcing a directory makes it last, after the directories that its path names up to a slash behind a name; no other.
  lemma PathStepsAre(dir: string, made: string)
    requires dir != ""
    ensures PathSteps(dir) != [] && PathSteps(dir)[|PathSteps(dir)| - 1] == Mkdir(dir)
    ensures Mkdir(made) in PathSteps(dir) <==>
      made == dir || exists k: nat :: k < |dir| && IsPart(dir, k) && made == dir[..k]
    ensures forall e <- PathSteps(dir) :: e.Mkdir?
    ensures forall k: nat :: k < |dir| ==> (IsPart(dir, k) <==> k > 0 && dir[k] == '/' && dir[k - 1] != '/')
  {
    var calls := MkdirCalls(dir);
    ParentsAreParts(dir, |dir|);
    assert calls == Parents(dir, |dir|) + [dir];
    if made in calls {
      var i :| 0 <= i < |calls| && calls[i] == made;
      assert PathSteps(dir)[i] == Mkdir(made);
    }
  }

  function ForceSteps(dirs: seq<string>): seq<Effect> {
    if dirs == [] then [] else PathSteps(dirs[0]) + ForceSteps(dirs[1..])
  }

  function InstallSteps(u: Update, outcome: Outcome): seq<Effect>
    requires outcome.Planned?
  {
    ForceSteps(ForcedDirs(u, outcome.folders)) + CopySteps(u, outcome.files)
  }

  lemma {:induction false} ForceStepsMake(dirs: seq<string>)
    ensures forall e <- ForceSteps(dirs) :: e.Mkdir?
  {
    if dirs != [] {
      ForceStepsMake(dirs[1..]);
    }
  }

  // A plan that is carried out leaves its files installed.
  lemma PlanInstalls(u: Update, plan: Outcome, disk: Disk)
    requires plan.Planned?
    ensures Installs(u, plan.files, disk, AllDone(disk, InstallSteps(u, plan) + [DropUpdate]))
  {
    var forced, copies := ForceSteps(ForcedDirs(u, plan.folders)), CopySteps(u, plan.files);
    ForceStepsMake(ForcedDirs(u, plan.folders));
    MkdirsKeep(disk, forced);
    DoneAppend(disk, forced, copies);
    DoneAppend(disk, forced + copies, [DropUpdate]);
    assert AllDone(AllDone(disk, copies), [DropUpdate]) == AllDone(disk, copies) by {
      assert [DropUpdate][1..] == [];
    }
    CopiesInstall(u, plan.files, disk);
  }

  // The steps taken, and those left, are the steps of the plan.
  ghost predicate OnTheWay(taken: seq<Effect>, left: seq<Effect>, steps: seq<Effect>, works: (Effect, nat) -> bool) {
    taken + left == steps && AllWork(taken, 0, works)
  }

  method TakeStep(step: Effect, taken: seq<Effect>, works: (Effect, nat) -> bool,
      ghost left: seq<Effect>, ghost steps: seq<Effect>)
    returns (ok: bool, more: seq<Effect>)
    requires OnTheWay(taken, [step] + left, steps, works)
    ensures if ok then OnTheWay(more, left, steps, works) else Taken(ok, more, steps, 0, works)
  {
    ok := works(step, |taken|);
    more := taken + [step];
    assert steps == taken + [step] + left;
    LastStep(taken, step, 0, works);
  }

  // The outcomes of the calls are those of the steps.
  lemma TakenMkdirs(ok: bool, made: seq<string>, dirs: seq<string>, at: nat, makes: (string, nat) -> bool,
      works: (Effect, nat) -> bool)
    requires forall dir, i :: makes(dir, i) == works(Mkdir(dir), i)
    requires Taken(ok, made, dirs, at, makes)
    ensures Taken(ok, Mkdirs(made), Mkdirs(dirs), at, works)
  {
    if ok {
      MkdirsWork(made, at, makes, works);
    } else {
      var front := made[..|made| - 1];
      MkdirsWork(front, at, makes, works);
      assert Mkdirs(made)[..|front|] == Mkdirs(front);
    }
  }

  lemma MkdirsWork(dirs: seq<string>, at: nat, makes: (string, nat) -> bool, works: (Effect, nat) -> bool)
    requires forall dir, i :: makes(dir, i) == works(Mkdir(dir), i)
    requires AllWork(dirs, at, makes)
    ensures AllWork(Mkdirs(dirs), at, works)
  {
  }

  // A part of the plan that is taken as far as it works.
  lemma PartTaken(ok: bool, taken: seq<Effect>, done: seq<Effect>, part: seq<Effect>, left: seq<Effect>,
      steps: seq<Effect>, works: (Effect, nat) -> bool)
    requires OnTheWay(taken, part + left, steps, works) && Taken(ok, done, part, |taken|, works)
    ensures if ok then OnTheWay(taken + done, left, steps, works) else Taken(ok, taken + done, steps, 0, works)
  {
    if ok {
      AllWorkAppend(taken, done, 0, works);
      assert taken + (part + left) == taken + part + left;
    } else {
      LaterFailure(taken, done, 0, works);
      assert taken + done <= taken + (part + left);
    }
  }

  // One directory with its parents.
  method ForceDir(dir: string, taken: seq<Effect>, works: (Effect, nat) -> bool,
      ghost left: seq<Effect>, ghost steps: seq<Effect>)
    returns (ok: bool, more: seq<Effect>)
    requires '\0' !in dir && OnTheWay(taken, PathSteps(dir) + left, steps, works)
    ensures if ok then OnTheWay(more, left, steps, works) else Taken(ok, more, steps, 0, works)
  {
    ok, more := true, taken;
    if dir != "" {
      var makes := (part: string, i: nat) => works(Mkdir(part), i);
      var made;
      ok, made := MakePath(dir, |taken|, makes);
      TakenMkdirs(ok, made, MkdirCalls(dir), |taken|, makes, works);
      more := taken + Mkdirs(made);
      PartTaken(ok, taken, Mkdirs(made), PathSteps(dir), left, steps, works);
    } else {
      assert [] + left == left;
    }
  }

  lemma ForceFirst(dirs: seq<string>, i: nat, left: seq<Effect>)
    requires i < |dirs|
    ensures ForceSteps(dirs[i..]) + left == PathSteps(dirs[i]) + (ForceSteps(dirs[i + 1..]) + left)
  {
    assert dirs[i..][0] == dirs[i] && dirs[i..][1..] == dirs[i + 1..];
  }

  method ForceDirs(dirs: seq<string>, works: (Effect, nat) -> bool, ghost left: seq<Effect>, ghost steps: seq<Effect>)
    returns (ok: bool, taken: seq<Effect>)
    requires steps == ForceSteps(dirs) + left && forall dir <- dirs :: '\0' !in dir
    ensures if ok then OnTheWay(taken, left, steps, works) else Taken(ok, taken, steps, 0, works)
  {
    taken := [];
    ok := true;
    var i := 0;
    assert dirs[0..] == dirs && taken + steps == steps;
    while i < |dirs|
      invariant 0 <= i <= |dirs| && ok
      invariant OnTheWay(taken, ForceSteps(dirs[i..]) + left, steps, works)
    {
      ForceFirst(dirs, i, left);
      ok, taken := ForceDir(dirs[i], taken, works, ForceSteps(dirs[i + 1..]) + left, steps);
      if !ok {
        return;
      }
      i := i + 1;
    }
    assert ForceSteps([]) + left == left;
  }

  method CopyFiles(from: seq<string>, to: seq<string>, taken0: seq<Effect>, works: (Effect, nat) -> bool,
      ghost steps: seq<Effect>)
    returns (ok: bool, taken: seq<Effect>)
    requires |from| == |to| && OnTheWay(taken0, FileSteps(from, to), steps, works)
    ensures Taken(ok, taken, steps, 0, works)
  {
    taken := taken0;
    ok := true;
    var i := 0;
    assert from[0..] == from && to[0..] == to;
    while i < |from|
      invariant 0 <= i <= |from| && ok
      invariant OnTheWay(taken, FileSteps(from[i..], to[i..]), steps, works)
    {
      assert from[i..][1..] == from[i + 1..] && to[i..][1..] == to[i + 1..];
      ghost var rest := FileSteps(from[i + 1..], to[i + 1..]);
      assert FileSteps(from[i..], to[i..]) == [ClearTarget(to[i])] + ([CopyFile(from[i], to[i])] + rest);
      ok, taken := TakeStep(ClearTarget(to[i]), taken, works, [CopyFile(from[i], to[i])] + rest, steps);
      if !ok {
        return;
      }
      ok, taken := TakeStep(CopyFile(from[i], to[i]), taken, works, rest, steps);
      if !ok {
        return;
      }
      i := i + 1;
    }
    assert taken + [] == taken;
  }

  // An update that cannot be read changes nothing, one with an updater in it is dropped before anything is written, and
  // a good one is carried out up to the first step that fails and dropped afterwards.
  method RunUpdate(u: Update, listable: bool, entries: seq<Entry>, works: (Effect, nat) -> bool)
    returns (ok: bool, effects: seq<Effect>)
    requires WellNamed(entries) && '\0' !in u.exePath
    ensures var plan := Plan(u, Dir([], listable, entries));
      match plan
      case OpenFailed => !ok && effects == []
      case HasUpdater => !ok && effects == [DropUpdate]
      case Planned(_, _) =>
        && (ok <==> AllWork(InstallSteps(u, plan), 0, works))
        && effects != [] && effects[|effects| - 1] == DropUpdate
        && Taken(ok, effects[..|effects| - 1], InstallSteps(u, plan), 0, works)
        && (ok ==> forall disk :: Installs(u, plan.files, disk, AllDone(disk, effects)))
  {
    ghost var plan := Plan(u, Dir([], listable, entries));
    var r := ScanUpdate(u, listable, entries);
    match r
    case CannotOpen =>
      return false, [];
    case BadUpdate =>
      return false, [DropUpdate];
    case Good(from, to, forcedirs) =>
      PlanLengths(u, plan.files);
      ghost var steps := InstallSteps(u, plan);
      ok, effects := ForceDirs(forcedirs, works, FileSteps(from, to), steps);
      if ok {
        ok, effects := CopyFiles(from, to, effects, works, steps);
      }
      TakenIs(ok, effects, steps, 0, works);
      assert (effects + [DropUpdate])[..|effects|] == effects;
      effects := effects + [DropUpdate];
      if ok {
        forall disk
          ensures Installs(u, plan.files, disk, AllDone(disk, effects))
        {
          PlanInstalls(u, plan, disk);
        }
      }
  }

  // The steps that come before those of the i-th directory.
  function StepsBefore(dirs: seq<string>, i: nat): seq<Effect>
    requires i <= |dirs|
  {
    ForceSteps(dirs[..i])
  }

  lemma {:induction false} ForceStepsAppend(dirs: seq<string>, dir: string)
    ensures ForceSteps(dirs + [dir]) == ForceSteps(dirs) + PathSteps(dir)
  {
    if dirs == [] {
      assert (dirs + [dir])[1..] == [];
    } else {
      assert (dirs + [dir])[1..] == dirs[1..] + [dir];
      ForceStepsAppend(dirs[1..], dir);
    }
  }

  lemma NextSteps(dirs: seq<string>, i: nat)
    requires i < |dirs|
    ensures StepsBefore(dirs, i + 1) == StepsBefore(dirs, i) + PathSteps(dirs[i])
  {
    assert dirs[..i + 1] == dirs[..i] + [dirs[i]];
    ForceStepsAppend(dirs[..i], dirs[i]);
  }

  lemma DirIsMade(dir: string)
    requires dir != ""
    ensures Mkdir(dir) in PathSteps(dir)
  {
    var calls := MkdirCalls(dir);
    assert calls[|calls| - 1] == dir && PathSteps(dir)[|calls| - 1] == Mkdir(dir);
  }

  lemma InEither<T>(x: seq<T>, y: seq<T>, e: T)
    requires e in x || e in y
    ensures e in x + y
  {
  }

  // What makes one of the first directories is among the steps for them.
  lemma {:induction false} MadeBefore(dirs: seq<string>, j: nat, n: nat)
    requires j < n <= |dirs| && dirs[j] != ""
    ensures Mkdir(dirs[j]) in StepsBefore(dirs, n)
    decreases n
  {
    if j == n - 1 {
      DirIsMade(dirs[j]);
    } else {
      MadeBefore(dirs, j, n - 1);
    }
    NextSteps(dirs, n - 1);
    InEither(StepsBefore(dirs, n - 1), PathSteps(dirs[n - 1]), Mkdir(dirs[j]));
  }

  lemma ThenMore<T>(all: seq<T>, before: seq<T>, last: seq<T>, first: seq<T>, more: seq<T>)
    requires all == before + last && before == first + more
    ensures all == first + (more + last)
  {
  }

  // The steps for the first directories go on with others.
  lemma {:induction false} StepsGoOn(dirs: seq<string>, i: nat, n: nat) returns (rest: seq<Effect>)
    requires i <= n <= |dirs|
    ensures StepsBefore(dirs, n) == StepsBefore(dirs, i) + rest
    decreases n
  {
    if i == n {
      rest := [];
    } else {
      var more := StepsGoOn(dirs, i, n - 1);
      NextSteps(dirs, n - 1);
      ThenMore(StepsBefore(dirs, n), StepsBefore(dirs, n - 1), PathSteps(dirs[n - 1]), StepsBefore(dirs, i), more);
      rest := more + PathSteps(dirs[n - 1]);
    }
  }

  lemma IsPrefix<T>(all: seq<T>, front: seq<T>, rest: seq<T>, more: seq<T>)
    requires all == front + rest
    ensures front <= all + more
  {
  }

  lemma {:induction false} ForcedAt(u: Update, folders: seq<Names>)
    ensures |ForcedDirs(u, folders)| == |folders|
    ensures forall i :: 0 <= i < |folders| ==> ForcedDirs(u, folders)[i] == Forced(u, folders[i])
  {
    if folders != [] {
      ForcedAt(u, folders[1..]);
    }
  }

  // The directory that a file or a directory is in is made by the first steps.
  ghost predicate ParentMade(u: Update, names: Names, steps: seq<Effect>) {
    |names| > 1 ==> Mkdir(Forced(u, Parent(names))) in steps
  }

  lemma ParentFound(u: Update, folders: seq<Names>, dirs: seq<string>, names: Names, n: nat)
    requires n <= |folders| && ParentIn(names, folders[..n]) && dirs == ForcedDirs(u, folders) && |dirs| == |folders|
    ensures ParentMade(u, names, StepsBefore(dirs, n))
  {
    if |names| > 1 {
      var j :| 0 <= j < n && folders[j] == Parent(names);
      ForcedAt(u, folders);
      MadeBefore(dirs, j, n);
    }
  }

  // Nothing is put into a directory that was not made before: neither a directory nor a file.
  lemma ParentsAreForced(u: Update, top: Dir)
    requires top.names == [] && Plan(u, top).Planned?
    ensures var plan := Plan(u, top);
      var dirs := ForcedDirs(u, plan.folders);
      && |dirs| == |plan.folders|
      && InstallSteps(u, plan) == StepsBefore(dirs, |dirs|) + CopySteps(u, plan.files)
      && (forall i :: 0 <= i < |dirs| ==>
           && dirs[i] == Forced(u, plan.folders[i])
           && StepsBefore(dirs, i) + PathSteps(dirs[i]) <= InstallSteps(u, plan)
           && ParentMade(u, plan.folders[i], StepsBefore(dirs, i)))
      && (forall f <- plan.files :: ParentMade(u, f, StepsBefore(dirs, |dirs|)))
  {
    var plan := Plan(u, top);
    var folders, dirs := plan.folders, ForcedDirs(u, plan.folders);
    PlanIsOrdered(u, top);
    ForcedAt(u, folders);
    assert dirs[..|dirs|] == dirs && folders[..|folders|] == folders;
    forall i | 0 <= i < |dirs|
      ensures StepsBefore(dirs, i) + PathSteps(dirs[i]) <= InstallSteps(u, plan)
    {
      NextSteps(dirs, i);
      var rest := StepsGoOn(dirs, i + 1, |dirs|);
      IsPrefix(StepsBefore(dirs, |dirs|), StepsBefore(dirs, i + 1), rest, CopySteps(u, plan.files));
    }
    forall i | 0 <= i < |folders|
      ensures ParentMade(u, folders[i], StepsBefore(dirs, i))
    {
      ParentFound(u, folders, dirs, folders[i], i);
    }
    forall f <- plan.files
      ensures ParentMade(u, f, StepsBefore(dirs, |dirs|))
    {
      ParentFound(u, folders, dirs, f, |folders|);
    }
  }

  function Parent(names: Names): Names
    requires names != []
  {
    names[..|names| - 1]
  }
}
