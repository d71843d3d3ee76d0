/** What an installation does to the disk: the steps of a plan, and the files that they leave. */
module UpdateEffects {
  import opened UpdateTree
  import opened UpdateScan

  datatype Effect =
    | Mkdir(dir: string)
    | ClearTarget(target: string)
    | CopyFile(from: string, to: string)
    | DropUpdate

  // The files of a disk by their paths, each known by where it was copied from.
  type Disk = map<string, string>

  // A path is the other one, or is below it.
  predicate Under(top: string, path: string) {
    path == top || top + "/" <= path
  }

  // Clearing takes away a file, or a directory with all that is in it. Directories, and the update itself, are not on
  // the map.
  function Done(disk: Disk, e: Effect): Disk {
    match e
    case Mkdir(_) => disk
    case DropUpdate => disk
    case ClearTarget(target) => map path | path in disk && !Under(target, path) :: disk[path]
    case CopyFile(from, to) => disk[to := from]
  }

  function AllDone(disk: Disk, effects: seq<Effect>): Disk
    decreases |effects|
  {
    if effects == [] then disk else AllDone(Done(disk, effects[0]), effects[1..])
  }

  lemma {:induction false} DoneAppend(disk: Disk, x: seq<Effect>, y: seq<Effect>)
    ensures AllDone(disk, x + y) == AllDone(AllDone(disk, x), y)
    decreases |x|
  {
    if x == [] {
      assert x + y == y;
    } else {
      assert (x + y)[0] == x[0] && (x + y)[1..] == x[1..] + y;
      DoneAppend(Done(disk, x[0]), x[1..], y);
    }
  }

  // ---- the steps for files ----

  function FileSteps(from: seq<string>, to: seq<string>): seq<Effect>
    requires |from| == |to|
  {
    if from == [] then [] else [ClearTarget(to[0]), CopyFile(from[0], to[0])] + FileSteps(from[1..], to[1..])
  }

  lemma {:induction false} PlanLengths(u: Update, files: seq<Names>)
    ensures |Sources(u, files)| == |Targets(u, files)| == |files|
    ensures forall i :: 0 <= i < |files| ==>
      Sources(u, files)[i] == Path(u, files[i]) && Targets(u, files)[i] == Target(u, files[i])
  {
    if files != [] {
      PlanLengths(u, files[1..]);
    }
  }

  function CopySteps(u: Update, files: seq<Names>): seq<Effect> {
    PlanLengths(u, files);
    FileSteps(Sources(u, files), Targets(u, files))
  }

  lemma {:induction false} FileStepAt(from: seq<string>, to: seq<string>)
    requires |from| == |to|
    ensures var steps := FileSteps(from, to);
      && |steps| == 2 * |from|
      && forall i :: 0 <= i < |from| ==>
           steps[2 * i] == ClearTarget(to[i]) && steps[2 * i + 1] == CopyFile(from[i], to[i])
  {
    if from != [] {
      FileStepAt(from[1..], to[1..]);
      var steps, rest := FileSteps(from, to), FileSteps(from[1..], to[1..]);
      forall i | 1 <= i < |from|
        ensures steps[2 * i] == rest[2 * (i - 1)] && steps[2 * i + 1] == rest[2 * (i - 1) + 1]
      {
      }
    }
  }

  // For each file its target is cleared and then written, file after file.
  lemma CopyStepAt(u: Update, files: seq<Names>)
    ensures var steps := CopySteps(u, files);
      && |steps| == 2 * |files|
      && forall i :: 0 <= i < |files| ==>
           && steps[2 * i] == ClearTarget(Target(u, files[i]))
           && steps[2 * i + 1] == CopyFile(Path(u, files[i]), Target(u, files[i]))
  {
    PlanLengths(u, files);
    FileStepAt(Sources(u, files), Targets(u, files));
  }

  // ---- what they leave ----

  // The last file whose target is this path or a directory that it is in.
  predicate IsLast(to: seq<string>, i: nat, path: string) {
    i < |to| && Under(to[i], path) && forall j :: i < j < |to| ==> !Under(to[j], path)
  }

  predicate Untouched(to: seq<string>, path: string) {
    forall j :: 0 <= j < |to| ==> !Under(to[j], path)
  }

  lemma FirstFile(disk: Disk, from: seq<string>, to: seq<string>)
    requires |from| == |to| > 0
    ensures AllDone(disk, FileSteps(from, to))
      == AllDone(Done(disk, ClearTarget(to[0]))[to[0] := from[0]], FileSteps(from[1..], to[1..]))
  {
    var steps, rest := FileSteps(from, to), FileSteps(from[1..], to[1..]);
    assert steps[1..][1..] == rest;
  }

  lemma {:induction false} FilesKeep(disk: Disk, from: seq<string>, to: seq<string>, path: string)
    requires |from| == |to| && Untouched(to, path)
    ensures var after := AllDone(disk, FileSteps(from, to));
      (path in after <==> path in disk) && (path in disk ==> after[path] == disk[path])
    decreases |to|
  {
    if to != [] {
      FirstFile(disk, from, to);
      assert !Under(to[0], path);
      FilesKeep(Done(disk, ClearTarget(to[0]))[to[0] := from[0]], from[1..], to[1..], path);
    }
  }

  lemma {:induction false} FilesLeave(disk: Disk, from: seq<string>, to: seq<string>, i: nat, path: string)
    requires |from| == |to| && IsLast(to, i, path)
    ensures var after := AllDone(disk, FileSteps(from, to));
      if path == to[i] then path in after && after[path] == from[i] else path !in after
    decreases |to|
  {
    FirstFile(disk, from, to);
    var next := Done(disk, ClearTarget(to[0]))[to[0] := from[0]];
    if i == 0 {
      assert Untouched(to[1..], path);
      FilesKeep(next, from[1..], to[1..], path);
    } else {
      assert IsLast(to[1..], i - 1, path);
      FilesLeave(next, from[1..], to[1..], i - 1, path);
    }
  }

  /** A disk on which these files are installed: each path holds the last file that is planned for it, unless a later
      target is a directory that it was in; all other paths are as they were. */
  ghost predicate Installs(u: Update, files: seq<Names>, disk: Disk, after: Disk) {
    PlanLengths(u, files);
    forall path ::
      && (forall i: nat :: IsLast(Targets(u, files), i, path) ==>
           if path == Target(u, files[i]) then path in after && after[path] == Path(u, files[i]) else path !in after)
      && (Untouched(Targets(u, files), path) ==>
           (path in after <==> path in disk) && (path in disk ==> after[path] == disk[path]))
  }

  lemma CopiesInstall(u: Update, files: seq<Names>, disk: Disk)
    ensures Installs(u, files, disk, AllDone(disk, CopySteps(u, files)))
  {
    PlanLengths(u, files);
    var from, to := Sources(u, files), Targets(u, files);
    var after := AllDone(disk, CopySteps(u, files));
    forall path, i: nat | IsLast(to, i, path)
      ensures if path == Target(u, files[i]) then path in after && after[path] == Path(u, files[i]) else path !in after
    {
      FilesLeave(disk, from, to, i, path);
    }
    forall path | Untouched(to, path)
      ensures (path in after <==> path in disk) && (path in disk ==> after[path] == disk[path])
    {
      FilesKeep(disk, from, to, path);
    }
  }

  lemma {:induction false} MkdirsKeep(disk: Disk, effects: seq<Effect>)
    requires forall e <- effects :: e.Mkdir?
    ensures AllDone(disk, effects) == disk
    decreases |effects|
  {
    if effects != [] {
      MkdirsKeep(disk, effects[1..]);
    }
  }
}
