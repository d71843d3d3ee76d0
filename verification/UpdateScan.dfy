/** The updater's scan of an unpacked update, on the paths it builds, and the installation that follows. */
module UpdateScan {
  import opened UpdateTree

  function UpdateDir(u: Update): string {
    u.workDir + "tupdates/" + if u.readyFound then "temp" else "ready"
  }

  function DataDir(u: Update): string {
    UpdateDir(u) + "/tdata"
  }

  function ReadyFile(u: Update): string {
    u.workDir + "tupdates/temp/ready"
  }

  function Path(u: Update, names: Names): string {
    if names == [] then UpdateDir(u) else UpdateDir(u) + "/" + Relative(names)
  }

  function Forced(u: Update, names: Names): string {
    u.exePath + Relative(names) + "/"
  }

  function Prefix(text: string, n: nat): string {
    if |text| < n then text else text[..n]
  }

  predicate InData(dataDir: string, path: string) {
    Prefix(path, |dataDir|) == dataDir && (|path| <= |dataDir| || path[|dataDir|] == '/')
  }

  // ---- names and paths ----

  // What the file system allows as a name.
  predicate Plain(name: string) {
    name != "" && '/' !in name && '\0' !in name
  }

  predicate PlainNames(names: Names) {
    forall name <- names :: Plain(name)
  }

  predicate WellNamed(entries: seq<Entry>)
    decreases entries
  {
    entries == []
    || (Plain(entries[0].name)
        && (entries[0].node.Folder? ==> WellNamed(entries[0].node.entries))
        && WellNamed(entries[1..]))
  }

  lemma RelativeMore(names: Names, name: string)
    ensures Relative(names + [name]) == if names == [] then name else Relative(names) + "/" + name
  {
    assert (names + [name])[..|names|] == names;
  }

  // The first name is what comes before the first slash.
  lemma {:induction false} RelativeFirst(names: Names)
    requires names != []
    ensures Relative(names) == names[0] + Behind(names)
    decreases |names|
  {
    if |names| > 1 {
      var init := names[..|names| - 1];
      RelativeFirst(init);
      assert init[0] == names[0];
    }
  }

  // The rest of the path, with its slash.
  function Behind(names: Names): (r: string)
    requires names != []
    ensures |names| == 1 ==> r == ""
    ensures |names| > 1 ==> r != "" && r[0] == '/'
    decreases |names|
  {
    if |names| == 1 then "" else Behind(names[..|names| - 1]) + "/" + names[|names| - 1]
  }

  // A word without a slash starts the path, up to a slash or the end, exactly when it is the first name.
  lemma FirstName(names: Names, word: string)
    requires names != [] && PlainNames(names) && '/' !in word
    ensures var path := Relative(names);
      (Prefix(path, |word|) == word && (|path| <= |word| || path[|word|] == '/')) <==> names[0] == word
  {
    var path := Relative(names);
    RelativeFirst(names);
    assert names[0] in names;
    assert path[..|names[0]|] == names[0];
    assert forall k :: 0 <= k < |names[0]| ==> path[k] == names[0][k] && path[k] != '/';
    assert |names| > 1 ==> path[|names[0]|] == '/';
    if names[0] == word {
      assert Prefix(path, |word|) == word;
    }
  }

  lemma WholeName(names: Names, word: string)
    requires names != [] && PlainNames(names) && '/' !in word
    ensures Relative(names) == word <==> names == [word]
  {
    RelativeFirst(names);
    assert names[0] in names;
    assert |names| > 1 ==> Relative(names)[|names[0]|] == '/';
  }

  // A path in the update is the update directory, a slash and the names.
  lemma PathIs(u: Update, at: Names, name: string)
    ensures Path(u, at) + "/" + name == UpdateDir(u) + "/" + Relative(at + [name])
  {
    RelativeMore(at, name);
  }

  lemma DataDirIs(dir: string)
    ensures dir + "/tdata" == dir + "/" + "tdata"
  {
    assert "/tdata" == "/" + "tdata";
  }

  lemma DataPath(u: Update, here: Names)
    requires here != [] && PlainNames(here) && (|here| == 1 || here[0] != "tdata")
    ensures InData(DataDir(u), UpdateDir(u) + "/" + Relative(here)) <==> here == ["tdata"]
  {
    var top, word := UpdateDir(u) + "/", "tdata";
    FirstName(here, word);
    DataTest(top, Relative(here));
    DataDirIs(UpdateDir(u));
    assert here[0] == word <==> here == [word];
  }

  lemma NotEmpty(here: Names)
    requires here != [] && PlainNames(here)
    ensures Relative(here) != ""
  {
    RelativeFirst(here);
    assert here[0] in here;
  }

  // The paths that the scan builds and the tests it makes on them say what the names say.
  lemma EntryPath(u: Update, at: Names, name: string)
    requires PlainNames(at) && Plain(name) && Outside(at)
    ensures var path := Path(u, at) + "/" + name;
      var here := at + [name];
      && path == Path(u, here) && |path| > |UpdateDir(u)| + 1
      && path[|UpdateDir(u)| + 1..] == Relative(here)
      && (InData(DataDir(u), path) <==> here == ["tdata"])
      && (path == ReadyFile(u) <==> IsReadyFile(u, here))
  {
    var here := at + [name];
    PathIs(u, at, name);
    assert PlainNames(here);
    NotEmpty(here);
    DataPath(u, here);
    ReadyTest(u, here);
  }

  lemma DataTest(top: string, relative: string)
    ensures InData(top + "tdata", top + relative)
      <==> Prefix(relative, 5) == "tdata" && (|relative| <= 5 || relative[5] == '/')
  {
    var path := top + relative;
    if |relative| >= 5 {
      assert path[..|top| + 5] == top + relative[..5];
      assert (top + relative[..5])[|top|..] == relative[..5] && (top + "tdata")[|top|..] == "tdata";
      assert |relative| > 5 ==> path[|top| + 5] == relative[5];
    }
  }

  lemma ReadyTest(u: Update, here: Names)
    requires here != [] && PlainNames(here)
    ensures UpdateDir(u) + "/" + Relative(here) == ReadyFile(u) <==> IsReadyFile(u, here)
  {
    var path := UpdateDir(u) + "/" + Relative(here);
    var n := |u.workDir| + 9;
    if u.readyFound {
      WholeName(here, "ready");
      assert ReadyFile(u) == UpdateDir(u) + "/" + "ready";
      assert path[|UpdateDir(u)| + 1..] == Relative(here);
      assert ReadyFile(u)[|UpdateDir(u)| + 1..] == "ready";
    } else {
      assert path[n] == 'r' && ReadyFile(u)[n] == 't';
    }
  }

  // ---- the scan on paths ----

  datatype OpenDir = OpenDir(path: string, listable: bool, entries: seq<Entry>)

  function Opened(u: Update, queue: seq<Dir>): seq<OpenDir> {
    if queue == [] then []
    else [OpenDir(Path(u, queue[0].names), queue[0].listable, queue[0].entries)] + Opened(u, queue[1..])
  }

  function Sources(u: Update, files: seq<Names>): seq<string> {
    if files == [] then [] else [Path(u, files[0])] + Sources(u, files[1..])
  }

  function Targets(u: Update, files: seq<Names>): seq<string> {
    if files == [] then [] else [Target(u, files[0])] + Targets(u, files[1..])
  }

  function ForcedDirs(u: Update, folders: seq<Names>): seq<string> {
    if folders == [] then [] else [Forced(u, folders[0])] + ForcedDirs(u, folders[1..])
  }

  lemma {:induction false} OpenedMore(u: Update, queue: seq<Dir>, d: Dir)
    ensures Opened(u, queue + [d]) == Opened(u, queue) + [OpenDir(Path(u, d.names), d.listable, d.entries)]
  {
    if queue == [] {
      assert (queue + [d])[1..] == [];
    } else {
      assert (queue + [d])[1..] == queue[1..] + [d];
      OpenedMore(u, queue[1..], d);
    }
  }

  lemma {:induction false} FilesMore(u: Update, files: seq<Names>, f: Names)
    ensures Sources(u, files + [f]) == Sources(u, files) + [Path(u, f)]
    ensures Targets(u, files + [f]) == Targets(u, files) + [Target(u, f)]
  {
    if files == [] {
      assert (files + [f])[1..] == [];
    } else {
      assert (files + [f])[1..] == files[1..] + [f];
      FilesMore(u, files[1..], f);
    }
  }

  lemma {:induction false} ForcedMore(u: Update, folders: seq<Names>, f: Names)
    ensures ForcedDirs(u, folders + [f]) == ForcedDirs(u, folders) + [Forced(u, f)]
  {
    if folders == [] {
      assert (folders + [f])[1..] == [];
    } else {
      assert (folders + [f])[1..] == folders[1..] + [f];
      ForcedMore(u, folders[1..], f);
    }
  }

  predicate GoodDir(d: Dir) {
    PlainNames(d.names) && Outside(d.names) && WellNamed(d.entries)
  }

  predicate GoodDirs(dirs: seq<Dir>) {
    forall d <- dirs :: GoodDir(d)
  }

  lemma {:induction false} ListGood(u: Update, at: Names, entries: seq<Entry>, dirs: seq<Dir>, files: seq<Names>)
    requires PlainNames(at) && Outside(at) && WellNamed(entries) && GoodDirs(dirs)
    ensures var r := List(u, at, entries, dirs, files); r.Listed? ==> GoodDirs(r.dirs)
    decreases |entries|
  {
    if entries != [] {
      var one := ListOne(u, at, entries[0], dirs, files);
      if one.Listed? {
        assert PlainNames(at + [entries[0].name]);
        ListGood(u, at, entries[1..], one.dirs, one.files);
      }
    }
  }

  // The deques hold the paths of what is queued and planned.
  ghost predicate Holds(u: Update, dirs: seq<OpenDir>, from: seq<string>, to: seq<string>,
      queue: seq<Dir>, files: seq<Names>)
  {
    dirs == Opened(u, queue) && from == Sources(u, files) && to == Targets(u, files)
  }

  // One turn of the inner loop.
  method ListEntry(u: Update, dirPath: string, e: Entry, dirs: seq<OpenDir>, from: seq<string>, to: seq<string>,
      ghost at: Names, ghost queue: seq<Dir>, ghost files: seq<Names>)
    returns (bad: bool, dirs2: seq<OpenDir>, from2: seq<string>, to2: seq<string>)
    requires dirPath == Path(u, at) && PlainNames(at) && Outside(at) && Plain(e.name)
    requires Holds(u, dirs, from, to, queue, files)
    ensures match ListOne(u, at, e, queue, files)
      case Stopped => bad
      case Listed(queue2, files2) => !bad && Holds(u, dirs2, from2, to2, queue2, files2)
  {
    bad, dirs2, from2, to2 := false, dirs, from, to;
    if e.name == "." || e.name == ".." {
      return;
    }
    ghost var here := at + [e.name];
    EntryPath(u, at, e.name);
    var path := dirPath + "/" + e.name;
    if InData(DataDir(u), path) {
      return;
    }
    match e.node
    case Unknown =>
    case Folder(listable, inner) =>
      OpenedMore(u, queue, Dir(here, listable, inner));
      dirs2 := dirs + [OpenDir(path, listable, inner)];
    case File =>
      var target := u.exePath + path[|UpdateDir(u)| + 1..];
      if Equal(target, u.updaterName) {
        bad := true;
        return;
      } else if Equal(target, u.exePath + "Telegram") && u.exeName != "Telegram" {
        target := u.exePath + u.exeName;
      }
      if path != ReadyFile(u) {
        FilesMore(u, files, here);
        from2 := from + [path];
        to2 := to + [target];
      }
  }

  method ListDirectory(u: Update, d: OpenDir, dirs0: seq<OpenDir>, from0: seq<string>, to0: seq<string>,
      ghost at: Names, ghost queue: seq<Dir>, ghost files: seq<Names>)
    returns (bad: bool, dirs: seq<OpenDir>, from: seq<string>, to: seq<string>)
    requires d.path == Path(u, at) && PlainNames(at) && Outside(at) && WellNamed(d.entries)
    requires Holds(u, dirs0, from0, to0, queue, files)
    ensures match List(u, at, d.entries, queue, files)
      case Stopped => bad
      case Listed(queue2, files2) => !bad && Holds(u, dirs, from, to, queue2, files2)
  {
    bad, dirs, from, to := false, dirs0, from0, to0;
    ghost var q, f := queue, files;
    var i := 0;
    while i < |d.entries|
      invariant 0 <= i <= |d.entries| && WellNamed(d.entries[i..])
      invariant Holds(u, dirs, from, to, q, f)
      invariant List(u, at, d.entries[i..], q, f) == List(u, at, d.entries, queue, files)
      invariant !bad
    {
      ghost var rest := d.entries[i..];
      assert rest[0] == d.entries[i] && rest[1..] == d.entries[i + 1..];
      ghost var one := ListOne(u, at, d.entries[i], q, f);
      bad, dirs, from, to := ListEntry(u, d.path, d.entries[i], dirs, from, to, at, q, f);
      if bad {
        return;
      }
      q, f := one.dirs, one.files;
      i := i + 1;
    }
  }

  datatype ScanResult =
    | CannotOpen
    | BadUpdate
    | Good(from: seq<string>, to: seq<string>, forcedirs: seq<string>)

  // What the scan leaves for the installation.
  function Result(u: Update, outcome: Outcome): ScanResult {
    match outcome
    case OpenFailed => CannotOpen
    case HasUpdater => BadUpdate
    case Planned(files, folders) => Good(Sources(u, files), Targets(u, files), ForcedDirs(u, folders))
  }

  method ScanUpdate(u: Update, listable: bool, entries: seq<Entry>) returns (r: ScanResult)
    requires WellNamed(entries) && '\0' !in u.exePath
    ensures r == Result(u, Plan(u, Dir([], listable, entries)))
    ensures r.Good? ==> forall dir <- r.forcedirs :: '\0' !in dir
  {
    var updDir := UpdateDir(u);
    var dirs := [OpenDir(updDir, listable, entries)];
    var from: seq<string>, to: seq<string>, forcedirs: seq<string> := [], [], [];
    ghost var queue := [Dir([], listable, entries)];
    ghost var files: seq<Names>, folders: seq<Names> := [], [];
    OpenedMore(u, [], queue[0]);
    while dirs != []
      invariant Holds(u, dirs, from, to, queue, files) && forcedirs == ForcedDirs(u, folders) && GoodDirs(queue)
      invariant Scan(u, queue, files, folders) == Plan(u, Dir([], listable, entries))
      invariant forall dir <- forcedirs :: '\0' !in dir
      decreases Size(queue)
    {
      var dir := dirs[0];
      dirs := dirs[1..];
      ghost var d, rest := queue[0], queue[1..];
      DirPath(u, d);
      if |dir.path| > |updDir| + 1 {
        ForcedMore(u, folders, d.names);
        forcedirs := forcedirs + [u.exePath + dir.path[|updDir| + 1..] + "/"];
        folders := folders + [d.names];
      }
      if !dir.listable {
        return CannotOpen;
      }
      assert GoodDirs(rest) by {
        assert forall other <- rest :: other in queue;
      }
      ListSize(u, d.names, d.entries, rest, files);
      ListGood(u, d.names, d.entries, rest, files);
      ghost var listing := List(u, d.names, d.entries, rest, files);
      var bad;
      bad, dirs, from, to := ListDirectory(u, dir, dirs, from, to, d.names, rest, files);
      if bad {
        return BadUpdate;
      }
      queue, files := listing.dirs, listing.files;
    }
    r := Good(from, to, forcedirs);
  }

  lemma {:induction false} RelativeNoNull(names: Names)
    requires PlainNames(names)
    ensures '\0' !in Relative(names)
    decreases |names|
  {
    if names != [] {
      var init, last := names[..|names| - 1], names[|names| - 1];
      assert last in names && forall name <- init :: name in names;
      RelativeNoNull(init);
    }
  }

  // A queued path says which directory it is, and whether it is the top one.
  lemma DirPath(u: Update, d: Dir)
    requires GoodDir(d)
    ensures |Path(u, d.names)| > |UpdateDir(u)| + 1 <==> d.names != []
    ensures d.names != [] ==> u.exePath + Path(u, d.names)[|UpdateDir(u)| + 1..] + "/" == Forced(u, d.names)
    ensures '\0' !in u.exePath ==> '\0' !in Forced(u, d.names)
  {
    RelativeNoNull(d.names);
    if d.names != [] {
      RelativeFirst(d.names);
      assert d.names[0] in d.names;
      assert Path(u, d.names)[|UpdateDir(u)| + 1..] == Relative(d.names);
    }
  }
}
