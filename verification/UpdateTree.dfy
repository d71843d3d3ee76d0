/** What an unpacked update contains, and the breadth-first scan that plans how to install it. */
module UpdateTree {

  // What stat reports about an entry of a directory, with what the directory lists when it can be opened.
  datatype Node =
    | File
    | Unknown
    | Folder(listable: bool, entries: seq<Entry>)

  datatype Entry = Entry(name: string, node: Node)

  // The names on the way from the top of the update.
  type Names = seq<string>

  datatype Update = Update(workDir: string, readyFound: bool, exePath: string, exeName: string, updaterName: string)

  predicate IsDots(name: string) {
    name == "." || name == ".."
  }

  function Relative(names: Names): string
    decreases |names|
  {
    if names == [] then ""
    else if |names| == 1 then names[0]
    else Relative(names[..|names| - 1]) + "/" + names[|names| - 1]
  }

  function Lower(text: string): string {
    if text == [] then []
    else [if 'A' <= text[0] <= 'Z' then text[0] + ' ' else text[0]] + Lower(text[1..])
  }

  predicate Equal(a: string, b: string) {
    Lower(a) == Lower(b)
  }

  function Installed(u: Update, names: Names): string {
    u.exePath + Relative(names)
  }

  predicate IsUpdater(u: Update, names: Names) {
    Equal(Installed(u, names), u.updaterName)
  }

  // The binary is installed under the name it has now.
  function Target(u: Update, names: Names): string {
    if Equal(Installed(u, names), u.exePath + "Telegram") && u.exeName != "Telegram" then u.exePath + u.exeName
    else Installed(u, names)
  }

  predicate IsReadyFile(u: Update, names: Names) {
    u.readyFound && names == ["ready"]
  }

  predicate Outside(names: Names) {
    names == [] || names[0] != "tdata"
  }

  // ---- the scan ----

  datatype Dir = Dir(names: Names, listable: bool, entries: seq<Entry>)

  datatype Listing = Stopped | Listed(dirs: seq<Dir>, files: seq<Names>)

  datatype Outcome = OpenFailed | HasUpdater | Planned(files: seq<Names>, folders: seq<Names>)

  function ListOne(u: Update, at: Names, e: Entry, dirs: seq<Dir>, files: seq<Names>): Listing {
    var here := at + [e.name];
    if IsDots(e.name) || here == ["tdata"] then Listed(dirs, files)
    else
      match e.node
      case Unknown => Listed(dirs, files)
      case Folder(listable, inner) => Listed(dirs + [Dir(here, listable, inner)], files)
      case File =>
        if IsUpdater(u, here) then Stopped
        else Listed(dirs, if IsReadyFile(u, here) then files else files + [here])
  }

  function List(u: Update, at: Names, entries: seq<Entry>, dirs: seq<Dir>, files: seq<Names>): Listing
    decreases |entries|
  {
    if entries == [] then Listed(dirs, files)
    else
      match ListOne(u, at, entries[0], dirs, files)
      case Stopped => Stopped
      case Listed(dirs2, files2) => List(u, at, entries[1..], dirs2, files2)
  }

  function Weight(entries: seq<Entry>): nat {
    if entries == [] then 0
    else (if entries[0].node.Folder? then 1 + Weight(entries[0].node.entries) else 0) + Weight(entries[1..])
  }

  function Size(dirs: seq<Dir>): nat {
    if dirs == [] then 0 else 1 + Weight(dirs[0].entries) + Size(dirs[1..])
  }

  lemma {:induction false} SizeAppend(dirs: seq<Dir>, d: Dir)
    ensures Size(dirs + [d]) == Size(dirs) + 1 + Weight(d.entries)
  {
    if dirs == [] {
      assert (dirs + [d])[1..] == [];
    } else {
      assert (dirs + [d])[1..] == dirs[1..] + [d];
      SizeAppend(dirs[1..], d);
    }
  }

  lemma {:induction false} ListSize(u: Update, at: Names, entries: seq<Entry>, dirs: seq<Dir>, files: seq<Names>)
    ensures var r := List(u, at, entries, dirs, files); r.Listed? ==> Size(r.dirs) <= Size(dirs) + Weight(entries)
    decreases |entries|
  {
    if entries != [] {
      var here := at + [entries[0].name];
      if entries[0].node.Folder? {
        var d := Dir(here, entries[0].node.listable, entries[0].node.entries);
        SizeAppend(dirs, d);
        ListSize(u, at, entries[1..], dirs + [d], files);
      }
      ListSize(u, at, entries[1..], dirs, files);
      ListSize(u, at, entries[1..], dirs, files + [here]);
    }
  }

  function Scan(u: Update, dirs: seq<Dir>, files: seq<Names>, folders: seq<Names>): Outcome
    decreases Size(dirs)
  {
    if dirs == [] then Planned(files, folders)
    else
      var d := dirs[0];
      var more := if d.names == [] then folders else folders + [d.names];
      if !d.listable then OpenFailed
      else
        ListSize(u, d.names, d.entries, dirs[1..], files);
        match List(u, d.names, d.entries, dirs[1..], files)
        case Stopped => HasUpdater
        case Listed(others, found) => Scan(u, others, found, more)
  }

  // ---- the tree as it is ----

  datatype Kind = IsFile | IsFolder(listable: bool)

  datatype Found = Found(names: Names, kind: Kind)

  // Everything in and below a directory.
  function Forest(at: Names, entries: seq<Entry>): seq<Found>
    decreases entries
  {
    if entries == [] then []
    else
      var here := at + [entries[0].name];
      (if IsDots(entries[0].name) then []
       else
         match entries[0].node
         case File => [Found(here, IsFile)]
         case Unknown => []
         case Folder(listable, inner) => [Found(here, IsFolder(listable))] + Forest(here, inner))
      + Forest(at, entries[1..])
  }

  function Tree(d: Dir): seq<Found> {
    [Found(d.names, IsFolder(d.listable))] + Forest(d.names, d.entries)
  }

  // A directory that cannot be opened, or an updater.
  predicate IsBad(u: Update, f: Found) {
    Outside(f.names) && match f.kind case IsFolder(listable) => !listable case IsFile => IsUpdater(u, f.names)
  }

  predicate IsCopied(u: Update, f: Found) {
    f.kind.IsFile? && Outside(f.names) && !IsReadyFile(u, f.names)
  }

  predicate IsForced(f: Found) {
    f.kind.IsFolder? && Outside(f.names) && f.names != []
  }

  function CopiedFiles(u: Update, found: seq<Found>): seq<Names> {
    if found == [] then [] else (if IsCopied(u, found[0]) then [found[0].names] else []) + CopiedFiles(u, found[1..])
  }

  function ForcedFolders(found: seq<Found>): seq<Names> {
    if found == [] then [] else (if IsForced(found[0]) then [found[0].names] else []) + ForcedFolders(found[1..])
  }

  // What some part of the tree adds to the plan.
  datatype Total = Total(bad: bool, files: multiset<Names>, folders: multiset<Names>)

  const NOTHING := Total(false, multiset{}, multiset{})

  function Add(x: Total, y: Total): Total {
    Total(x.bad || y.bad, x.files + y.files, x.folders + y.folders)
  }

  function One(u: Update, f: Found): Total {
    Total(
      IsBad(u, f),
      if IsCopied(u, f) then multiset{f.names} else multiset{},
      if IsForced(f) then multiset{f.names} else multiset{})
  }

  function Sum(u: Update, found: seq<Found>): Total {
    if found == [] then NOTHING else Add(One(u, found[0]), Sum(u, found[1..]))
  }

  function SumOfDirs(u: Update, dirs: seq<Dir>): Total {
    if dirs == [] then NOTHING else Add(Sum(u, Tree(dirs[0])), SumOfDirs(u, dirs[1..]))
  }

  lemma Regroup(x: Total, y: Total, z: Total)
    ensures Add(Add(x, y), z) == Add(x, Add(y, z)) && Add(NOTHING, x) == x == Add(x, NOTHING)
  {
  }

  lemma {:induction false} SumAppend(u: Update, x: seq<Found>, y: seq<Found>)
    ensures Sum(u, x + y) == Add(Sum(u, x), Sum(u, y))
    decreases |x|
  {
    if x == [] {
      assert x + y == y;
      Regroup(Sum(u, y), NOTHING, NOTHING);
    } else {
      assert (x + y)[0] == x[0] && (x + y)[1..] == x[1..] + y;
      SumAppend(u, x[1..], y);
      Regroup(One(u, x[0]), Sum(u, x[1..]), Sum(u, y));
    }
  }

  lemma {:induction false} SumOfDirsAppend(u: Update, dirs: seq<Dir>, d: Dir)
    ensures SumOfDirs(u, dirs + [d]) == Add(SumOfDirs(u, dirs), Sum(u, Tree(d)))
    decreases |dirs|
  {
    var last := Sum(u, Tree(d));
    Regroup(last, NOTHING, NOTHING);
    if dirs == [] {
      assert (dirs + [d])[0] == d && (dirs + [d])[1..] == [];
    } else {
      assert (dirs + [d])[0] == dirs[0] && (dirs + [d])[1..] == dirs[1..] + [d];
      SumOfDirsAppend(u, dirs[1..], d);
      Regroup(Sum(u, Tree(dirs[0])), SumOfDirs(u, dirs[1..]), last);
    }
  }

  lemma {:induction false} SumIsBad(u: Update, found: seq<Found>)
    ensures Sum(u, found).bad <==> exists f <- found :: IsBad(u, f)
  {
    if found != [] {
      SumIsBad(u, found[1..]);
      assert found == [found[0]] + found[1..];
    }
  }

  lemma {:induction false} SumIsChosen(u: Update, found: seq<Found>)
    ensures Sum(u, found).files == multiset(CopiedFiles(u, found))
    ensures Sum(u, found).folders == multiset(ForcedFolders(found))
  {
    if found != [] {
      SumIsChosen(u, found[1..]);
    }
  }

  lemma SumOne(u: Update, f: Found)
    ensures Sum(u, [f]) == One(u, f)
  {
    assert [f][1..] == [];
    Regroup(One(u, f), NOTHING, NOTHING);
  }

  // Nothing below the data directory counts.
  lemma {:induction false} DataCountsNothing(u: Update, at: Names, entries: seq<Entry>)
    requires at != [] && at[0] == "tdata"
    ensures Sum(u, Forest(at, entries)) == NOTHING
    decreases entries
  {
    if entries != [] {
      var e := entries[0];
      var here := at + [e.name];
      DataCountsNothing(u, at, entries[1..]);
      var first := Forest(at, entries)[..|Forest(at, entries)| - |Forest(at, entries[1..])|];
      assert Forest(at, entries) == first + Forest(at, entries[1..]);
      SumAppend(u, first, Forest(at, entries[1..]));
      if !IsDots(e.name) && e.node.Folder? {
        DataCountsNothing(u, here, e.node.entries);
        SumAppend(u, [Found(here, IsFolder(e.node.listable))], Forest(here, e.node.entries));
        assert One(u, Found(here, IsFolder(e.node.listable))) == NOTHING;
      }
    }
  }

  // ---- the scan plans the tree ----

  // What is planned already with what the queue still adds.
  function Ledger(u: Update, dirs: seq<Dir>, files: seq<Names>, folders: seq<Names>): Total {
    Add(Total(false, multiset(files), multiset(folders)), SumOfDirs(u, dirs))
  }

  predicate AllOutside(dirs: seq<Dir>) {
    forall d <- dirs :: Outside(d.names)
  }

  // What one entry stands for.
  function EntryTotal(u: Update, at: Names, e: Entry): Total {
    Sum(u, Forest(at, [e]))
  }

  lemma ForestFirst(u: Update, at: Names, entries: seq<Entry>)
    requires entries != []
    ensures Sum(u, Forest(at, entries)) == Add(EntryTotal(u, at, entries[0]), Sum(u, Forest(at, entries[1..])))
  {
    var one := [entries[0]];
    assert one[1..] == [];
    assert Forest(at, one) + Forest(at, entries[1..]) == Forest(at, entries);
    SumAppend(u, Forest(at, one), Forest(at, entries[1..]));
  }

  lemma SkippedEntry(u: Update, at: Names, e: Entry)
    requires IsDots(e.name) || at + [e.name] == ["tdata"] || e.node.Unknown?
    ensures EntryTotal(u, at, e) == NOTHING
  {
    var here := at + [e.name];
    assert [e][1..] == [];
    if !IsDots(e.name) && !e.node.Unknown? {
      assert here[0] == "tdata";
      if e.node.Folder? {
        assert Forest(at, [e]) == [Found(here, IsFolder(e.node.listable))] + Forest(here, e.node.entries);
        SumOne(u, Found(here, IsFolder(e.node.listable)));
        DataCountsNothing(u, here, e.node.entries);
        SumAppend(u, [Found(here, IsFolder(e.node.listable))], Forest(here, e.node.entries));
        assert One(u, Found(here, IsFolder(e.node.listable))) == NOTHING;
        Regroup(NOTHING, NOTHING, NOTHING);
      } else {
        assert Forest(at, [e]) == [Found(here, IsFile)];
        SumOne(u, Found(here, IsFile));
        assert One(u, Found(here, IsFile)) == NOTHING;
      }
    } else {
      assert Forest(at, [e]) == [];
    }
  }

  lemma FolderEntry(u: Update, at: Names, e: Entry, dirs: seq<Dir>)
    requires !IsDots(e.name) && e.node.Folder?
    ensures SumOfDirs(u, dirs + [Dir(at + [e.name], e.node.listable, e.node.entries)])
      == Add(SumOfDirs(u, dirs), EntryTotal(u, at, e))
  {
    var d := Dir(at + [e.name], e.node.listable, e.node.entries);
    assert [e][1..] == [];
    assert Forest(at, [e]) == Tree(d);
    SumOfDirsAppend(u, dirs, d);
  }

  lemma FileEntry(u: Update, at: Names, e: Entry)
    requires !IsDots(e.name) && e.node.File? && Outside(at + [e.name])
    ensures var here := at + [e.name];
      EntryTotal(u, at, e)
        == Total(IsUpdater(u, here), if IsReadyFile(u, here) then multiset{} else multiset{here}, multiset{})
  {
    assert [e][1..] == [];
    assert Forest(at, [e]) == [Found(at + [e.name], IsFile)];
    SumOne(u, Found(at + [e.name], IsFile));
  }

  ghost predicate ListedAll(u: Update, at: Names, entries: seq<Entry>, dirs: seq<Dir>, files: seq<Names>, r: Listing) {
    match r
    case Stopped => Sum(u, Forest(at, entries)).bad
    case Listed(others, found) =>
      AllOutside(others) && Ledger(u, others, found, []) == Add(Ledger(u, dirs, files, []), Sum(u, Forest(at, entries)))
  }

  lemma Carried(x: Total, first: Total, rest: Total, y: Total)
    requires y == Add(x, first)
    ensures Add(y, rest) == Add(x, Add(first, rest))
  {
  }

  // One entry more has been looked at.
  lemma EntryListed(u: Update, at: Names, entries: seq<Entry>,
      dirs: seq<Dir>, files: seq<Names>, dirs2: seq<Dir>, files2: seq<Names>, r: Listing)
    requires entries != [] && ListedAll(u, at, entries[1..], dirs2, files2, r)
    requires Ledger(u, dirs2, files2, []) == Add(Ledger(u, dirs, files, []), EntryTotal(u, at, entries[0]))
    ensures ListedAll(u, at, entries, dirs, files, r)
  {
    ForestFirst(u, at, entries);
    Carried(Ledger(u, dirs, files, []), EntryTotal(u, at, entries[0]), Sum(u, Forest(at, entries[1..])),
      Ledger(u, dirs2, files2, []));
  }

  lemma FolderListed(u: Update, at: Names, entries: seq<Entry>, dirs: seq<Dir>, files: seq<Names>, r: Listing)
    requires entries != [] && !IsDots(entries[0].name) && entries[0].node.Folder?
    requires var e := entries[0];
      ListedAll(u, at, entries[1..], dirs + [Dir(at + [e.name], e.node.listable, e.node.entries)], files, r)
    ensures ListedAll(u, at, entries, dirs, files, r)
  {
    var e := entries[0];
    var more := dirs + [Dir(at + [e.name], e.node.listable, e.node.entries)];
    FolderEntry(u, at, e, dirs);
    Regroup(Total(false, multiset(files), multiset{}), SumOfDirs(u, dirs), EntryTotal(u, at, e));
    EntryListed(u, at, entries, dirs, files, more, files, r);
  }

  lemma MoreFiles(x: Total, files: multiset<Names>, one: Total)
    requires !one.bad && one.folders == multiset{}
    ensures Add(Total(false, files + one.files, multiset{}), x) == Add(Add(Total(false, files, multiset{}), x), one)
  {
    assert files + one.files + x.files == files + x.files + one.files;
  }

  lemma FileListed(u: Update, at: Names, entries: seq<Entry>, dirs: seq<Dir>, files: seq<Names>, r: Listing)
    requires entries != [] && !IsDots(entries[0].name) && entries[0].node.File? && Outside(at + [entries[0].name])
    requires !IsUpdater(u, at + [entries[0].name])
    requires var here := at + [entries[0].name];
      ListedAll(u, at, entries[1..], dirs, if IsReadyFile(u, here) then files else files + [here], r)
    ensures ListedAll(u, at, entries, dirs, files, r)
  {
    var here := at + [entries[0].name];
    var more := if IsReadyFile(u, here) then files else files + [here];
    FileEntry(u, at, entries[0]);
    MoreFiles(SumOfDirs(u, dirs), multiset(files), EntryTotal(u, at, entries[0]));
    assert multiset(more) == multiset(files) + EntryTotal(u, at, entries[0]).files;
    EntryListed(u, at, entries, dirs, files, dirs, more, r);
  }

  lemma SkippedListed(u: Update, at: Names, entries: seq<Entry>, dirs: seq<Dir>, files: seq<Names>, r: Listing)
    requires entries != [] && ListedAll(u, at, entries[1..], dirs, files, r)
    requires var e := entries[0]; IsDots(e.name) || at + [e.name] == ["tdata"] || e.node.Unknown?
    ensures ListedAll(u, at, entries, dirs, files, r)
  {
    SkippedEntry(u, at, entries[0]);
    Regroup(Ledger(u, dirs, files, []), NOTHING, NOTHING);
    EntryListed(u, at, entries, dirs, files, dirs, files, r);
  }

  lemma StoppedListed(u: Update, at: Names, entries: seq<Entry>, dirs: seq<Dir>, files: seq<Names>)
    requires entries != [] && !IsDots(entries[0].name) && entries[0].node.File? && Outside(at + [entries[0].name])
    requires IsUpdater(u, at + [entries[0].name])
    ensures ListedAll(u, at, entries, dirs, files, Stopped)
  {
    FileEntry(u, at, entries[0]);
    ForestFirst(u, at, entries);
  }

  // One entry, whatever it is.
  lemma OneListed(u: Update, at: Names, entries: seq<Entry>, dirs: seq<Dir>, files: seq<Names>, r: Listing)
    requires Outside(at) && entries != []
    requires match ListOne(u, at, entries[0], dirs, files)
      case Stopped => r == Stopped
      case Listed(dirs2, files2) => ListedAll(u, at, entries[1..], dirs2, files2, r)
    ensures ListedAll(u, at, entries, dirs, files, r)
  {
    var e := entries[0];
    var here := at + [e.name];
    if IsDots(e.name) || here == ["tdata"] || e.node.Unknown? {
      SkippedListed(u, at, entries, dirs, files, r);
    } else if e.node.Folder? {
      FolderListed(u, at, entries, dirs, files, r);
    } else if IsUpdater(u, here) {
      StoppedListed(u, at, entries, dirs, files);
    } else {
      FileListed(u, at, entries, dirs, files, r);
    }
  }

  lemma OneOutside(u: Update, at: Names, e: Entry, dirs: seq<Dir>, files: seq<Names>)
    requires Outside(at) && AllOutside(dirs)
    ensures var one := ListOne(u, at, e, dirs, files); one.Listed? ==> AllOutside(one.dirs)
  {
  }

  lemma NoneListed(u: Update, at: Names, dirs: seq<Dir>, files: seq<Names>)
    requires AllOutside(dirs)
    ensures ListedAll(u, at, [], dirs, files, Listed(dirs, files))
  {
    Regroup(Ledger(u, dirs, files, []), NOTHING, NOTHING);
  }

  lemma {:induction false} ListTotals(u: Update, at: Names, entries: seq<Entry>, dirs: seq<Dir>, files: seq<Names>)
    requires Outside(at) && AllOutside(dirs)
    ensures ListedAll(u, at, entries, dirs, files, List(u, at, entries, dirs, files))
    decreases |entries|
  {
    if entries == [] {
      NoneListed(u, at, dirs, files);
    } else {
      OneOutside(u, at, entries[0], dirs, files);
      match ListOne(u, at, entries[0], dirs, files)
      case Stopped =>
        OneListed(u, at, entries, dirs, files, Stopped);
      case Listed(dirs2, files2) =>
        ListTotals(u, at, entries[1..], dirs2, files2);
        OneListed(u, at, entries, dirs, files, List(u, at, entries[1..], dirs2, files2));
    }
  }

  lemma TreeFirst(u: Update, d: Dir)
    ensures Sum(u, Tree(d)) == Add(One(u, Found(d.names, IsFolder(d.listable))), Sum(u, Forest(d.names, d.entries)))
  {
    SumAppend(u, [Found(d.names, IsFolder(d.listable))], Forest(d.names, d.entries));
  }

  // The directory at the front is in the plan, and its entries are in the queue.
  lemma DirListed(u: Update, d: Dir, rest: seq<Dir>, others: seq<Dir>,
      files: seq<Names>, found: seq<Names>, folders: seq<Names>, more: seq<Names>)
    requires Outside(d.names) && d.listable && more == if d.names == [] then folders else folders + [d.names]
    requires Ledger(u, others, found, []) == Add(Ledger(u, rest, files, []), Sum(u, Forest(d.names, d.entries)))
    ensures Ledger(u, others, found, more) == Ledger(u, [d] + rest, files, folders)
  {
    TreeFirst(u, d);
    assert ([d] + rest)[1..] == rest;
    var inner := Sum(u, Forest(d.names, d.entries));
    var one := One(u, Found(d.names, IsFolder(true)));
    assert SumOfDirs(u, [d] + rest) == Add(Add(one, inner), SumOfDirs(u, rest));
    assert multiset(more) == multiset(folders) + one.folders;
    Moved(SumOfDirs(u, others), SumOfDirs(u, rest), inner, one, multiset(files), multiset(found), multiset(folders));
  }

  lemma Moved(others: Total, rest: Total, inner: Total, one: Total,
      files: multiset<Names>, found: multiset<Names>, folders: multiset<Names>)
    requires !one.bad && one.files == multiset{}
    requires Add(Total(false, found, multiset{}), others) == Add(Add(Total(false, files, multiset{}), rest), inner)
    ensures Add(Total(false, found, folders + one.folders), others)
      == Add(Total(false, files, folders), Add(Add(one, inner), rest))
  {
    assert found + others.files == files + rest.files + inner.files;
    var none: multiset<Names> := multiset{};
    assert none + others.folders == others.folders && none + rest.folders == rest.folders;
    assert others.folders == rest.folders + inner.folders;
    assert others.bad == (rest.bad || inner.bad);
    assert folders + one.folders + others.folders == folders + (one.folders + inner.folders + rest.folders);
  }

  lemma {:induction false} ScanTotals(u: Update, dirs: seq<Dir>, files: seq<Names>, folders: seq<Names>)
    requires AllOutside(dirs)
    ensures var r := Scan(u, dirs, files, folders);
      var all := Ledger(u, dirs, files, folders);
      && (r.Planned? <==> !all.bad)
      && (r.Planned? ==> multiset(r.files) == all.files && multiset(r.folders) == all.folders)
    decreases Size(dirs)
  {
    if dirs != [] {
      var d, rest := dirs[0], dirs[1..];
      assert dirs == [d] + rest;
      TreeFirst(u, d);
      if d.listable {
        ListSize(u, d.names, d.entries, rest, files);
        ListTotals(u, d.names, d.entries, rest, files);
        var listing := List(u, d.names, d.entries, rest, files);
        if listing.Listed? {
          var more := if d.names == [] then folders else folders + [d.names];
          DirListed(u, d, rest, listing.dirs, files, listing.files, folders, more);
          ScanTotals(u, listing.dirs, listing.files, more);
        }
      }
    }
  }

  function Plan(u: Update, top: Dir): Outcome {
    Scan(u, [top], [], [])
  }

  lemma TopLedger(u: Update, top: Dir)
    ensures Ledger(u, [top], [], []) == Sum(u, Tree(top))
  {
    assert [top][1..] == [];
    assert SumOfDirs(u, [top]) == Add(Sum(u, Tree(top)), SumOfDirs(u, []));
    assert Total(false, multiset([]), multiset([])) == NOTHING;
    Regroup(Sum(u, Tree(top)), NOTHING, NOTHING);
  }

  // The scan plans exactly when every directory outside the data directory opens and no file there is the updater; then
  // it plans to copy every file outside the data directory but the ready file, and to force every directory there.
  lemma PlanIsTree(u: Update, top: Dir)
    requires top.names == []
    ensures Plan(u, top).Planned? <==> !exists f <- Tree(top) :: IsBad(u, f)
    ensures Plan(u, top).Planned? ==>
      && multiset(Plan(u, top).files) == multiset(CopiedFiles(u, Tree(top)))
      && multiset(Plan(u, top).folders) == multiset(ForcedFolders(Tree(top)))
  {
    ScanTotals(u, [top], [], []);
    TopLedger(u, top);
    SumIsBad(u, Tree(top));
    SumIsChosen(u, Tree(top));
  }

  // ---- the order of the plan ----

  // The directory of an entry is forced, unless it is the top one.
  predicate ParentIn(names: Names, folders: seq<Names>) {
    |names| <= 1 || names[..|names| - 1] in folders
  }

  ghost predicate ParentsFirst(folders: seq<Names>) {
    forall i :: 0 <= i < |folders| ==> ParentIn(folders[i], folders[..i])
  }

  ghost predicate Ordered(dirs: seq<Dir>, files: seq<Names>, folders: seq<Names>) {
    && ParentsFirst(folders)
    && (forall d <- dirs :: ParentIn(d.names, folders))
    && (forall f <- files :: ParentIn(f, folders))
  }

  lemma {:induction false} ListOrdered(u: Update, at: Names, entries: seq<Entry>, dirs: seq<Dir>, files: seq<Names>,
      folders: seq<Names>)
    requires Ordered(dirs, files, folders) && (at == [] || at in folders)
    ensures var r := List(u, at, entries, dirs, files); r.Listed? ==> Ordered(r.dirs, r.files, folders)
    decreases |entries|
  {
    if entries != [] {
      var e := entries[0];
      var here := at + [e.name];
      assert here[..|here| - 1] == at;
      ListOrdered(u, at, entries[1..], dirs, files, folders);
      ListOrdered(u, at, entries[1..], dirs, files + [here], folders);
      if e.node.Folder? {
        ListOrdered(u, at, entries[1..], dirs + [Dir(here, e.node.listable, e.node.entries)], files, folders);
      }
    }
  }

  lemma FolderOrdered(dirs: seq<Dir>, files: seq<Names>, folders: seq<Names>)
    requires Ordered(dirs, files, folders) && dirs != []
    ensures Ordered(dirs[1..], files, folders + [dirs[0].names])
  {
    var more := folders + [dirs[0].names];
    forall i | 0 <= i < |more|
      ensures ParentIn(more[i], more[..i])
    {
      assert more[..i] == folders[..i];
      assert folders[..|folders|] == folders;
    }
    assert forall names <- folders :: names in more;
    assert forall d <- dirs[1..] :: d in dirs;
  }

  lemma {:induction false} ScanOrdered(u: Update, dirs: seq<Dir>, files: seq<Names>, folders: seq<Names>)
    requires Ordered(dirs, files, folders)
    ensures var r := Scan(u, dirs, files, folders); r.Planned? ==> Ordered([], r.files, r.folders)
    decreases Size(dirs)
  {
    if dirs != [] && dirs[0].listable {
      var d, rest := dirs[0], dirs[1..];
      var more := if d.names == [] then folders else folders + [d.names];
      FolderOrdered(dirs, files, folders);
      assert forall other <- rest :: other in dirs;
      assert d.names == [] || d.names in more;
      ListSize(u, d.names, d.entries, rest, files);
      ListOrdered(u, d.names, d.entries, rest, files, more);
      var listing := List(u, d.names, d.entries, rest, files);
      if listing.Listed? {
        ScanOrdered(u, listing.dirs, listing.files, more);
      }
    }
  }

  // Every forced directory comes after its parent, and the directory of every copied file is forced.
  lemma PlanIsOrdered(u: Update, top: Dir)
    requires top.names == [] && Plan(u, top).Planned?
    ensures ParentsFirst(Plan(u, top).folders)
    ensures forall f <- Plan(u, top).files :: ParentIn(f, Plan(u, top).folders)
  {
    ScanOrdered(u, [top], [], []);
  }
}
