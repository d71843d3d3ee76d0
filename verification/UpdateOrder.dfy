/** In which order an update is installed: directory by directory, level by level. */
module UpdateOrder {
  import opened Basics
  import opened UpdateTree

  // The directories among the entries of a directory that are looked into.
  function SubDirs(at: Names, entries: seq<Entry>): seq<Dir> {
    if entries == [] then []
    else
      var here := at + [entries[0].name];
      (if entries[0].node.Folder? && !IsDots(entries[0].name) && here != ["tdata"] then
         [Dir(here, entries[0].node.listable, entries[0].node.entries)]
       else [])
      + SubDirs(at, entries[1..])
  }

  // The files among the entries of a directory that are copied.
  function FilesIn(u: Update, at: Names, entries: seq<Entry>): seq<Names> {
    if entries == [] then []
    else
      var here := at + [entries[0].name];
      (if entries[0].node.File? && !IsDots(entries[0].name) && here != ["tdata"] && !IsReadyFile(u, here) then [here]
       else [])
      + FilesIn(u, at, entries[1..])
  }

  lemma {:induction false} ListIs(u: Update, at: Names, entries: seq<Entry>, dirs: seq<Dir>, files: seq<Names>)
    requires List(u, at, entries, dirs, files).Listed?
    ensures List(u, at, entries, dirs, files) == Listed(dirs + SubDirs(at, entries), files + FilesIn(u, at, entries))
    decreases |entries|
  {
    if entries == [] {
      assert dirs + [] == dirs && files + [] == files;
    } else {
      var one := ListOne(u, at, entries[0], dirs, files);
      ListIs(u, at, entries[1..], one.dirs, one.files);
      OneIs(u, at, entries[0], dirs, files, SubDirs(at, entries[1..]), FilesIn(u, at, entries[1..]));
    }
  }

  lemma OneIs(u: Update, at: Names, e: Entry, dirs: seq<Dir>, files: seq<Names>, more: seq<Dir>, others: seq<Names>)
    requires ListOne(u, at, e, dirs, files).Listed?
    ensures var one := ListOne(u, at, e, dirs, files);
      var here := at + [e.name];
      && one.dirs + more == dirs +
           ((if e.node.Folder? && !IsDots(e.name) && here != ["tdata"] then
               [Dir(here, e.node.listable, e.node.entries)]
             else []) + more)
      && one.files + others == files +
           ((if e.node.File? && !IsDots(e.name) && here != ["tdata"] && !IsReadyFile(u, here) then [here]
             else []) + others)
  {
  }

  // ---- the queue ----

  lemma {:induction false} SubDirsSize(at: Names, entries: seq<Entry>)
    ensures Size(SubDirs(at, entries)) <= Weight(entries)
    decreases |entries|
  {
    if entries != [] {
      var here, node, rest := at + [entries[0].name], entries[0].node, SubDirs(at, entries[1..]);
      SubDirsSize(at, entries[1..]);
      if node.Folder? {
        var d := Dir(here, node.listable, node.entries);
        assert ([d] + rest)[1..] == rest && [] + rest == rest;
      } else {
        assert [] + rest == rest;
      }
    }
  }

  lemma {:induction false} SizeSum(x: seq<Dir>, y: seq<Dir>)
    ensures Size(x + y) == Size(x) + Size(y)
    decreases |x|
  {
    if x == [] {
      assert x + y == y;
    } else {
      assert (x + y)[0] == x[0] && (x + y)[1..] == x[1..] + y;
      SizeSum(x[1..], y);
    }
  }

  // The directories in the order of the queue.
  function Order(queue: seq<Dir>): seq<Dir>
    decreases Size(queue)
  {
    if queue == [] then []
    else
      SubDirsSize(queue[0].names, queue[0].entries);
      SizeSum(queue[1..], SubDirs(queue[0].names, queue[0].entries));
      [queue[0]] + Order(queue[1..] + SubDirs(queue[0].names, queue[0].entries))
  }

  function FilesOf(u: Update, dirs: seq<Dir>): seq<Names> {
    if dirs == [] then [] else FilesIn(u, dirs[0].names, dirs[0].entries) + FilesOf(u, dirs[1..])
  }

  // The names of the directories, without the top one.
  function NamesOf(dirs: seq<Dir>): seq<Names> {
    if dirs == [] then [] else (if dirs[0].names == [] then [] else [dirs[0].names]) + NamesOf(dirs[1..])
  }

  lemma {:induction false} ScanIsOrder(u: Update, queue: seq<Dir>, files: seq<Names>, folders: seq<Names>)
    requires Scan(u, queue, files, folders).Planned?
    ensures Scan(u, queue, files, folders)
      == Planned(files + FilesOf(u, Order(queue)), folders + NamesOf(Order(queue)))
    decreases Size(queue)
  {
    if queue == [] {
      assert files + [] == files && folders + [] == folders;
    } else {
      var d, rest := queue[0], queue[1..];
      var subs, own := SubDirs(d.names, d.entries), FilesIn(u, d.names, d.entries);
      var more := if d.names == [] then folders else folders + [d.names];
      ListSize(u, d.names, d.entries, rest, files);
      ListIs(u, d.names, d.entries, rest, files);
      ScanIsOrder(u, rest + subs, files + own, more);
      var later := Order(rest + subs);
      assert Order(queue)[1..] == later;
      Regrouped(files, own, FilesOf(u, later));
      Regrouped(folders, if d.names == [] then [] else [d.names], NamesOf(later));
      assert d.names == [] ==> folders + [] == folders;
    }
  }

  // ---- the levels ----

  function Inside(level: seq<Dir>): seq<Dir> {
    if level == [] then [] else SubDirs(level[0].names, level[0].entries) + Inside(level[1..])
  }

  lemma {:induction false} InsideSize(level: seq<Dir>)
    ensures level != [] ==> Size(Inside(level)) < Size(level)
    ensures level == [] ==> Size(Inside(level)) == 0
  {
    if level != [] {
      SubDirsSize(level[0].names, level[0].entries);
      SizeSum(SubDirs(level[0].names, level[0].entries), Inside(level[1..]));
      InsideSize(level[1..]);
    }
  }

  // A level, the directories inside it, those inside these, and so on.
  function Levels(level: seq<Dir>): seq<Dir>
    decreases Size(level)
  {
    if level == [] then []
    else
      InsideSize(level);
      level + Levels(Inside(level))
  }

  lemma OrderFirst(d: Dir, rest: seq<Dir>)
    ensures Order([d] + rest) == [d] + Order(rest + SubDirs(d.names, d.entries))
    ensures Inside([d] + rest) == SubDirs(d.names, d.entries) + Inside(rest)
  {
    assert ([d] + rest)[1..] == rest;
  }

  lemma {:induction false} LevelFirst(level: seq<Dir>, y: seq<Dir>)
    ensures Order(level + y) == level + Order(y + Inside(level))
    decreases |level|
  {
    if level == [] {
      assert level + y == y && y + [] == y;
    } else {
      var d, rest := level[0], level[1..];
      var subs := SubDirs(d.names, d.entries);
      assert level == [d] + rest;
      Regrouped([d], rest, y);
      OrderFirst(d, rest + y);
      OrderFirst(d, rest);
      Regrouped(rest, y, subs);
      LevelFirst(rest, y + subs);
      Regrouped(y, subs, Inside(rest));
      Regrouped([d], rest, Order(y + Inside(level)));
    }
  }

  lemma {:induction false} OrderIsLevels(level: seq<Dir>)
    ensures Order(level) == Levels(level)
    decreases Size(level)
  {
    if level != [] {
      InsideSize(level);
      LevelFirst(level, []);
      assert level + [] == level && [] + Inside(level) == Inside(level);
      OrderIsLevels(Inside(level));
    }
  }

  // A good update is installed level by level, each directory in the order of its listing.
  lemma PlanIsLevels(u: Update, top: Dir)
    requires top.names == [] && Plan(u, top).Planned?
    ensures Plan(u, top) == Planned(FilesOf(u, Levels([top])), NamesOf(Levels([top])))
  {
    ScanIsOrder(u, [top], [], []);
    OrderIsLevels([top]);
    assert [] + FilesOf(u, Levels([top])) == FilesOf(u, Levels([top]));
    assert [] + NamesOf(Levels([top])) == NamesOf(Levels([top]));
  }
}
