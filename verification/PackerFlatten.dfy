/** The update packer's flattening of the given files and directories into a list of files. */
module PackerFlatten {
  import opened Basics

  // A path, with what the file system reports about it. The entries of a directory are what its listing returns.
  datatype Info =
    | File(path: string, readable: bool, hidden: bool)
    | Dir(path: string, entries: seq<Info>)

  function Size(forest: seq<Info>): (n: nat)
    ensures forest != [] ==> n > 0
  {
    if forest == [] then 0
    else 1 + (if forest[0].Dir? then Size(forest[0].entries) else 0) + Size(forest[1..])
  }

  lemma {:induction false} SizeAppend(x: seq<Info>, y: seq<Info>)
    ensures Size(x + y) == Size(x) + Size(y)
    decreases |x|
  {
    if x == [] {
      assert x + y == y;
    } else {
      assert (x + y)[1..] == x[1..] + y;
      SizeAppend(x[1..], y);
    }
  }

  predicate AllFiles(files: seq<Info>) {
    forall f <- files :: f.File?
  }

  // Every regular file of the forest, at any depth.
  function Files(forest: seq<Info>): (r: seq<Info>)
    ensures AllFiles(r)
  {
    if forest == [] then []
    else (if forest[0].Dir? then Files(forest[0].entries) else [forest[0]]) + Files(forest[1..])
  }

  lemma {:induction false} FilesAppend(x: seq<Info>, y: seq<Info>)
    ensures Files(x + y) == Files(x) + Files(y)
    decreases |x|
  {
    if x == [] {
      assert x + y == y;
    } else {
      assert (x + y)[1..] == x[1..] + y;
      FilesAppend(x[1..], y);
    }
  }

  function Shown(files: seq<Info>): seq<Info>
    requires AllFiles(files)
  {
    if files == [] then []
    else (if files[0].hidden then [] else [files[0]]) + Shown(files[1..])
  }

  lemma {:induction false} ShownAppend(x: seq<Info>, y: seq<Info>)
    requires AllFiles(x) && AllFiles(y)
    ensures AllFiles(x + y) && Shown(x + y) == Shown(x) + Shown(y)
    decreases |x|
  {
    if x == [] {
      assert x + y == y;
    } else {
      assert (x + y)[1..] == x[1..] + y && (x + y)[0] == x[0];
      ShownAppend(x[1..], y);
    }
  }

  ghost predicate AllReadable(forest: seq<Info>) {
    forall f <- Files(forest) :: f.readable
  }

  lemma ReadableAppend(x: seq<Info>, y: seq<Info>)
    ensures AllReadable(x + y) <==> AllReadable(x) && AllReadable(y)
  {
    FilesAppend(x, y);
    assert forall f <- Files(x) :: f in Files(x) + Files(y);
    assert forall f <- Files(y) :: f in Files(x) + Files(y);
  }

  // The order of the result: level by level, each directory's entries after everything listed before.
  function Queue(forest: seq<Info>): (r: seq<Info>)
    decreases Size(forest)
  {
    if forest == [] then []
    else if forest[0].Dir? then
      SizeAppend(forest[1..], forest[0].entries);
      Queue(forest[1..] + forest[0].entries)
    else
      (if forest[0].hidden then [] else [forest[0]]) + Queue(forest[1..])
  }

  // The listing contains the shown files of the whole forest, each as often as it occurs.
  lemma {:induction false} QueueIsShownFiles(forest: seq<Info>)
    ensures multiset(Queue(forest)) == multiset(Shown(Files(forest)))
    decreases Size(forest)
  {
    if forest == [] {
    } else if forest[0].Dir? {
      var rest, entries := forest[1..], forest[0].entries;
      SizeAppend(rest, entries);
      QueueIsShownFiles(rest + entries);
      FilesAppend(rest, entries);
      ShownAppend(Files(rest), Files(entries));
      ShownAppend(Files(entries), Files(rest));
    } else {
      QueueIsShownFiles(forest[1..]);
      assert Files(forest) == [forest[0]] + Files(forest[1..]);
      ShownAppend([forest[0]], Files(forest[1..]));
      assert Shown([forest[0]]) == if forest[0].hidden then [] else [forest[0]];
    }
  }

  // The shown files of one level, and what the directories of that level hold.
  function Here(level: seq<Info>): seq<Info> {
    if level == [] then [] else (if level[0].File? && !level[0].hidden then [level[0]] else []) + Here(level[1..])
  }

  function Inside(level: seq<Info>): (r: seq<Info>)
    ensures level != [] ==> Size(r) < Size(level)
  {
    if level == [] then []
    else
      var entries := if level[0].Dir? then level[0].entries else [];
      SizeAppend(entries, Inside(level[1..]));
      entries + Inside(level[1..])
  }

  // Level by level.
  function Levels(forest: seq<Info>): seq<Info>
    decreases Size(forest)
  {
    if forest == [] then [] else Here(forest) + Levels(Inside(forest))
  }

  lemma QueueFirst(first: Info, rest: seq<Info>)
    ensures Queue([first] + rest) ==
      if first.Dir? then Queue(rest + first.entries) else (if first.hidden then [] else [first]) + Queue(rest)
  {
    assert ([first] + rest)[1..] == rest;
  }

  lemma LevelParts(first: Info, rest: seq<Info>)
    ensures Here([first] + rest) == (if first.File? && !first.hidden then [first] else []) + Here(rest)
    ensures Inside([first] + rest) == (if first.Dir? then first.entries else []) + Inside(rest)
  {
    assert ([first] + rest)[1..] == rest;
  }

  // A level is gone through before what its directories hold.
  lemma {:induction false} LevelFirst(level: seq<Info>, y: seq<Info>)
    ensures Queue(level + y) == Here(level) + Queue(y + Inside(level))
    decreases |level|
  {
    if level == [] {
      assert level + y == y && y + [] == y;
    } else {
      var first, rest := level[0], level[1..];
      assert level == [first] + rest;
      var shown := if first.File? && !first.hidden then [first] else [];
      var entries := if first.Dir? then first.entries else [];
      Regrouped([first], rest, y);
      QueueFirst(first, rest + y);
      LevelParts(first, rest);
      LevelFirst(rest, y + entries);
      Regrouped(rest, y, entries);
      Regrouped(y, entries, Inside(rest));
      Regrouped(shown, Here(rest), Queue(y + Inside(level)));
      if !first.Dir? {
        assert y + entries == y;
      } else {
        assert shown + Here(rest) == Here(rest);
      }
    }
  }

  lemma {:induction false} QueueIsLevels(forest: seq<Info>)
    ensures Queue(forest) == Levels(forest)
    decreases Size(forest)
  {
    if forest != [] {
      LevelFirst(forest, []);
      assert forest + [] == forest && [] + Inside(forest) == Inside(forest);
      QueueIsLevels(Inside(forest));
    }
  }

  // A prefix of shown files stays in front.
  lemma {:induction false} QueuePrefix(done: seq<Info>, rest: seq<Info>)
    requires forall f <- done :: f.File? && !f.hidden
    ensures Queue(done + rest) == done + Queue(rest)
    decreases |done|
  {
    if done == [] {
      assert done + rest == rest;
    } else {
      assert (done + rest)[1..] == done[1..] + rest;
      QueuePrefix(done[1..], rest);
    }
  }

  ghost predicate Settled(files: seq<Info>) {
    forall f <- files :: f.File? && f.readable && !f.hidden
  }

  // What one run of the inner loop makes of an entry it does not leave as it is.
  ghost predicate Changed(files: seq<Info>, at: nat, hasDirs: bool, ok: bool, next: seq<Info>)
    requires at < |files|
  {
    match files[at]
    case Dir(_, entries) => ok && hasDirs && next == files[..at] + files[at + 1..] + entries
    case File(_, readable, hidden) =>
      if !readable then !ok && !hasDirs && next == files
      else hidden && ok && hasDirs && next == files[..at] + files[at + 1..]
  }

  // One run of the inner loop: it stops at the first entry that is not a shown and readable file.
  method Scan(files: seq<Info>) returns (hasDirs: bool, ok: bool, next: seq<Info>, ghost at: nat)
    ensures at <= |files| && Settled(files[..at])
    ensures if at < |files| then Changed(files, at, hasDirs, ok, next) else ok && !hasDirs && next == files
    ensures !ok ==> !AllReadable(files)
    ensures ok && !hasDirs ==> next == files && Settled(files)
    ensures ok && hasDirs ==> Size(next) < Size(files)
    ensures ok && hasDirs ==> Queue(next) == Queue(files) && (AllReadable(next) <==> AllReadable(files))
  {
    hasDirs, ok, next, at := false, true, files, |files|;
    for i := 0 to |files|
      invariant !hasDirs && ok && next == files && at == |files|
      invariant Settled(files[..i])
    {
      var info := files[i];
      var done, rest := files[..i], files[i + 1..];
      assert files == done + ([info] + rest);
      assert Files(files) == Files(done) + (Files([info]) + Files(rest)) by {
        FilesAppend(done, [info] + rest);
        FilesAppend([info], rest);
      }
      if info.Dir? {
        next := done + rest + info.entries;
        Expanded(done, info, rest);
        return true, true, next, i;
      } else if !info.readable {
        assert info in Files([info]);
        return false, false, files, i;
      } else if info.hidden {
        next := done + rest;
        Dropped(done, info, rest);
        return true, true, next, i;
      }
    }
    assert files[..|files|] == files;
  }

  lemma Expanded(done: seq<Info>, dir: Info, rest: seq<Info>)
    requires Settled(done) && dir.Dir?
    ensures Size(done + rest + dir.entries) < Size(done + ([dir] + rest))
    ensures Queue(done + rest + dir.entries) == Queue(done + ([dir] + rest))
    ensures AllReadable(done + rest + dir.entries) <==> AllReadable(done + ([dir] + rest))
  {
    assert done + rest + dir.entries == done + (rest + dir.entries);
    assert ([dir] + rest)[1..] == rest;
    SizeAppend(done, rest + dir.entries);
    SizeAppend(done, [dir] + rest);
    SizeAppend(rest, dir.entries);
    QueuePrefix(done, rest + dir.entries);
    QueuePrefix(done, [dir] + rest);
    ReadableAppend(done, rest + dir.entries);
    ReadableAppend(done, [dir] + rest);
    ReadableAppend(rest, dir.entries);
    assert Files([dir] + rest) == Files(dir.entries) + Files(rest);
  }

  lemma Dropped(done: seq<Info>, file: Info, rest: seq<Info>)
    requires Settled(done) && file.File? && file.readable && file.hidden
    ensures Size(done + rest) < Size(done + ([file] + rest))
    ensures Queue(done + rest) == Queue(done + ([file] + rest))
    ensures AllReadable(done + rest) <==> AllReadable(done + ([file] + rest))
  {
    assert ([file] + rest)[1..] == rest;
    assert Size(done + rest) < Size(done + ([file] + rest)) by {
      SizeAppend(done, rest);
      SizeAppend(done, [file] + rest);
    }
    assert Queue(done + rest) == Queue(done + ([file] + rest)) by {
      QueuePrefix(done, rest);
      QueuePrefix(done, [file] + rest);
    }
    ReadableAppend(done, rest);
    ReadableAppend(done, [file] + rest);
    ReadableAppend([file], rest);
    assert Files([file]) == [file];
  }

  lemma {:induction false} SettledQueue(files: seq<Info>)
    requires Settled(files)
    ensures Queue(files) == files && AllReadable(files)
    decreases |files|
  {
    QueuePrefix(files, []);
    assert files + [] == files;
    SettledFiles(files);
  }

  lemma {:induction false} SettledFiles(files: seq<Info>)
    requires Settled(files)
    ensures Files(files) == files
  {
    if files != [] {
      assert files[0] in files;
      SettledFiles(files[1..]);
      assert files == [files[0]] + files[1..];
    }
  }

  // The restart loop.
  method Flatten(input: seq<Info>) returns (ok: bool, files: seq<Info>)
    ensures ok <==> AllReadable(input)
    ensures ok ==> files == Queue(input) && multiset(files) == multiset(Shown(Files(input)))
    ensures ok ==> files == Levels(input)
  {
    files := input;
    var hasDirs := true;
    while hasDirs
      invariant Queue(files) == Queue(input)
      invariant AllReadable(files) <==> AllReadable(input)
      invariant !hasDirs ==> Settled(files)
      decreases if hasDirs then 1 + Size(files) else 0
    {
      ghost var at;
      hasDirs, ok, files, at := Scan(files);
      if !ok {
        return false, files;
      }
    }
    SettledQueue(files);
    QueueIsShownFiles(input);
    QueueIsLevels(input);
    ok := true;
  }
}
