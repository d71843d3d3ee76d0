/** Where the files of an update go, and which file counts as the updater. */
module UpdateTargets {
  import opened UpdateTree
  import opened UpdateScan

  // The same letter, up to the case of the basic alphabet.
  predicate SameLetter(c: char, d: char) {
    c == d || ('A' <= c <= 'Z' && d as int == c as int + 32) || ('A' <= d <= 'Z' && c as int == d as int + 32)
  }

  predicate SameLetters(a: string, b: string) {
    |a| == |b| && forall i :: 0 <= i < |a| ==> SameLetter(a[i], b[i])
  }

  lemma {:induction false} LowerIs(text: string)
    ensures |Lower(text)| == |text|
    ensures forall i :: 0 <= i < |text| ==>
      Lower(text)[i] == if 'A' <= text[i] <= 'Z' then text[i] + ' ' else text[i]
  {
    if text != [] {
      LowerIs(text[1..]);
    }
  }

  // Two texts are equal up to the case of their letters.
  lemma EqualIs(a: string, b: string)
    ensures Equal(a, b) <==> SameLetters(a, b)
  {
    LowerIs(a);
    LowerIs(b);
    if SameLetters(a, b) {
      assert forall i :: 0 <= i < |a| ==> Lower(a)[i] == Lower(b)[i];
    }
    if Equal(a, b) {
      forall i | 0 <= i < |a|
        ensures SameLetter(a[i], b[i])
      {
        assert Lower(a)[i] == Lower(b)[i];
      }
    }
  }

  lemma SameBehind(front: string, a: string, b: string)
    ensures SameLetters(front + a, front + b) <==> SameLetters(a, b)
  {
    if SameLetters(front + a, front + b) {
      forall i | 0 <= i < |a|
        ensures SameLetter(a[i], b[i])
      {
        assert (front + a)[|front| + i] == a[i] && (front + b)[|front| + i] == b[i];
      }
    }
    if SameLetters(a, b) {
      forall i | 0 <= i < |front + a|
        ensures SameLetter((front + a)[i], (front + b)[i])
      {
        assert i >= |front| ==> (front + a)[i] == a[i - |front|] && (front + b)[i] == b[i - |front|];
      }
    }
  }

  // A file goes to its place in the install path, but the binary, in whatever case, to the name that it has now; the
  // updater is the file that would go to the path of the updater that runs.
  lemma TargetIs(u: Update, names: Names)
    ensures Target(u, names) == u.exePath +
      if SameLetters(Relative(names), "Telegram") && u.exeName != "Telegram" then u.exeName else Relative(names)
    ensures IsUpdater(u, names) <==> SameLetters(u.exePath + Relative(names), u.updaterName)
  {
    EqualIs(Installed(u, names), u.exePath + "Telegram");
    EqualIs(Installed(u, names), u.updaterName);
    SameBehind(u.exePath, Relative(names), "Telegram");
  }

  // The names are put together with slashes.
  lemma PathIsNames(u: Update, names: Names, name: string)
    ensures Relative([name]) == name
    ensures names != [] ==> Relative(names + [name]) == Relative(names) + "/" + name
    ensures Path(u, names + [name]) == Path(u, names) + "/" + name
  {
    RelativeMore(names, name);
  }

  lemma TopPath(u: Update)
    ensures Path(u, []) == u.workDir + (if u.readyFound then "tupdates/temp" else "tupdates/ready")
  {
    TwoParts(u.workDir, "tupdates/", if u.readyFound then "temp" else "ready");
    assert "tupdates/" + "temp" == "tupdates/temp" && "tupdates/" + "ready" == "tupdates/ready";
  }

  lemma TwoParts(x: string, y: string, z: string)
    ensures x + y + z == x + (y + z)
  {
  }
}
