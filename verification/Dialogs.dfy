/** Loading the dialog lists: page after page of each list, and its pinned dialogs, until both have arrived. */
module Dialogs {
  import opened Basics

  type RequestId = nat

  // The main list, or the list of a folder.
  datatype Key = Main | Folder(id: nat)

  datatype Offset = Offset(date: int, id: int, peer: nat)

  const NO_OFFSET: Offset := Offset(0, 0, 0)
  const FIRST_LOAD: nat := 20
  const PER_PAGE: nat := 500

  // The load state of a list; `born` tells apart the states a folder has one after another.
  datatype Load = Load(
    offset: Offset,
    requestId: RequestId,
    listReceived: bool,
    pinnedRequestId: RequestId,
    pinnedReceived: bool,
    born: nat)

  datatype Query = Query(key: Key, offset: Offset, limit: nat)

  datatype Event =
    | Created(born: nat, key: Key)
    | ListArrived(born: nat)
    | PinnedArrived(born: nat)
    | Notified(born: nat, key: Key)

  datatype State = State(
    main: Option<Load>,
    folders: map<nat, Load>,
    till: int,
    blocked: bool,
    next: RequestId,
    lists: map<RequestId, Query>,
    pins: map<RequestId, Key>,
    births: nat,
    log: seq<Event>,
    crashed: bool)

  function Fresh(born: nat): Load {
    Load(NO_OFFSET, 0, false, 0, false, born)
  }

  const INITIAL: State :=
    State(Some(Fresh(0)), map[], 0, false, 1, map[], map[], 1, [Created(0, Main)], false)

  function Get(s: State, k: Key): Option<Load> {
    match k
    case Main => s.main
    case Folder(id) => if id in s.folders then Some(s.folders[id]) else None
  }

  function Put(s: State, k: Key, load: Load): State {
    match k
    case Main => s.(main := Some(load))
    case Folder(id) => s.(folders := s.folders[id := load])
  }

  function Drop(s: State, k: Key): State {
    match k
    case Main => s.(main := None)
    case Folder(id) => s.(folders := s.folders - {id})
  }

  function Log(s: State, e: Event): State {
    s.(log := s.log + [e])
  }

  // ---- the methods ----

  function Refresh(s: State): State {
    s.(blocked := s.main.Some? && !s.main.value.listReceived && s.main.value.requestId == 0
      && s.till > 0 && s.main.value.offset.date > 0 && s.main.value.offset.date <= s.till)
  }

  function RequestPinned(s: State, k: Key): State {
    var load := Get(s, k);
    if load.None? || load.value.pinnedReceived || load.value.pinnedRequestId > 0 then s
    else
      Put(s, k, load.value.(pinnedRequestId := s.next)).(next := s.next + 1, pins := s.pins[s.next := k])
  }

  function QueryOf(k: Key, load: Load): Query {
    Query(k, load.offset, if load.offset.date == 0 then FIRST_LOAD else PER_PAGE)
  }

  function SendList(s: State, k: Key, load: Load): State {
    Put(s, k, load.(requestId := s.next)).(next := s.next + 1, lists := s.lists[s.next := QueryOf(k, load)])
  }

  function RequestMore(s: State, k: Key): State {
    var load := Get(s, k);
    if load.None? || load.value.requestId > 0 || s.blocked then s
    else
      var t := SendList(s, k, load.value);
      var u := if load.value.pinnedReceived then t else RequestPinned(t, k);
      if k.Main? then Refresh(u) else u
  }

  function Create(s: State, k: Key): State {
    Log(Put(s, k, Fresh(s.births)).(births := s.births + 1), Created(s.births, k))
  }

  function Request(s: State, k: Key): State {
    RequestMore(if k.Folder? && Get(s, k).None? then Create(s, k) else s, k)
  }

  // What the rest of the session answers: exceptions are being loaded; the archive is there and needed.
  datatype Outside = Outside(exceptions: bool, archive: Option<nat>)

  function RequestMoreIfNeeded(s: State, o: Outside): State {
    if o.exceptions then s
    else if s.main.Some? && !s.main.value.listReceived then
      if s.main.value.requestId > 0 then s else Request(s, Main)
    else if o.archive.Some? then RequestMore(s, Folder(o.archive.value))
    else s
  }

  function LoadFinish(s: State, k: Key): State {
    var load := Get(s, k);
    if load.None? || !load.value.listReceived || !load.value.pinnedReceived then s
    else Log(Drop(s, k), Notified(load.value.born, k))
  }

  function ListReceived(s: State, k: Key, load: Load): State {
    LoadFinish(Log(Put(s, k, load.(listReceived := true)), ListArrived(load.born)), k)
  }

  datatype Result =
    | NotModified
    | FullList
    | Slice(offset: Option<Offset>)

  function ApplyResult(s: State, k: Key, result: Result): State {
    var load := Get(s, k);
    if load.None? then s
    else match result
      case NotModified => s
      case FullList => ListReceived(s, k, load.value)
      case Slice(Some(offset)) => Put(s, k, load.value.(offset := offset, requestId := 0))
      case Slice(None) => ListReceived(s, k, load.value)
  }

  // What the handler of a page does first.
  function Answer(s: State, r: RequestId, result: Result): State
    requires r in s.lists
  {
    ApplyResult(s.(lists := s.lists - {r}), s.lists[r].key, result)
  }

  // Applying the dialogs of an answer requests each small folder among them.
  function RequestFolders(s: State, folders: seq<nat>): State
    decreases |folders|
  {
    if folders == [] then s else RequestFolders(Request(s, Folder(folders[0])), folders[1..])
  }

  // The whole handler of a page.
  function ListDone(s: State, r: RequestId, result: Result, folders: seq<nat>, o: Outside): State
    requires r in s.lists
  {
    var t := RequestFolders(Answer(s, r, result), if result.NotModified? then [] else folders);
    var u := if s.lists[r].key.Main? && (t.main.None? || !t.main.value.listReceived) then Refresh(t) else t;
    RequestMoreIfNeeded(u, o)
  }

  // The failure handler uses the load state without looking whether there is one.
  function ListFailed(s: State, r: RequestId): State
    requires r in s.lists
  {
    var k := s.lists[r].key;
    var t := s.(lists := s.lists - {r});
    var load := Get(t, k);
    if load.None? then t.(crashed := true) else Put(t, k, load.value.(requestId := 0))
  }

  function MarkPinned(s: State, r: RequestId): State
    requires r in s.pins && Get(s, s.pins[r]).Some?
  {
    var load := Get(s, s.pins[r]).value;
    Log(Put(s.(pins := s.pins - {r}), s.pins[r], load.(pinnedRequestId := 0, pinnedReceived := true)),
      PinnedArrived(load.born))
  }

  function PinnedDone(s: State, r: RequestId): State
    requires r in s.pins
  {
    if Get(s, s.pins[r]).None? then s.(pins := s.pins - {r})
    else LoadFinish(MarkPinned(s, r), s.pins[r])
  }

  // The whole handler of pinned dialogs; a failure applies none.
  function PinnedApplied(s: State, r: RequestId, folders: seq<nat>): State
    requires r in s.pins
  {
    RequestFolders(PinnedDone(s, r), folders)
  }

  // The steps that the handlers are made of; a handler can be called from inside another one.
  datatype Step =
    | RequestStep(key: Key)
    | RequestPinnedStep(key: Key)
    | IfNeededStep(outside: Outside)
    | TillStep(till: int)
    | ListDoneStep(r: RequestId, result: Result)
    | ListFailedStep(r: RequestId)
    | PinnedDoneStep(r: RequestId)

  predicate Allowed(s: State, step: Step) {
    match step
    case ListDoneStep(r, result) =>
      r in s.lists && (result.Slice? && result.offset.Some? ==> result.offset.value.date != 0)
    case ListFailedStep(r) => r in s.lists
    case PinnedDoneStep(r) => r in s.pins
    case _ => true
  }

  function Next(s: State, step: Step): State
    requires Allowed(s, step)
  {
    match step
    case RequestStep(k) => Request(s, k)
    case RequestPinnedStep(k) => RequestPinned(s, k)
    case IfNeededStep(o) => RequestMoreIfNeeded(s, o)
    case TillStep(till) => Refresh(s.(till := till))
    case ListDoneStep(r, result) => Answer(s, r, result)
    case ListFailedStep(r) => ListFailed(s, r)
    case PinnedDoneStep(r) => PinnedDone(s, r)
  }

  // ---- what every step keeps ----

  // Each event follows what it depends on, and comes once.
  ghost predicate Proper(log: seq<Event>) {
    log == [] ||
    var before, e := log[..|log| - 1], log[|log| - 1];
    && Proper(before) && e !in before
    && match e
       case Created(born, _) => forall f <- before :: f.born != born
       case ListArrived(born) => exists k :: Created(born, k) in before
       case PinnedArrived(born) => exists k :: Created(born, k) in before
       case Notified(born, k) =>
         Created(born, k) in before && ListArrived(born) in before && PinnedArrived(born) in before
  }

  ghost predicate LoadFits(s: State, k: Key, load: Load) {
    && Created(load.born, k) in s.log
    && (ListArrived(load.born) in s.log <==> load.listReceived)
    && (PinnedArrived(load.born) in s.log <==> load.pinnedReceived)
    && Notified(load.born, k) !in s.log
    && (load.listReceived ==> load.requestId > 0)
    && (load.pinnedReceived ==> load.pinnedRequestId == 0)
    && (load.pinnedRequestId > 0 ==> load.pinnedRequestId in s.pins && s.pins[load.pinnedRequestId] == k)
  }

  ghost predicate LoadsFit(s: State) {
    forall k: Key :: Get(s, k).Some? ==> LoadFits(s, k, Get(s, k).value)
  }

  // A list request on its way is the one its load waits for, at the load's offset.
  ghost predicate ListFits(s: State, r: RequestId, q: Query) {
    var load := Get(s, q.key);
    && 0 < r < s.next
    && load.Some? && load.value.requestId == r && !load.value.listReceived
    && q == QueryOf(q.key, load.value)
  }

  ghost predicate ListsFit(s: State) {
    forall r <- s.lists :: ListFits(s, r, s.lists[r])
  }

  ghost predicate PinFits(s: State, r: RequestId, k: Key) {
    var load := Get(s, k);
    0 < r < s.next && load.Some? && load.value.pinnedRequestId == r && !load.value.pinnedReceived
  }

  ghost predicate PinsFit(s: State) {
    forall r <- s.pins :: PinFits(s, r, s.pins[r])
  }

  ghost predicate LogFits(s: State) {
    && Proper(s.log)
    && (forall e <- s.log :: e.born < s.births)
    && (forall born: nat :: Created(born, Main) in s.log ==> born == 0)
    && (forall born: nat, k: Key :: Created(born, k) in s.log && Notified(born, k) !in s.log ==>
          Get(s, k).Some? && Get(s, k).value.born == born)
  }

  ghost predicate Fit(s: State) {
    s.next > 0 && !s.crashed && LoadsFit(s) && ListsFit(s) && PinsFit(s) && LogFits(s)
  }

  ghost predicate Unfinished(s: State, k: Key) {
    Get(s, k).Some? ==> !Get(s, k).value.listReceived || !Get(s, k).value.pinnedReceived
  }

  ghost predicate Inv(s: State) {
    Fit(s) && forall k: Key :: Unfinished(s, k)
  }

  // Two states that differ in one load at most.
  ghost predicate OthersSame(s: State, t: State, k: Key) {
    forall j: Key :: j != k ==> Get(t, j) == Get(s, j)
  }

  lemma GetPut(s: State, k: Key, load: Load)
    ensures forall j: Key :: Get(Put(s, k, load), j) == if j == k then Some(load) else Get(s, j)
    ensures forall j: Key :: Get(Drop(s, k), j) == if j == k then None else Get(s, j)
  {
  }

  lemma CreatedOnce(log: seq<Event>, born: nat, j: Key, k: Key)
    requires Proper(log) && Created(born, j) in log && Created(born, k) in log
    ensures j == k
  {
    var before, e := log[..|log| - 1], log[|log| - 1];
    assert log == before + [e];
    if Created(born, j) in before && Created(born, k) in before {
      CreatedOnce(before, born, j, k);
    }
  }

  lemma ProperNext(log: seq<Event>, e: Event)
    requires Proper(log) && e !in log
    requires e.Created? ==> forall f <- log :: f.born != e.born
    requires e.ListArrived? || e.PinnedArrived? ==> exists k :: Created(e.born, k) in log
    requires e.Notified? ==>
      Created(e.born, e.key) in log && ListArrived(e.born) in log && PinnedArrived(e.born) in log
    ensures Proper(log + [e])
  {
    assert (log + [e])[..|log|] == log;
  }

  // Different loads have different births, all in the past.
  lemma Births(s: State, k: Key)
    requires Fit(s)
    ensures forall j: Key :: Get(s, j).Some? ==> Get(s, j).value.born < s.births
    ensures Get(s, k).Some? ==>
      forall j: Key :: j != k && Get(s, j).Some? ==> Get(s, j).value.born != Get(s, k).value.born
  {
    forall j: Key | Get(s, j).Some?
      ensures Get(s, j).value.born < s.births
      ensures Get(s, k).Some? && j != k ==> Get(s, j).value.born != Get(s, k).value.born
    {
      assert LoadFits(s, j, Get(s, j).value);
      if Get(s, k).Some? && j != k && Get(s, j).value.born == Get(s, k).value.born {
        assert LoadFits(s, k, Get(s, k).value);
        CreatedOnce(s.log, Get(s, k).value.born, j, k);
      }
    }
  }

  // A change of one load keeps everything else in place.
  lemma Change(s: State, t: State, k: Key, born: nat)
    requires Fit(s) && OthersSame(s, t, k) && t.next >= s.next && !t.crashed
    requires forall r <- t.lists ::
      (r in s.lists && t.lists[r] == s.lists[r] && t.lists[r].key != k) || ListFits(t, r, t.lists[r])
    requires forall r <- t.pins :: (r in s.pins && t.pins[r] == s.pins[r] && t.pins[r] != k) || PinFits(t, r, t.pins[r])
    requires forall r <- s.pins :: s.pins[r] != k ==> r in t.pins && t.pins[r] == s.pins[r]
    requires forall j: Key :: j != k && Get(s, j).Some? ==> Get(s, j).value.born != born
    requires forall e <- t.log :: e in s.log || e.born == born
    requires forall e <- s.log :: e in t.log
    requires Get(t, k).Some? ==> LoadFits(t, k, Get(t, k).value)
    requires LogFits(t)
    ensures Fit(t)
  {
    forall j: Key | Get(t, j).Some?
      ensures LoadFits(t, j, Get(t, j).value)
    {
      assert j != k ==> LoadFits(s, j, Get(s, j).value);
    }
    forall r <- t.lists
      ensures ListFits(t, r, t.lists[r])
    {
      assert r in s.lists ==> ListFits(s, r, s.lists[r]);
    }
    forall r <- t.pins
      ensures PinFits(t, r, t.pins[r])
    {
      assert r in s.pins ==> PinFits(s, r, s.pins[r]);
    }
  }

  lemma StillUnfinished(s: State, t: State, k: Key)
    requires OthersSame(s, t, k) && Unfinished(t, k) && forall j: Key :: j != k ==> Unfinished(s, j)
    ensures forall j: Key :: Unfinished(t, j)
  {
    forall j: Key
      ensures Unfinished(t, j)
    {
      assert j != k ==> Unfinished(s, j);
    }
  }

  lemma LogUnchanged(s: State, t: State, k: Key)
    requires LogFits(s) && t.log == s.log && t.births == s.births && OthersSame(s, t, k)
    requires Get(s, k).Some? ==> Get(t, k).Some? && Get(t, k).value.born == Get(s, k).value.born
    ensures LogFits(t)
  {
  }

  // A list request depends on the list part of its load only, a pinned request on the other part.
  lemma SameListPart(s: State, t: State, k: Key)
    requires ListsFit(s) && t.lists == s.lists && t.next >= s.next && Get(s, k).Some? && Get(t, k).Some?
    requires var x, y := Get(s, k).value, Get(t, k).value;
      x.offset == y.offset && x.requestId == y.requestId && x.listReceived == y.listReceived
    ensures forall r <- t.lists :: t.lists[r].key == k ==> ListFits(t, r, t.lists[r])
  {
    forall r <- t.lists | t.lists[r].key == k
      ensures ListFits(t, r, t.lists[r])
    {
      assert ListFits(s, r, s.lists[r]);
    }
  }

  lemma SamePinnedPart(s: State, t: State, k: Key)
    requires PinsFit(s) && t.pins == s.pins && t.next >= s.next && Get(s, k).Some? && Get(t, k).Some?
    requires var x, y := Get(s, k).value, Get(t, k).value;
      x.pinnedRequestId == y.pinnedRequestId && x.pinnedReceived == y.pinnedReceived
    ensures forall r <- t.pins :: t.pins[r] == k ==> PinFits(t, r, t.pins[r])
  {
    forall r <- t.pins | t.pins[r] == k
      ensures PinFits(t, r, k)
    {
      assert PinFits(s, r, k);
    }
  }

  // The only pinned request of a load on its way is the one it waits for.
  lemma OnePinnedRequest(s: State, r: RequestId, k: Key)
    requires PinsFit(s) && Get(s, k).Some? && Get(s, k).value.pinnedRequestId == r
    ensures forall q <- s.pins :: s.pins[q] == k ==> q == r
    ensures Get(s, k).value.pinnedReceived ==> forall q <- s.pins :: s.pins[q] != k
  {
    forall q <- s.pins | s.pins[q] == k
      ensures q == r && !Get(s, k).value.pinnedReceived
    {
      assert PinFits(s, q, k);
    }
  }

  // The blocking by date plays no part in the invariant.
  lemma SameButFlags(s: State, t: State)
    requires Inv(s) && t == s.(till := t.till, blocked := t.blocked)
    ensures Inv(t)
  {
    assert forall k: Key :: Get(t, k) == Get(s, k);
    LogUnchanged(s, t, Main);
    forall k: Key | Get(t, k).Some?
      ensures LoadFits(t, k, Get(t, k).value)
    {
      assert LoadFits(s, k, Get(s, k).value);
    }
    forall r <- t.lists
      ensures ListFits(t, r, t.lists[r])
    {
      assert ListFits(s, r, s.lists[r]);
    }
    forall r <- t.pins
      ensures PinFits(t, r, t.pins[r])
    {
      assert PinFits(s, r, s.pins[r]);
    }
    assert Unfinished(s, Main);
    StillUnfinished(s, t, Main);
  }

  lemma RefreshKeeps(s: State)
    requires Inv(s)
    ensures Inv(Refresh(s))
  {
    SameButFlags(s, Refresh(s));
  }

  lemma PinnedKeeps(s: State, k: Key)
    requires Inv(s)
    ensures Inv(RequestPinned(s, k))
  {
    var t := RequestPinned(s, k);
    if t != s {
      var after := Get(s, k).value.(pinnedRequestId := s.next);
      GetPut(s, k, after);
      PinnedKept(s, t, k, after);
    }
  }

  lemma PinnedKept(s: State, t: State, k: Key, after: Load)
    requires Inv(s) && Get(s, k).Some? && Get(s, k).value.pinnedRequestId == 0 && !Get(s, k).value.pinnedReceived
    requires after == Get(s, k).value.(pinnedRequestId := s.next) && Get(t, k) == Some(after) && OthersSame(s, t, k)
    requires t.next == s.next + 1 && t.pins == s.pins[s.next := k] && t.lists == s.lists && t.log == s.log
    requires t.births == s.births && t.crashed == s.crashed
    ensures Inv(t)
  {
    assert LoadFits(s, k, Get(s, k).value) && Unfinished(s, k);
    Births(s, k);
    LogUnchanged(s, t, k);
    SameListPart(s, t, k);
    PinnedPins(s, t, k, after);
    Change(s, t, k, s.births);
    StillUnfinished(s, t, k);
  }

  // The new pinned request fits its load, and the others are those of other folders.
  lemma PinnedPins(s: State, t: State, k: Key, after: Load)
    requires PinsFit(s) && Get(t, k) == Some(after) && Get(s, k).Some? && Get(s, k).value.pinnedRequestId == 0
    requires s.next > 0 && t.next == s.next + 1 && t.pins == s.pins[s.next := k]
    requires after.pinnedRequestId == s.next && !after.pinnedReceived
    ensures forall r <- t.pins :: (r in s.pins && t.pins[r] == s.pins[r] && t.pins[r] != k) || PinFits(t, r, t.pins[r])
  {
    forall r <- t.pins
      ensures (r in s.pins && t.pins[r] == s.pins[r] && t.pins[r] != k) || PinFits(t, r, t.pins[r])
    {
      assert r in s.pins ==> PinFits(s, r, s.pins[r]);
    }
  }

  lemma SendListKeeps(s: State, k: Key)
    requires Inv(s) && Get(s, k).Some? && Get(s, k).value.requestId == 0
    ensures Inv(SendList(s, k, Get(s, k).value))
  {
    var load := Get(s, k).value;
    var after := load.(requestId := s.next);
    var t := SendList(s, k, load);
    GetPut(s, k, after);
    assert Get(t, k) == Some(after) && OthersSame(s, t, k);
    assert LoadFits(s, k, load) && Unfinished(s, k);
    Births(s, k);
    LogUnchanged(s, t, k);
    forall r <- t.lists
      ensures (r in s.lists && t.lists[r] == s.lists[r] && t.lists[r].key != k) || ListFits(t, r, t.lists[r])
    {
      assert r in s.lists ==> ListFits(s, r, s.lists[r]);
    }
    SamePinnedPart(s, t, k);
    Change(s, t, k, s.births);
    StillUnfinished(s, t, k);
  }

  lemma RequestMoreKeeps(s: State, k: Key)
    requires Inv(s)
    ensures Inv(RequestMore(s, k))
  {
    var load := Get(s, k);
    if load.Some? && load.value.requestId == 0 && !s.blocked {
      SendListKeeps(s, k);
      var t := SendList(s, k, load.value);
      PinnedKeeps(t, k);
      RefreshKeeps(RequestPinned(t, k));
      RefreshKeeps(t);
    }
  }

  lemma CreateLog(s: State, t: State, k: Key)
    requires LogFits(s) && OthersSame(s, t, k) && Get(s, k).None? && Get(t, k) == Some(Fresh(s.births))
    requires t.births == s.births + 1 && t.log == s.log + [Created(s.births, k)] && k.Folder?
    ensures LogFits(t)
  {
    assert forall f <- s.log :: f.born != s.births;
    ProperNext(s.log, Created(s.births, k));
    forall born: nat, j: Key | Created(born, j) in t.log && Notified(born, j) !in t.log
      ensures Get(t, j).Some? && Get(t, j).value.born == born
    {
      assert Created(born, j) in s.log ==> Notified(born, j) !in s.log;
    }
  }

  // Nothing is on its way for a key without a load.
  lemma NothingOf(s: State, k: Key)
    requires ListsFit(s) && PinsFit(s) && Get(s, k).None?
    ensures ListIdle(s, k) && forall r <- s.pins :: s.pins[r] != k
  {
    forall r <- s.lists
      ensures s.lists[r].key != k
    {
      assert ListFits(s, r, s.lists[r]);
    }
    forall r <- s.pins
      ensures s.pins[r] != k
    {
      assert PinFits(s, r, s.pins[r]);
    }
  }

  lemma CreateKeeps(s: State, k: Key)
    requires Inv(s) && Get(s, k).None? && k.Folder?
    ensures Inv(Create(s, k))
  {
    var t := Create(s, k);
    GetPut(s, k, Fresh(s.births));
    assert Get(t, k) == Some(Fresh(s.births)) && OthersSame(s, t, k);
    Births(s, k);
    CreateLog(s, t, k);
    NothingOf(s, k);
    Change(s, t, k, s.births);
    StillUnfinished(s, t, k);
  }

  lemma RequestKeeps(s: State, k: Key)
    requires Inv(s)
    ensures Inv(Request(s, k))
  {
    if k.Folder? && Get(s, k).None? {
      CreateKeeps(s, k);
      RequestMoreKeeps(Create(s, k), k);
    } else {
      RequestMoreKeeps(s, k);
    }
  }

  lemma IfNeededKeeps(s: State, o: Outside)
    requires Inv(s)
    ensures Inv(RequestMoreIfNeeded(s, o))
  {
    RequestKeeps(s, Main);
    if o.archive.Some? {
      RequestMoreKeeps(s, Folder(o.archive.value));
    }
  }

  // No list request of this key is on its way.
  ghost predicate ListIdle(s: State, k: Key) {
    forall r <- s.lists :: s.lists[r].key != k
  }

  // An answered list request leaves its load with nothing on its way and the list not yet received.
  lemma ListAnswered(s: State, r: RequestId)
    requires Inv(s) && r in s.lists
    ensures var t := s.(lists := s.lists - {r}); var k := s.lists[r].key;
      && Inv(t) && ListIdle(t, k)
      && Get(t, k).Some? && Get(t, k).value.requestId > 0 && !Get(t, k).value.listReceived
  {
    var t := s.(lists := s.lists - {r});
    var k := s.lists[r].key;
    assert ListFits(s, r, s.lists[r]);
    assert Get(t, k) == Get(s, k) && OthersSame(s, t, k);
    assert LoadFits(s, k, Get(s, k).value) && Unfinished(s, k);
    Births(s, k);
    LogUnchanged(s, t, k);
    forall q <- t.lists
      ensures t.lists[q].key != k
    {
      assert ListFits(s, q, s.lists[q]);
    }
    SamePinnedPart(s, t, k);
    Change(s, t, k, s.births);
    StillUnfinished(s, t, k);
  }

  lemma OffsetKeeps(s: State, k: Key, load: Load)
    requires Inv(s) && ListIdle(s, k) && Get(s, k).Some? && !Get(s, k).value.listReceived
    requires load == Get(s, k).value.(offset := load.offset, requestId := 0)
    ensures Inv(Put(s, k, load))
  {
    var t := Put(s, k, load);
    GetPut(s, k, load);
    assert Get(t, k) == Some(load) && OthersSame(s, t, k);
    assert LoadFits(s, k, Get(s, k).value);
    Births(s, k);
    LogUnchanged(s, t, k);
    SamePinnedPart(s, t, k);
    Change(s, t, k, s.births);
    StillUnfinished(s, t, k);
  }

  // The list of a load, or its pinned dialogs, have arrived.
  lemma LogGrows(s: State, t: State, k: Key, e: Event)
    requires Fit(s) && Get(s, k).Some? && Get(t, k).Some? && OthersSame(s, t, k)
    requires Get(t, k).value.born == Get(s, k).value.born == e.born
    requires t.log == s.log + [e] && t.births == s.births && e !in s.log && (e.ListArrived? || e.PinnedArrived?)
    ensures LogFits(t)
  {
    assert LoadFits(s, k, Get(s, k).value);
    ProperNext(s.log, e);
    forall born: nat, j: Key | Created(born, j) in t.log && Notified(born, j) !in t.log
      ensures Get(t, j).Some? && Get(t, j).value.born == born
    {
      assert Created(born, j) in s.log && Notified(born, j) !in s.log;
    }
  }

  lemma ListMarked(s: State, k: Key)
    requires Fit(s) && ListIdle(s, k)
    requires Get(s, k).Some? && !Get(s, k).value.listReceived && Get(s, k).value.requestId > 0
    ensures var load := Get(s, k).value;
      var t := Log(Put(s, k, load.(listReceived := true)), ListArrived(load.born));
      Fit(t) && OthersSame(s, t, k)
  {
    var load := Get(s, k).value;
    var after := load.(listReceived := true);
    var t := Log(Put(s, k, after), ListArrived(load.born));
    GetPut(s, k, after);
    assert Get(t, k) == Some(after) && OthersSame(s, t, k);
    assert LoadFits(s, k, load);
    Births(s, k);
    LogGrows(s, t, k, ListArrived(load.born));
    SamePinnedPart(s, t, k);
    Change(s, t, k, load.born);
  }

  lemma MarkPinnedChanges(s: State, r: RequestId)
    requires r in s.pins && Get(s, s.pins[r]).Some?
    ensures var k := s.pins[r]; var load := Get(s, k).value; var t := MarkPinned(s, r);
      && OthersSame(s, t, k)
      && Get(t, k) == Some(load.(pinnedRequestId := 0, pinnedReceived := true))
      && t.lists == s.lists && t.pins == s.pins - {r} && t.next == s.next && t.births == s.births
      && t.crashed == s.crashed && t.log == s.log + [PinnedArrived(load.born)]
  {
    var u := s.(pins := s.pins - {r});
    assert forall j: Key :: Get(u, j) == Get(s, j);
    GetPut(u, s.pins[r], Get(s, s.pins[r]).value.(pinnedRequestId := 0, pinnedReceived := true));
  }

  lemma PinnedMarked(s: State, r: RequestId)
    requires Fit(s) && r in s.pins && PinFits(s, r, s.pins[r])
    ensures Fit(MarkPinned(s, r)) && OthersSame(s, MarkPinned(s, r), s.pins[r])
  {
    var k := s.pins[r];
    var load := Get(s, k).value;
    var t := MarkPinned(s, r);
    MarkPinnedChanges(s, r);
    assert LoadFits(s, k, load);
    Births(s, k);
    LogGrows(s, t, k, PinnedArrived(load.born));
    SameListPart(s, t, k);
    OnePinnedRequest(s, r, k);
    Change(s, t, k, load.born);
  }

  lemma IdleWhenReceived(s: State, k: Key)
    requires ListsFit(s) && Get(s, k).Some? && Get(s, k).value.listReceived
    ensures ListIdle(s, k)
  {
    forall r <- s.lists
      ensures s.lists[r].key != k
    {
      assert ListFits(s, r, s.lists[r]);
    }
  }

  lemma FinishLog(s: State, t: State, k: Key)
    requires LogFits(s) && Get(s, k).Some? && LoadFits(s, k, Get(s, k).value) && OthersSame(s, t, k)
    requires Get(s, k).value.listReceived && Get(s, k).value.pinnedReceived
    requires t.births == s.births && t.log == s.log + [Notified(Get(s, k).value.born, k)]
    ensures LogFits(t)
  {
    ProperNext(s.log, Notified(Get(s, k).value.born, k));
    forall born: nat, j: Key | Created(born, j) in t.log && Notified(born, j) !in t.log
      ensures Get(t, j).Some? && Get(t, j).value.born == born
    {
      assert Created(born, j) in s.log && Notified(born, j) !in s.log;
    }
  }

  // A load with both parts is dropped and announced.
  lemma FinishKeeps(s: State, k: Key)
    requires Fit(s) && forall j: Key :: j != k ==> Unfinished(s, j)
    ensures Inv(LoadFinish(s, k))
  {
    var t := LoadFinish(s, k);
    if t == s {
      StillUnfinished(s, t, k);
    } else {
      var load := Get(s, k).value;
      var e := Notified(load.born, k);
      GetPut(s, k, load);
      assert Get(t, k) == None && OthersSame(s, t, k);
      assert LoadFits(s, k, load);
      Births(s, k);
      FinishLog(s, t, k);
      OnePinnedRequest(s, load.pinnedRequestId, k);
      IdleWhenReceived(s, k);
      Change(s, t, k, load.born);
      StillUnfinished(s, t, k);
    }
  }

  lemma ListReceivedKeeps(s: State, k: Key)
    requires Inv(s) && ListIdle(s, k)
    requires Get(s, k).Some? && !Get(s, k).value.listReceived && Get(s, k).value.requestId > 0
    ensures Inv(ListReceived(s, k, Get(s, k).value))
  {
    var load := Get(s, k).value;
    var t := Log(Put(s, k, load.(listReceived := true)), ListArrived(load.born));
    ListMarked(s, k);
    forall j: Key | j != k
      ensures Unfinished(t, j)
    {
      assert Unfinished(s, j);
    }
    FinishKeeps(t, k);
  }

  lemma AnswerKeeps(s: State, r: RequestId, result: Result)
    requires Inv(s) && Allowed(s, ListDoneStep(r, result))
    ensures Inv(Answer(s, r, result))
  {
    var k := s.lists[r].key;
    var t := s.(lists := s.lists - {r});
    ListAnswered(s, r);
    var load := Get(t, k).value;
    match result {
      case NotModified =>
      case FullList => ListReceivedKeeps(t, k);
      case Slice(offset) =>
        if offset.Some? {
          OffsetKeeps(t, k, load.(offset := offset.value, requestId := 0));
        } else {
          ListReceivedKeeps(t, k);
        }
    }
  }

  lemma ListFailedKeeps(s: State, r: RequestId)
    requires Inv(s) && r in s.lists
    ensures Inv(ListFailed(s, r))
  {
    var k := s.lists[r].key;
    var t := s.(lists := s.lists - {r});
    ListAnswered(s, r);
    OffsetKeeps(t, k, Get(t, k).value.(requestId := 0));
  }

  lemma PinnedDoneKeeps(s: State, r: RequestId)
    requires Inv(s) && r in s.pins
    ensures Inv(PinnedDone(s, r))
  {
    var k := s.pins[r];
    assert PinFits(s, r, k);
    var t := MarkPinned(s, r);
    PinnedMarked(s, r);
    forall j: Key | j != k
      ensures Unfinished(t, j)
    {
      assert Unfinished(s, j);
    }
    FinishKeeps(t, k);
  }

  lemma Keeps(s: State, step: Step)
    requires Inv(s) && Allowed(s, step)
    ensures Inv(Next(s, step))
  {
    match step
    case RequestStep(k) => RequestKeeps(s, k);
    case RequestPinnedStep(k) => PinnedKeeps(s, k);
    case IfNeededStep(o) => IfNeededKeeps(s, o);
    case TillStep(till) => TillKeeps(s, till);
    case ListDoneStep(r, result) => AnswerKeeps(s, r, result);
    case ListFailedStep(r) => ListFailedKeeps(s, r);
    case PinnedDoneStep(r) => PinnedDoneKeeps(s, r);
  }

  lemma TillKeeps(s: State, till: int)
    requires Inv(s)
    ensures Inv(Refresh(s.(till := till)))
  {
    SameButFlags(s, Refresh(s.(till := till)));
  }
}
