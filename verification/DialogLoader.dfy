/** The dialog loading state of the API wrapper, and the methods that update it. */
module DialogLoader {
  import opened Basics
  import opened Dialogs

  class Loader {
    var main: Option<Load>
    var folders: map<nat, Load>
    var till: int
    var blocked: bool
    var next: RequestId
    var lists: map<RequestId, Query>
    var pins: map<RequestId, Key>
    var births: nat
    var log: seq<Event>

    constructor ()
      ensures View() == INITIAL
    {
      main, folders, till, blocked := Some(Fresh(0)), map[], 0, false;
      next, lists, pins := 1, map[], map[];
      births, log := 1, [Created(0, Main)];
    }

    function View(): State
      reads this
    {
      State(main, folders, till, blocked, next, lists, pins, births, log, false)
    }

    method DialogsLoadState(k: Key) returns (load: Option<Load>)
      ensures load == Get(View(), k)
    {
      match k
      case Main => load := main;
      case Folder(id) => load := if id in folders then Some(folders[id]) else None;
    }

    method Store(k: Key, load: Load)
      modifies this`main, this`folders
      ensures View() == Put(old(View()), k, load)
    {
      match k
      case Main => main := Some(load);
      case Folder(id) => folders := folders[id := load];
    }

    method RefreshDialogsLoadBlocked()
      modifies this`blocked
      ensures View() == Refresh(old(View()))
    {
      blocked := main.Some? && !main.value.listReceived && main.value.requestId == 0
        && till > 0 && main.value.offset.date > 0 && main.value.offset.date <= till;
    }

    method RequestDialogs(k: Key)
      modifies this
      ensures View() == Request(old(View()), k)
    {
      if k.Folder? && k.id !in folders {
        folders := folders[k.id := Fresh(births)];
        log := log + [Created(births, k)];
        births := births + 1;
      }
      RequestMoreDialogs(k);
    }

    method RequestMoreDialogs(k: Key)
      modifies this
      ensures View() == RequestMore(old(View()), k)
    {
      var state := DialogsLoadState(k);
      if state.None? || state.value.requestId > 0 || blocked {
        return;
      }
      var firstLoad := state.value.offset.date == 0;
      var loadCount := if firstLoad then FIRST_LOAD else PER_PAGE;
      var requestId := next;
      next := next + 1;
      lists := lists[requestId := Query(k, state.value.offset, loadCount)];
      Store(k, state.value.(requestId := requestId));
      if !state.value.pinnedReceived {
        RequestPinnedDialogs(k);
      }
      if k.Main? {
        RefreshDialogsLoadBlocked();
      }
    }

    method RequestPinnedDialogs(k: Key)
      modifies this
      ensures View() == RequestPinned(old(View()), k)
    {
      var state := DialogsLoadState(k);
      if state.None? || state.value.pinnedReceived || state.value.pinnedRequestId > 0 {
        return;
      }
      var requestId := next;
      next := next + 1;
      pins := pins[requestId := k];
      Store(k, state.value.(pinnedRequestId := requestId));
    }

    method RequestMoreDialogsIfNeeded(o: Outside)
      modifies this
      ensures View() == RequestMoreIfNeeded(old(View()), o)
    {
      if o.exceptions {
        return;
      } else if main.Some? && !main.value.listReceived {
        if main.value.requestId > 0 {
          return;
        }
        RequestDialogs(Main);
      } else if o.archive.Some? {
        RequestMoreDialogs(Folder(o.archive.value));
      }
    }

    // Drops a load that has both parts and posts the done notification.
    method DialogsLoadFinish(k: Key)
      modifies this
      ensures View() == LoadFinish(old(View()), k)
    {
      var state := DialogsLoadState(k);
      if state.None? || !state.value.listReceived || !state.value.pinnedReceived {
        return;
      }
      match k {
        case Main => main := None;
        case Folder(id) => folders := folders - {id};
      }
      log := log + [Notified(state.value.born, k)];
    }

    method MarkListReceived(k: Key, load: Load)
      modifies this
      ensures View() == ListReceived(old(View()), k, load)
    {
      Store(k, load.(listReceived := true));
      log := log + [ListArrived(load.born)];
      DialogsLoadFinish(k);
    }

    // The offset of the next page, or the end of the list when there is none.
    method UpdateDialogsOffset(k: Key, dialogs: seq<Dialog>, messages: seq<Message>)
      modifies this
      ensures View() == ApplyResult(old(View()), k, Slice(NextOffset(dialogs, messages)))
    {
      var offset := FindOffset(dialogs, messages);
      var state := DialogsLoadState(k);
      if state.Some? {
        if offset.Some? {
          Store(k, state.value.(offset := offset.value, requestId := 0));
        } else {
          MarkListReceived(k, state.value);
        }
      }
    }

    // Applying dialogs requests each small folder among them, from inside the handler.
    method ApplyDialogs(applied: seq<nat>)
      modifies this
      ensures View() == RequestFolders(old(View()), applied)
    {
      var i := 0;
      assert applied[0..] == applied;
      while i < |applied|
        invariant 0 <= i <= |applied|
        invariant RequestFolders(View(), applied[i..]) == RequestFolders(old(View()), applied)
      {
        ghost var rest := applied[i..];
        assert rest[0] == applied[i] && rest[1..] == applied[i + 1..];
        RequestDialogs(Folder(applied[i]));
        i := i + 1;
      }
    }

    method ApplyPage(r: RequestId, page: Page)
      requires r in lists
      modifies this
      ensures View() == Answer(old(View()), r, ResultOf(page))
    {
      var k := lists[r].key;
      lists := lists - {r};
      var state := DialogsLoadState(k);
      match page {
        case NothingNew =>
        case Everything =>
          if state.Some? {
            MarkListReceived(k, state.value);
          }
        case Part(dialogs, messages) =>
          UpdateDialogsOffset(k, dialogs, messages);
      }
    }

    // The handler of a page; `applied` are the small folders among its dialogs.
    method DialogsDone(r: RequestId, page: Page, applied: seq<nat>, o: Outside)
      requires r in lists
      modifies this
      ensures View() == ListDone(old(View()), r, ResultOf(page), applied, o)
    {
      var k := lists[r].key;
      ApplyPage(r, page);
      if !page.NothingNew? {
        ApplyDialogs(applied);
      }
      if k.Main? && (main.None? || !main.value.listReceived) {
        RefreshDialogsLoadBlocked();
      }
      RequestMoreDialogsIfNeeded(o);
    }

    // The load state is there, so it is used without a check.
    method DialogsFailed(r: RequestId)
      requires r in lists && Inv(View())
      modifies this
      ensures View() == ListFailed(old(View()), r)
    {
      var k := lists[r].key;
      assert ListFits(View(), r, lists[r]);
      lists := lists - {r};
      var state := DialogsLoadState(k);
      Store(k, state.value.(requestId := 0));
    }

    // The handler of pinned dialogs, and of their failure.
    method PinnedDialogsDone(r: RequestId, applied: seq<nat>)
      requires r in pins
      modifies this
      ensures View() == PinnedApplied(old(View()), r, applied)
    {
      FinishPinned(r);
      ApplyDialogs(applied);
    }

    method FinishPinned(r: RequestId)
      requires r in pins
      modifies this
      ensures View() == PinnedDone(old(View()), r)
    {
      var k := pins[r];
      pins := pins - {r};
      var state := DialogsLoadState(k);
      if state.Some? {
        Store(k, state.value.(pinnedRequestId := 0, pinnedReceived := true));
        log := log + [PinnedArrived(state.value.born)];
        DialogsLoadFinish(k);
      }
    }
  }

  // ---- the offset for the next page ----

  datatype Dialog = Dialog(peer: nat, topMessage: int)

  datatype Message = Message(id: int, peer: nat, date: int)

  datatype Page =
    | NothingNew
    | Everything
    | Part(dialogs: seq<Dialog>, messages: seq<Message>)

  // What a page brings to the load state.
  function ResultOf(page: Page): Result {
    match page
    case NothingNew => NotModified
    case Everything => FullList
    case Part(dialogs, messages) => Slice(NextOffset(dialogs, messages))
  }

  predicate Known(dialog: Dialog) {
    dialog.peer != 0 && dialog.topMessage != 0
  }

  // The date of the last message listed for a dialog, zero without one.
  function TopDate(dialog: Dialog, messages: seq<Message>): int {
    if messages == [] then 0
    else
      var message := messages[|messages| - 1];
      if message.id == dialog.topMessage && message.peer == dialog.peer then message.date
      else TopDate(dialog, messages[..|messages| - 1])
  }

  function LastKnown(dialogs: seq<Dialog>): Dialog {
    if dialogs == [] then Dialog(0, 0)
    else if Known(dialogs[|dialogs| - 1]) then dialogs[|dialogs| - 1]
    else LastKnown(dialogs[..|dialogs| - 1])
  }

  function LastDate(dialogs: seq<Dialog>, messages: seq<Message>): int {
    if dialogs == [] then 0
    else
      var dialog := dialogs[|dialogs| - 1];
      if Known(dialog) && TopDate(dialog, messages) != 0 then TopDate(dialog, messages)
      else LastDate(dialogs[..|dialogs| - 1], messages)
  }

  function NextOffset(dialogs: seq<Dialog>, messages: seq<Message>): (r: Option<Offset>)
    ensures r.Some? ==> r.value.date != 0
  {
    var date := LastDate(dialogs, messages);
    if date == 0 then None else Some(Offset(date, LastKnown(dialogs).topMessage, LastKnown(dialogs).peer))
  }

  method FindTopDate(dialog: Dialog, messages: seq<Message>) returns (date: int)
    ensures date == TopDate(dialog, messages)
  {
    date := 0;
    var i := |messages|;
    assert messages[..i] == messages;
    while i > 0
      invariant 0 <= i <= |messages|
      invariant TopDate(dialog, messages) == TopDate(dialog, messages[..i])
    {
      i := i - 1;
      var message := messages[i];
      assert messages[..i + 1][..i] == messages[..i];
      if message.id == dialog.topMessage && message.peer == dialog.peer {
        return message.date;
      }
    }
  }

  // The scan from the last dialog back, which stops at the first date.
  method FindOffset(dialogs: seq<Dialog>, messages: seq<Message>) returns (offset: Option<Offset>)
    ensures offset == NextOffset(dialogs, messages)
  {
    var lastDate, lastPeer, lastMsgId := 0, 0, 0;
    var i := |dialogs|;
    assert dialogs[..i] == dialogs;
    while i > 0 && lastDate == 0
      invariant 0 <= i <= |dialogs|
      invariant LastDate(dialogs, messages) == if lastDate != 0 then lastDate else LastDate(dialogs[..i], messages)
      invariant lastDate != 0 ==> lastPeer != 0
      invariant lastPeer != 0 <==> lastMsgId != 0
      invariant LastKnown(dialogs) == if lastPeer != 0 then Dialog(lastPeer, lastMsgId) else LastKnown(dialogs[..i])
    {
      i := i - 1;
      var dialog := dialogs[i];
      assert dialogs[..i + 1][..i] == dialogs[..i];
      if Known(dialog) {
        if lastPeer == 0 {
          lastPeer := dialog.peer;
        }
        if lastMsgId == 0 {
          lastMsgId := dialog.topMessage;
        }
        var date := FindTopDate(dialog, messages);
        if date != 0 {
          lastDate := date;
        }
      }
    }
    if lastDate != 0 {
      offset := Some(Offset(lastDate, lastMsgId, lastPeer));
    } else {
      assert dialogs[..0] == [];
      offset := None;
    }
  }

  // The last message listed for a dialog.
  predicate IsLastOf(dialog: Dialog, messages: seq<Message>, k: int) {
    && 0 <= k < |messages| && messages[k].id == dialog.topMessage && messages[k].peer == dialog.peer
    && forall j :: k < j < |messages| ==> messages[j].id != dialog.topMessage || messages[j].peer != dialog.peer
  }

  lemma {:induction false} TopDateIs(dialog: Dialog, messages: seq<Message>)
    ensures forall k :: IsLastOf(dialog, messages, k) ==> TopDate(dialog, messages) == messages[k].date
    ensures (forall k :: !IsLastOf(dialog, messages, k)) ==> TopDate(dialog, messages) == 0
    decreases |messages|
  {
    if messages != [] {
      var last := |messages| - 1;
      var init := messages[..last];
      if messages[last].id == dialog.topMessage && messages[last].peer == dialog.peer {
        assert IsLastOf(dialog, messages, last);
      } else {
        TopDateIs(dialog, init);
        forall k
          ensures IsLastOf(dialog, messages, k) <==> IsLastOf(dialog, init, k)
        {
          assert forall j :: 0 <= j < last ==> init[j] == messages[j];
        }
      }
    }
  }

  // The last dialog with a peer and a message.
  predicate IsLastKnown(dialogs: seq<Dialog>, i: int) {
    && 0 <= i < |dialogs| && dialogs[i].peer != 0 && dialogs[i].topMessage != 0
    && forall j :: i < j < |dialogs| ==> dialogs[j].peer == 0 || dialogs[j].topMessage == 0
  }

  lemma {:induction false} LastKnownIs(dialogs: seq<Dialog>)
    ensures if exists dialog <- dialogs :: Known(dialog) then
        exists i :: IsLastKnown(dialogs, i) && LastKnown(dialogs) == dialogs[i]
      else LastKnown(dialogs) == Dialog(0, 0)
    decreases |dialogs|
  {
    if dialogs != [] {
      var last := |dialogs| - 1;
      if Known(dialogs[last]) {
        assert IsLastKnown(dialogs, last);
      } else {
        LastKnownIs(dialogs[..last]);
        assert forall dialog <- dialogs :: dialog in dialogs[..last] || dialog == dialogs[last];
        if i :| IsLastKnown(dialogs[..last], i) && LastKnown(dialogs[..last]) == dialogs[..last][i] {
          assert IsLastKnown(dialogs, i);
        }
      }
    }
  }

  function TopDateAt(dialogs: seq<Dialog>, messages: seq<Message>, i: int): int {
    if 0 <= i < |dialogs| then TopDate(dialogs[i], messages) else 0
  }

  // There is an offset exactly when some dialog with a peer and a message has a date; it names the last dialog with a
  // peer and a message, whether that has a date or not.
  lemma OffsetNames(dialogs: seq<Dialog>, messages: seq<Message>)
    ensures NextOffset(dialogs, messages).Some? <==>
      exists i :: 0 <= i < |dialogs| && Known(dialogs[i]) && TopDateAt(dialogs, messages, i) != 0
    ensures var offset := NextOffset(dialogs, messages); offset.Some? ==>
      exists i :: (IsLastKnown(dialogs, i)
        && offset.value.id == dialogs[i].topMessage && offset.value.peer == dialogs[i].peer)
  {
    LastKnownIs(dialogs);
    if LastDate(dialogs, messages) != 0 {
      OffsetDate(dialogs, messages);
      var i :| DatedAt(dialogs, messages, i, LastDate(dialogs, messages));
      assert Known(dialogs[i]) && TopDateAt(dialogs, messages, i) != 0;
    } else {
      NoneDated(dialogs, messages);
    }
  }

  lemma {:induction false} NoneDated(dialogs: seq<Dialog>, messages: seq<Message>)
    requires LastDate(dialogs, messages) == 0
    ensures forall i :: 0 <= i < |dialogs| && Known(dialogs[i]) ==> TopDateAt(dialogs, messages, i) == 0
    decreases |dialogs|
  {
    if dialogs != [] {
      var last := |dialogs| - 1;
      NoneDated(dialogs[..last], messages);
      forall i | 0 <= i < last && Known(dialogs[i])
        ensures TopDateAt(dialogs, messages, i) == 0
      {
        assert dialogs[..last][i] == dialogs[i];
        assert TopDateAt(dialogs[..last], messages, i) == 0;
      }
    }
  }

  // The offset's date is that of its own message exactly when that message is listed with a date.
  // The date is always that of a known dialog, no later one of which has a date; it can be before the offset's own.
  lemma {:induction false} OffsetOfOneDialog(dialogs: seq<Dialog>, messages: seq<Message>)
    requires NextOffset(dialogs, messages).Some?
    ensures var date, own := NextOffset(dialogs, messages).value.date, TopDate(LastKnown(dialogs), messages);
      && (date == own <==> own != 0)
      && exists i :: DatedAt(dialogs, messages, i, date)
  {
    var last := |dialogs| - 1;
    if Known(dialogs[last]) && TopDate(dialogs[last], messages) != 0 {
      assert DatedAt(dialogs, messages, last, TopDate(dialogs[last], messages));
    } else {
      OffsetDate(dialogs, messages);
      if !Known(dialogs[last]) {
        OffsetOfOneDialog(dialogs[..last], messages);
      }
    }
  }

  // The last dialog with a date is this one.
  predicate DatedAt(dialogs: seq<Dialog>, messages: seq<Message>, i: int, date: int) {
    && 0 <= i < |dialogs| && Known(dialogs[i]) && TopDate(dialogs[i], messages) == date != 0
    && forall j :: i < j < |dialogs| ==> !Known(dialogs[j]) || TopDate(dialogs[j], messages) == 0
  }

  lemma {:induction false} OffsetDate(dialogs: seq<Dialog>, messages: seq<Message>)
    requires LastDate(dialogs, messages) != 0
    ensures exists i :: DatedAt(dialogs, messages, i, LastDate(dialogs, messages))
  {
    var last := |dialogs| - 1;
    var date := LastDate(dialogs, messages);
    if Known(dialogs[last]) && TopDate(dialogs[last], messages) != 0 {
      assert DatedAt(dialogs, messages, last, date);
    } else {
      OffsetDate(dialogs[..last], messages);
      var i :| DatedAt(dialogs[..last], messages, i, date);
      assert DatedAt(dialogs, messages, i, date) by {
        assert forall j :: 0 <= j < last ==> dialogs[..last][j] == dialogs[j];
      }
    }
  }

  // Two dialogs of which the first only has its message listed: the offset names the second, with the date of the
  // first.
  lemma OffsetOfTwoDialogs()
    ensures var dialogs, messages := [Dialog(1, 10), Dialog(2, 20)], [Message(10, 1, 100)];
      && NextOffset(dialogs, messages) == Some(Offset(100, 20, 2))
      && TopDate(dialogs[1], messages) == 0 && TopDate(dialogs[0], messages) == 100
  {
    var dialogs, messages := [Dialog(1, 10), Dialog(2, 20)], [Message(10, 1, 100)];
    assert messages[..0] == [];
    assert TopDate(dialogs[1], messages) == TopDate(dialogs[1], []);
    assert dialogs[..1] == [Dialog(1, 10)];
    assert LastDate(dialogs[..1], messages) == 100;
  }
}
