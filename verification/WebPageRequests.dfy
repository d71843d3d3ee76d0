/** The pending web pages of the API wrapper, and the methods that update them. */
module WebPageRequests {
  import opened Basics
  import opened WebPages

  // The ids to ask for in one channel; the index makes the placeholder -index - 2.
  datatype Group = Group(index: nat, ids: seq<nat>)

  // The requests put together so far.
  datatype Draft = Draft(common: seq<nat>, channels: map<nat, Group>)

  // The placeholder of a page that is asked for.
  function Placeholder(d: Draft, item: Item): int
    requires item.channel.Some? ==> item.channel.value in d.channels
  {
    if item.channel.None? then -1 else 0 - d.channels[item.channel.value].index - 2
  }

  // The ids that go where an item's id goes.
  function IdsFor(d: Draft, channel: Option<nat>): seq<nat> {
    if channel.None? then d.common
    else if channel.value in d.channels then d.channels[channel.value].ids
    else []
  }

  // Every channel has an index of its own, below the number of channels.
  ghost predicate Numbered(d: Draft) {
    && (forall c <- d.channels :: d.channels[c].index < |d.channels| && d.channels[c].ids != [])
    && (forall b <- d.channels, c <- d.channels :: d.channels[b].index == d.channels[c].index ==> b == c)
  }

  function AddTo(d: Draft, item: Item): Draft {
    match item.channel
    case None => d.(common := d.common + [item.msgId])
    case Some(c) =>
      if c in d.channels then
        d.(channels := d.channels[c := d.channels[c].(ids := d.channels[c].ids + [item.msgId])])
      else
        d.(channels := d.channels[c := Group(|d.channels|, [item.msgId])])
  }

  lemma AddNumbered(d: Draft, item: Item)
    requires Numbered(d)
    ensures Numbered(AddTo(d, item))
  {
    if item.channel.Some? && item.channel.value in d.channels {
      assert AddTo(d, item).channels.Keys == d.channels.Keys;
      assert |AddTo(d, item).channels.Keys| == |d.channels.Keys|;
    }
  }

  // A page on its way into the draft.
  ghost predicate Drafted(s: State, pending: map<Page, int>, items: map<Page, Item>, now: int, d: Draft, p: Page)
    requires p in s.pending && p in pending
  {
    if Due(s, items, now, p) then
      && items[p].msgId in IdsFor(d, items[p].channel)
      && (items[p].channel.Some? ==> items[p].channel.value in d.channels)
      && pending[p] == Placeholder(d, items[p])
    else pending[p] == s.pending[p]
  }

  // Every drafted id comes from a due page.
  ghost predicate Justified(s: State, items: map<Page, Item>, now: int, done: set<Page>,
      channel: Option<nat>, id: nat)
  {
    exists p :: p in done && Due(s, items, now, p) && items[p] == Item(channel, id)
  }

  ghost predicate DraftFits(s: State, pending: map<Page, int>, items: map<Page, Item>, now: int,
      d: Draft, done: set<Page>)
  {
    && pending.Keys == s.pending.Keys && done <= s.pending.Keys
    && (forall p <- done :: Drafted(s, pending, items, now, d, p))
    && (forall p <- s.pending :: p !in done ==> pending[p] == s.pending[p])
    && (forall c: Option<nat>, id :: id in IdsFor(d, c) ==> Justified(s, items, now, done, c, id))
    && Counted(s, items, now, d, done)
  }

  // The due pages of a channel.
  function DueFor(s: State, items: map<Page, Item>, now: int, done: set<Page>, channel: Option<nat>): set<Page> {
    set p | p in done && Due(s, items, now, p) && items[p].channel == channel
  }

  // There is an id for each due page.
  ghost predicate Counted(s: State, items: map<Page, Item>, now: int, d: Draft, done: set<Page>) {
    forall c: Option<nat> :: |IdsFor(d, c)| == |DueFor(s, items, now, done, c)|
  }

  lemma CountedNext(s: State, items: map<Page, Item>, now: int, d: Draft, done: set<Page>, p: Page)
    requires Counted(s, items, now, d, done) && p !in done
    ensures Counted(s, items, now, if Due(s, items, now, p) then AddTo(d, items[p]) else d, done + {p})
  {
    forall c: Option<nat>
      ensures |IdsFor(if Due(s, items, now, p) then AddTo(d, items[p]) else d, c)|
        == |DueFor(s, items, now, done + {p}, c)|
    {
      var before, after := DueFor(s, items, now, done, c), DueFor(s, items, now, done + {p}, c);
      if Due(s, items, now, p) {
        AddIds(d, items[p], c);
        if items[p].channel == c {
          assert after == before + {p};
        } else {
          assert after == before;
        }
      } else {
        assert after == before;
      }
    }
  }

  lemma AddIds(d: Draft, item: Item, c: Option<nat>)
    ensures IdsFor(AddTo(d, item), c) == IdsFor(d, c) + if c == item.channel then [item.msgId] else []
  {
  }

  lemma AddKeepsDrafted(s: State, pending: map<Page, int>, items: map<Page, Item>, now: int,
      d: Draft, item: Item, p: Page)
    requires p in s.pending && p in pending && Drafted(s, pending, items, now, d, p)
    ensures Drafted(s, pending, items, now, AddTo(d, item), p)
  {
    if p in items {
      AddIds(d, item, items[p].channel);
    }
  }

  lemma DraftPage(s: State, pending: map<Page, int>, items: map<Page, Item>, now: int,
      d: Draft, done: set<Page>, p: Page)
    requires DraftFits(s, pending, items, now, d, done) && p !in done && Due(s, items, now, p)
    ensures var e := AddTo(d, items[p]);
      DraftFits(s, pending[p := Placeholder(e, items[p])], items, now, e, done + {p})
  {
    var e := AddTo(d, items[p]);
    var after := pending[p := Placeholder(e, items[p])];
    CountedNext(s, items, now, d, done, p);
    forall q <- done + {p}
      ensures Drafted(s, after, items, now, e, q)
    {
      if q == p {
        AddIds(d, items[p], items[p].channel);
      } else {
        AddKeepsDrafted(s, pending, items, now, d, items[p], q);
      }
    }
    forall c: Option<nat>, id | id in IdsFor(e, c)
      ensures Justified(s, items, now, done + {p}, c, id)
    {
      AddIds(d, items[p], c);
      if id in IdsFor(d, c) {
        assert Justified(s, items, now, done, c, id);
      } else {
        assert items[p] == Item(c, id);
      }
    }
  }

  lemma SkipPage(s: State, pending: map<Page, int>, items: map<Page, Item>, now: int,
      d: Draft, done: set<Page>, p: Page)
    requires DraftFits(s, pending, items, now, d, done) && p in s.pending && p !in done && !Due(s, items, now, p)
    ensures DraftFits(s, pending, items, now, d, done + {p})
  {
    CountedNext(s, items, now, d, done, p);
    forall c: Option<nat>, id | id in IdsFor(d, c)
      ensures Justified(s, items, now, done + {p}, c, id)
    {
      assert Justified(s, items, now, done, c, id);
    }
  }

  class PageRequests {
    var pending: map<Page, int>
    var till: map<Page, int>
    var failed: set<Page>
    var next: RequestId
    var asked: map<RequestId, Sent>
    var open: set<RequestId>

    constructor ()
      ensures View() == INITIAL
    {
      pending, till, failed, next, asked, open := map[], map[], {}, 1, map[], {};
    }

    function View(): State
      reads this
    {
      State(pending, till, failed, next, asked, open)
    }

    method Send(sent: Sent) returns (requestId: RequestId)
      modifies this`next, this`asked, this`open
      ensures requestId == old(next)
      ensures View() == old(View()).(
        next := old(next) + 1, asked := old(asked)[requestId := sent], open := old(open) + {requestId})
    {
      requestId := next;
      next := next + 1;
      asked := asked[requestId := sent];
      open := open + {requestId};
    }

    method RequestWebPageDelayed(p: Page)
      modifies this`pending
      ensures View() == Request(old(View()), p)
      ensures pending == if p !in failed && p in till && till[p] != 0 && p !in old(pending) then old(pending)[p := 0]
        else old(pending)
    {
      if p in failed || (if p in till then till[p] else 0) == 0 {
        return;
      }
      if p !in pending {
        pending := pending[p := 0];
      }
    }

    method ClearWebPageRequest(p: Page)
      modifies this`pending
      ensures View() == Clear(old(View()), p)
    {
      pending := pending - {p};
    }

    // The answer to request r takes out exactly its pages, and fails those that it did not resolve.
    method GotWebPages(r: RequestId, applied: set<Page>)
      modifies this
      ensures View() == Got(old(View()), r, applied)
      ensures forall p <- old(pending) ::
        && (p in pending <==> old(pending)[p] != r)
        && (p in pending ==> pending[p] == old(pending)[p])
        && (p in failed <==> p in old(failed) || (old(pending)[p] == r && p !in applied && Till(old(View()), p) > 0))
        && (old(pending)[p] == r ==> Till(View(), p) <= 0)
    {
      ghost var s := View();
      DropPages(r, applied);
      forall p <- s.pending {
        GotRemovesItsPages(s, r, applied, p);
      }
    }

    // The pages that the answer resolved are no longer due.
    method DropPages(r: RequestId, applied: set<Page>)
      modifies this
      ensures View() == Got(old(View()), r, applied)
    {
      ghost var s := View();
      till := map p | p in till :: if p in applied then 0 else till[p];
      open := open - {r};
      ghost var t := View();
      var left := pending.Keys;
      ghost var done: set<Page> := {};
      GotNone(t, r);
      while left != {}
        invariant Divided(t.pending.Keys, done, left)
        invariant View() == GotAmong(t, r, done)
        decreases |left|
      {
        var p :| p in left;
        Divide(t.pending.Keys, done, left, p);
        GotPage(p, r, t, done);
        left := left - {p};
        done := done + {p};
      }
      GotAll(s, t, r, applied, done);
    }

    method GotPage(p: Page, r: RequestId, ghost t: State, ghost done: set<Page>)
      requires p in t.pending && p !in done && View() == GotAmong(t, r, done)
      modifies this`pending, this`till, this`failed
      ensures View() == GotAmong(t, r, done + {p})
    {
      GotOneMore(t, r, done, p);
      if pending[p] == r {
        if p in till && till[p] > 0 {
          till := till[p := 0];
          failed := failed + {p};
        }
        pending := pending - {p};
      }
    }

    // One request for each channel of the draft, and its id in the slot of the channel's index.
    method SendChannels(d: Draft) returns (byIndex: seq<RequestId>)
      requires Numbered(d) && Ids(View())
      modifies this`next, this`asked, this`open
      ensures |byIndex| == |d.channels|
      ensures Sends(old(View()), View(), d.channels.Keys, d, byIndex)
    {
      ghost var s := View();
      byIndex := seq(|d.channels|, i => 0);
      var left := d.channels.Keys;
      ghost var done: set<nat> := {};
      SendsNone(s, d, byIndex);
      while left != {}
        invariant Divided(d.channels.Keys, done, left)
        invariant |byIndex| == |d.channels| && Sends(s, View(), done, d, byIndex)
        decreases |left|
      {
        var c :| c in left;
        Divide(d.channels.Keys, done, left, c);
        byIndex := SendChannel(d, byIndex, c, s, done);
        left := left - {c};
        done := done + {c};
      }
    }

    method SendChannel(d: Draft, byIndex: seq<RequestId>, c: nat, ghost s: State, ghost done: set<nat>)
      returns (slots: seq<RequestId>)
      requires Numbered(d) && |byIndex| == |d.channels| && c in d.channels && c !in done
      requires Sends(s, View(), done, d, byIndex)
      modifies this`next, this`asked, this`open
      ensures |slots| == |d.channels| && Sends(s, View(), done + {c}, d, slots)
    {
      SendsNext(s, View(), done, d, byIndex, c);
      var requestId := Send(Sent(Some(c), d.channels[c].ids));
      slots := byIndex[d.channels[c].index := requestId];
    }

    // Replaces the placeholders by the ids of the requests.
    method Replace(d: Draft, requestId: RequestId, byIndex: seq<RequestId>)
      requires |byIndex| == |d.channels| && Numbered(d)
      requires forall p <- pending :: FitsSlots(pending[p], requestId, |byIndex|)
      modifies this`pending
      ensures pending.Keys == old(pending).Keys
      ensures forall p <- pending :: pending[p] == Replaced(old(pending[p]), requestId, byIndex)
    {
      ghost var before := pending;
      var left := pending.Keys;
      while left != {}
        invariant left <= pending.Keys == before.Keys
        invariant forall p <- pending ::
          pending[p] == if p in left then before[p] else Replaced(before[p], requestId, byIndex)
        decreases |left|
      {
        var p :| p in left;
        left := left - {p};
        if pending[p] < 0 {
          pending := pending[p := if pending[p] == -1 then requestId else byIndex[0 - pending[p] - 2]];
        }
      }
    }

    // Sends requests for the due pages; the result is the time to run again after, in seconds.
    method ResolveWebPages(items: map<Page, Item>, now: int) returns (timer: Option<int>)
      requires Inv(View())
      modifies this
      ensures Resolved(old(View()), View(), items, now)
      ensures AllLeft(old(View()), View(), items, now)
      ensures IsTimer(old(View()), now, timer)
    {
      ghost var s := View();
      var drafted, d, wait := CollectAll(View(), items, now);
      pending := drafted;
      var requestId := 0;
      if d.common != [] {
        requestId := Send(Sent(None, d.common));
      }
      ghost var u := View();
      var byIndex := SendChannels(d);
      PlaceholdersFit(s, drafted, items, now, d, requestId, |byIndex|);
      if requestId != 0 || |byIndex| > 0 {
        Replace(d, requestId, byIndex);
      }
      Finish(s, u, View(), items, now, d, drafted, requestId, byIndex);
      timer := TimerFor(wait);
      TimerIs(s, now, wait);
      AllPlaced(s, View(), items, now);
    }
  }

  /** Where a resolve leaves a page: a page that was not asked for, whose time has come and that a message shows, waits
      for a new request to the channel of that message, which asks for it; any other page is as before. */
  ghost predicate LeftAt(s: State, t: State, items: map<Page, Item>, now: int, p: Page) {
    && p in s.pending && p in t.pending
    && if s.pending[p] <= 0 && (p in s.till ==> s.till[p] <= now) && (p !in s.till ==> 0 <= now) && p in items then
         var r := t.pending[p];
         && r > 0 && r !in s.asked && r in t.asked && r in t.open
         && t.asked[r].channel == items[p].channel && items[p].msgId in t.asked[r].ids
       else t.pending[p] == s.pending[p]
  }

  ghost predicate AllLeft(s: State, t: State, items: map<Page, Item>, now: int) {
    forall p <- s.pending :: LeftAt(s, t, items, now, p)
  }

  lemma AllPlaced(s: State, t: State, items: map<Page, Item>, now: int)
    requires Resolved(s, t, items, now)
    ensures AllLeft(s, t, items, now)
  {
    forall p <- s.pending
      ensures LeftAt(s, t, items, now, p)
    {
      assert Placed(s, t, items, now, p);
    }
  }

  // In how many seconds a page is due.
  function DueIn(s: State, now: int, p: Page): int {
    (if p in s.till then s.till[p] else 0) - now
  }

  // A page that was not asked for and will be due later.
  predicate DueLater(s: State, now: int, p: Page) {
    p in s.pending && s.pending[p] <= 0 && DueIn(s, now, p) > 0
  }

  // The timer is set for the first page that will be due, but for a day at most; not if none is due within 2^31 - 1
  // seconds.
  ghost predicate IsTimer(s: State, now: int, timer: Option<int>) {
    && (exists wait :: IsWait(s, now, s.pending.Keys, wait) && timer == TimerFor(wait))
    && match timer
       case None => forall p :: DueLater(s, now, p) ==> DueIn(s, now, p) >= 0x7FFF_FFFF
       case Some(seconds) =>
         && 0 < seconds <= 86400
         && (forall p :: DueLater(s, now, p) ==> seconds <= DueIn(s, now, p))
         && (exists p :: DueLater(s, now, p)
              && if seconds < 86400 then DueIn(s, now, p) == seconds else DueIn(s, now, p) >= 86400)
  }

  lemma TimerIs(s: State, now: int, wait: int)
    requires IsWait(s, now, s.pending.Keys, wait)
    ensures IsTimer(s, now, TimerFor(wait))
  {
    forall p
      ensures DueIn(s, now, p) == Till(s, p) - now
    {
    }
    if wait != INT_MAX {
      var p :| p in s.pending.Keys && s.pending[p] <= 0 && wait == Till(s, p) - now > 0;
      assert DueLater(s, now, p);
    }
  }

  // The pages of a request that its answer did not resolve.
  function Expired(t: State, r: RequestId): set<Page> {
    set p | p in Waiting(t, r) && Till(t, p) > 0
  }

  // The state with these pages looked at.
  function GotAmong(t: State, r: RequestId, done: set<Page>): State {
    t.(
      pending := t.pending - Waiting(t, r) * done,
      till := map p | p in t.till :: if p in Expired(t, r) * done then 0 else t.till[p],
      failed := t.failed + Expired(t, r) * done)
  }

  lemma GotNone(t: State, r: RequestId)
    ensures GotAmong(t, r, {}) == t
  {
  }

  lemma GotOneMore(t: State, r: RequestId, done: set<Page>, p: Page)
    requires p in t.pending && p !in done
    ensures var u := GotAmong(t, r, done);
      p in u.pending && u.pending[p] == t.pending[p] &&
      GotAmong(t, r, done + {p}) ==
        if t.pending[p] != r then u
        else if p in u.till && u.till[p] > 0 then
          u.(pending := u.pending - {p}, till := u.till[p := 0], failed := u.failed + {p})
        else u.(pending := u.pending - {p})
  {
    var u := GotAmong(t, r, done);
    assert p in t.till ==> u.till[p] == t.till[p];
    if t.pending[p] == r {
      assert Waiting(t, r) * (done + {p}) == Waiting(t, r) * done + {p};
      if p in t.till && t.till[p] > 0 {
        assert Expired(t, r) * (done + {p}) == Expired(t, r) * done + {p};
      } else {
        assert Expired(t, r) * (done + {p}) == Expired(t, r) * done;
      }
    } else {
      assert Waiting(t, r) * (done + {p}) == Waiting(t, r) * done;
      assert Expired(t, r) * (done + {p}) == Expired(t, r) * done;
    }
  }

  lemma GotAll(s: State, t: State, r: RequestId, applied: set<Page>, done: set<Page>)
    requires done == t.pending.Keys
    requires t == s.(till := map p | p in s.till :: if p in applied then 0 else s.till[p], open := s.open - {r})
    ensures GotAmong(t, r, done) == Got(s, r, applied)
  {
    assert Waiting(t, r) * done == Waiting(s, r);
    assert Expired(t, r) * done == Expired(t, r);
  }

  // Request ids are handed out upwards.
  ghost predicate Ids(s: State) {
    s.next > 0 && forall r <- s.asked :: 0 < r < s.next
  }

  // The requests sent between two states, one for each of these channels.
  ghost predicate Sends(s: State, t: State, done: set<nat>, d: Draft, byIndex: seq<RequestId>) {
    && t == s.(next := t.next, asked := t.asked, open := t.open)
    && Ids(t) && t.next >= s.next
    && (forall r <- s.asked :: r in t.asked && t.asked[r] == s.asked[r])
    && t.open == s.open + (t.asked.Keys - s.asked.Keys)
    && done <= d.channels.Keys
    && (forall c <- done :: SentFor(s, t, d, byIndex, c))
    && (forall r :: New(s, t, r) ==>
          var c := t.asked[r].channel;
          c.Some? && c.value in done && SlotOf(d, byIndex, c.value) == r)
  }

  function SlotOf(d: Draft, byIndex: seq<RequestId>, c: nat): RequestId {
    if c in d.channels && d.channels[c].index < |byIndex| then byIndex[d.channels[c].index] else 0
  }

  ghost predicate SentFor(s: State, t: State, d: Draft, byIndex: seq<RequestId>, c: nat)
    requires c in d.channels
  {
    var r := SlotOf(d, byIndex, c);
    New(s, t, r) && s.next <= r && t.asked[r] == Sent(Some(c), d.channels[c].ids)
  }

  lemma SendsNone(s: State, d: Draft, byIndex: seq<RequestId>)
    requires Ids(s)
    ensures Sends(s, s, {}, d, byIndex)
  {
  }

  lemma SendsNext(s: State, t: State, done: set<nat>, d: Draft, byIndex: seq<RequestId>, c: nat)
    requires Numbered(d) && |byIndex| == |d.channels| && c in d.channels && c !in done
    requires Sends(s, t, done, d, byIndex)
    ensures Sends(s,
      t.(next := t.next + 1, asked := t.asked[t.next := Sent(Some(c), d.channels[c].ids)], open := t.open + {t.next}),
      done + {c}, d, byIndex[d.channels[c].index := t.next])
  {
    var asked := t.asked[t.next := Sent(Some(c), d.channels[c].ids)];
    var u := t.(next := t.next + 1, asked := asked, open := t.open + {t.next});
    var slots := byIndex[d.channels[c].index := t.next];
    assert t.next !in t.asked && t.next !in s.asked;
    forall b <- done + {c}
      ensures SentFor(s, u, d, slots, b)
    {
      if b != c {
        assert SentFor(s, t, d, byIndex, b);
        assert SlotOf(d, slots, b) == SlotOf(d, byIndex, b);
      }
    }
    forall r | New(s, u, r)
      ensures var b := u.asked[r].channel; b.Some? && b.value in done + {c} && SlotOf(d, slots, b.value) == r
    {
      if r != t.next {
        assert New(s, t, r);
        var b := t.asked[r].channel.value;
        assert b != c && SlotOf(d, slots, b) == SlotOf(d, byIndex, b);
      }
    }
  }

  predicate FitsSlots(id: int, requestId: RequestId, n: nat) {
    id >= 0 || (id == -1 && requestId != 0) || (id < -1 && 0 - id - 2 < n)
  }

  // Every placeholder names a request that is being sent.
  lemma PlaceholdersFit(s: State, drafted: map<Page, int>, items: map<Page, Item>, now: int, d: Draft,
      requestId: RequestId, n: nat)
    requires Inv(s) && DraftFits(s, drafted, items, now, d, s.pending.Keys) && Numbered(d) && n == |d.channels|
    requires requestId == 0 <==> d.common == []
    ensures forall p <- drafted :: FitsSlots(drafted[p], requestId, n)
  {
    forall p <- drafted
      ensures FitsSlots(drafted[p], requestId, n)
    {
      assert Drafted(s, drafted, items, now, d, p);
    }
  }

  // The state with the placeholders and the request for the common ids, if there are any.
  predicate Drafts(s: State, u: State, drafted: map<Page, int>, d: Draft, requestId: RequestId) {
    if d.common == [] then requestId == 0 && u == s.(pending := drafted)
    else requestId == s.next && u == s.(pending := drafted, next := s.next + 1,
      asked := s.asked[s.next := Sent(None, d.common)], open := s.open + {s.next})
  }

  // A request that holds all ids of its channel.
  predicate IsGroup(t: State, d: Draft, requestId: RequestId, byIndex: seq<RequestId>, r: RequestId) {
    && r in t.asked
    && t.asked[r].ids != [] && t.asked[r].ids == IdsFor(d, t.asked[r].channel)
    && r == match t.asked[r].channel
         case None => requestId
         case Some(c) => SlotOf(d, byIndex, c)
  }

  lemma PagePlaced(s: State, u: State, t: State, items: map<Page, Item>, now: int, d: Draft,
      drafted: map<Page, int>, requestId: RequestId, byIndex: seq<RequestId>, p: Page)
    requires Inv(s) && p in s.pending && DraftFits(s, drafted, items, now, d, s.pending.Keys) && Numbered(d)
    requires |byIndex| == |d.channels|
    requires Drafts(s, u, drafted, d, requestId)
    requires Sends(u, t.(pending := drafted), d.channels.Keys, d, byIndex)
    requires p in t.pending && t.pending[p] == Replaced(drafted[p], requestId, byIndex)
    ensures Placed(s, t, items, now, p)
  {
    assert Drafted(s, drafted, items, now, d, p);
    if Due(s, items, now, p) && items[p].channel.Some? {
      var c := items[p].channel.value;
      assert SentFor(u, t.(pending := drafted), d, byIndex, c);
    }
  }

  lemma NewAsksForDue(s: State, u: State, t: State, items: map<Page, Item>, now: int, d: Draft,
      drafted: map<Page, int>, requestId: RequestId, byIndex: seq<RequestId>, r: RequestId)
    requires DraftFits(s, drafted, items, now, d, s.pending.Keys) && Numbered(d) && |byIndex| == |d.channels|
    requires t.pending.Keys == s.pending.Keys
    requires forall p <- s.pending :: t.pending[p] == Replaced(drafted[p], requestId, byIndex)
    requires IsGroup(t, d, requestId, byIndex, r)
    requires Waiting(t, r) == DueFor(s, items, now, s.pending.Keys, t.asked[r].channel)
    ensures AsksForDue(s, t, items, now, r)
  {
    var channel := t.asked[r].channel;
    assert |IdsFor(d, channel)| == |DueFor(s, items, now, s.pending.Keys, channel)|;
    forall id <- t.asked[r].ids
      ensures exists p :: Due(s, items, now, p) && items[p] == Item(channel, id) && t.pending[p] == r
    {
      assert Justified(s, items, now, s.pending.Keys, channel, id);
      var p :| p in s.pending.Keys && Due(s, items, now, p) && items[p] == Item(channel, id);
      assert Drafted(s, drafted, items, now, d, p);
      assert t.pending[p] == r;
    }
  }

  // What a new request holds.
  lemma NewIsGroup(s: State, u: State, t: State, d: Draft, drafted: map<Page, int>,
      requestId: RequestId, byIndex: seq<RequestId>, r: RequestId)
    requires Inv(s) && Numbered(d) && |byIndex| == |d.channels|
    requires Drafts(s, u, drafted, d, requestId)
    requires Sends(u, t.(pending := drafted), d.channels.Keys, d, byIndex)
    requires New(s, t, r)
    ensures s.next <= r < t.next && IsGroup(t, d, requestId, byIndex, r)
  {
    var v := t.(pending := drafted);
    if New(u, v, r) {
      var c := t.asked[r].channel.value;
      assert SentFor(u, v, d, byIndex, c);
    }
  }

  // The pages that wait for a new request are the due ones of its channel.
  lemma WaitingIsDue(s: State, u: State, t: State, items: map<Page, Item>, now: int, d: Draft,
      drafted: map<Page, int>, requestId: RequestId, byIndex: seq<RequestId>, r: RequestId)
    requires Inv(s) && DraftFits(s, drafted, items, now, d, s.pending.Keys) && |byIndex| == |d.channels|
    requires t.pending.Keys == s.pending.Keys && New(s, t, r)
    requires forall p <- s.pending :: t.pending[p] == Replaced(drafted[p], requestId, byIndex)
    requires forall p <- s.pending :: Placed(s, t, items, now, p)
    requires IsGroup(t, d, requestId, byIndex, r)
    ensures Waiting(t, r) == DueFor(s, items, now, s.pending.Keys, t.asked[r].channel)
  {
    forall p <- s.pending
      ensures t.pending[p] == r <==> Due(s, items, now, p) && items[p].channel == t.asked[r].channel
    {
      assert Placed(s, t, items, now, p);
      if Due(s, items, now, p) && items[p].channel == t.asked[r].channel {
        assert Drafted(s, drafted, items, now, d, p);
        PlaceholderOf(t, d, requestId, byIndex, r, items[p]);
      }
    }
  }

  // A page of the channel of a request waits for that request.
  lemma PlaceholderOf(t: State, d: Draft, requestId: RequestId, byIndex: seq<RequestId>, r: RequestId, item: Item)
    requires IsGroup(t, d, requestId, byIndex, r) && item.channel == t.asked[r].channel && |byIndex| == |d.channels|
    requires item.channel.Some? ==> item.channel.value in d.channels
    ensures Replaced(Placeholder(d, item), requestId, byIndex) == r
  {
  }

  lemma Finish(s: State, u: State, t: State, items: map<Page, Item>, now: int, d: Draft,
      drafted: map<Page, int>, requestId: RequestId, byIndex: seq<RequestId>)
    requires Inv(s) && DraftFits(s, drafted, items, now, d, s.pending.Keys) && Numbered(d)
    requires |byIndex| == |d.channels|
    requires Drafts(s, u, drafted, d, requestId)
    requires Sends(u, t.(pending := drafted), d.channels.Keys, d, byIndex)
    requires t.pending.Keys == s.pending.Keys
    requires forall p <- s.pending :: t.pending[p] == Replaced(drafted[p], requestId, byIndex)
    ensures Resolved(s, t, items, now)
  {
    forall p <- s.pending
      ensures Placed(s, t, items, now, p)
    {
      PagePlaced(s, u, t, items, now, d, drafted, requestId, byIndex, p);
    }
    forall r | New(s, t, r)
      ensures s.next <= r < t.next && IsGroup(t, d, requestId, byIndex, r) && AsksForDue(s, t, items, now, r)
    {
      NewIsGroup(s, u, t, d, drafted, requestId, byIndex, r);
      WaitingIsDue(s, u, t, items, now, d, drafted, requestId, byIndex, r);
      NewAsksForDue(s, u, t, items, now, d, drafted, requestId, byIndex, r);
    }
    SentStays(s, u, t, d, drafted, requestId, byIndex);
  }

  lemma SentStays(s: State, u: State, t: State, d: Draft, drafted: map<Page, int>,
      requestId: RequestId, byIndex: seq<RequestId>)
    requires Inv(s) && Drafts(s, u, drafted, d, requestId)
    requires Sends(u, t.(pending := drafted), d.channels.Keys, d, byIndex)
    ensures t == s.(pending := t.pending, next := t.next, asked := t.asked, open := t.open)
    ensures t.next >= s.next && forall r <- s.asked :: r in t.asked && t.asked[r] == s.asked[r]
    ensures t.open == s.open + (t.asked.Keys - s.asked.Keys)
  {
    assert forall r <- s.asked :: r in u.asked && u.asked[r] == s.asked[r];
    assert u.asked.Keys == s.asked.Keys + if d.common == [] then {} else {s.next};
    assert forall r <- u.asked :: r in t.asked;
  }

  function TimerFor(wait: int): Option<int> {
    if wait < INT_MAX then Some(if wait < MAX_WAIT then wait else MAX_WAIT) else None
  }

  function Replaced(id: int, requestId: RequestId, byIndex: seq<RequestId>): int {
    if id >= 0 then id
    else if id == -1 then requestId
    else if 0 - id - 2 < |byIndex| then byIndex[0 - id - 2]
    else 0
  }

  // The turn for one page: its id joins the draft, or the wait is shortened.
  method CollectPage(s: State, items: map<Page, Item>, now: int, p: Page, ghost done: set<Page>,
      pending: map<Page, int>, d: Draft, wait: int)
    returns (newPending: map<Page, int>, e: Draft, newWait: int)
    requires p in s.pending && p !in done && Numbered(d)
    requires DraftFits(s, pending, items, now, d, done)
    ensures DraftFits(s, newPending, items, now, e, done + {p}) && Numbered(e)
    ensures newWait
      == if s.pending[p] <= 0 && Till(s, p) > now && Till(s, p) - now < wait then Till(s, p) - now else wait
  {
    newPending, e, newWait := pending, d, wait;
    if pending[p] <= 0 {
      if Till(s, p) <= now {
        if p in items {
          DraftPage(s, pending, items, now, d, done, p);
          AddNumbered(d, items[p]);
          e := AddTo(d, items[p]);
          newPending := pending[p := Placeholder(e, items[p])];
          return;
        }
      } else if Till(s, p) - now < wait {
        newWait := Till(s, p) - now;
      }
    }
    SkipPage(s, pending, items, now, d, done, p);
  }

  method CollectAll(s: State, items: map<Page, Item>, now: int)
    returns (pending: map<Page, int>, d: Draft, wait: int)
    ensures DraftFits(s, pending, items, now, d, s.pending.Keys) && Numbered(d)
    ensures IsWait(s, now, s.pending.Keys, wait)
  {
    pending, d, wait := s.pending, Draft([], map[]), INT_MAX;
    var left := s.pending.Keys;
    ghost var done: set<Page> := {};
    while left != {}
      invariant Divided(s.pending.Keys, done, left)
      invariant DraftFits(s, pending, items, now, d, done) && Numbered(d)
      invariant IsWait(s, now, done, wait)
      decreases |left|
    {
      var p :| p in left;
      WaitNext(s, now, done, wait, p);
      Divide(s.pending.Keys, done, left, p);
      pending, d, wait := CollectPage(s, items, now, p, done, pending, d, wait);
      left := left - {p};
      done := done + {p};
    }
  }

  ghost predicate Divided(all: set<Page>, done: set<Page>, left: set<Page>) {
    done + left == all && done !! left
  }

  lemma Divide(all: set<Page>, done: set<Page>, left: set<Page>, p: Page)
    requires Divided(all, done, left) && p in left
    ensures Divided(all, done + {p}, left - {p}) && p in all && p !in done
  {
  }

  // The shortest time, at most INT_MAX, until one of these pages is due.
  ghost predicate IsWait(s: State, now: int, done: set<Page>, wait: int) {
    && wait <= INT_MAX
    && (forall p <- done :: p in s.pending && s.pending[p] <= 0 && Till(s, p) > now ==> wait <= Till(s, p) - now)
    && (wait == INT_MAX || exists p :: p in done && p in s.pending && s.pending[p] <= 0 && wait == Till(s, p) - now > 0)
  }

  lemma WaitNext(s: State, now: int, done: set<Page>, wait: int, p: Page)
    requires IsWait(s, now, done, wait) && p in s.pending
    ensures IsWait(s, now, done + {p},
      if s.pending[p] <= 0 && Till(s, p) > now && Till(s, p) - now < wait then Till(s, p) - now else wait)
  {
    var next := if s.pending[p] <= 0 && Till(s, p) > now && Till(s, p) - now < wait then Till(s, p) - now else wait;
    if next == wait && wait != INT_MAX {
      var q :| q in done && q in s.pending && s.pending[q] <= 0 && wait == Till(s, q) - now > 0;
      assert q in done + {p};
    } else if next != INT_MAX {
      assert p in done + {p};
    }
  }
}
