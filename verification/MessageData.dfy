/** Batched requests for message data: who waits for which message, and in which request it was asked for. */
module MessageData {
  import opened Basics

  type MsgId = nat
  type RequestId = nat
  type Callback = nat

  // Messages of a channel are asked for apart, all others together.
  datatype Peer = Common | Channel(id: nat)

  datatype Entry = Entry(requestId: RequestId, callbacks: seq<Callback>)

  type Requests = map<MsgId, Entry>

  // A request on its way.
  datatype Sent = Sent(peer: Peer, ids: set<MsgId>)

  /** The maps of the class, the queued resolve, the network, and what happened to the callbacks:
      where each was registered and which were called, in order. */
  datatype State = State(
    common: Requests,
    channels: map<nat, Requests>,
    queued: bool,
    next: RequestId,
    sent: map<RequestId, Sent>,
    places: map<Callback, (Peer, MsgId)>,
    called: seq<Callback>)

  const INITIAL: State := State(map[], map[], false, 1, map[], map[], [])

  function At(s: State, peer: Peer): Requests {
    match peer
    case Common => s.common
    case Channel(id) => if id in s.channels then s.channels[id] else map[]
  }

  function Put(s: State, peer: Peer, requests: Requests): State {
    match peer
    case Common => s.(common := requests)
    case Channel(id) => s.(channels := s.channels[id := requests])
  }

  // ---- steps ----

  function EntryAt(s: State, peer: Peer, msgId: MsgId): Entry {
    if msgId in At(s, peer) then At(s, peer)[msgId] else Entry(0, [])
  }

  function Call(s: State, peer: Peer, msgId: MsgId, done: Option<Callback>): State {
    var entry := EntryAt(s, peer, msgId);
    var waiting := if done.Some? then entry.callbacks + [done.value] else entry.callbacks;
    Put(s, peer, At(s, peer)[msgId := entry.(callbacks := waiting)]).(
      queued := s.queued || entry.requestId == 0,
      places := if done.Some? then s.places[done.value := (peer, msgId)] else s.places)
  }

  function Untagged(requests: Requests): set<MsgId> {
    set m | m in requests && requests[m].requestId == 0
  }

  function Tag(requests: Requests, r: RequestId): Requests {
    map m | m in requests :: if requests[m].requestId == 0 then requests[m].(requestId := r) else requests[m]
  }

  // One peer's part of a resolve.
  function SendFor(s: State, peer: Peer): State {
    var requests := At(s, peer);
    if peer.Channel? && requests == map[] then s.(channels := s.channels - {peer.id})
    else if Untagged(requests) == {} then s
    else
      Put(s, peer, Tag(requests, s.next)).(
        next := s.next + 1,
        sent := s.sent[s.next := Sent(peer, Untagged(requests))])
  }

  function SendForAll(s: State, peers: seq<Peer>): State
    decreases |peers|
  {
    if peers == [] then s else SendForAll(SendFor(s, peers[0]), peers[1..])
  }

  // The peers of the maps, the common ones first and the channels in any order.
  ghost predicate IsOrder(s: State, order: seq<Peer>) {
    && |order| > 0 && order[0] == Common
    && (forall i :: 1 <= i < |order| ==> order[i].Channel? && order[i].id in s.channels)
    && (forall c <- s.channels :: Channel(c) in order)
  }

  function Resolve(s: State, order: seq<Peer>): State {
    var t := s.(queued := false);
    if s.common == map[] && s.channels == map[] then t else SendForAll(t, order)
  }

  ghost predicate IsLeast(ids: set<MsgId>, m: MsgId) {
    m in ids && forall k <- ids :: m <= k
  }

  lemma {:induction false} LeastExists(ids: set<MsgId>)
    requires ids != {}
    ensures exists m :: IsLeast(ids, m)
  {
    var k :| k in ids;
    var rest := ids - {k};
    assert ids == rest + {k};
    if rest == {} {
      assert IsLeast(ids, k);
    } else {
      LeastExists(rest);
      var m :| IsLeast(rest, m);
      assert IsLeast(ids, if k < m then k else m);
    }
  }

  ghost function Least(ids: set<MsgId>): (m: MsgId)
    requires ids != {}
    ensures IsLeast(ids, m)
  {
    LeastExists(ids);
    var m :| IsLeast(ids, m);
    m
  }

  function Tagged(requests: Requests, r: RequestId): set<MsgId> {
    set m | m in requests && requests[m].requestId == r
  }

  // The callbacks of these entries, in the order of the message ids.
  ghost function Gather(requests: Requests, ids: set<MsgId>): seq<Callback>
    requires ids <= requests.Keys
  {
    if ids == {} then []
    else requests[Least(ids)].callbacks + Gather(requests, ids - {Least(ids)})
  }

  // Stores what is left for a peer; a channel with nothing left is dropped.
  function Keep(s: State, peer: Peer, left: Requests): State {
    if peer.Channel? && left == map[] then s.(channels := s.channels - {peer.id}) else Put(s, peer, left)
  }

  ghost function Finalize(s: State, peer: Peer, r: RequestId): State {
    if peer.Channel? && peer.id !in s.channels then s
    else
      var requests := At(s, peer);
      Keep(s, peer, requests - Tagged(requests, r)).(called := s.called + Gather(requests, Tagged(requests, r)))
  }

  // The answer to a request, good or bad.
  ghost function Reply(s: State, r: RequestId): State
    requires r in s.sent
  {
    Finalize(s.(sent := s.sent - {r}), s.sent[r].peer, r)
  }

  datatype Step =
    | CallStep(peer: Peer, msgId: MsgId, done: Option<Callback>)
    | ResolveStep(order: seq<Peer>)
    | ReplyStep(r: RequestId)

  ghost predicate Allowed(s: State, step: Step) {
    match step
    case CallStep(_, _, done) => done.Some? ==> done.value !in s.places
    case ResolveStep(order) => s.queued && IsOrder(s, order)
    case ReplyStep(r) => r in s.sent
  }

  ghost function Next(s: State, step: Step): State
    requires Allowed(s, step)
  {
    match step
    case CallStep(peer, msgId, done) => Call(s, peer, msgId, done)
    case ResolveStep(order) => Resolve(s, order)
    case ReplyStep(r) => Reply(s, r)
  }

  // ---- what every step keeps ----

  lemma AtPut(s: State, peer: Peer, requests: Requests)
    ensures forall p: Peer :: At(Put(s, peer, requests), p) == if p == peer then requests else At(s, p)
  {
  }

  function Look(s: State, p: Peer, m: MsgId): Option<Entry> {
    if m in At(s, p) then Some(At(s, p)[m]) else None
  }

  // An entry with a request id waits for a request that asks for it.
  ghost predicate TagsAreSent(s: State) {
    forall p: Peer, m: MsgId :: Look(s, p, m).Some? && Look(s, p, m).value.requestId > 0 ==>
      var r := Look(s, p, m).value.requestId;
      r in s.sent && s.sent[r].peer == p && m in s.sent[r].ids
  }

  ghost predicate WaitsFor(s: State, p: Peer, m: MsgId, r: RequestId) {
    Look(s, p, m).Some? && Look(s, p, m).value.requestId == r
  }

  // A request on its way is what the entries of its ids wait for.
  ghost predicate SentIsTagged(s: State) {
    s.next > 0 &&
    forall r <- s.sent ::
      && 0 < r < s.next && s.sent[r].ids != {}
      && forall m <- s.sent[r].ids :: WaitsFor(s, s.sent[r].peer, m, r)
  }

  ghost predicate NoEmptyChannel(s: State) {
    forall c <- s.channels :: s.channels[c] != map[]
  }

  ghost predicate NothingUntagged(s: State, p: Peer) {
    forall m: MsgId :: !WaitsFor(s, p, m, 0)
  }

  ghost predicate UntaggedIsQueued(s: State) {
    !s.queued ==> forall p: Peer :: NothingUntagged(s, p)
  }

  function Waiting(s: State, p: Peer, m: MsgId): seq<Callback> {
    EntryAt(s, p, m).callbacks
  }

  ghost predicate Held(s: State, p: Peer, m: MsgId, c: Callback) {
    c in Waiting(s, p, m)
  }

  ghost predicate HeldAtPlace(s: State) {
    forall p: Peer, m: MsgId, c: Callback :: Held(s, p, m, c) ==>
      c in s.places && s.places[c] == (p, m) && c !in s.called
  }

  ghost predicate HeldOnce(s: State) {
    forall p: Peer, m: MsgId :: NoDuplicates(Waiting(s, p, m))
  }

  ghost predicate HeldOrCalled(s: State) {
    forall c <- s.places :: c in s.called || Held(s, s.places[c].0, s.places[c].1, c)
  }

  ghost predicate CalledOnce(s: State) {
    NoDuplicates(s.called) && forall c <- s.called :: c in s.places
  }

  // Every registered callback is held in the one entry it was registered for, once, or was called, once.
  ghost predicate CallbacksOnce(s: State) {
    HeldAtPlace(s) && HeldOnce(s) && HeldOrCalled(s) && CalledOnce(s)
  }

  ghost predicate Linked(s: State) {
    TagsAreSent(s) && SentIsTagged(s) && NoEmptyChannel(s) && CallbacksOnce(s)
  }

  ghost predicate Inv(s: State) {
    Linked(s) && UntaggedIsQueued(s)
  }

  lemma LookCall(s: State, peer: Peer, msgId: MsgId, done: Option<Callback>)
    ensures var t := Call(s, peer, msgId, done); forall p: Peer, m: MsgId ::
      Look(t, p, m) ==
        if p == peer && m == msgId then
          var e := EntryAt(s, peer, msgId);
          Some(e.(callbacks := if done.Some? then e.callbacks + [done.value] else e.callbacks))
        else Look(s, p, m)
  {
  }

  lemma CallKeepsLinks(s: State, peer: Peer, msgId: MsgId, done: Option<Callback>)
    requires Inv(s)
    ensures var t := Call(s, peer, msgId, done);
      TagsAreSent(t) && SentIsTagged(t) && NoEmptyChannel(t) && UntaggedIsQueued(t)
  {
    var t := Call(s, peer, msgId, done);
    LookCall(s, peer, msgId, done);
    assert TagsAreSent(t) && NoEmptyChannel(t);
    forall r <- t.sent, m <- t.sent[r].ids
      ensures WaitsFor(t, t.sent[r].peer, m, r)
    {
      assert WaitsFor(s, s.sent[r].peer, m, r);
    }
    if !t.queued {
      forall p: Peer, m: MsgId
        ensures !WaitsFor(t, p, m, 0)
      {
        assert NothingUntagged(s, p) && !WaitsFor(s, p, m, 0);
      }
    }
  }

  lemma WaitingCall(s: State, peer: Peer, msgId: MsgId, done: Option<Callback>)
    ensures var t := Call(s, peer, msgId, done); forall p: Peer, m: MsgId ::
      Waiting(t, p, m) == Waiting(s, p, m) + if p == peer && m == msgId && done.Some? then [done.value] else []
  {
  }

  lemma CallKeepsCallbacks(s: State, peer: Peer, msgId: MsgId, done: Option<Callback>)
    requires CallbacksOnce(s) && (done.Some? ==> done.value !in s.places)
    ensures CallbacksOnce(Call(s, peer, msgId, done))
  {
    var t := Call(s, peer, msgId, done);
    WaitingCall(s, peer, msgId, done);
    forall p: Peer, m: MsgId, c: Callback | Held(t, p, m, c)
      ensures c in t.places && t.places[c] == (p, m) && c !in t.called
    {
      assert (p == peer && m == msgId && done == Some(c)) || Held(s, p, m, c);
    }
    forall p: Peer, m: MsgId
      ensures NoDuplicates(Waiting(t, p, m))
    {
      assert NoDuplicates(Waiting(s, p, m));
      assert done.Some? ==> !Held(s, p, m, done.value);
    }
    forall c <- t.places
      ensures c in t.called || Held(t, t.places[c].0, t.places[c].1, c)
    {
      assert c in s.places ==> c in s.called || Held(s, s.places[c].0, s.places[c].1, c);
    }
  }

  lemma CallbacksUntouched(s: State, t: State)
    requires CallbacksOnce(s) && t.places == s.places && t.called == s.called
    requires forall p: Peer, m: MsgId :: Waiting(t, p, m) == Waiting(s, p, m)
    ensures CallbacksOnce(t)
  {
    assert forall p: Peer, m: MsgId, c: Callback :: Held(t, p, m, c) <==> Held(s, p, m, c);
  }

  lemma UntaggedWaits(s: State, peer: Peer)
    ensures forall m: MsgId :: m in Untagged(At(s, peer)) <==> WaitsFor(s, peer, m, 0)
  {
  }

  lemma LookSendFor(s: State, peer: Peer)
    ensures var t := SendFor(s, peer); forall p: Peer, m: MsgId ::
      && Look(t, p, m) == (if p == peer && WaitsFor(s, p, m, 0)
           then Some(Look(s, p, m).value.(requestId := s.next)) else Look(s, p, m))
      && Waiting(t, p, m) == Waiting(s, p, m)
  {
    UntaggedWaits(s, peer);
    var requests := At(s, peer);
    if Untagged(requests) != {} {
      AtPut(s, peer, Tag(requests, s.next));
      assert forall p: Peer :: At(SendFor(s, peer), p) == if p == peer then Tag(requests, s.next) else At(s, p);
    } else {
      assert forall p: Peer :: At(SendFor(s, peer), p) == At(s, p);
    }
  }

  lemma SendForFrame(s: State, peer: Peer)
    ensures var t := SendFor(s, peer);
      && t.queued == s.queued && t.places == s.places && t.called == s.called
      && s.next <= t.next <= s.next + 1
      && (t.next == s.next ==> t.sent == s.sent && NothingUntagged(s, peer))
      && (t.next > s.next ==> t.sent == s.sent[s.next := Sent(peer, Untagged(At(s, peer)))])
  {
    UntaggedWaits(s, peer);
  }

  lemma SendForKeepsTags(s: State, peer: Peer)
    requires TagsAreSent(s) && SentIsTagged(s)
    ensures TagsAreSent(SendFor(s, peer)) && SentIsTagged(SendFor(s, peer))
  {
    SendForTagsAreSent(s, peer);
    SendForSentIsTagged(s, peer);
  }

  lemma SendForTagsAreSent(s: State, peer: Peer)
    requires TagsAreSent(s) && SentIsTagged(s)
    ensures TagsAreSent(SendFor(s, peer))
  {
    var t := SendFor(s, peer);
    LookSendFor(s, peer);
    SendForFrame(s, peer);
    UntaggedWaits(s, peer);
    assert TagsAreSent(t);
  }

  lemma SendForSentIsTagged(s: State, peer: Peer)
    requires TagsAreSent(s) && SentIsTagged(s)
    ensures SentIsTagged(SendFor(s, peer))
  {
    var t := SendFor(s, peer);
    LookSendFor(s, peer);
    SendForFrame(s, peer);
    UntaggedWaits(s, peer);
    forall r <- t.sent, m <- t.sent[r].ids
      ensures WaitsFor(t, t.sent[r].peer, m, r)
    {
      if r in s.sent {
        assert WaitsFor(s, s.sent[r].peer, m, r);
      }
    }
  }

  lemma SendForTags(s: State, peer: Peer)
    requires s.next > 0
    ensures NothingUntagged(SendFor(s, peer), peer)
    ensures forall p: Peer :: NothingUntagged(s, p) ==> NothingUntagged(SendFor(s, peer), p)
  {
    var t := SendFor(s, peer);
    LookSendFor(s, peer);
    forall p: Peer, m: MsgId | p == peer || NothingUntagged(s, p)
      ensures !WaitsFor(t, p, m, 0)
    {
      assert NothingUntagged(s, p) ==> !WaitsFor(s, p, m, 0);
    }
  }

  lemma SendForKeepsChannels(s: State, peer: Peer)
    requires NoEmptyChannel(s)
    ensures NoEmptyChannel(SendFor(s, peer)) && SendFor(s, peer).channels.Keys == s.channels.Keys
  {
    if peer.Channel? && At(s, peer) != map[] {
      var m :| m in At(s, peer);
      assert m in Tag(At(s, peer), s.next);
    }
  }

  lemma SendForKeeps(s: State, peer: Peer)
    requires Linked(s)
    ensures Linked(SendFor(s, peer))
  {
    SendForKeepsTags(s, peer);
    SendForKeepsChannels(s, peer);
    assert CallbacksOnce(SendFor(s, peer)) by {
      LookSendFor(s, peer);
      SendForFrame(s, peer);
      CallbacksUntouched(s, SendFor(s, peer));
    }
  }

  lemma {:induction false} SendForAllKeeps(s: State, peers: seq<Peer>)
    requires Linked(s)
    ensures Linked(SendForAll(s, peers))
    ensures SendForAll(s, peers).queued == s.queued
    ensures forall p: Peer :: p in peers || NothingUntagged(s, p) ==> NothingUntagged(SendForAll(s, peers), p)
    decreases |peers|
  {
    if peers != [] {
      SendForKeeps(s, peers[0]);
      SendForTags(s, peers[0]);
      SendForFrame(s, peers[0]);
      SendForAllKeeps(SendFor(s, peers[0]), peers[1..]);
      assert forall p: Peer :: p in peers <==> p == peers[0] || p in peers[1..];
    }
  }

  lemma Dequeued(s: State)
    requires Linked(s)
    ensures Linked(s.(queued := false))
  {
    var t := s.(queued := false);
    assert forall p: Peer, m: MsgId :: Look(t, p, m) == Look(s, p, m) && Waiting(t, p, m) == Waiting(s, p, m);
    assert forall p: Peer, m: MsgId, r: RequestId :: WaitsFor(t, p, m, r) <==> WaitsFor(s, p, m, r);
    CallbacksUntouched(s, t);
  }

  // After a resolve every entry waits for a request.
  lemma ResolveKeeps(s: State, order: seq<Peer>)
    requires Linked(s) && IsOrder(s, order)
    ensures Inv(Resolve(s, order)) && !Resolve(s, order).queued
  {
    var t := s.(queued := false);
    Dequeued(s);
    SendForAllKeeps(t, order);
    forall p: Peer
      ensures NothingUntagged(Resolve(s, order), p)
    {
      if p !in order {
        assert At(t, p) == map[];
      }
    }
  }

  lemma AtKeep(s: State, peer: Peer, left: Requests)
    ensures forall p: Peer :: At(Keep(s, peer, left), p) == if p == peer then left else At(s, p)
  {
  }

  // The callbacks that a reply calls, in order.
  ghost function Answered(s: State, r: RequestId): seq<Callback>
    requires r in s.sent
  {
    Gather(At(s, s.sent[r].peer), Tagged(At(s, s.sent[r].peer), r))
  }

  lemma AtReply(s: State, r: RequestId)
    requires SentIsTagged(s) && r in s.sent
    ensures var peer := s.sent[r].peer; forall p: Peer ::
      At(Reply(s, r), p) == if p == peer then At(s, p) - Tagged(At(s, p), r) else At(s, p)
    ensures Reply(s, r).called == s.called + Answered(s, r)
    ensures var t := Reply(s, r);
      t == s.(sent := s.sent - {r}, common := t.common, channels := t.channels, called := t.called)
  {
    var peer := s.sent[r].peer;
    var u := s.(sent := s.sent - {r});
    assert forall p: Peer :: At(u, p) == At(s, p);
    AtKeep(u, peer, At(s, peer) - Tagged(At(s, peer), r));
    var m :| m in s.sent[r].ids;
    assert WaitsFor(s, peer, m, r);
  }

  lemma LookReply(s: State, r: RequestId)
    requires SentIsTagged(s) && r in s.sent
    ensures var t := Reply(s, r); forall p: Peer, m: MsgId ::
      var gone := p == s.sent[r].peer && WaitsFor(s, p, m, r);
      && Look(t, p, m) == (if gone then None else Look(s, p, m))
      && Waiting(t, p, m) == (if gone then [] else Waiting(s, p, m))
  {
    AtReply(s, r);
  }

  lemma {:induction false} GatherMembers(requests: Requests, ids: set<MsgId>)
    requires ids <= requests.Keys
    ensures forall c :: c in Gather(requests, ids) <==> exists m :: m in ids && c in requests[m].callbacks
    decreases ids
  {
    if ids != {} {
      GatherMembers(requests, ids - {Least(ids)});
      assert ids == ids - {Least(ids)} + {Least(ids)};
    }
  }

  lemma NoDuplicatesAppend(x: seq<Callback>, y: seq<Callback>)
    requires NoDuplicates(x) && NoDuplicates(y) && forall c <- x :: c !in y
    ensures NoDuplicates(x + y)
  {
    var z := x + y;
    forall i, j | 0 <= i < j < |z|
      ensures z[i] != z[j]
    {
      if i < |x| <= j {
        assert z[i] in x && z[j] == y[j - |x|];
      }
    }
  }

  lemma {:induction false} GatherOnce(requests: Requests, ids: set<MsgId>)
    requires ids <= requests.Keys
    requires forall m <- ids :: NoDuplicates(requests[m].callbacks)
    requires forall m <- ids, n <- ids, c <- requests[m].callbacks :: c in requests[n].callbacks ==> m == n
    ensures NoDuplicates(Gather(requests, ids))
    decreases ids
  {
    if ids != {} {
      var rest := ids - {Least(ids)};
      GatherOnce(requests, rest);
      GatherMembers(requests, rest);
      NoDuplicatesAppend(requests[Least(ids)].callbacks, Gather(requests, rest));
    }
  }

  // A callback that was not called yet, registered for an entry that waits for the request.
  ghost predicate Due(s: State, r: RequestId, c: Callback)
    requires r in s.sent
  {
    c in s.places && c !in s.called && s.places[c].0 == s.sent[r].peer && WaitsFor(s, s.places[c].0, s.places[c].1, r)
  }

  lemma AnsweredIsDue(s: State, r: RequestId, c: Callback)
    requires Inv(s) && r in s.sent
    ensures c in Answered(s, r) <==> Due(s, r, c)
  {
    var peer := s.sent[r].peer;
    var requests := At(s, peer);
    var ids := Tagged(requests, r);
    GatherMembers(requests, ids);
    if c in Answered(s, r) {
      var m :| m in ids && c in requests[m].callbacks;
      assert Held(s, peer, m, c);
    }
    if Due(s, r, c) {
      assert Held(s, peer, s.places[c].1, c);
      assert s.places[c].1 in ids;
    }
  }

  lemma AnsweredOnce(s: State, r: RequestId)
    requires Inv(s) && r in s.sent
    ensures NoDuplicates(Answered(s, r))
  {
    var peer := s.sent[r].peer;
    var requests := At(s, peer);
    var ids := Tagged(requests, r);
    forall m <- ids
      ensures NoDuplicates(requests[m].callbacks)
    {
      assert requests[m].callbacks == Waiting(s, peer, m);
    }
    forall m <- ids, n <- ids, c <- requests[m].callbacks | c in requests[n].callbacks
      ensures m == n
    {
      assert Held(s, peer, m, c) && Held(s, peer, n, c);
    }
    GatherOnce(requests, ids);
  }

  // A reply calls exactly the callbacks due, each once.
  lemma ReplyCalls(s: State, r: RequestId)
    requires Inv(s) && r in s.sent
    ensures Reply(s, r).called == s.called + Answered(s, r)
    ensures NoDuplicates(Answered(s, r)) && forall c: Callback :: c in Answered(s, r) <==> Due(s, r, c)
  {
    AtReply(s, r);
    AnsweredOnce(s, r);
    forall c: Callback
      ensures c in Answered(s, r) <==> Due(s, r, c)
    {
      AnsweredIsDue(s, r, c);
    }
  }

  lemma ReplyKeepsSent(s: State, r: RequestId)
    requires Inv(s) && r in s.sent
    ensures TagsAreSent(Reply(s, r)) && SentIsTagged(Reply(s, r))
  {
    var t := Reply(s, r);
    LookReply(s, r);
    AtReply(s, r);
    forall k <- t.sent, m <- t.sent[k].ids
      ensures WaitsFor(t, t.sent[k].peer, m, k)
    {
      assert WaitsFor(s, s.sent[k].peer, m, k);
    }
    forall p: Peer, m: MsgId | Look(t, p, m).Some? && Look(t, p, m).value.requestId > 0
      ensures var k := Look(t, p, m).value.requestId; k in t.sent && t.sent[k].peer == p && m in t.sent[k].ids
    {
      assert Look(t, p, m) == Look(s, p, m);
    }
  }

  lemma ReplyKeepsQueue(s: State, r: RequestId)
    requires Inv(s) && r in s.sent
    ensures UntaggedIsQueued(Reply(s, r))
  {
    var t := Reply(s, r);
    LookReply(s, r);
    AtReply(s, r);
    forall p: Peer, m: MsgId | !t.queued
      ensures !WaitsFor(t, p, m, 0)
    {
      assert NothingUntagged(s, p) && !WaitsFor(s, p, m, 0);
    }
  }

  lemma ReplyKeepsChannels(s: State, r: RequestId)
    requires Inv(s) && r in s.sent
    ensures NoEmptyChannel(Reply(s, r))
  {
  }

  lemma ReplyKeepsHeld(s: State, r: RequestId)
    requires Inv(s) && r in s.sent
    ensures HeldAtPlace(Reply(s, r)) && HeldOrCalled(Reply(s, r))
  {
    var t := Reply(s, r);
    LookReply(s, r);
    ReplyCalls(s, r);
    AtReply(s, r);
    forall p: Peer, m: MsgId, c: Callback | Held(t, p, m, c)
      ensures c in t.places && t.places[c] == (p, m) && c !in t.called
    {
      assert Held(s, p, m, c) && !Due(s, r, c);
    }
    forall c <- t.places
      ensures c in t.called || Held(t, t.places[c].0, t.places[c].1, c)
    {
      assert c in s.called || Held(s, s.places[c].0, s.places[c].1, c);
      assert Due(s, r, c) ==> c in Answered(s, r);
    }
  }

  lemma ReplyKeepsCallbacks(s: State, r: RequestId)
    requires Inv(s) && r in s.sent
    ensures CallbacksOnce(Reply(s, r))
  {
    var t := Reply(s, r);
    ReplyKeepsHeld(s, r);
    ReplyCalls(s, r);
    assert forall c <- Answered(s, r) :: Due(s, r, c);
    NoDuplicatesAppend(s.called, Answered(s, r));
    forall p: Peer, m: MsgId
      ensures NoDuplicates(Waiting(t, p, m))
    {
      LookReply(s, r);
      assert NoDuplicates(Waiting(s, p, m));
    }
  }

  lemma Keeps(s: State, step: Step)
    requires Inv(s) && Allowed(s, step)
    ensures Inv(Next(s, step))
  {
    match step
    case CallStep(peer, msgId, done) =>
      CallKeepsLinks(s, peer, msgId, done);
      CallKeepsCallbacks(s, peer, msgId, done);
    case ResolveStep(order) =>
      ResolveKeeps(s, order);
    case ReplyStep(r) =>
      ReplyKeepsSent(s, r);
      ReplyKeepsChannels(s, r);
      ReplyKeepsCallbacks(s, r);
      ReplyKeepsQueue(s, r);
  }
}
