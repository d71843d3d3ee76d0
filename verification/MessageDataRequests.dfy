/** The message data maps of the API wrapper, and the methods that update them. */
module MessageDataRequests {
  import opened Basics
  import opened MessageData

  class DataRequests {
    var common: Requests
    var channels: map<nat, Requests>
    var queued: bool
    var next: RequestId
    var sent: map<RequestId, Sent>
    ghost var places: map<Callback, (Peer, MsgId)>
    var called: seq<Callback>

    constructor ()
      ensures View() == INITIAL
    {
      common, channels, queued, next, sent, places, called := map[], map[], false, 1, map[], map[], [];
    }

    ghost function View(): State
      reads this
    {
      State(common, channels, queued, next, sent, places, called)
    }

    method RequestsOf(peer: Peer) returns (requests: Requests)
      ensures requests == At(View(), peer)
    {
      match peer
      case Common => requests := common;
      case Channel(id) => requests := if id in channels then channels[id] else map[];
    }

    method Store(peer: Peer, requests: Requests)
      modifies this`common, this`channels
      ensures View() == Put(old(View()), peer, requests)
    {
      match peer
      case Common => common := requests;
      case Channel(id) => channels := channels[id := requests];
    }

    method RequestMessageData(peer: Peer, msgId: MsgId, done: Option<Callback>)
      modifies this
      ensures View() == Call(old(View()), peer, msgId, done)
    {
      var requests := RequestsOf(peer);
      var entry := if msgId in requests then requests[msgId] else Entry(0, []);
      if done.Some? {
        entry := entry.(callbacks := entry.callbacks + [done.value]);
        places := places[done.value := (peer, msgId)];
      }
      Store(peer, requests[msgId := entry]);
      if entry.requestId == 0 {
        queued := true;
      }
    }

    method CollectMessageIds(requests: Requests) returns (ids: set<MsgId>)
      ensures ids == Untagged(requests)
    {
      ids := {};
      var left := requests.Keys;
      while left != {}
        invariant left <= requests.Keys
        invariant ids == Untagged(requests) - left
      {
        var m :| m in left;
        left := left - {m};
        if requests[m].requestId == 0 {
          ids := ids + {m};
        }
      }
    }

    method TagAll(requests: Requests, r: RequestId) returns (tagged: Requests)
      requires r > 0
      ensures tagged == Tag(requests, r)
    {
      tagged := requests;
      var left := requests.Keys;
      while left != {}
        invariant left <= requests.Keys == tagged.Keys
        invariant forall m <- requests :: tagged[m] == if m in left then requests[m] else Tag(requests, r)[m]
      {
        var m :| m in left;
        left := left - {m};
        if tagged[m].requestId == 0 {
          tagged := tagged[m := tagged[m].(requestId := r)];
        }
      }
    }

    // Sends one request for all entries of the peer that have none.
    method Send(peer: Peer)
      requires next > 0
      modifies this
      ensures View() == SendFor(old(View()), peer)
    {
      var requests := RequestsOf(peer);
      if peer.Channel? && requests == map[] {
        channels := channels - {peer.id};
        return;
      }
      var ids := CollectMessageIds(requests);
      if ids != {} {
        var requestId := next;
        next := next + 1;
        sent := sent[requestId := Sent(peer, ids)];
        var tagged := TagAll(requests, requestId);
        Store(peer, tagged);
      }
    }

    // Runs the queued resolve; the channels come in the order of their map.
    method ResolveMessageDatas() returns (ghost order: seq<Peer>)
      requires queued && next > 0 && NoEmptyChannel(View())
      modifies this
      ensures IsOrder(old(View()), order)
      ensures View() == Resolve(old(View()), order)
    {
      ghost var s := View();
      ghost var t := s.(queued := false);
      queued := false;
      order := [Common];
      if common == map[] && channels == map[] {
        return;
      }
      ghost var keys := s.channels.Keys;
      SendForReady(t, Common, keys);
      Send(Common);
      var left := channels.Keys;
      SendForAllLast(t, [], Common);
      assert [] + [Common] == order;
      while left != {}
        invariant Ready(View(), keys)
        invariant IsOrderOf(order, keys, left)
        invariant View() == SendForAll(t, order)
      {
        var c :| c in left;
        SendForReady(View(), Channel(c), keys);
        SendForAllLast(t, order, Channel(c));
        Send(Channel(c));
        NextInOrder(order, keys, left, c);
        left := left - {c};
        order := order + [Channel(c)];
      }
    }

    // Splits off the entries that wait for the request, from the least id on.
    method TakeTagged(all: Requests, r: RequestId) returns (requests: Requests, callbacks: seq<Callback>)
      ensures requests == all - Tagged(all, r)
      ensures callbacks == Gather(all, Tagged(all, r))
    {
      requests, callbacks := all, [];
      var left := all.Keys;
      assert Tagged(all, r) * left == Tagged(all, r);
      while left != {}
        invariant left <= all.Keys
        invariant callbacks + Gather(all, Tagged(all, r) * left) == Gather(all, Tagged(all, r))
        invariant requests == all - (Tagged(all, r) - left)
      {
        LeastExists(left);
        ghost var least :| IsLeast(left, least);
        assert least in left && forall k <- left :: least <= k;
        var m :| m in left && forall k <- left :: m <= k;
        assert m in requests;
        NextGathered(all, r, left, m);
        if requests[m].requestId == r {
          ghost var rest := Gather(all, Tagged(all, r) * (left - {m}));
          assert callbacks + (all[m].callbacks + rest) == callbacks + all[m].callbacks + rest;
          callbacks := callbacks + requests[m].callbacks;
          requests := requests - {m};
        }
        left := left - {m};
      }
    }

    // The answer to request r, good or bad.
    method FinalizeMessageDataRequest(r: RequestId)
      requires r in sent
      modifies this
      ensures View() == Reply(old(View()), r)
    {
      var peer := sent[r].peer;
      sent := sent - {r};
      if peer.Channel? && peer.id !in channels {
        return;
      }
      var all := RequestsOf(peer);
      var requests, callbacks := TakeTagged(all, r);
      if peer.Channel? && requests == map[] {
        channels := channels - {peer.id};
      } else {
        Store(peer, requests);
      }
      called := called + callbacks;
    }
  }

  ghost predicate Ready(s: State, keys: set<nat>) {
    s.next > 0 && NoEmptyChannel(s) && s.channels.Keys == keys
  }

  lemma SendForReady(s: State, peer: Peer, keys: set<nat>)
    requires Ready(s, keys)
    ensures Ready(SendFor(s, peer), keys)
  {
    SendForKeepsChannels(s, peer);
  }

  lemma NextInOrder(order: seq<Peer>, all: set<nat>, left: set<nat>, c: nat)
    requires IsOrderOf(order, all, left) && c in left
    ensures IsOrderOf(order + [Channel(c)], all, left - {c})
  {
    assert Channel(c) in order + [Channel(c)];
  }

  // The peers sent for so far: the common ones, then the channels that are not left.
  ghost predicate IsOrderOf(order: seq<Peer>, all: set<nat>, left: set<nat>) {
    && |order| > 0 && order[0] == Common
    && (forall i :: 1 <= i < |order| ==> order[i].Channel? && order[i].id in all)
    && left <= all
    && (forall c <- all :: c in left || Channel(c) in order)
  }

  lemma {:induction false} SendForAllLast(s: State, peers: seq<Peer>, p: Peer)
    ensures SendForAll(s, peers + [p]) == SendFor(SendForAll(s, peers), p)
    decreases |peers|
  {
    if peers == [] {
      assert SendForAll(SendFor(s, p), []) == SendFor(s, p);
    } else {
      assert (peers + [p])[1..] == peers[1..] + [p];
      SendForAllLast(SendFor(s, peers[0]), peers[1..], p);
    }
  }

  // Visiting the entries from the least id on meets the tagged ones in the order they are gathered.
  lemma NextGathered(requests: Requests, r: RequestId, left: set<MsgId>, m: MsgId)
    requires left <= requests.Keys && IsLeast(left, m)
    ensures var ids := Tagged(requests, r) * left;
      var rest := Gather(requests, Tagged(requests, r) * (left - {m}));
      Gather(requests, ids) == if m in ids then requests[m].callbacks + rest else rest
  {
    var ids := Tagged(requests, r) * left;
    var rest := Tagged(requests, r) * (left - {m});
    if m in ids {
      assert Least(ids) == m;
      assert ids - {m} == rest;
    } else {
      assert ids == rest;
    }
  }
}
