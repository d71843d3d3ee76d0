/** In which order the callbacks of message data are called. */
module MessageDataOrder {
  import opened MessageData

  // A place of a callback: a message, and how many callbacks wait for it before this one.
  type Place = (MsgId, nat)

  predicate Before(p: Place, q: Place) {
    p.0 < q.0 || (p.0 == q.0 && p.1 < q.1)
  }

  ghost predicate ArePlaces(at: seq<Place>, requests: Requests, ids: set<MsgId>, callbacks: seq<Callback>) {
    && |at| == |callbacks|
    && (forall i :: 0 <= i < |at| ==>
         && at[i].0 in ids && at[i].0 in requests && at[i].1 < |requests[at[i].0].callbacks|
         && callbacks[i] == requests[at[i].0].callbacks[at[i].1])
    && forall i, j :: 0 <= i < j < |at| ==> Before(at[i], at[j])
  }

  lemma PlacesMore(requests: Requests, ids: set<MsgId>, m: MsgId, at: seq<Place>, callbacks: seq<Callback>)
    returns (more: seq<Place>)
    requires IsLeast(ids, m) && m in requests && ArePlaces(at, requests, ids - {m}, callbacks)
    ensures ArePlaces(more, requests, ids, requests[m].callbacks + callbacks)
  {
    var own := requests[m].callbacks;
    var first := seq(|own|, k requires 0 <= k < |own| => (m, k as nat));
    more := first + at;
    forall i, j | 0 <= i < j < |more|
      ensures Before(more[i], more[j])
    {
      if j >= |own| {
        assert more[j] == at[j - |own|] && at[j - |own|].0 in ids - {m};
        assert m < at[j - |own|].0;
        assert i >= |own| ==> more[i] == at[i - |own|];
      }
    }
  }

  // The callbacks are called message by message in the order of the ids, and those of a message in the order in which
  // they wait.
  lemma {:induction false} GatherOrder(requests: Requests, ids: set<MsgId>) returns (at: seq<Place>)
    requires ids <= requests.Keys
    ensures ArePlaces(at, requests, ids, Gather(requests, ids))
    decreases |ids|
  {
    if ids == {} {
      at := [];
    } else {
      var m := Least(ids);
      var rest := GatherOrder(requests, ids - {m});
      at := PlacesMore(requests, ids, m, rest, Gather(requests, ids - {m}));
    }
  }

  // A callback is put behind those that wait for its message already; a reply then calls the waiting ones of its
  // messages in this order, behind all that were called before.
  lemma CalledInOrder(s: State, r: RequestId) returns (at: seq<Place>)
    requires Linked(s) && r in s.sent
    ensures var t, requests := Reply(s, r), At(s, s.sent[r].peer);
      && s.called <= t.called
      && ArePlaces(at, requests, s.sent[r].ids, t.called[|s.called|..])
  {
    var requests := At(s, s.sent[r].peer);
    AtReply(s, r);
    at := GatherOrder(requests, Tagged(requests, r));
    TaggedAreAsked(s, r);
    assert Reply(s, r).called[|s.called|..] == Answered(s, r);
  }

  lemma TaggedAreAsked(s: State, r: RequestId)
    requires Linked(s) && r in s.sent
    ensures Tagged(At(s, s.sent[r].peer), r) <= s.sent[r].ids
  {
    var p := s.sent[r].peer;
    forall m <- Tagged(At(s, p), r)
      ensures m in s.sent[r].ids
    {
      assert Look(s, p, m).Some? && Look(s, p, m).value.requestId == r;
    }
  }
}
