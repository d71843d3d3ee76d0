/** The sticker sets of a session, and the method that saves a new arrangement of one type. */
module StickerSets {
  import opened StickerSave
  import Reorder = StickerReorder

  class SetsStorage {
    var sets: map<SetId, StickerSet>
    var order: seq<SetId>
    var recent: seq<Recent>
    var requests: seq<SetRequest>
    var nextRequestId: Reorder.RequestId
    var stickersOrder: seq<SetId>
    var masksOrder: seq<SetId>
    var emojiOrder: seq<SetId>
    var stickersLane: Reorder.Lane
    var masksLane: Reorder.Lane
    var emojiLane: Reorder.Lane

    constructor ()
      ensures sets == map[] && recent == []
      ensures forall kind: StickersType :: LaneOf(kind) == Reorder.INITIAL && OrderOf(kind) == []
    {
      sets, order, recent, requests, nextRequestId := map[], [], [], [], 1;
      stickersOrder, masksOrder, emojiOrder := [], [], [];
      stickersLane, masksLane, emojiLane := Reorder.INITIAL, Reorder.INITIAL, Reorder.INITIAL;
    }

    // The part that a save of one type works on.
    function View(): State
      reads this
    {
      State(sets, order, recent, requests)
    }

    function OrderOf(kind: StickersType): seq<SetId>
      reads this`stickersOrder, this`masksOrder, this`emojiOrder
    {
      match kind
      case Stickers => stickersOrder
      case Masks => masksOrder
      case Emoji => emojiOrder
    }

    function LaneOf(kind: StickersType): Reorder.Lane
      reads this`stickersLane, this`masksLane, this`emojiLane
    {
      match kind
      case Stickers => stickersLane
      case Masks => masksLane
      case Emoji => emojiLane
    }

    method EraseRecent(stickers: seq<DocId>)
      modifies this`recent
      ensures recent == WithoutStickersOf(old(recent), stickers)
    {
      var i := 0;
      assert recent[..0] == [] && recent[0..] == recent;
      while i < |recent|
        invariant 0 <= i <= |recent|
        invariant recent[..i] + WithoutStickersOf(recent[i..], stickers) == WithoutStickersOf(old(recent), stickers)
        decreases |recent| - i
      {
        CutOut(recent, i);
        Looked(recent[..i], recent[i], recent[i + 1..], stickers);
        if recent[i].doc in stickers {
          recent := recent[..i] + recent[i + 1..];
        } else {
          i := i + 1;
        }
      }
      assert recent[..i] == recent;
    }

    static lemma OrderTurn(order: seq<SetId>, i: nat, id: SetId)
      requires i < |order|
      ensures order[..i] + WithoutFirst(order[i..], id)
        == if order[i] == id then order[..i] + order[i + 1..] else order[..i + 1] + WithoutFirst(order[i + 1..], id)
    {
      var rest := order[i..];
      assert rest[0] == order[i] && rest[1..] == order[i + 1..];
      assert order[..i] + [order[i]] == order[..i + 1];
    }

    method EraseFromOrder(id: SetId)
      modifies this`order
      ensures order == WithoutFirst(old(order), id)
    {
      var i := 0;
      assert order[..0] + WithoutFirst(order[0..], id) == WithoutFirst(order, id);
      while i < |order| && order[i] != id
        invariant 0 <= i <= |order| && order == old(order)
        invariant order[..i] + WithoutFirst(order[i..], id) == WithoutFirst(order, id)
      {
        OrderTurn(order, i, id);
        i := i + 1;
      }
      if i < |order| {
        OrderTurn(order, i, id);
        order := order[..i] + order[i + 1..];
      } else {
        assert order[..i] == order;
      }
    }

    method RemoveSet(id: SetId)
      modifies this`sets, this`order, this`recent, this`requests
      ensures View() == Remove(old(View()), id)
    {
      if IsCloudRecent(id) {
        sets := sets - {CLOUD_RECENT_SET_ID, CLOUD_RECENT_ATTACHED_SET_ID, CUSTOM_SET_ID};
        recent := [];
      } else if id in sets {
        var x := sets[id];
        EraseRecent(x.stickers);
        if !x.archived {
          requests := requests + [Uninstall(id)];
          EraseFromOrder(id);
          if !x.featured && !x.special && !x.emoji && !(x.locked > 0) {
            sets := sets - {id};
          } else {
            sets := sets[id := x.(installed := false, archived := false, installDate := 0)];
          }
        }
      }
    }

    method ClearAllInstalled(kind: StickersType)
      modifies this`sets
      ensures sets == Cleared(old(View()), kind).sets
    {
      ghost var all := sets;
      var left := sets.Keys;
      while left != {}
        invariant left <= all.Keys == sets.Keys
        invariant forall id <- all :: sets[id] == if id in left then all[id] else ClearInstalled(all[id], kind)
        decreases |left|
      {
        var id :| id in left;
        left := left - {id};
        if !sets[id].archived && TypeOf(sets[id]) == kind {
          sets := sets[id := sets[id].(installed := false)];
        }
      }
    }

    method PlaceSet(id: SetId, removed: seq<SetId>, now: int)
      modifies this`sets, this`order, this`requests
      ensures View() == Place(old(View()), id, removed, now)
    {
      if id !in sets {
        return;
      }
      var x := sets[id];
      if x.archived && id !in removed {
        requests := requests + [Install(id)];
        x := x.(archived := false);
      }
      order := order + [id];
      x := x.(installed := true);
      if x.installDate == 0 {
        x := x.(installDate := now);
      }
      sets := sets[id := x];
    }

    method Sweep()
      modifies this`sets
      ensures sets == Swept(old(View())).sets
    {
      ghost var all := sets;
      var left := sets.Keys;
      while left != {}
        invariant left <= all.Keys
        invariant forall id :: id in sets <==> id in all && (id in left || Keeps(all[id]))
        invariant forall id <- sets :: sets[id] == all[id]
        decreases |left|
      {
        var id :| id in left;
        left := left - {id};
        if !Keeps(sets[id]) {
          sets := sets - {id};
        }
      }
    }

    // Changes the sets, the order and the recent stickers, and collects the requests.
    method Rearrange(localOrder: seq<SetId>, localRemoved: seq<SetId>, kind: StickersType, now: int)
      modifies this`sets, this`order, this`recent, this`requests
      ensures View() == Save(old(View()), localOrder, localRemoved, kind, now)
    {
      ghost var s := View().(requests := []);
      requests := [];
      var i := 0;
      while i < |localRemoved|
        invariant i <= |localRemoved|
        invariant RemoveAll(View(), localRemoved[i..]) == RemoveAll(s, localRemoved)
      {
        assert localRemoved[i..][1..] == localRemoved[i + 1..];
        RemoveSet(localRemoved[i]);
        i := i + 1;
      }
      ClearAllInstalled(kind);
      order := [];
      ghost var u := Cleared(RemoveAll(s, localRemoved), kind);
      assert View() == u;
      i := 0;
      while i < |localOrder|
        invariant i <= |localOrder|
        invariant PlaceAll(View(), localOrder[i..], localRemoved, now) == PlaceAll(u, localOrder, localRemoved, now)
      {
        assert localOrder[i..][1..] == localOrder[i + 1..];
        PlaceSet(localOrder[i], localRemoved, now);
        i := i + 1;
      }
      Sweep();
    }

    method SetLane(kind: StickersType, lane: Reorder.Lane)
      modifies this`stickersLane, this`masksLane, this`emojiLane
      ensures forall k: StickersType :: LaneOf(k) == if k == kind then lane else old(LaneOf(k))
    {
      match kind
      case Stickers => stickersLane := lane;
      case Masks => masksLane := lane;
      case Emoji => emojiLane := lane;
    }

    method SetOrder(kind: StickersType, ids: seq<SetId>)
      modifies this`stickersOrder, this`masksOrder, this`emojiOrder
      ensures forall k: StickersType :: OrderOf(k) == if k == kind then ids else old(OrderOf(k))
    {
      match kind
      case Stickers => stickersOrder := ids;
      case Masks => masksOrder := ids;
      case Emoji => emojiOrder := ids;
    }

    // Hands out fresh request ids.
    method FreshIds(count: nat) returns (ids: set<Reorder.RequestId>)
      modifies this`nextRequestId
      ensures |ids| == count && nextRequestId == old(nextRequestId) + count
      ensures forall r <- ids :: old(nextRequestId) <= r < nextRequestId
    {
      ids := {};
      for i := 0 to count
        invariant |ids| == i && nextRequestId == old(nextRequestId) + i
        invariant forall r <- ids :: old(nextRequestId) <= r < nextRequestId
      {
        ids := ids + {nextRequestId};
        nextRequestId := nextRequestId + 1;
      }
    }

    // What a save does to the sets, the recent stickers and the order of its type.
    method SaveOneKind(localOrder: seq<SetId>, localRemoved: seq<SetId>, kind: StickersType, now: int)
      modifies this`sets, this`order, this`recent, this`requests, this`stickersOrder, this`masksOrder, this`emojiOrder
      ensures var t := Save(State(old(sets), old(OrderOf(kind)), old(recent), []), localOrder, localRemoved, kind, now);
        && sets == t.sets && recent == t.recent && requests == t.requests
        && (forall k: StickersType :: OrderOf(k) == if k == kind then t.order else old(OrderOf(k)))
    {
      order := OrderOf(kind);
      requests := [];
      Rearrange(localOrder, localRemoved, kind, now);
      SetOrder(kind, order);
    }

    // A save touches the lane and the order of its type only, and sends one request for each set it changes.
    method SaveStickerSets(localOrder: seq<SetId>, localRemoved: seq<SetId>, kind: StickersType, now: int)
      returns (ids: set<Reorder.RequestId>)
      modifies this
      ensures var t := Save(State(old(sets), old(OrderOf(kind)), old(recent), []), localOrder, localRemoved, kind, now);
        && sets == t.sets && recent == t.recent && requests == t.requests
        && (forall k: StickersType :: OrderOf(k) == if k == kind then t.order else old(OrderOf(k)))
      ensures |ids| == |requests| && forall r <- ids :: old(nextRequestId) <= r < nextRequestId
      ensures LaneOf(kind) == Reorder.Save(old(LaneOf(kind)), ids, |localOrder|)
      ensures forall k: StickersType :: k != kind ==> LaneOf(k) == old(LaneOf(k))
    {
      SaveOneKind(localOrder, localRemoved, kind, now);
      ids := FreshIds(|requests|);
      SetLane(kind, Reorder.Save(LaneOf(kind), ids, |localOrder|));
    }

    // The answer to a set request of this type.
    method StickerSetDisenabled(kind: StickersType, r: Reorder.RequestId)
      requires r in LaneOf(kind).waiting
      modifies this`stickersLane, this`masksLane, this`emojiLane
      ensures forall k: StickersType ::
        LaneOf(k) == if k == kind then Reorder.Reply(old(LaneOf(k)), r) else old(LaneOf(k))
    {
      SetLane(kind, Reorder.Reply(LaneOf(kind), r));
    }
  }

  lemma CutOut<T>(s: seq<T>, i: nat)
    requires i < |s|
    ensures var t := s[..i] + s[i + 1..]; t[..i] == s[..i] && t[i..] == s[i + 1..]
    ensures s[..i + 1] == s[..i] + [s[i]] && s[i..] == [s[i]] + s[i + 1..]
  {
  }

  lemma OneLooked(one: Recent, after: seq<Recent>, stickers: seq<DocId>)
    ensures WithoutStickersOf([one] + after, stickers)
      == (if one.doc in stickers then [] else [one]) + WithoutStickersOf(after, stickers)
  {
    assert ([one] + after)[1..] == after;
  }

  // A sticker that is looked at goes or stays, and what follows is looked at next.
  lemma Looked(before: seq<Recent>, one: Recent, after: seq<Recent>, stickers: seq<DocId>)
    ensures before + WithoutStickersOf([one] + after, stickers)
      == (if one.doc in stickers then before else before + [one]) + WithoutStickersOf(after, stickers)
  {
    OneLooked(one, after, stickers);
    Regroup(before, one, WithoutStickersOf(after, stickers));
  }

  lemma Regroup<T>(before: seq<T>, one: T, after: seq<T>)
    ensures before + ([one] + after) == before + [one] + after && before + ([] + after) == before + after
  {
  }
}
