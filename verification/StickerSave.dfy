/** Saving the installed sticker sets: what becomes of the sets, their order and the recent stickers. */
module StickerSave {

  type SetId = nat
  type DocId = nat

  datatype StickersType = Stickers | Masks | Emoji

  datatype StickerSet = StickerSet(
    installed: bool,
    archived: bool,
    featured: bool,
    special: bool,
    masks: bool,
    emoji: bool,
    locked: int,
    installDate: int,
    stickers: seq<DocId>)

  datatype Recent = Recent(doc: DocId, rating: int)

  // A request to uninstall or install a set.
  datatype SetRequest = Uninstall(id: SetId) | Install(id: SetId)

  datatype State = State(
    sets: map<SetId, StickerSet>,
    order: seq<SetId>,
    recent: seq<Recent>,
    requests: seq<SetRequest>)

  const CUSTOM_SET_ID: SetId := 0xFFFF_FFFF_FFFF_FFFF
  const CLOUD_RECENT_SET_ID: SetId := 0xFFFF_FFFF_FFFF_FFFC
  const CLOUD_RECENT_ATTACHED_SET_ID: SetId := 0xFFFF_FFFF_FFFF_FFF9

  predicate IsCloudRecent(id: SetId) {
    id == CLOUD_RECENT_SET_ID || id == CLOUD_RECENT_ATTACHED_SET_ID
  }

  function TypeOf(s: StickerSet): StickersType {
    if s.emoji then Emoji else if s.masks then Masks else Stickers
  }

  // What keeps a set in the map.
  predicate Keeps(s: StickerSet) {
    s.featured || s.installed || s.archived || s.special || s.emoji || s.locked > 0
  }

  // ---- the four loops ----

  function WithoutStickersOf(recent: seq<Recent>, stickers: seq<DocId>): (r: seq<Recent>)
    ensures forall x :: x in r <==> x in recent && x.doc !in stickers
    ensures |r| <= |recent|
  {
    if recent == [] then []
    else
      (if recent[0].doc in stickers then [] else [recent[0]]) + WithoutStickersOf(recent[1..], stickers)
  }

  function WithoutFirst(order: seq<SetId>, id: SetId): seq<SetId> {
    if order == [] then []
    else if order[0] == id then order[1..]
    else [order[0]] + WithoutFirst(order[1..], id)
  }

  // A set that is uninstalled goes, unless something else than being installed keeps it.
  function Uninstalled(s: StickerSet): StickerSet {
    s.(installed := false, archived := false, installDate := 0)
  }

  function Remove(s: State, id: SetId): State {
    if IsCloudRecent(id) then
      s.(sets := s.sets - {CLOUD_RECENT_SET_ID, CLOUD_RECENT_ATTACHED_SET_ID, CUSTOM_SET_ID}, recent := [])
    else if id !in s.sets then s
    else
      var x := s.sets[id];
      var t := s.(recent := WithoutStickersOf(s.recent, x.stickers));
      if x.archived then t
      else
        t.(
          requests := s.requests + [Uninstall(id)],
          order := WithoutFirst(s.order, id),
          sets := if !x.featured && !x.special && !x.emoji && !(x.locked > 0) then s.sets - {id}
                  else s.sets[id := Uninstalled(x)])
  }

  function RemoveAll(s: State, removed: seq<SetId>): State
    decreases |removed|
  {
    if removed == [] then s else RemoveAll(Remove(s, removed[0]), removed[1..])
  }

  function ClearInstalled(x: StickerSet, kind: StickersType): StickerSet {
    if !x.archived && TypeOf(x) == kind then x.(installed := false) else x
  }

  function Cleared(s: State, kind: StickersType): State {
    s.(sets := map id | id in s.sets :: ClearInstalled(s.sets[id], kind), order := [])
  }

  function Placed(x: StickerSet, unarchive: bool, now: int): StickerSet {
    x.(
      archived := x.archived && !unarchive,
      installed := true,
      installDate := if x.installDate == 0 then now else x.installDate)
  }

  function Place(s: State, id: SetId, removed: seq<SetId>, now: int): State {
    if id !in s.sets then s
    else
      var x := s.sets[id];
      var install := x.archived && id !in removed;
      s.(
        requests := if install then s.requests + [Install(id)] else s.requests,
        sets := s.sets[id := Placed(x, install, now)],
        order := s.order + [id])
  }

  function PlaceAll(s: State, order: seq<SetId>, removed: seq<SetId>, now: int): State
    decreases |order|
  {
    if order == [] then s else PlaceAll(Place(s, order[0], removed, now), order[1..], removed, now)
  }

  function Swept(s: State): State {
    s.(sets := map id | id in s.sets && Keeps(s.sets[id]) :: s.sets[id])
  }

  function Save(s: State, order: seq<SetId>, removed: seq<SetId>, kind: StickersType, now: int): State {
    Swept(PlaceAll(Cleared(RemoveAll(s.(requests := []), removed), kind), order, removed, now))
  }

  // ---- what a save brings about ----

  function Existing(order: seq<SetId>, sets: map<SetId, StickerSet>): (r: seq<SetId>)
    ensures forall id :: id in r <==> id in order && id in sets
  {
    if order == [] then []
    else (if order[0] in sets then [order[0]] else []) + Existing(order[1..], sets)
  }

  lemma {:induction false} ExistingSame(order: seq<SetId>, x: map<SetId, StickerSet>, y: map<SetId, StickerSet>)
    requires forall id <- order :: id in x <==> id in y
    ensures Existing(order, x) == Existing(order, y)
  {
    if order != [] {
      assert forall id <- order[1..] :: id in order;
      ExistingSame(order[1..], x, y);
    }
  }

  lemma PlaceOrder(s: State, id: SetId, removed: seq<SetId>, now: int)
    ensures var u := Place(s, id, removed, now);
      u.sets.Keys == s.sets.Keys && u.order == s.order + (if id in s.sets then [id] else []) && u.recent == s.recent
  {
    if id in s.sets {
      assert Place(s, id, removed, now).sets.Keys == s.sets.Keys + {id};
    }
  }

  // Placing adds no set, and the order is that of the ids that exist.
  lemma {:induction false} PlaceAllOrder(s: State, order: seq<SetId>, removed: seq<SetId>, now: int)
    ensures var t := PlaceAll(s, order, removed, now);
      t.sets.Keys == s.sets.Keys && t.order == s.order + Existing(order, s.sets) && t.recent == s.recent
    decreases |order|
  {
    if order != [] {
      var u := Place(s, order[0], removed, now);
      PlaceOrder(s, order[0], removed, now);
      PlaceAllOrder(u, order[1..], removed, now);
      ExistingSame(order[1..], u.sets, s.sets);
    }
  }

  // Placing changes the ordered sets only, and placing one twice is placing it once.
  lemma {:induction false} PlaceAllAt(s: State, order: seq<SetId>, removed: seq<SetId>, now: int, id: SetId)
    requires id in s.sets
    ensures var t := PlaceAll(s, order, removed, now);
      id in t.sets &&
      t.sets[id] == if id in order then Placed(s.sets[id], id !in removed, now) else s.sets[id]
    decreases |order|
  {
    if order != [] {
      var u := Place(s, order[0], removed, now);
      assert u.sets[id] == if id == order[0] then Placed(s.sets[id], id !in removed, now) else s.sets[id];
      PlaceAllAt(u, order[1..], removed, now, id);
    }
  }

  // The new order is the given one, of the sets that are still there; each of them is installed.
  lemma SavedOrder(s: State, order: seq<SetId>, removed: seq<SetId>, kind: StickersType, now: int)
    ensures var t := Save(s, order, removed, kind, now);
      && t.order == Existing(order, t.sets)
      && forall id <- t.order :: id in t.sets && t.sets[id].installed
  {
    var u := Cleared(RemoveAll(s.(requests := []), removed), kind);
    PlaceAllOrder(u, order, removed, now);
    var t := Save(s, order, removed, kind, now);
    forall id <- order
      ensures id in u.sets <==> id in t.sets
      ensures id in t.sets ==> t.sets[id].installed
    {
      if id in u.sets {
        PlaceAllAt(u, order, removed, now, id);
      }
    }
    ExistingSame(order, u.sets, t.sets);
    assert [] + Existing(order, t.sets) == Existing(order, t.sets);
  }

  // Every installed set of the type that is not archived is in the order, and every set left has a reason to be kept.
  lemma SavedSets(s: State, order: seq<SetId>, removed: seq<SetId>, kind: StickersType, now: int)
    ensures var t := Save(s, order, removed, kind, now);
      && (forall id <- t.sets ::
           t.sets[id].installed && !t.sets[id].archived && TypeOf(t.sets[id]) == kind ==> id in t.order)
      && (forall id <- t.sets :: Keeps(t.sets[id]))
  {
    var r := RemoveAll(s.(requests := []), removed);
    var u := Cleared(r, kind);
    var t := Save(s, order, removed, kind, now);
    PlaceAllOrder(u, order, removed, now);
    SavedOrder(s, order, removed, kind, now);
    forall id <- t.sets | t.sets[id].installed && !t.sets[id].archived && TypeOf(t.sets[id]) == kind
      ensures id in t.order
    {
      PlaceAllAt(u, order, removed, now, id);
    }
  }

  // An ordered set ends archived exactly when it was archived and is among the removed ones as well.
  lemma SavedArchived(s: State, order: seq<SetId>, removed: seq<SetId>, kind: StickersType, now: int, id: SetId)
    requires id in Save(s, order, removed, kind, now).order
    ensures var t := Save(s, order, removed, kind, now);
      id in t.sets && id in s.sets && (t.sets[id].archived <==> s.sets[id].archived && id in removed)
  {
    var r := RemoveAll(s.(requests := []), removed);
    var u := Cleared(r, kind);
    SavedOrder(s, order, removed, kind, now);
    PlaceAllOrder(u, order, removed, now);
    RemoveAllSets(s.(requests := []), removed);
    PlaceAllAt(u, order, removed, now, id);
  }

  // Removing never brings a set in, and leaves archived what was archived.
  lemma {:induction false} RemoveAllSets(s: State, removed: seq<SetId>)
    ensures var t := RemoveAll(s, removed);
      && t.sets.Keys <= s.sets.Keys
      && (forall id <- t.sets :: t.sets[id].stickers == s.sets[id].stickers)
      && (forall id <- t.sets :: t.sets[id].archived == s.sets[id].archived)
    decreases |removed|
  {
    if removed != [] {
      RemoveAllSets(Remove(s, removed[0]), removed[1..]);
    }
  }

  lemma {:induction false} RemoveAllRecent(s: State, removed: seq<SetId>, id: SetId)
    requires id in removed && (id in s.sets || IsCloudRecent(id))
    ensures var t := RemoveAll(s, removed);
      && (forall x <- t.recent :: x in s.recent)
      && (IsCloudRecent(id) ==> t.recent == [])
      && (!IsCloudRecent(id) ==> forall x <- t.recent :: x.doc !in s.sets[id].stickers)
    decreases |removed|
  {
    var u := Remove(s, removed[0]);
    RecentShrinks(u, removed[1..]);
    if id != removed[0] && (id in u.sets || IsCloudRecent(id)) {
      RemoveAllRecent(u, removed[1..], id);
    } else if id != removed[0] || IsCloudRecent(id) {
      assert u.recent == [];
    }
  }

  lemma {:induction false} RecentShrinks(s: State, removed: seq<SetId>)
    ensures forall x <- RemoveAll(s, removed).recent :: x in s.recent
    ensures |RemoveAll(s, removed).recent| <= |s.recent|
    decreases |removed|
  {
    if removed != [] {
      RecentShrinks(Remove(s, removed[0]), removed[1..]);
    }
  }

  // No sticker of a removed set stays among the recent ones.
  lemma SavedRecent(s: State, order: seq<SetId>, removed: seq<SetId>, kind: StickersType, now: int, id: SetId)
    requires id in removed && (id in s.sets || IsCloudRecent(id))
    ensures var t := Save(s, order, removed, kind, now);
      && (forall x <- t.recent :: x in s.recent)
      && (IsCloudRecent(id) ==> t.recent == [])
      && (!IsCloudRecent(id) ==> forall x <- t.recent :: x.doc !in s.sets[id].stickers)
  {
    var r := RemoveAll(s.(requests := []), removed);
    RemoveAllRecent(s.(requests := []), removed, id);
    PlaceAllOrder(Cleared(r, kind), order, removed, now);
  }

  // ---- each set on its own ----

  predicate IsCloud(id: SetId) {
    IsCloudRecent(id) || id == CUSTOM_SET_ID
  }

  // Whether uninstalling takes the set away.
  predicate Vanishes(x: StickerSet) {
    !x.archived && !x.featured && !x.special && !x.emoji && x.locked <= 0
  }

  function AfterRemoval(x: StickerSet, id: SetId, removed: seq<SetId>): StickerSet {
    if id in removed && !x.archived then Uninstalled(x) else x
  }

  // What a save makes of a set, before it is decided whether the set is kept.
  function AfterSave(x: StickerSet, id: SetId, order: seq<SetId>, removed: seq<SetId>, kind: StickersType, now: int)
    : StickerSet
  {
    var y := ClearInstalled(AfterRemoval(x, id, removed), kind);
    if id in order then Placed(y, id !in removed, now) else y
  }

  // Removing one of the cloud-recent ids takes out the three sets of that kind, whatever keeps them.
  predicate Wiped(id: SetId, removed: seq<SetId>) {
    IsCloud(id) && exists c <- removed :: IsCloudRecent(c)
  }

  // The removed ids that can uninstall this set.
  function Uninstalling(id: SetId, removed: seq<SetId>): seq<SetId> {
    if removed == [] || (IsCloud(id) && IsCloudRecent(removed[0])) then []
    else [removed[0]] + Uninstalling(id, removed[1..])
  }

  lemma WipedFirst(id: SetId, removed: seq<SetId>)
    requires removed != []
    ensures Wiped(id, removed) <==> (IsCloud(id) && IsCloudRecent(removed[0])) || Wiped(id, removed[1..])
  {
    assert removed == [removed[0]] + removed[1..];
  }

  lemma {:induction false} RemoveAllAt(s: State, removed: seq<SetId>, id: SetId)
    ensures var t := RemoveAll(s, removed);
      && (id in t.sets <==> id in s.sets && !Wiped(id, removed) && !(id in removed && Vanishes(s.sets[id])))
      && (id in t.sets ==> t.sets[id] == AfterRemoval(s.sets[id], id, removed))
      && (Uninstall(id) in t.requests <==>
           Uninstall(id) in s.requests
           || (id in Uninstalling(id, removed) && id in s.sets && !s.sets[id].archived))
      && (Install(id) in t.requests <==> Install(id) in s.requests)
    decreases |removed|
  {
    if removed != [] {
      WipedFirst(id, removed);
      RemoveAllAt(Remove(s, removed[0]), removed[1..], id);
    }
  }

  lemma {:induction false} PlaceAllRequests(s: State, order: seq<SetId>, removed: seq<SetId>, now: int, id: SetId)
    ensures var t := PlaceAll(s, order, removed, now);
      && (Uninstall(id) in t.requests <==> Uninstall(id) in s.requests)
      && (Install(id) in t.requests <==>
           Install(id) in s.requests || (id in order && id in s.sets && s.sets[id].archived && id !in removed))
    decreases |order|
  {
    if order != [] {
      PlaceAllRequests(Place(s, order[0], removed, now), order[1..], removed, now, id);
    }
  }

  // A set is left after a save exactly when it was there, was not wiped, did not vanish and has a reason to be kept;
  // it is uninstalled when removed, and installed when it comes out of the archive.
  lemma SavedSet(s: State, order: seq<SetId>, removed: seq<SetId>, kind: StickersType, now: int, id: SetId)
    ensures var t := Save(s, order, removed, kind, now);
      && (id in t.sets <==>
           id in s.sets && !Wiped(id, removed) && !(id in removed && Vanishes(s.sets[id]))
           && Keeps(AfterSave(s.sets[id], id, order, removed, kind, now)))
      && (id in t.sets ==> t.sets[id] == AfterSave(s.sets[id], id, order, removed, kind, now))
      && (Uninstall(id) in t.requests <==> id in Uninstalling(id, removed) && id in s.sets && !s.sets[id].archived)
      && (Install(id) in t.requests <==>
           id in order && id in s.sets && !Wiped(id, removed) && s.sets[id].archived && id !in removed)
  {
    var r := RemoveAll(s.(requests := []), removed);
    var u := Cleared(r, kind);
    RemoveAllAt(s.(requests := []), removed, id);
    PlaceAllRequests(u, order, removed, now, id);
    PlaceAllOrder(u, order, removed, now);
    if id in u.sets {
      PlaceAllAt(u, order, removed, now, id);
    }
  }

  // For every other set, and while no cloud-recent id is removed, all removed ids count.
  lemma {:induction false} OrdinaryRemoval(id: SetId, removed: seq<SetId>)
    requires !IsCloud(id) || forall c <- removed :: !IsCloudRecent(c)
    ensures !Wiped(id, removed) && Uninstalling(id, removed) == removed
    decreases |removed|
  {
    if removed != [] {
      OrdinaryRemoval(id, removed[1..]);
    }
  }
}
