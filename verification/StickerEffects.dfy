/** What a save of sticker sets does to every set, field by field, and to the recent stickers, and what it requests. */
module StickerEffects {
  import opened Basics
  import opened StickerSave

  // The type that the flags of a set say.
  predicate HasType(x: StickerSet, kind: StickersType) {
    match kind
    case Emoji => x.emoji
    case Masks => x.masks && !x.emoji
    case Stickers => !x.masks && !x.emoji
  }

  // A removed set is uninstalled, unless it is archived.
  predicate Goes(x: StickerSet, id: SetId, removed: seq<SetId>) {
    id in removed && !x.archived
  }

  // What keeps a set without being installed or archived.
  predicate HasOtherUse(x: StickerSet) {
    x.featured || x.special || x.emoji || x.locked > 0
  }

  // Ordered sets are installed; of the others, those of the type are not any more, unless they are archived.
  predicate EndsInstalled(x: StickerSet, id: SetId, order: seq<SetId>, removed: seq<SetId>, kind: StickersType) {
    id in order || (x.installed && !Goes(x, id, removed) && (x.archived || !HasType(x, kind)))
  }

  predicate EndsArchived(x: StickerSet, id: SetId, order: seq<SetId>, removed: seq<SetId>) {
    x.archived && (id in order ==> id in removed)
  }

  // The date on which an uninstalled set was installed is forgotten; an ordered set without one gets one.
  function EndDate(x: StickerSet, id: SetId, order: seq<SetId>, removed: seq<SetId>, now: int): int {
    var date := if Goes(x, id, removed) then 0 else x.installDate;
    if id in order && date == 0 then now else date
  }

  lemma TypeIs(x: StickerSet, kind: StickersType)
    ensures TypeOf(x) == kind <==> HasType(x, kind)
  {
  }

  // What becomes of a set that is not wiped.
  lemma SavedFields(s: State, order: seq<SetId>, removed: seq<SetId>, kind: StickersType, now: int, id: SetId)
    requires id in s.sets && !Wiped(id, removed)
    ensures var x, t := s.sets[id], Save(s, order, removed, kind, now);
      && (id in t.sets <==>
           || HasOtherUse(x)
           || (!Goes(x, id, removed)
               && (EndsInstalled(x, id, order, removed, kind) || EndsArchived(x, id, order, removed))))
      && (id in t.sets ==>
           && t.sets[id].installed == EndsInstalled(x, id, order, removed, kind)
           && t.sets[id].archived == EndsArchived(x, id, order, removed)
           && t.sets[id].installDate == EndDate(x, id, order, removed, now)
           && t.sets[id].featured == x.featured && t.sets[id].special == x.special
           && t.sets[id].masks == x.masks && t.sets[id].emoji == x.emoji
           && t.sets[id].locked == x.locked && t.sets[id].stickers == x.stickers)
  {
    SavedSet(s, order, removed, kind, now, id);
    TypeIs(s.sets[id], kind);
    TypeIs(AfterRemoval(s.sets[id], id, removed), kind);
  }

  // A set of another type that is neither ordered nor removed stays exactly as it was.
  lemma OtherTypesStay(s: State, order: seq<SetId>, removed: seq<SetId>, kind: StickersType, now: int, id: SetId)
    requires id in s.sets && !HasType(s.sets[id], kind) && id !in order && id !in removed
    requires id != CLOUD_RECENT_SET_ID && id != CLOUD_RECENT_ATTACHED_SET_ID && id != CUSTOM_SET_ID
    requires HasOtherUse(s.sets[id]) || s.sets[id].installed || s.sets[id].archived
    ensures var t := Save(s, order, removed, kind, now);
      id in t.sets && t.sets[id] == s.sets[id]
  {
    OrdinaryRemoval(id, removed);
    SavedFields(s, order, removed, kind, now, id);
  }

  // ---- the recent stickers ----

  // A sticker of a removed set.
  predicate Struck(sets: map<SetId, StickerSet>, removed: seq<SetId>, x: Recent) {
    exists id <- removed :: id in sets && x.doc in sets[id].stickers
  }

  lemma {:induction false} RecentFiltered(recent: seq<Recent>, stickers: seq<DocId>, keep: Recent -> bool)
    requires forall x: Recent :: keep(x) <==> x.doc !in stickers
    ensures WithoutStickersOf(recent, stickers) == Filter(recent, keep)
  {
    if recent != [] {
      RecentFiltered(recent[1..], stickers, keep);
    }
  }

  lemma {:induction false} NothingRecent(s: State, removed: seq<SetId>)
    requires s.recent == []
    ensures RemoveAll(s, removed).recent == []
    decreases |removed|
  {
    if removed != [] {
      NothingRecent(Remove(s, removed[0]), removed[1..]);
    }
  }

  // A removed set strikes its stickers once; what later ones strike does not depend on it.
  lemma StruckFirst(s: State, removed: seq<SetId>, x: Recent)
    requires removed != [] && !IsCloudRecent(removed[0])
    ensures var id, t := removed[0], Remove(s, removed[0]);
      Struck(s.sets, removed, x) <==>
        (id in s.sets && x.doc in s.sets[id].stickers) || Struck(t.sets, removed[1..], x)
  {
    var id, t := removed[0], Remove(s, removed[0]);
    assert removed == [id] + removed[1..];
    assert forall other <- t.sets :: other in s.sets && t.sets[other].stickers == s.sets[other].stickers;
    assert forall other <- s.sets :: other != id ==> other in t.sets;
  }

  lemma {:induction false} RemovedRecent(s: State, removed: seq<SetId>, keep: Recent -> bool)
    requires forall c <- removed :: !IsCloudRecent(c)
    requires forall x: Recent :: keep(x) <==> !Struck(s.sets, removed, x)
    ensures RemoveAll(s, removed).recent == Filter(s.recent, keep)
    decreases |removed|
  {
    if removed == [] {
      AllKept(s.recent, keep);
    } else {
      var id, t := removed[0], Remove(s, removed[0]);
      var here := (x: Recent) => !(id in s.sets && x.doc in s.sets[id].stickers);
      var later := (x: Recent) => !Struck(t.sets, removed[1..], x);
      RemovedRecent(t, removed[1..], later);
      if id in s.sets {
        RecentFiltered(s.recent, s.sets[id].stickers, here);
      } else {
        AllKept(s.recent, here);
      }
      assert t.recent == Filter(s.recent, here);
      forall x: Recent
        ensures keep(x) <==> here(x) && later(x)
      {
        StruckFirst(s, removed, x);
      }
      FilterTwice(s.recent, here, later, keep);
    }
  }

  lemma {:induction false} WipedRecent(s: State, removed: seq<SetId>)
    requires exists c <- removed :: IsCloudRecent(c)
    ensures RemoveAll(s, removed).recent == []
    decreases |removed|
  {
    var t := Remove(s, removed[0]);
    if IsCloudRecent(removed[0]) {
      NothingRecent(t, removed[1..]);
    } else {
      assert removed == [removed[0]] + removed[1..];
      WipedRecent(t, removed[1..]);
    }
  }

  // The recent stickers are those from before, in their order, without the stickers of removed sets; removing one of
  // the cloud-recent sets clears them.
  lemma SavedRecents(s: State, order: seq<SetId>, removed: seq<SetId>, kind: StickersType, now: int,
      keep: Recent -> bool)
    requires forall x: Recent :: keep(x) <==> !exists id <- removed :: id in s.sets && x.doc in s.sets[id].stickers
    ensures Save(s, order, removed, kind, now).recent
      == if exists c <- removed :: c == CLOUD_RECENT_SET_ID || c == CLOUD_RECENT_ATTACHED_SET_ID then []
         else Filter(s.recent, keep)
  {
    var r := RemoveAll(s.(requests := []), removed);
    PlaceAllOrder(Cleared(r, kind), order, removed, now);
    if exists c <- removed :: IsCloudRecent(c) {
      WipedRecent(s.(requests := []), removed);
    } else {
      RemovedRecent(s.(requests := []), removed, keep);
    }
  }

  // ---- the requests ----

  // How often a set is asked to be uninstalled: once if it goes away, and else each time it is removed.
  function Uninstalls(x: StickerSet, id: SetId, removed: seq<SetId>): nat {
    var times := multiset(Uninstalling(id, removed))[id];
    if x.archived then 0 else if times > 0 && !HasOtherUse(x) then 1 else times
  }

  lemma RequestsMore(s: State, removed: seq<SetId>, id: SetId)
    requires removed != []
    ensures multiset(Remove(s, removed[0]).requests)[Uninstall(id)] == multiset(s.requests)[Uninstall(id)]
      + if removed[0] == id && !IsCloudRecent(id) && id in s.sets && !s.sets[id].archived then 1 else 0
    ensures multiset(Remove(s, removed[0]).requests)[Install(id)] == multiset(s.requests)[Install(id)]
  {
  }

  lemma {:induction false} NoMoreUninstalls(s: State, removed: seq<SetId>, id: SetId)
    requires id !in s.sets
    ensures multiset(RemoveAll(s, removed).requests)[Uninstall(id)] == multiset(s.requests)[Uninstall(id)]
    ensures multiset(RemoveAll(s, removed).requests)[Install(id)] == multiset(s.requests)[Install(id)]
    decreases |removed|
  {
    if removed != [] {
      RequestsMore(s, removed, id);
      NoMoreUninstalls(Remove(s, removed[0]), removed[1..], id);
    }
  }

  lemma UninstallingFirst(id: SetId, removed: seq<SetId>)
    requires removed != []
    ensures multiset(Uninstalling(id, removed))[id] ==
      if IsCloud(id) && IsCloudRecent(removed[0]) then 0
      else (if removed[0] == id then 1 else 0) + multiset(Uninstalling(id, removed[1..]))[id]
  {
  }

  // What removing one id does to a set.
  lemma OneRemoved(s: State, other: SetId, id: SetId)
    requires id in s.sets
    ensures var x, t := s.sets[id], Remove(s, other);
      && (id in t.sets <==>
           if IsCloudRecent(other) then !IsCloud(id) else other != id || x.archived || HasOtherUse(x))
      && (id in t.sets ==> t.sets[id].archived == x.archived && HasOtherUse(t.sets[id]) == HasOtherUse(x))
  {
  }

  // The first of the removed ids.
  lemma UninstallsFirst(s: State, removed: seq<SetId>, id: SetId)
    requires removed != [] && id in s.sets
    ensures var t, n := Remove(s, removed[0]), Uninstalls(s.sets[id], id, removed);
      var here := if removed[0] == id && !IsCloudRecent(id) && !s.sets[id].archived then 1 else 0;
      if id in t.sets then n == here + Uninstalls(t.sets[id], id, removed[1..]) else n == here
  {
    UninstallingFirst(id, removed);
    OneRemoved(s, removed[0], id);
  }

  lemma {:induction false} UninstallsSent(s: State, removed: seq<SetId>, id: SetId)
    requires id in s.sets
    ensures multiset(RemoveAll(s, removed).requests)[Uninstall(id)]
      == multiset(s.requests)[Uninstall(id)] + Uninstalls(s.sets[id], id, removed)
    ensures multiset(RemoveAll(s, removed).requests)[Install(id)] == multiset(s.requests)[Install(id)]
    decreases |removed|
  {
    if removed != [] {
      var t := Remove(s, removed[0]);
      RequestsMore(s, removed, id);
      UninstallsFirst(s, removed, id);
      if id in t.sets {
        UninstallsSent(t, removed[1..], id);
      } else {
        NoMoreUninstalls(t, removed[1..], id);
      }
    }
  }

  lemma {:induction false} InstallsSent(s: State, order: seq<SetId>, removed: seq<SetId>, now: int, id: SetId)
    ensures var t := PlaceAll(s, order, removed, now);
      && multiset(t.requests)[Uninstall(id)] == multiset(s.requests)[Uninstall(id)]
      && multiset(t.requests)[Install(id)] == multiset(s.requests)[Install(id)]
           + if id in order && id in s.sets && s.sets[id].archived && id !in removed then 1 else 0
    decreases |order|
  {
    if order != [] {
      InstallsSent(Place(s, order[0], removed, now), order[1..], removed, now, id);
    }
  }

  // Exactly these requests are sent for a set.
  lemma SavedRequests(s: State, order: seq<SetId>, removed: seq<SetId>, kind: StickersType, now: int, id: SetId)
    ensures var t := Save(s, order, removed, kind, now);
      && multiset(t.requests)[Uninstall(id)] == (if id in s.sets then Uninstalls(s.sets[id], id, removed) else 0)
      && multiset(t.requests)[Install(id)] ==
           if id in order && id in s.sets && !Wiped(id, removed) && s.sets[id].archived && id !in removed then 1 else 0
  {
    var s0 := s.(requests := []);
    var r := RemoveAll(s0, removed);
    RemoveAllAt(s0, removed, id);
    InstallsSent(Cleared(r, kind), order, removed, now, id);
    if id in s.sets {
      UninstallsSent(s0, removed, id);
    } else {
      NoMoreUninstalls(s0, removed, id);
    }
  }

  // ---- the order ----

  lemma {:induction false} ExistingFiltered(order: seq<SetId>, sets: map<SetId, StickerSet>, keep: SetId -> bool)
    requires forall id <- order :: keep(id) <==> id in sets
    ensures Existing(order, sets) == Filter(order, keep)
  {
    if order != [] {
      assert order[0] in order && forall id <- order[1..] :: id in order;
      ExistingFiltered(order[1..], sets, keep);
    }
  }

  // The new order is the given one without the sets that are not left.
  lemma OrderIsFiltered(s: State, order: seq<SetId>, removed: seq<SetId>, kind: StickersType, now: int,
      keep: SetId -> bool)
    requires forall id: SetId :: keep(id) <==> id in Save(s, order, removed, kind, now).sets
    ensures Save(s, order, removed, kind, now).order == Filter(order, keep)
  {
    SavedOrder(s, order, removed, kind, now);
    ExistingFiltered(order, Save(s, order, removed, kind, now).sets, keep);
  }
}
