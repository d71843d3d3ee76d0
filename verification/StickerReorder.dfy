/** When the new order of the sticker sets is sent to the server: after the requests of its save. */
module StickerReorder {
  import opened Basics

  type RequestId = nat

  /** One type of stickers. `pending` are the requests of the last save not answered yet, `waiting` all requests
      on their way with the save they belong to; the rest is history: what each save asked and how long its order is,
      which requests were answered, and the saves whose order was sent. */
  datatype Lane = Lane(
    pending: set<RequestId>,
    waiting: map<RequestId, nat>,
    save: nat,
    requests: map<nat, set<RequestId>>,
    lengths: map<nat, nat>,
    answered: set<RequestId>,
    reorders: seq<nat>)

  const INITIAL: Lane := Lane({}, map[], 0, map[], map[], {}, [])

  // An order of fewer than two sets is not sent.
  function SaveOrder(s: Lane, save: nat): Lane {
    if save !in s.lengths || s.lengths[save] < 2 then s else s.(reorders := s.reorders + [save])
  }

  // A save cancels the requests of the one before it, sends its own, and its order at once if it has none.
  function Save(s: Lane, ids: set<RequestId>, length: nat): Lane {
    var t := s.(
      pending := ids,
      waiting := map r | r in ids :: s.save + 1,
      save := s.save + 1,
      requests := s.requests[s.save + 1 := ids],
      lengths := s.lengths[s.save + 1 := length]);
    if ids == {} then SaveOrder(t, t.save) else t
  }

  // The answer to a request, good or bad, runs the handler of its save.
  function Reply(s: Lane, r: RequestId): Lane
    requires r in s.waiting
  {
    var t := s.(waiting := s.waiting - {r}, pending := s.pending - {r}, answered := s.answered + {r});
    if t.pending == {} then SaveOrder(t, s.waiting[r]) else t
  }

  datatype Step = SaveStep(ids: set<RequestId>, length: nat) | ReplyStep(r: RequestId)

  // Request ids are used once.
  predicate Allowed(s: Lane, step: Step) {
    match step
    case SaveStep(ids, _) => ids !! s.answered
    case ReplyStep(r) => r in s.waiting
  }

  function Next(s: Lane, step: Step): Lane
    requires Allowed(s, step)
  {
    match step
    case SaveStep(ids, length) => Save(s, ids, length)
    case ReplyStep(r) => Reply(s, r)
  }

  // A save whose order was sent has two sets at least and all its answers.
  ghost predicate Settled(s: Lane, save: nat) {
    && save in s.requests && save in s.lengths
    && s.lengths[save] >= 2 && s.requests[save] <= s.answered
  }

  ghost predicate Inv(s: Lane) {
    && s.pending == s.waiting.Keys
    && (forall r <- s.waiting :: s.waiting[r] == s.save)
    && (forall k: nat :: k in s.requests <==> 0 < k <= s.save)
    && (forall k: nat :: k in s.lengths <==> 0 < k <= s.save)
    && (s.save > 0 ==> s.requests[s.save] - s.answered == s.pending)
    && (s.save == 0 ==> s.pending == {})
    && NoDuplicates(s.reorders)
    && (forall k <- s.reorders :: Settled(s, k))
    && (s.save > 0 && s.pending == {} && s.lengths[s.save] >= 2 ==> s.save in s.reorders)
  }

  lemma SaveOrderOnce(s: Lane, save: nat)
    requires NoDuplicates(s.reorders) && save !in s.reorders
    ensures NoDuplicates(SaveOrder(s, save).reorders)
  {
  }

  lemma SaveKeeps(s: Lane, ids: set<RequestId>, length: nat)
    requires Inv(s) && ids !! s.answered
    ensures Inv(Save(s, ids, length))
  {
    var save: nat := s.save + 1;
    var t := Save(s, ids, length);
    forall k <- s.reorders
      ensures k != save
    {
      assert Settled(s, k);
    }
    SaveOrderOnce(s, save);
    assert t.requests[save] - t.answered == ids;
    forall k <- t.reorders
      ensures Settled(t, k)
    {
      assert k in s.reorders ==> Settled(s, k);
    }
  }

  lemma ReplyKeeps(s: Lane, r: RequestId)
    requires Inv(s) && r in s.waiting
    ensures Inv(Reply(s, r))
  {
    var t := Reply(s, r);
    assert s.save in s.reorders ==> Settled(s, s.save);
    assert t.requests[t.save] - t.answered == t.pending;
    forall k <- t.reorders
      ensures Settled(t, k)
    {
      assert k in s.reorders ==> Settled(s, k);
    }
  }

  lemma Keeps(s: Lane, step: Step)
    requires Inv(s) && Allowed(s, step)
    ensures Inv(Next(s, step))
  {
    match step
    case SaveStep(ids, length) => SaveKeeps(s, ids, length);
    case ReplyStep(r) => ReplyKeeps(s, r);
  }

  // ---- runs ----

  ghost predicate IsRun(s: Lane, steps: seq<Step>)
    decreases |steps|
  {
    steps == [] || (Allowed(s, steps[0]) && IsRun(Next(s, steps[0]), steps[1..]))
  }

  ghost function Run(s: Lane, steps: seq<Step>): Lane
    requires IsRun(s, steps)
    decreases |steps|
  {
    if steps == [] then s else Run(Next(s, steps[0]), steps[1..])
  }

  lemma {:induction false} RunKeeps(s: Lane, steps: seq<Step>)
    requires Inv(s) && IsRun(s, steps)
    ensures Inv(Run(s, steps))
    decreases |steps|
  {
    if steps != [] {
      Keeps(s, steps[0]);
      RunKeeps(Next(s, steps[0]), steps[1..]);
    }
  }

  // The order of a save is sent at most once, with two sets at least, and only when all its requests are answered.
  lemma OrderAfterAnswers(steps: seq<Step>, k: nat)
    requires IsRun(INITIAL, steps)
    ensures var s := Run(INITIAL, steps);
      && multiset(s.reorders)[k] <= 1
      && (k in s.reorders ==> k in s.requests && k in s.lengths && s.lengths[k] >= 2 && s.requests[k] <= s.answered)
  {
    var s := Run(INITIAL, steps);
    RunKeeps(INITIAL, steps);
    OccursOnce(s.reorders, k);
    assert k in s.reorders ==> Settled(s, k);
  }

  // The order of the last save is sent exactly when its requests are all answered and it has two sets at least.
  lemma OrderOfLastSave(steps: seq<Step>)
    requires IsRun(INITIAL, steps) && Run(INITIAL, steps).save > 0
    ensures var s := Run(INITIAL, steps);
      && s.save in s.requests && s.save in s.lengths
      && multiset(s.reorders)[s.save] == if s.requests[s.save] <= s.answered && s.lengths[s.save] >= 2 then 1 else 0
  {
    var s := Run(INITIAL, steps);
    RunKeeps(INITIAL, steps);
    OccursOnce(s.reorders, s.save);
    assert s.save in s.reorders ==> Settled(s, s.save);
    assert forall r <- s.requests[s.save] :: r in s.answered || r in s.pending;
    if s.requests[s.save] <= s.answered {
      assert s.requests[s.save] - s.answered == {};
    }
  }

  lemma NextOrdersLast(s: Lane, step: Step, k: nat)
    requires Inv(s) && Allowed(s, step) && k < Next(s, step).save
    ensures multiset(Next(s, step).reorders)[k] == multiset(s.reorders)[k]
  {
  }

  // The order of a superseded save is not sent any more.
  lemma {:induction false} NoOrderOfOldSave(s: Lane, steps: seq<Step>, k: nat)
    requires Inv(s) && IsRun(s, steps) && k < s.save
    ensures multiset(Run(s, steps).reorders)[k] == multiset(s.reorders)[k]
    decreases |steps|
  {
    if steps != [] {
      NextOrdersLast(s, steps[0], k);
      Keeps(s, steps[0]);
      NoOrderOfOldSave(Next(s, steps[0]), steps[1..], k);
    }
  }
}
