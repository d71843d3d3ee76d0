/** Pending web page previews: which pages wait, and for which message request. */
module WebPages {
  import opened Basics

  type Page = nat
  type RequestId = int

  // The message that shows a page, in a channel or elsewhere.
  datatype Item = Item(channel: Option<nat>, msgId: nat)

  datatype Sent = Sent(channel: Option<nat>, ids: seq<nat>)

  const MAX_WAIT: int := 86400
  const INT_MAX: int := 0x7FFF_FFFF

  /** The pending map holds zero for a page that was not asked for and the request id for one that was;
      while requests are put together it holds negative placeholders. `asked` keeps every request ever sent. */
  datatype State = State(
    pending: map<Page, int>,
    till: map<Page, int>,
    failed: set<Page>,
    next: RequestId,
    asked: map<RequestId, Sent>,
    open: set<RequestId>)

  const INITIAL: State := State(map[], map[], {}, 1, map[], {})

  function Till(s: State, p: Page): int {
    if p in s.till then s.till[p] else 0
  }

  // A page to ask for now.
  predicate Due(s: State, items: map<Page, Item>, now: int, p: Page) {
    p in s.pending && s.pending[p] <= 0 && Till(s, p) <= now && p in items
  }

  predicate New(s: State, t: State, r: RequestId) {
    r in t.asked && r !in s.asked
  }

  // Where a resolve leaves a page.
  ghost predicate Placed(s: State, t: State, items: map<Page, Item>, now: int, p: Page)
    requires p in s.pending && p in t.pending
  {
    if Due(s, items, now, p) then
      && t.pending[p] > 0 && New(s, t, t.pending[p])
      && t.asked[t.pending[p]].channel == items[p].channel
      && items[p].msgId in t.asked[t.pending[p]].ids
    else t.pending[p] == s.pending[p]
  }

  // A new request asks only for due pages that wait for it, once for each.
  ghost predicate AsksForDue(s: State, t: State, items: map<Page, Item>, now: int, r: RequestId)
    requires r in t.asked && t.pending.Keys == s.pending.Keys
  {
    t.asked[r].ids != [] && |t.asked[r].ids| == |Waiting(t, r)| &&
    forall id <- t.asked[r].ids :: exists p ::
      Due(s, items, now, p) && items[p] == Item(t.asked[r].channel, id) && t.pending[p] == r
  }

  ghost predicate Resolved(s: State, t: State, items: map<Page, Item>, now: int) {
    && t == s.(pending := t.pending, next := t.next, asked := t.asked, open := t.open)
    && t.pending.Keys == s.pending.Keys
    && (forall p <- s.pending :: Placed(s, t, items, now, p))
    && t.next >= s.next
    && (forall r <- s.asked :: r in t.asked && t.asked[r] == s.asked[r])
    && (forall r :: New(s, t, r) ==> s.next <= r < t.next && AsksForDue(s, t, items, now, r))
    && (forall q, r :: New(s, t, q) && New(s, t, r) && t.asked[q].channel == t.asked[r].channel ==> q == r)
    && t.open == s.open + (t.asked.Keys - s.asked.Keys)
  }

  function Request(s: State, p: Page): State {
    if p in s.failed || Till(s, p) == 0 || p in s.pending then s
    else s.(pending := s.pending[p := 0])
  }

  function Clear(s: State, p: Page): State {
    s.(pending := s.pending - {p})
  }

  function Waiting(s: State, r: RequestId): set<Page> {
    set p | p in s.pending && s.pending[p] == r
  }

  // The answer to a request; `applied` are the pages that it resolved.
  function Got(s: State, r: RequestId, applied: set<Page>): State {
    var till := map p | p in s.till :: if p in applied then 0 else s.till[p];
    var t := s.(till := till, open := s.open - {r});
    var unresolved := set p | p in Waiting(s, r) && Till(t, p) > 0;
    t.(
      pending := s.pending - Waiting(s, r),
      till := map p | p in till :: if p in unresolved then 0 else till[p],
      failed := s.failed + unresolved)
  }

  datatype Step =
    | SetTillStep(p: Page, till: int)
    | RequestStep(p: Page)
    | ClearStep(p: Page)
    | ClearAllStep
    | ResolveStep(items: map<Page, Item>, now: int)
    | GotStep(r: RequestId, applied: set<Page>)
    | FailStep(r: RequestId)

  // A failure of a request reaches no handler: it only ends the request.
  ghost predicate Next(s: State, step: Step, t: State) {
    match step
    case SetTillStep(p, till) => t == s.(till := s.till[p := till])
    case RequestStep(p) => t == Request(s, p)
    case ClearStep(p) => t == Clear(s, p)
    case ClearAllStep => t == s.(pending := map[])
    case ResolveStep(items, now) => Resolved(s, t, items, now)
    case GotStep(r, applied) => r in s.open && t == Got(s, r, applied)
    case FailStep(r) => r in s.open && t == s.(open := s.open - {r})
  }

  ghost predicate Inv(s: State) {
    && s.next > 0
    && (forall p <- s.pending :: s.pending[p] == 0 || (s.pending[p] > 0 && s.pending[p] in s.asked))
    && (forall r <- s.asked :: 0 < r < s.next)
    && s.open <= s.asked.Keys
  }

  lemma Keeps(s: State, step: Step, t: State)
    requires Inv(s) && Next(s, step, t)
    ensures Inv(t)
  {
    match step
    case ResolveStep(items, now) =>
      forall p <- t.pending
        ensures t.pending[p] == 0 || (t.pending[p] > 0 && t.pending[p] in t.asked)
      {
        assert Placed(s, t, items, now, p);
      }
      forall r <- t.asked
        ensures 0 < r < t.next
      {
        assert r in s.asked || New(s, t, r);
      }
      assert forall r <- s.open :: r in s.asked && r in t.asked;
    case _ =>
  }

  // ---- runs ----

  ghost predicate IsRun(states: seq<State>, steps: seq<Step>) {
    && |states| == |steps| + 1
    && forall i :: 0 <= i < |steps| ==> Next(states[i], steps[i], states[i + 1])
  }

  lemma InitialInv()
    ensures Inv(INITIAL)
  {
    assert INITIAL.open <= INITIAL.asked.Keys;
  }

  // No placeholder outlives a resolve: in every state of a run a page has no request id or that of a request sent.
  lemma {:induction false} RunKeeps(states: seq<State>, steps: seq<Step>, i: nat)
    requires IsRun(states, steps) && Inv(states[0]) && i < |states|
    ensures Inv(states[i])
  {
    if i > 0 {
      RunKeeps(states, steps, i - 1);
      Keeps(states[i - 1], steps[i - 1], states[i]);
    }
  }

  // Only an answer to its request, or a clear, takes a page that was asked for out of the map.
  ghost predicate Releases(step: Step, p: Page, r: RequestId) {
    match step
    case ClearStep(q) => q == p
    case ClearAllStep => true
    case GotStep(q, _) => q == r
    case _ => false
  }

  lemma AskedStays(s: State, step: Step, t: State, p: Page)
    requires Inv(s) && Next(s, step, t) && p in s.pending && s.pending[p] > 0
    ensures p in t.pending && t.pending[p] == s.pending[p] <==> !Releases(step, p, s.pending[p])
  {
    match step
    case ResolveStep(items, now) =>
      assert Placed(s, t, items, now, p);
    case _ =>
  }

  // A page whose request has failed waits until it is cleared, through every resolve.
  lemma {:induction false} FailedRequestStrands(states: seq<State>, steps: seq<Step>, p: Page, r: RequestId, i: nat)
    requires IsRun(states, steps) && Inv(states[0]) && i < |states|
    requires p in states[0].pending && states[0].pending[p] == r && r > 0 && r !in states[0].open
    requires forall step <- steps :: step != ClearStep(p) && !step.ClearAllStep?
    ensures p in states[i].pending && states[i].pending[p] == r && r !in states[i].open
  {
    if i > 0 {
      FailedRequestStrands(states, steps, p, r, i - 1);
      RunKeeps(states, steps, i - 1);
      var s, step, t := states[i - 1], steps[i - 1], states[i];
      assert steps[i - 1] in steps && Next(s, step, t);
      assert !Releases(step, p, r);
      AskedStays(s, step, t, p);
    }
  }

  // A page that is asked for, whose request fails, is not asked for by the next resolve.
  lemma StrandedPage() returns (states: seq<State>)
    ensures var items := map[0 := Item(None, 7)];
      var steps := [SetTillStep(0, 5), RequestStep(0), ResolveStep(items, 10), FailStep(1), ResolveStep(items, 20)];
      && IsRun(states, steps) && states[0] == INITIAL
      && states[5].pending == map[0 := 1] && states[5].open == {} && Till(states[5], 0) <= 20 && 0 in items
  {
    var items := map[0 := Item(None, 7)];
    var waits := INITIAL.(till := map[0 := 5]);
    var pends := waits.(pending := map[0 := 0]);
    var asks := pends.(pending := map[0 := 1], next := 2, asked := map[1 := Sent(None, [7])], open := {1});
    var ends := asks.(open := {});
    FirstResolve(pends, asks, items);
    LateResolve(ends, items);
    assert asks.open - {1} == {};
    states := [INITIAL, waits, pends, asks, ends, ends];
    FiveSteps(states, [SetTillStep(0, 5), RequestStep(0), ResolveStep(items, 10), FailStep(1), ResolveStep(items, 20)]);
  }

  lemma FiveSteps(states: seq<State>, steps: seq<Step>)
    requires |states| == 6 && |steps| == 5
    requires Next(states[0], steps[0], states[1]) && Next(states[1], steps[1], states[2])
    requires Next(states[2], steps[2], states[3]) && Next(states[3], steps[3], states[4])
    requires Next(states[4], steps[4], states[5])
    ensures IsRun(states, steps)
  {
  }

  lemma FirstResolve(s: State, t: State, items: map<Page, Item>)
    requires items == map[0 := Item(None, 7)] && s.pending == map[0 := 0] && Till(s, 0) == 5
    requires s.asked == map[] && s.open == {} && s.next == 1
    requires t == s.(pending := map[0 := 1], next := 2, asked := map[1 := Sent(None, [7])], open := {1})
    ensures Resolved(s, t, items, 10)
  {
    assert Due(s, items, 10, 0) && items[0] == Item(None, 7) && t.pending[0] == 1;
    assert Waiting(t, 1) == {0};
    assert AsksForDue(s, t, items, 10, 1);
    assert t.open == s.open + (t.asked.Keys - s.asked.Keys);
  }

  lemma LateResolve(s: State, items: map<Page, Item>)
    requires s.pending == map[0 := 1]
    ensures Resolved(s, s, items, 20)
  {
    assert s.open == s.open + (s.asked.Keys - s.asked.Keys);
  }

  // An answer takes out exactly the pages of its request, and fails those it did not resolve.
  lemma GotRemovesItsPages(s: State, r: RequestId, applied: set<Page>, p: Page)
    requires p in s.pending
    ensures var t := Got(s, r, applied);
      && (p in t.pending <==> s.pending[p] != r)
      && (p in t.pending ==> t.pending[p] == s.pending[p])
      && (p in t.failed <==> p in s.failed || (s.pending[p] == r && p !in applied && Till(s, p) > 0))
      && (s.pending[p] == r ==> Till(t, p) <= 0)
  {
  }
}
