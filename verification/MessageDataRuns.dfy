/** What holds in every run of the message data requests. */
module MessageDataRuns {
  import opened Basics
  import opened MessageData

  ghost predicate IsRun(s: State, steps: seq<Step>)
    decreases |steps|
  {
    steps == [] || (Allowed(s, steps[0]) && IsRun(Next(s, steps[0]), steps[1..]))
  }

  ghost function Run(s: State, steps: seq<Step>): State
    requires IsRun(s, steps)
    decreases |steps|
  {
    if steps == [] then s else Run(Next(s, steps[0]), steps[1..])
  }

  lemma {:induction false} RunKeeps(s: State, steps: seq<Step>)
    requires Inv(s) && IsRun(s, steps)
    ensures Inv(Run(s, steps))
    decreases |steps|
  {
    if steps != [] {
      Keeps(s, steps[0]);
      RunKeeps(Next(s, steps[0]), steps[1..]);
    }
  }

  lemma Reachable(steps: seq<Step>)
    requires IsRun(INITIAL, steps)
    ensures Inv(Run(INITIAL, steps))
  {
    RunKeeps(INITIAL, steps);
  }

  // In every reachable state a registered callback is either called, once, or held in exactly one entry, once.
  lemma HeldOrCalledOnce(steps: seq<Step>, c: Callback)
    requires IsRun(INITIAL, steps) && c in Run(INITIAL, steps).places
    ensures var s := Run(INITIAL, steps); var (p0, m0) := s.places[c];
      && (c in s.called <==> !Held(s, p0, m0, c))
      && (forall p: Peer, m: MsgId :: Held(s, p, m, c) ==> p == p0 && m == m0)
      && multiset(s.called)[c] + multiset(Waiting(s, p0, m0))[c] == 1
  {
    var s := Run(INITIAL, steps);
    var (p0, m0) := s.places[c];
    Reachable(steps);
    assert c in s.called ==> !Held(s, p0, m0, c);
    OccursOnce(s.called, c);
    OccursOnce(Waiting(s, p0, m0), c);
  }

  // The ids asked for in a request on its way are exactly the entries that wait for it.
  lemma RequestIsItsEntries(steps: seq<Step>, r: RequestId, p: Peer, m: MsgId)
    requires IsRun(INITIAL, steps) && r > 0
    ensures var s := Run(INITIAL, steps);
      WaitsFor(s, p, m, r) <==> r in s.sent && s.sent[r].peer == p && m in s.sent[r].ids
  {
    Reachable(steps);
  }

  // With no resolve queued and no request on its way nothing is left and every callback was called.
  lemma QuietMeansDone(steps: seq<Step>)
    requires IsRun(INITIAL, steps)
    requires var s := Run(INITIAL, steps); !s.queued && s.sent == map[]
    ensures var s := Run(INITIAL, steps);
      s.common == map[] && s.channels == map[] && forall c <- s.places :: c in s.called
  {
    var s := Run(INITIAL, steps);
    Reachable(steps);
    forall p: Peer, m: MsgId
      ensures Look(s, p, m).None?
    {
      assert NothingUntagged(s, p) && !WaitsFor(s, p, m, 0);
    }
    assert forall m: MsgId :: m in s.common ==> Look(s, Common, m).Some?;
    forall c: nat, m: MsgId | c in s.channels
      ensures m !in s.channels[c]
    {
      assert Look(s, Channel(c), m).None?;
    }
    forall c <- s.places
      ensures c in s.called
    {
      assert !Held(s, s.places[c].0, s.places[c].1, c);
    }
  }
}
