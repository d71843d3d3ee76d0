/** Forwarding: the messages leave in one request for each run of messages from the same peer. */
module ForwardBatches {
  import opened Basics

  datatype Item = Item(peer: nat, id: nat, music: bool)

  datatype Source = Source(peer: nat, id: nat)

  datatype Batch = Batch(peer: nat, ids: seq<nat>, randomIds: seq<nat>, starsPaid: int)

  const INT_MAX: int := 0x7FFF_FFFF
  const TWO32: int := 0x1_0000_0000

  // The conversion to a 32-bit int.
  function ToInt(x: int): int {
    (x + INT_MAX + 1) % TWO32 - INT_MAX - 1
  }

  function Paid(approved: int, price: nat, count: nat): int {
    Min(approved, ToInt(count * price))
  }

  // How many messages in front come from the same peer.
  function RunLength(items: seq<Item>): (n: nat)
    requires items != []
    ensures 0 < n <= |items|
    ensures forall i :: 0 <= i < n ==> items[i].peer == items[0].peer
    ensures n < |items| ==> items[n].peer != items[0].peer
  {
    if |items| == 1 || items[1].peer != items[0].peer then 1 else 1 + RunLength(items[1..])
  }

  function Ids(items: seq<Item>): (r: seq<nat>)
    ensures |r| == |items|
  {
    seq(|items|, i requires 0 <= i < |items| => items[i].id)
  }

  // The requests for these messages.
  function Batches(items: seq<Item>, randomIds: seq<nat>, approved: int, price: nat): seq<Batch>
    requires |randomIds| == |items|
    decreases |items|
  {
    if items == [] then []
    else
      var n := RunLength(items);
      var stars := Paid(approved, price, n);
      [Batch(items[0].peer, Ids(items[..n]), randomIds[..n], stars)]
        + Batches(items[n..], randomIds[n..], approved - stars, price)
  }

  function TotalPaid(batches: seq<Batch>): int {
    if batches == [] then 0 else batches[0].starsPaid + TotalPaid(batches[1..])
  }

  // The messages of the requests, with their peer.
  function Sources(batch: Batch): (r: seq<Source>)
    ensures |r| == |batch.ids|
  {
    seq(|batch.ids|, i requires 0 <= i < |batch.ids| => Source(batch.peer, batch.ids[i]))
  }

  function AllSources(batches: seq<Batch>): seq<Source> {
    if batches == [] then [] else Sources(batches[0]) + AllSources(batches[1..])
  }

  function AllRandomIds(batches: seq<Batch>): seq<nat> {
    if batches == [] then [] else batches[0].randomIds + AllRandomIds(batches[1..])
  }

  function Pairs(items: seq<Item>): (r: seq<Source>)
    ensures |r| == |items|
  {
    seq(|items|, i requires 0 <= i < |items| => Source(items[i].peer, items[i].id))
  }

  lemma SourcesOfRun(items: seq<Item>, n: nat, batch: Batch)
    requires n <= |items| && batch.ids == Ids(items[..n])
    requires forall i :: 0 <= i < n ==> items[i].peer == batch.peer
    ensures Sources(batch) == Pairs(items)[..n]
  {
    forall i | 0 <= i < n
      ensures Sources(batch)[i] == Pairs(items)[..n][i]
    {
      assert items[..n][i] == items[i];
    }
  }

  lemma PairsOfRest(items: seq<Item>, n: nat)
    requires n <= |items|
    ensures Pairs(items[n..]) == Pairs(items)[n..]
  {
  }

  lemma Halves<T>(s: seq<T>, n: nat)
    requires n <= |s|
    ensures s == s[..n] + s[n..]
  {
  }

  // Every message is sent once, in order.
  lemma {:induction false} BatchesCoverItems(items: seq<Item>, randomIds: seq<nat>, approved: int, price: nat)
    requires |randomIds| == |items|
    ensures AllSources(Batches(items, randomIds, approved, price)) == Pairs(items)
    decreases |items|
  {
    if items != [] {
      var n := RunLength(items);
      var b := Batch(items[0].peer, Ids(items[..n]), randomIds[..n], Paid(approved, price, n));
      var rest := Batches(items[n..], randomIds[n..], approved - b.starsPaid, price);
      assert Batches(items, randomIds, approved, price) == [b] + rest;
      BatchesCoverItems(items[n..], randomIds[n..], approved - b.starsPaid, price);
      SourcesFirst(b, rest);
      SourcesOfRun(items, n, b);
      PairsOfRest(items, n);
      Halves(Pairs(items), n);
    }
  }

  lemma SourcesFirst(b: Batch, rest: seq<Batch>)
    ensures AllSources([b] + rest) == Sources(b) + AllSources(rest)
    ensures AllRandomIds([b] + rest) == b.randomIds + AllRandomIds(rest)
  {
    assert ([b] + rest)[1..] == rest;
  }

  // Every message has its own random id.
  lemma {:induction false} BatchesCoverRandomIds(items: seq<Item>, randomIds: seq<nat>, approved: int, price: nat)
    requires |randomIds| == |items|
    ensures AllRandomIds(Batches(items, randomIds, approved, price)) == randomIds
    decreases |items|
  {
    if items != [] {
      var n := RunLength(items);
      var b := Batch(items[0].peer, Ids(items[..n]), randomIds[..n], Paid(approved, price, n));
      var rest := Batches(items[n..], randomIds[n..], approved - b.starsPaid, price);
      assert Batches(items, randomIds, approved, price) == [b] + rest;
      BatchesCoverRandomIds(items[n..], randomIds[n..], approved - b.starsPaid, price);
      SourcesFirst(b, rest);
      assert randomIds == randomIds[..n] + randomIds[n..];
    }
  }

  // Every request holds messages of one peer, as many random ids, and the next one is for another peer.
  lemma {:induction false} BatchesAreRuns(items: seq<Item>, randomIds: seq<nat>, approved: int, price: nat)
    requires |randomIds| == |items|
    ensures var batches := Batches(items, randomIds, approved, price);
      && (forall i :: 0 <= i < |batches| ==> |batches[i].ids| == |batches[i].randomIds| > 0)
      && (forall i :: 0 <= i < |batches| - 1 ==> batches[i].peer != batches[i + 1].peer)
      && (items != [] ==> batches != [] && batches[0].peer == items[0].peer)
    decreases |items|
  {
    if items != [] {
      var n := RunLength(items);
      var b := Batch(items[0].peer, Ids(items[..n]), randomIds[..n], Paid(approved, price, n));
      var rest := Batches(items[n..], randomIds[n..], approved - b.starsPaid, price);
      assert Batches(items, randomIds, approved, price) == [b] + rest;
      BatchesAreRuns(items[n..], randomIds[n..], approved - b.starsPaid, price);
      FirstRun(b, rest);
    }
  }

  lemma FirstRun(b: Batch, rest: seq<Batch>)
    requires forall i :: 0 <= i < |rest| - 1 ==> rest[i].peer != rest[i + 1].peer
    requires rest != [] ==> rest[0].peer != b.peer
    ensures var all := [b] + rest; forall i :: 0 <= i < |all| - 1 ==> all[i].peer != all[i + 1].peer
  {
    var all := [b] + rest;
    forall i | 0 <= i < |all| - 1
      ensures all[i].peer != all[i + 1].peer
    {
      assert all[i + 1] == rest[i];
      assert i > 0 ==> all[i] == rest[i - 1];
    }
  }

  lemma MulSplit(n: nat, m: nat, price: nat)
    ensures (n + m) * price == n * price + m * price
    ensures n * price >= 0 && m * price >= 0
  {
  }

  // ---- the stars of the whole split ----

  // What each request is charged, if enough is approved.
  function Charges(items: seq<Item>, price: nat): seq<int>
    decreases |items|
  {
    if items == [] then []
    else [ToInt(RunLength(items) * price)] + Charges(items[RunLength(items)..], price)
  }

  function Sum(charges: seq<int>): int {
    if charges == [] then 0 else charges[0] + Sum(charges[1..])
  }

  // What is left of an amount.
  function Left(approved: int, charges: seq<int>): int
    decreases |charges|
  {
    if charges == [] then approved else Left(approved - Min(approved, charges[0]), charges[1..])
  }

  // The price of every run of messages fits an int.
  predicate RunsFit(items: seq<Item>, price: nat)
    decreases |items|
  {
    items == [] || (RunLength(items) * price <= INT_MAX && RunsFit(items[RunLength(items)..], price))
  }

  // The charges behind any request do not add up to less than nothing.
  predicate Covered(charges: seq<int>) {
    charges == [] || (Sum(charges[1..]) >= 0 && Covered(charges[1..]))
  }

  // The most that later charges give back.
  function GivenBack(charges: seq<int>): (r: int)
    ensures r >= 0 && (r == 0 <==> Covered(charges))
  {
    if charges == [] then 0 else Max(-Sum(charges[1..]), GivenBack(charges[1..]))
  }

  lemma {:induction false} PaidIsNotLeft(items: seq<Item>, randomIds: seq<nat>, approved: int, price: nat)
    requires |randomIds| == |items|
    ensures TotalPaid(Batches(items, randomIds, approved, price)) == approved - Left(approved, Charges(items, price))
    decreases |items|
  {
    if items != [] {
      var n := RunLength(items);
      var b := Batch(items[0].peer, Ids(items[..n]), randomIds[..n], Paid(approved, price, n));
      var rest := Batches(items[n..], randomIds[n..], approved - b.starsPaid, price);
      assert Batches(items, randomIds, approved, price) == [b] + rest;
      PaidFirst(b, rest);
      LeftFirst(approved, ToInt(n * price), Charges(items[n..], price));
      PaidIsNotLeft(items[n..], randomIds[n..], approved - b.starsPaid, price);
    }
  }

  lemma PaidFirst(b: Batch, rest: seq<Batch>)
    ensures TotalPaid([b] + rest) == b.starsPaid + TotalPaid(rest)
  {
    assert ([b] + rest)[1..] == rest;
  }

  lemma LeftFirst(approved: int, charge: int, rest: seq<int>)
    ensures Left(approved, [charge] + rest) == Left(approved - Min(approved, charge), rest)
    ensures Sum([charge] + rest) == charge + Sum(rest)
  {
    assert ([charge] + rest)[1..] == rest;
  }

  lemma {:induction false} LeftIs(approved: nat, charges: seq<int>)
    ensures Left(approved, charges) == Max(approved - Sum(charges), GivenBack(charges))
    decreases |charges|
  {
    if charges != [] {
      LeftIs(approved - Min(approved, charges[0]), charges[1..]);
    }
  }

  lemma ToIntCuts(x: nat)
    ensures ToInt(x) <= x && (ToInt(x) == x <==> x <= INT_MAX)
  {
  }

  lemma ChargesFirst(items: seq<Item>, price: nat)
    requires items != []
    ensures var n, charges := RunLength(items), Charges(items, price);
      && n <= |items| && Sum(charges) == ToInt(n * price) + Sum(Charges(items[n..], price))
      && (Covered(charges) <==>
           Sum(Charges(items[n..], price)) >= 0 && Covered(Charges(items[n..], price)))
  {
    var n := RunLength(items);
    LeftFirst(0, ToInt(n * price), Charges(items[n..], price));
    assert Charges(items, price)[1..] == Charges(items[n..], price);
  }

  // The charges add up to the price of all messages exactly when the price of every run fits.
  lemma {:induction false} ChargesSum(items: seq<Item>, price: nat)
    ensures Sum(Charges(items, price)) <= |items| * price
    ensures Sum(Charges(items, price)) == |items| * price <==> RunsFit(items, price)
    ensures RunsFit(items, price) ==> Covered(Charges(items, price)) && Sum(Charges(items, price)) >= 0
    decreases |items|
  {
    if items == [] {
      assert |items| * price == 0;
    } else {
      var n := RunLength(items);
      ChargesFirst(items, price);
      MulSplit(n, |items| - n, price);
      ToIntCuts(n * price);
      ChargesSum(items[n..], price);
    }
  }

  predicate PaysMinimum(items: seq<Item>, randomIds: seq<nat>, approved: nat, price: nat)
    requires |randomIds| == |items|
  {
    TotalPaid(Batches(items, randomIds, approved, price)) == Min(approved, |items| * price)
  }

  // However the messages are split, the stars paid are the lesser of those approved and the price of all messages, for
  // every approved amount, exactly when the price of every run fits an int.
  lemma StarsPaid(items: seq<Item>, randomIds: seq<nat>, price: nat)
    requires |randomIds| == |items|
    ensures (forall approved: nat :: PaysMinimum(items, randomIds, approved, price)) <==> RunsFit(items, price)
  {
    var charges, total := Charges(items, price), |items| * price;
    MulSplit(|items|, 0, price);
    ChargesSum(items, price);
    forall approved: nat
      ensures PaysMinimum(items, randomIds, approved, price)
        <==> Min(approved, total) == approved - Max(approved - Sum(charges), GivenBack(charges))
    {
      PaidIsNotLeft(items, randomIds, approved, price);
      LeftIs(approved, charges);
    }
    if !RunsFit(items, price) {
      assert !PaysMinimum(items, randomIds, total, price);
    }
  }

  // Then no request pays less than nothing or more than was approved.
  lemma {:induction false} EachPays(items: seq<Item>, randomIds: seq<nat>, approved: nat, price: nat)
    requires |randomIds| == |items| && RunsFit(items, price)
    ensures forall b <- Batches(items, randomIds, approved, price) :: 0 <= b.starsPaid <= approved
    decreases |items|
  {
    if items != [] {
      var n := RunLength(items);
      MulSplit(n, 0, price);
      var stars := Paid(approved, price, n);
      ToIntCuts(n * price);
      EachPays(items[n..], randomIds[n..], approved - stars, price);
    }
  }

  // A cast to int keeps what a number is modulo 2^32.
  lemma ToIntIs(x: int)
    ensures -0x8000_0000 <= ToInt(x) <= 0x7FFF_FFFF && (x - ToInt(x)) % 0x1_0000_0000 == 0
  {
  }

  // What was paid with the requests before this one.
  predicate PaysItsPart(batches: seq<Batch>, approved: int, price: nat, i: nat)
    requires i < |batches|
  {
    var left := approved - TotalPaid(batches[..i]);
    batches[i].starsPaid == Min(left, ToInt(|batches[i].ids| * price))
  }

  predicate AllPayTheirPart(batches: seq<Batch>, approved: int, price: nat) {
    forall i: nat :: i < |batches| ==> PaysItsPart(batches, approved, price, i)
  }

  lemma OnePartMore(b: Batch, rest: seq<Batch>, approved: int, price: nat)
    requires b.starsPaid == Min(approved, ToInt(|b.ids| * price))
    requires AllPayTheirPart(rest, approved - b.starsPaid, price)
    ensures AllPayTheirPart([b] + rest, approved, price)
  {
    var batches := [b] + rest;
    forall i: nat | i < |batches|
      ensures PaysItsPart(batches, approved, price, i)
    {
      if i > 0 {
        assert PaysItsPart(rest, approved - b.starsPaid, price, i - 1);
        assert batches[..i] == [b] + rest[..i - 1];
        PaidFirst(b, rest[..i - 1]);
      }
    }
  }

  // Each request pays for its own messages, as far as what is left of the approved amount goes.
  lemma {:induction false} EachPaysItsPart(items: seq<Item>, randomIds: seq<nat>, approved: int, price: nat)
    requires |randomIds| == |items|
    ensures AllPayTheirPart(Batches(items, randomIds, approved, price), approved, price)
    decreases |items|
  {
    if items != [] {
      var n := RunLength(items);
      var b := Batch(items[0].peer, Ids(items[..n]), randomIds[..n], Paid(approved, price, n));
      EachPaysItsPart(items[n..], randomIds[n..], approved - b.starsPaid, price);
      OnePartMore(b, Batches(items[n..], randomIds[n..], approved - b.starsPaid, price), approved, price);
    }
  }

  // For the approved amounts that an int holds, it is also enough that the charges reach the largest int and later ones
  // give nothing back.
  lemma StarsPaidOfInt(items: seq<Item>, randomIds: seq<nat>, price: nat)
    requires |randomIds| == |items|
    ensures (forall approved: nat :: approved <= INT_MAX ==> PaysMinimum(items, randomIds, approved, price))
      <==> RunsFit(items, price) || (Covered(Charges(items, price)) && Sum(Charges(items, price)) >= INT_MAX)
  {
    var charges, total := Charges(items, price), |items| * price;
    MulSplit(|items|, 0, price);
    ChargesSum(items, price);
    forall approved: nat
      ensures PaysMinimum(items, randomIds, approved, price)
        <==> Min(approved, total) == approved - Max(approved - Sum(charges), GivenBack(charges))
    {
      PaidIsNotLeft(items, randomIds, approved, price);
      LeftIs(approved, charges);
    }
    if forall approved: nat :: approved <= INT_MAX ==> PaysMinimum(items, randomIds, approved, price) {
      assert PaysMinimum(items, randomIds, 0, price);
      assert PaysMinimum(items, randomIds, INT_MAX, price);
      assert total <= INT_MAX ==> PaysMinimum(items, randomIds, total, price);
    }
  }

  // One request pays the lesser of both amounts for every approved amount exactly when its price fits an int,
  // or is cut to the largest int.
  lemma PaidIsMinimum(price: nat, count: nat)
    ensures (forall approved: nat :: approved <= INT_MAX ==>
              Paid(approved, price, count) == Min(approved, count * price))
      <==> count * price <= INT_MAX || ToInt(count * price) == INT_MAX
  {
    var cost := count * price;
    MulSplit(count, 0, price);
    if cost > INT_MAX && ToInt(cost) != INT_MAX {
      assert ToInt(cost) < INT_MAX;
      assert Paid(INT_MAX, price, count) != Min(INT_MAX, cost);
    }
  }

  // A request pays a negative amount exactly when its charge is negative, and then more is left than was approved.
  lemma NegativePayment(approved: nat, price: nat, count: nat)
    ensures Paid(approved, price, count) < 0 <==> ToInt(count * price) < 0
    ensures Paid(approved, price, count) < 0 ==> approved - Paid(approved, price, count) > approved
  {
    MulSplit(count, 0, price);
  }

  // Beyond the range of an int a charge can be negative or just too small.
  lemma WrongPayments()
    ensures Paid(100, 0x4000_0000, 2) == -0x8000_0000
    ensures Paid(0x7000_0000, 0x6000_0000, 3) == 0x2000_0000
  {
  }

  // ---- the messages that are not sent this way ----

  function NotMusic(items: seq<Item>): (r: seq<Item>)
    ensures |r| <= |items|
  {
    if items == [] then []
    else (if items[0].music then [] else [items[0]]) + NotMusic(items[1..])
  }

  lemma {:induction false} NotMusicFiltered(items: seq<Item>, keep: Item -> bool)
    requires forall x: Item :: keep(x) <==> !x.music
    ensures NotMusic(items) == Filter(items, keep)
  {
    if items != [] {
      NotMusicFiltered(items[1..], keep);
    }
  }

  // What is sent is every message that is not saved music, as often as it is there and in the same order.
  lemma NotMusicIs(items: seq<Item>) returns (at: seq<nat>)
    ensures forall x: Item :: multiset(NotMusic(items))[x] == if x.music then 0 else multiset(items)[x]
    ensures AreAt(NotMusic(items), items, at) && forall i, j :: 0 <= i < j < |at| ==> at[i] < at[j]
  {
    var keep := (x: Item) => !x.music;
    NotMusicFiltered(items, keep);
    forall x: Item
      ensures multiset(NotMusic(items))[x] == if x.music then 0 else multiset(items)[x]
    {
      FilterCounts(items, keep, x);
    }
    FilterOrder(items, keep);
    at := Places(items, keep);
  }

  // ---- the class ----

  class Forwarding {
    const price: nat
    const hasCallback: bool
    var starsApproved: int
    var ids: seq<nat>
    var randomIds: seq<nat>
    var sent: seq<Batch>
    var requestsLeft: int
    var succeeded: set<nat>
    var answered: set<nat>
    var calls: nat

    constructor (approved: nat, price: nat, hasCallback: bool)
      ensures this.price == price && this.hasCallback == hasCallback && starsApproved == approved
      ensures ids == [] && randomIds == [] && sent == [] && requestsLeft == 0 && calls == 0
      ensures answered == {} && succeeded == {}
    {
      this.price, this.hasCallback, starsApproved := price, hasCallback, approved;
      ids, randomIds, sent, requestsLeft, calls := [], [], [], 0, 0;
      answered, succeeded := {}, {};
    }

    method SendAccumulated(forwardFrom: nat)
      modifies this`starsApproved, this`ids, this`randomIds, this`sent, this`requestsLeft
      ensures sent == old(sent)
        + [Batch(forwardFrom, old(ids), old(randomIds), Paid(old(starsApproved), price, |old(ids)|))]
      ensures starsApproved == old(starsApproved) - Paid(old(starsApproved), price, |old(ids)|)
      ensures ids == [] && randomIds == []
      ensures requestsLeft == old(requestsLeft) + if hasCallback then 1 else 0
    {
      if hasCallback {
        requestsLeft := requestsLeft + 1;
      }
      var starsPaid := Min(starsApproved, ToInt(|ids| * price));
      if starsPaid != 0 {
        starsApproved := starsApproved - starsPaid;
      }
      sent := sent + [Batch(forwardFrom, ids, randomIds, starsPaid)];
      ids, randomIds := [], [];
    }

    // Takes saved music out of the draft.
    static method WithoutMusic(draft: seq<Item>) returns (items: seq<Item>)
      ensures items == NotMusic(draft) && |items| <= |draft|
    {
      items := draft;
      var k := 0;
      assert items[..0] + NotMusic(items[0..]) == NotMusic(draft);
      while k < |items|
        invariant 0 <= k <= |items| <= |draft|
        invariant items[..k] + NotMusic(items[k..]) == NotMusic(draft)
        decreases |items| - k
      {
        if items[k].music {
          assert (items[..k] + items[k + 1..])[k..] == items[k + 1..];
          assert (items[..k] + items[k + 1..])[..k] == items[..k];
          items := items[..k] + items[k + 1..];
        } else {
          assert items[k..][1..] == items[k + 1..];
          assert items[..k] + [items[k]] == items[..k + 1];
          k := k + 1;
        }
      }
      assert items[..k] == items;
    }

    // Sends the draft without its saved music; nothing left to send is a success.
    method ForwardMessages(draft: seq<Item>, random: seq<nat>) returns (items: seq<Item>)
      requires |random| == |draft|
      requires ids == [] && randomIds == [] && sent == [] && requestsLeft == 0 && calls == 0
      modifies this
      ensures items == NotMusic(draft)
      ensures sent == Batches(items, random[..|items|], old(starsApproved), price)
      ensures starsApproved + TotalPaid(sent) == old(starsApproved)
      ensures requestsLeft == if hasCallback then |sent| else 0
      ensures calls == if items == [] && hasCallback then 1 else 0
      ensures answered == old(answered) && succeeded == old(succeeded)
      ensures items != [] && answered == succeeded == {} ==> Counted(View(), |sent|)
    {
      items := WithoutMusic(draft);
      if items == [] {
        if hasCallback {
          calls := calls + 1;
        }
        return;
      }
      SendAll(items, random[..|items|]);
      BatchesAreRuns(items, random[..|items|], old(starsApproved), price);
    }

    method SendAll(items: seq<Item>, random: seq<nat>)
      requires |random| == |items| > 0
      requires ids == [] && randomIds == [] && sent == [] && requestsLeft == 0
      modifies this`starsApproved, this`ids, this`randomIds, this`sent, this`requestsLeft
      ensures sent == Batches(items, random, old(starsApproved), price)
      ensures starsApproved + TotalPaid(sent) == old(starsApproved)
      ensures requestsLeft == if hasCallback then |sent| else 0
    {
      ghost var all := Batches(items, random, starsApproved, price);
      ghost var approved := starsApproved;
      ghost var start: nat := 0;
      var forwardFrom := items[0].peer;
      var i: nat := 0;
      SendingStarts(items, random, all);
      while i < |items|
        invariant i <= |items| && Sending(items, random, start, i, forwardFrom, all, approved)
      {
        start, forwardFrom := SendItem(items, random, start, i, forwardFrom, all, approved);
        i := i + 1;
      }
      SendLast(items, random, start, forwardFrom, all, approved);
    }

    // All messages have accumulated or been sent.
    method SendLast(ghost items: seq<Item>, ghost random: seq<nat>, ghost start: nat, forwardFrom: nat,
        ghost all: seq<Batch>, ghost approved: int)
      requires |items| == |random| > 0 && Sending(items, random, start, |items|, forwardFrom, all, approved)
      modifies this`starsApproved, this`ids, this`randomIds, this`sent, this`requestsLeft
      ensures sent == all && starsApproved + TotalPaid(sent) == approved
      ensures requestsLeft == if hasCallback then |sent| else 0
    {
      ghost var last, lastRandom := items[start..], random[start..];
      assert last == items[start..|items|][..|last|] && lastRandom == random[start..|items|][..|last|];
      SendRun(last, lastRandom, |last|, forwardFrom, all, approved);
      assert last[|last|..] == [] && lastRandom[|last|..] == [] && sent + [] == sent;
    }

    lemma SendingStarts(items: seq<Item>, random: seq<nat>, all: seq<Batch>)
      requires |random| == |items| > 0
      requires ids == [] && randomIds == [] && sent == [] && requestsLeft == 0
      requires all == Batches(items, random, starsApproved, price)
      ensures Sending(items, random, 0, 0, items[0].peer, all, starsApproved)
    {
      assert items[0..] == items && random[0..] == random && sent + all == all;
    }

    // The answer to one request; a failure leaves the count of those left alone.
    method Answer(k: nat, ok: bool)
      requires k < |sent| && k !in answered && Counted(View(), |sent|)
      modifies this`requestsLeft, this`succeeded, this`answered, this`calls
      ensures View() == Answered(old(View()), k, ok) && Counted(View(), |sent|)
    {
      AnswerCounts(View(), |sent|, k, ok);
      answered := answered + {k};
      if ok {
        succeeded := succeeded + {k};
        if hasCallback {
          requestsLeft := requestsLeft - 1;
          if requestsLeft == 0 {
            calls := calls + 1;
          }
        }
      }
    }

    function View(): Replies
      reads this
    {
      Replies(requestsLeft, answered, succeeded, calls, hasCallback)
    }

    // Between messages: those from `start` on have accumulated, and what is still to come completes the requests.
    ghost predicate Sending(items: seq<Item>, random: seq<nat>, start: nat, i: nat, forwardFrom: nat,
        all: seq<Batch>, approved: int)
      reads this
    {
      && start <= i <= |items| == |random| && (start < i || (start == i == 0 && items != []))
      && OneRun(items[start..], i - start, forwardFrom)
      && ids == Ids(items[start..i]) && randomIds == random[start..i]
      && sent + Batches(items[start..], random[start..], starsApproved, price) == all
      && starsApproved + TotalPaid(sent) == approved
      && requestsLeft == if hasCallback then |sent| else 0
    }

    // The turn for one message: a message of another peer sends what has accumulated first.
    method SendItem(items: seq<Item>, random: seq<nat>, ghost start: nat, i: nat, forwardFrom: nat,
        ghost all: seq<Batch>, ghost approved: int)
      returns (ghost newStart: nat, newFrom: nat)
      requires i < |items| == |random| && Sending(items, random, start, i, forwardFrom, all, approved)
      modifies this`starsApproved, this`ids, this`randomIds, this`sent, this`requestsLeft
      ensures Sending(items, random, newStart, i + 1, newFrom, all, approved)
    {
      newStart, newFrom := start, forwardFrom;
      if forwardFrom != items[i].peer {
        SendUpTo(items, random, start, i, forwardFrom, all, approved);
        newStart, newFrom := i, items[i].peer;
      }
      RunMore(items, newStart, i, newFrom);
      Accumulate(items, random, newStart, i);
    }

    // Sends the run of messages that ends here.
    method SendUpTo(ghost items: seq<Item>, ghost random: seq<nat>, ghost start: nat, ghost i: nat, forwardFrom: nat,
        ghost all: seq<Batch>, ghost approved: int)
      requires i < |items| == |random| && Sending(items, random, start, i, forwardFrom, all, approved)
      requires items[i].peer != forwardFrom
      modifies this`starsApproved, this`ids, this`randomIds, this`sent, this`requestsLeft
      ensures ids == [] && randomIds == []
      ensures sent + Batches(items[i..], random[i..], starsApproved, price) == all
      ensures starsApproved + TotalPaid(sent) == approved
      ensures requestsLeft == if hasCallback then |sent| else 0
    {
      ghost var now, nowRandom, n := items[start..], random[start..], i - start;
      SuffixSlices(items, start, i);
      SuffixSlices(random, start, i);
      SendRun(now, nowRandom, n, forwardFrom, all, approved);
    }

    method Accumulate(items: seq<Item>, random: seq<nat>, ghost start: nat, i: nat)
      requires start <= i < |items| == |random|
      requires ids == Ids(items[start..i]) && randomIds == random[start..i]
      modifies this`ids, this`randomIds
      ensures ids == Ids(items[start..i + 1]) && randomIds == random[start..i + 1]
    {
      ids := ids + [items[i].id];
      randomIds := randomIds + [random[i]];
    }

    // Sends what has accumulated, a whole run of messages.
    method SendRun(ghost items: seq<Item>, ghost random: seq<nat>, ghost n: nat, forwardFrom: nat,
        ghost all: seq<Batch>, ghost approved: int)
      requires |random| == |items| && 0 < n <= |items| && OneRun(items, n, forwardFrom)
      requires n < |items| ==> items[n].peer != forwardFrom
      requires ids == Ids(items[..n]) && randomIds == random[..n]
      requires sent + Batches(items, random, starsApproved, price) == all
      requires starsApproved + TotalPaid(sent) == approved
      requires requestsLeft == if hasCallback then |sent| else 0
      modifies this`starsApproved, this`ids, this`randomIds, this`sent, this`requestsLeft
      ensures ids == [] && randomIds == []
      ensures sent + Batches(items[n..], random[n..], starsApproved, price) == all
      ensures starsApproved + TotalPaid(sent) == approved
      ensures requestsLeft == if hasCallback then |sent| else 0
    {
      RunSent(items, random, n, forwardFrom, sent, starsApproved, price, all);
      SendAccumulated(forwardFrom);
    }
  }

  // ---- answers ----

  datatype Replies = Replies(requestsLeft: int, answered: set<nat>, succeeded: set<nat>, calls: nat, hasCallback: bool)

  function Answered(r: Replies, k: nat, ok: bool): Replies {
    var left := if ok && r.hasCallback then r.requestsLeft - 1 else r.requestsLeft;
    r.(
      requestsLeft := left,
      answered := r.answered + {k},
      succeeded := if ok then r.succeeded + {k} else r.succeeded,
      calls := if ok && r.hasCallback && left == 0 then r.calls + 1 else r.calls)
  }

  // The count is that of the requests without success, and the callback came with the last of them.
  ghost predicate Counted(r: Replies, n: nat) {
    && n > 0 && r.succeeded <= r.answered <= Below(n)
    && (r.hasCallback ==> r.requestsLeft == n - |r.succeeded| && r.calls == if r.requestsLeft == 0 then 1 else 0)
    && (!r.hasCallback ==> r.calls == 0)
  }

  lemma SubsetCount(x: set<nat>, y: set<nat>)
    requires x <= y
    ensures |x| <= |y| && (|x| == |y| ==> x == y)
  {
    assert |y - x| == |y| - |x|;
    assert y == x + (y - x);
  }

  lemma AnswerCounts(r: Replies, n: nat, k: nat, ok: bool)
    requires Counted(r, n) && k < n && k !in r.answered
    ensures Counted(Answered(r, k, ok), n)
  {
    BelowCount(n);
    SubsetCount(Answered(r, k, ok).succeeded, Below(n));
  }

  datatype Reply = Reply(k: nat, ok: bool)

  function AnsweredAll(r: Replies, replies: seq<Reply>): Replies
    decreases |replies|
  {
    if replies == [] then r else AnsweredAll(Answered(r, replies[0].k, replies[0].ok), replies[1..])
  }

  // Answers to requests that wait for one.
  ghost predicate Awaited(r: Replies, n: nat, replies: seq<Reply>)
    decreases |replies|
  {
    replies == []
    || (replies[0].k < n && replies[0].k !in r.answered
        && Awaited(Answered(r, replies[0].k, replies[0].ok), n, replies[1..]))
  }

  lemma {:induction false} AnswersCount(r: Replies, n: nat, replies: seq<Reply>)
    requires Counted(r, n) && Awaited(r, n, replies)
    ensures Counted(AnsweredAll(r, replies), n) && AnsweredAll(r, replies).hasCallback == r.hasCallback
    ensures forall k: nat :: k in AnsweredAll(r, replies).succeeded <==> k in r.succeeded || Reply(k, true) in replies
    decreases |replies|
  {
    if replies != [] {
      var next := Answered(r, replies[0].k, replies[0].ok);
      AnswerCounts(r, n, replies[0].k, replies[0].ok);
      AnswersCount(next, n, replies[1..]);
      assert forall x :: x in replies <==> x == replies[0] || x in replies[1..];
    }
  }

  ghost predicate AllSucceed(n: nat, replies: seq<Reply>) {
    forall k: nat :: k < n ==> Reply(k, true) in replies
  }

  // With all n requests sent first, the callback runs, once, exactly when every one of them has succeeded.
  lemma CallbackAfterAll(n: nat, replies: seq<Reply>)
    requires n > 0 && Awaited(Replies(n, {}, {}, 0, true), n, replies)
    ensures AnsweredAll(Replies(n, {}, {}, 0, true), replies).calls ==
      if AllSucceed(n, replies) then 1 else 0
  {
    var r := Replies(n, {}, {}, 0, true);
    var t := AnsweredAll(r, replies);
    AnswersCount(r, n, replies);
    BelowCount(n);
    SubsetCount(t.succeeded, Below(n));
    if AllSucceed(n, replies) {
      assert t.succeeded == Below(n);
    } else {
      var k: nat :| k < n && Reply(k, true) !in replies;
      assert k in Below(n) && k !in t.succeeded;
    }
  }

  // The first messages all come from this peer.
  predicate OneRun(items: seq<Item>, n: nat, peer: nat) {
    items != [] && n <= |items| && items[0].peer == peer && forall i :: 0 <= i < n ==> items[i].peer == peer
  }

  lemma RunMore(items: seq<Item>, start: nat, i: nat, peer: nat)
    requires start <= i < |items| && items[i].peer == peer && (start < i ==> OneRun(items[start..], i - start, peer))
    ensures OneRun(items[start..], i + 1 - start, peer)
  {
    var run := items[start..];
    assert run[i - start] == items[i];
  }

  lemma SuffixSlices<T>(s: seq<T>, start: nat, i: nat)
    requires start <= i <= |s|
    ensures s[start..][..i - start] == s[start..i] && s[start..][i - start..] == s[i..]
  {
  }

  // The first request is sent when its run of messages ends.
  lemma FirstBatch(items: seq<Item>, randomIds: seq<nat>, approved: int, price: nat, n: nat)
    requires |randomIds| == |items| && 0 < n <= |items|
    requires OneRun(items, n, items[0].peer) && (n < |items| ==> items[n].peer != items[0].peer)
    ensures Batches(items, randomIds, approved, price) ==
      [Batch(items[0].peer, Ids(items[..n]), randomIds[..n], Paid(approved, price, n))]
        + Batches(items[n..], randomIds[n..], approved - Paid(approved, price, n), price)
  {
    assert RunLength(items) == n;
  }

  lemma RunSent(items: seq<Item>, random: seq<nat>, n: nat, forwardFrom: nat, sent: seq<Batch>, stars: int, price: nat,
      all: seq<Batch>)
    requires |random| == |items| && 0 < n <= |items| && OneRun(items, n, forwardFrom)
    requires n < |items| ==> items[n].peer != forwardFrom
    requires sent + Batches(items, random, stars, price) == all
    ensures var b := Batch(forwardFrom, Ids(items[..n]), random[..n], Paid(stars, price, n));
      && sent + [b] + Batches(items[n..], random[n..], stars - Paid(stars, price, n), price) == all
      && TotalPaid(sent + [b]) == TotalPaid(sent) + Paid(stars, price, n)
  {
    var b := Batch(forwardFrom, Ids(items[..n]), random[..n], Paid(stars, price, n));
    var rest := Batches(items[n..], random[n..], stars - Paid(stars, price, n), price);
    FirstBatch(items, random, stars, price, n);
    assert sent + ([b] + rest) == sent + [b] + rest;
    TotalPaidLast(sent, b);
  }

  lemma {:induction false} TotalPaidLast(batches: seq<Batch>, b: Batch)
    ensures TotalPaid(batches + [b]) == TotalPaid(batches) + b.starsPaid
  {
    if batches == [] {
      assert ([] + [b])[1..] == [];
    } else {
      assert (batches + [b])[1..] == batches[1..] + [b];
      TotalPaidLast(batches[1..], b);
    }
  }
}
