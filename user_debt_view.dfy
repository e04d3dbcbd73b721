/** The per-user debt view: every bill's settlements flattened into one list,
    narrowed to one user, split by direction and status, and totalled. */
module UserDebtView {
  import opened Derivation
  import opened BillsRoute
  import opened SplitBillsPage

  /** A settlement tagged with the id, title and date of its bill. */
  datatype Tagged = Tagged(settlement: Settlement, billId: nat, billTitle: string, billDate: string)

  /** The settlements `ss` tagged with bill `b`. */
  function Tag(b: Bill, ss: seq<Settlement>): (r: seq<Tagged>)
    ensures |r| == |ss|
    ensures forall j :: 0 <= j < |ss| ==> r[j] == Tagged(ss[j], b.id, b.title, b.date)
  {
    seq(|ss|, j requires 0 <= j < |ss| => Tagged(ss[j], b.id, b.title, b.date))
  }

  /** How many settlements the bills hold together. */
  function SettlementCount(bills: seq<Bill>): nat {
    if bills == [] then 0 else SettlementCount(bills[..|bills| - 1]) + |bills[|bills| - 1].settlements|
  }

  /** Every bill's settlements, bill by bill, each tagged with its bill. */
  function Flatten(bills: seq<Bill>): (r: seq<Tagged>)
    ensures |r| == SettlementCount(bills)
  {
    if bills == [] then []
    else
      var last := bills[|bills| - 1];
      Flatten(bills[..|bills| - 1]) + Tag(last, last.settlements)
  }

  /** The flattening loop of `loadSettlements`. */
  method CollectSettlements(bills: seq<Bill>) returns (all: seq<Tagged>)
    ensures all == Flatten(bills)
  {
    all := [];
    for i := 0 to |bills|
      invariant all == Flatten(bills[..i])
    {
      assert bills[..i + 1][..i] == bills[..i];
      var b := bills[i];
      for j := 0 to |b.settlements|
        invariant all == Flatten(bills[..i]) + Tag(b, b.settlements[..j])
      {
        assert Tag(b, b.settlements[..j + 1]) == Tag(b, b.settlements[..j]) + [Tagged(b.settlements[j], b.id, b.title, b.date)];
        all := all + [Tagged(b.settlements[j], b.id, b.title, b.date)];
      }
      assert b.settlements[..|b.settlements|] == b.settlements;
    }
    assert bills[..|bills|] == bills;
  }

  lemma {:induction false} FlattenConcat(a: seq<Bill>, c: seq<Bill>)
    ensures Flatten(a + c) == Flatten(a) + Flatten(c)
    decreases |c|
  {
    if c == [] {
      assert a + c == a;
    } else {
      assert (a + c)[..|a + c| - 1] == a + c[..|c| - 1];
      FlattenConcat(a, c[..|c| - 1]);
    }
  }

  /** Settlement `j` of bill `k` sits right after the settlements of the bills
      before it, tagged with bill `k`. */
  lemma FlattenAt(bills: seq<Bill>, k: nat, j: nat)
    requires k < |bills| && j < |bills[k].settlements|
    ensures SettlementCount(bills[..k]) + j < |Flatten(bills)|
    ensures Flatten(bills)[SettlementCount(bills[..k]) + j]
         == Tagged(bills[k].settlements[j], bills[k].id, bills[k].title, bills[k].date)
  {
    assert bills == bills[..k + 1] + bills[k + 1..];
    assert bills[..k + 1][..k] == bills[..k];
    FlattenConcat(bills[..k + 1], bills[k + 1..]);
  }

  // ---------------------------------------------------------------------------
  // The selected user's settlements

  predicate Involves(t: Tagged, u: UserId) {
    t.settlement.fromUserId == u || t.settlement.toUserId == u
  }

  /** `userSettlements`: the settlements from or to the selected user, in order. */
  function UserSettlements(all: seq<Tagged>, u: UserId): (r: seq<Tagged>)
    ensures forall t :: t in r <==> t in all && Involves(t, u)
  {
    if all == [] then []
    else
      var last := all[|all| - 1];
      UserSettlements(all[..|all| - 1], u) + (if Involves(last, u) then [last] else [])
  }

  /** The filter keeps order: it distributes over concatenation. */
  lemma {:induction false} UserSettlementsConcat(a: seq<Tagged>, c: seq<Tagged>, u: UserId)
    ensures UserSettlements(a + c, u) == UserSettlements(a, u) + UserSettlements(c, u)
    decreases |c|
  {
    if c == [] {
      assert a + c == a;
    } else {
      assert (a + c)[..|a + c| - 1] == a + c[..|c| - 1];
      UserSettlementsConcat(a, c[..|c| - 1], u);
    }
  }

  datatype Direction = Outgoing | Incoming

  predicate InBucket(t: Tagged, u: UserId, dir: Direction, st: Status) {
    t.settlement.status == st
    && (if dir == Outgoing then t.settlement.fromUserId == u else t.settlement.toUserId == u)
  }

  /** The settlements in one direction with one status, in order. */
  function Bucket(ts: seq<Tagged>, u: UserId, dir: Direction, st: Status): (r: seq<Tagged>)
    ensures forall t :: t in r <==> t in ts && InBucket(t, u, dir, st)
  {
    if ts == [] then []
    else
      var last := ts[|ts| - 1];
      Bucket(ts[..|ts| - 1], u, dir, st) + (if InBucket(last, u, dir, st) then [last] else [])
  }

  /** A list keeps every settlement that belongs in it as often as it occurs
      and no other. */
  lemma {:induction false} BucketCounts(ts: seq<Tagged>, u: UserId, dir: Direction, st: Status)
    ensures forall t :: multiset(Bucket(ts, u, dir, st))[t] == if InBucket(t, u, dir, st) then multiset(ts)[t] else 0
    decreases |ts|
  {
    if ts != [] {
      var init, last := ts[..|ts| - 1], ts[|ts| - 1];
      assert ts == init + [last];
      BucketCounts(init, u, dir, st);
    }
  }

  /** Each list distributes over concatenation, so it keeps the order of the
      user's settlements. */
  lemma {:induction false} BucketConcat(a: seq<Tagged>, c: seq<Tagged>, u: UserId, dir: Direction, st: Status)
    ensures Bucket(a + c, u, dir, st) == Bucket(a, u, dir, st) + Bucket(c, u, dir, st)
    decreases |c|
  {
    if c == [] {
      assert a + c == a;
    } else {
      assert (a + c)[..|a + c| - 1] == a + c[..|c| - 1];
      BucketConcat(a, c[..|c| - 1], u, dir, st);
    }
  }

  datatype Buckets = Buckets(toPay: seq<Tagged>, toReceive: seq<Tagged>, paidOut: seq<Tagged>, received: seq<Tagged>)

  /** The view's four lists. Owing and having paid never overlap, nor do being
      owed and having been paid. */
  function Split(ts: seq<Tagged>, u: UserId): (b: Buckets)
    ensures forall t :: t in b.toPay <==> t in ts && t.settlement.fromUserId == u && t.settlement.status == Pending
    ensures forall t :: t in b.toReceive <==> t in ts && t.settlement.toUserId == u && t.settlement.status == Pending
    ensures forall t :: t in b.paidOut <==> t in ts && t.settlement.fromUserId == u && t.settlement.status == Paid
    ensures forall t :: t in b.received <==> t in ts && t.settlement.toUserId == u && t.settlement.status == Paid
    ensures forall t :: t in b.toPay ==> t !in b.paidOut
    ensures forall t :: t in b.toReceive ==> t !in b.received
  {
    Buckets(Bucket(ts, u, Outgoing, Pending), Bucket(ts, u, Incoming, Pending),
            Bucket(ts, u, Outgoing, Paid), Bucket(ts, u, Incoming, Paid))
  }

  /** Each of the four lists keeps every settlement that belongs in it as
      often as it occurs, so the totals below count each row once. */
  lemma SplitCounts(ts: seq<Tagged>, u: UserId)
    ensures forall t :: multiset(Split(ts, u).toPay)[t] ==
                 if t.settlement.fromUserId == u && t.settlement.status == Pending then multiset(ts)[t] else 0
    ensures forall t :: multiset(Split(ts, u).toReceive)[t] ==
                 if t.settlement.toUserId == u && t.settlement.status == Pending then multiset(ts)[t] else 0
    ensures forall t :: multiset(Split(ts, u).paidOut)[t] ==
                 if t.settlement.fromUserId == u && t.settlement.status == Paid then multiset(ts)[t] else 0
    ensures forall t :: multiset(Split(ts, u).received)[t] ==
                 if t.settlement.toUserId == u && t.settlement.status == Paid then multiset(ts)[t] else 0
  {
    BucketCounts(ts, u, Outgoing, Pending);
    BucketCounts(ts, u, Incoming, Pending);
    BucketCounts(ts, u, Outgoing, Paid);
    BucketCounts(ts, u, Incoming, Paid);
  }

  /** The condition for the "no settlements found" message. */
  predicate NothingToShow(b: Buckets) {
    b.toPay == [] && b.toReceive == [] && b.paidOut == [] && b.received == []
  }

  /** The message shows exactly when the user has no settlement at all. */
  lemma NothingToShowIffNoSettlements(all: seq<Tagged>, u: UserId)
    ensures NothingToShow(Split(UserSettlements(all, u), u)) <==> UserSettlements(all, u) == []
  {
    var us := UserSettlements(all, u);
    var b := Split(us, u);
    assert forall t :: t in us ==> t in b.toPay || t in b.toReceive || t in b.paidOut || t in b.received;
    if NothingToShow(b) {
      forall t
        ensures t !in us
      {
      }
      NoMembersEmpty(us);
    }
  }

  /** The sum of the amounts, a missing amount counting 0. */
  function TaggedTotal(ts: seq<Tagged>): int {
    if ts == [] then 0 else TaggedTotal(ts[..|ts| - 1]) + ToNumber(ts[|ts| - 1].settlement.amount)
  }

  function TotalToPay(b: Buckets): int {
    TaggedTotal(b.toPay)
  }

  function TotalToReceive(b: Buckets): int {
    TaggedTotal(b.toReceive)
  }

  // ---------------------------------------------------------------------------
  // Agreement with the global balances

  /** User `u`'s net over a list of tagged settlements. */
  function NetOfTagged(ts: seq<Tagged>, u: UserId): int {
    if ts == [] then 0 else NetOfTagged(ts[..|ts| - 1], u) + Effect(ts[|ts| - 1].settlement, u)
  }

  lemma {:induction false} TaggedTotalSnoc(ts: seq<Tagged>, t: Tagged)
    ensures TaggedTotal(ts + [t]) == TaggedTotal(ts) + ToNumber(t.settlement.amount)
  {
    assert (ts + [t])[..|ts|] == ts;
  }

  lemma BucketTotalSnoc(ts: seq<Tagged>, t: Tagged, u: UserId, dir: Direction, st: Status)
    ensures TaggedTotal(Bucket(ts + [t], u, dir, st))
         == TaggedTotal(Bucket(ts, u, dir, st)) + (if InBucket(t, u, dir, st) then ToNumber(t.settlement.amount) else 0)
  {
    var b := Bucket(ts, u, dir, st);
    assert (ts + [t])[..|ts|] == ts;
    TaggedTotalSnoc(b, t);
    assert b + [] == b;
  }

  lemma {:induction false} PendingBucketsNet(ts: seq<Tagged>, u: UserId)
    ensures TaggedTotal(Bucket(ts, u, Incoming, Pending)) - TaggedTotal(Bucket(ts, u, Outgoing, Pending))
         == NetOfTagged(ts, u)
    decreases |ts|
  {
    if ts != [] {
      var init, t := ts[..|ts| - 1], ts[|ts| - 1];
      assert ts == init + [t];
      PendingBucketsNet(init, u);
      BucketTotalSnoc(init, t, u, Incoming, Pending);
      BucketTotalSnoc(init, t, u, Outgoing, Pending);
    }
  }

  lemma {:induction false} UserNetUnchanged(ts: seq<Tagged>, u: UserId)
    ensures NetOfTagged(UserSettlements(ts, u), u) == NetOfTagged(ts, u)
    decreases |ts|
  {
    if ts != [] {
      var init, t := ts[..|ts| - 1], ts[|ts| - 1];
      UserNetUnchanged(init, u);
      var us := UserSettlements(init, u);
      assert (us + [t])[..|us|] == us;
      assert us + [] == us;
    }
  }

  lemma {:induction false} NetOfTaggedConcat(a: seq<Tagged>, c: seq<Tagged>, u: UserId)
    ensures NetOfTagged(a + c, u) == NetOfTagged(a, u) + NetOfTagged(c, u)
    decreases |c|
  {
    if c == [] {
      assert a + c == a;
    } else {
      assert (a + c)[..|a + c| - 1] == a + c[..|c| - 1];
      NetOfTaggedConcat(a, c[..|c| - 1], u);
    }
  }

  lemma {:induction false} TagNet(b: Bill, ss: seq<Settlement>, u: UserId)
    ensures NetOfTagged(Tag(b, ss), u) == NetIn(ss, u)
    decreases |ss|
  {
    if ss != [] {
      var init := ss[..|ss| - 1];
      TagNet(b, init, u);
      assert Tag(b, ss)[..|ss| - 1] == Tag(b, init);
    }
  }

  lemma {:induction false} FlattenNet(bills: seq<Bill>, u: UserId)
    ensures NetOfTagged(Flatten(bills), u) == NetBalance(bills, u)
    decreases |bills|
  {
    if bills != [] {
      var init, last := bills[..|bills| - 1], bills[|bills| - 1];
      FlattenNet(init, u);
      NetOfTaggedConcat(Flatten(init), Tag(last, last.settlements), u);
      TagNet(last, last.settlements, u);
    }
  }

  /** What the debt view says the user is owed minus what it says they owe is
      their entry on the page's global balance sheet. */
  lemma DebtViewMatchesBalances(bills: seq<Bill>, u: UserId)
    ensures var b := Split(UserSettlements(Flatten(bills), u), u);
      TotalToReceive(b) - TotalToPay(b) == NetBalance(bills, u)
  {
    var all := Flatten(bills);
    PendingBucketsNet(UserSettlements(all, u), u);
    UserNetUnchanged(all, u);
    FlattenNet(bills, u);
  }
}
