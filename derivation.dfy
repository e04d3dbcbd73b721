/** Settlement derivation for one itemised bill: the function `computeSettlements`
    of the bills API. Amounts are integer cents, summed exactly. */
module Derivation {

  /** A user id. Store ids are positive; 0 stands for an id JavaScript treats as
      falsy (a literal 0, or the NaN that `Number(undefined)` yields). */
  type UserId = nat

  datatype Status = Pending | Paid

  /** A normalised bill item as the create route builds it. The deriver reads only
      the assignee and the amount. */
  datatype Item = Item(description: string, amount: int, assignedUserId: UserId)

  /** One derived settlement: `fromUserId` owes `toUserId` the amount. */
  datatype Intent = Intent(fromUserId: UserId, toUserId: UserId, amount: int, status: Status)

  /** The deriver's skip test: an item counts only when both its assignee and its
      amount are truthy. */
  predicate Counted(item: Item) {
    item.assignedUserId != 0 && item.amount != 0
  }

  /** What `item` adds to the running total of user `u`. */
  function Share(item: Item, u: UserId): int {
    if Counted(item) && item.assignedUserId == u then item.amount else 0
  }

  /** The sum of the counted amounts assigned to `u`. */
  function TotalFor(items: seq<Item>, u: UserId): int {
    if items == [] then 0 else TotalFor(items[..|items| - 1], u) + Share(items[|items| - 1], u)
  }

  /** The users some counted item is assigned to. */
  function Assignees(items: seq<Item>): set<UserId> {
    if items == [] then {}
    else
      var last := items[|items| - 1];
      Assignees(items[..|items| - 1]) + (if Counted(last) then {last.assignedUserId} else {})
  }

  /** The sum of the counted amounts whose assignee is not the payer. */
  function PayableTotal(items: seq<Item>, payerId: UserId): int {
    if items == [] then 0
    else
      var last := items[|items| - 1];
      PayableTotal(items[..|items| - 1], payerId)
      + (if Counted(last) && last.assignedUserId != payerId then last.amount else 0)
  }

  /** The sum of the amounts of a list of settlement intents. */
  function IntentsTotal(intents: seq<Intent>): int {
    if intents == [] then 0 else IntentsTotal(intents[..|intents| - 1]) + intents[|intents| - 1].amount
  }

  // ---------------------------------------------------------------------------
  // Key order of an integer-keyed record

  predicate Increasing(s: seq<UserId>) {
    forall i, j :: 0 <= i < j < |s| ==> s[i] < s[j]
  }

  /** `m` is a member of `s` and no member is below it. */
  predicate IsLeast(m: UserId, s: set<UserId>) {
    m in s && forall x :: x in s ==> m <= x
  }

  lemma {:induction false} SmallestExists(s: set<UserId>)
    requires s != {}
    ensures exists m :: IsLeast(m, s)
    decreases |s|
  {
    var y :| y in s;
    var rest := s - {y};
    if rest == {} {
      forall x | x in s
        ensures y <= x
      {
        assert x !in rest;
      }
      assert IsLeast(y, s);
    } else {
      SmallestExists(rest);
      var m :| IsLeast(m, rest);
      var best := if y < m then y else m;
      forall x | x in s
        ensures best <= x
      {
        if x != y { assert x in rest; }
      }
      assert IsLeast(best, s);
    }
  }

  function Smallest(s: set<UserId>): (m: UserId)
    requires s != {}
    ensures m in s && forall x :: x in s ==> m <= x
  {
    SmallestExists(s);
    var m :| IsLeast(m, s);
    m
  }

  /** The keys of an integer-keyed record in the order `Object.entries` lists
      them: ascending. */
  function AscendingKeys(s: set<UserId>): (r: seq<UserId>)
    ensures Increasing(r)
    ensures forall u :: u in r <==> u in s
    decreases |s|
  {
    if s == {} then []
    else
      var m := Smallest(s);
      [m] + AscendingKeys(s - {m})
  }

  /** `s` without the occurrences of `x`, order kept (the payer filter). */
  function Without(s: seq<UserId>, x: UserId): (r: seq<UserId>)
    ensures forall u :: u in r <==> u in s && u != x
  {
    if s == [] then []
    else (if s[0] == x then [] else [s[0]]) + Without(s[1..], x)
  }

  lemma {:induction false} WithoutIncreasing(s: seq<UserId>, x: UserId)
    requires Increasing(s)
    ensures Increasing(Without(s, x))
  {
    if s != [] {
      WithoutIncreasing(s[1..], x);
      var rest := Without(s[1..], x);
      forall j | 0 <= j < |rest|
        ensures s[0] < rest[j]
      {
        assert rest[j] in s[1..];
      }
    }
  }

  /** Kept as a lemma: inside the impossible branch of `NoMembersEmpty` an
      inline indexing assertion would be checked under contradictory facts. */
  lemma FirstIsMember<T>(s: seq<T>)
    requires s != []
    ensures s[0] in s
  {
  }

  /** A list with no members is empty. */
  lemma NoMembersEmpty<T>(s: seq<T>)
    requires forall u :: u !in s
    ensures s == []
  {
    if s != [] {
      FirstIsMember(s);
      assert false;
    }
  }

  /** Two increasing lists with the same elements are the same list. */
  lemma {:induction false} IncreasingUnique(r1: seq<UserId>, r2: seq<UserId>)
    requires Increasing(r1) && Increasing(r2)
    requires forall u :: u in r1 <==> u in r2
    ensures r1 == r2
  {
    if r1 == [] || r2 == [] {
      forall u
        ensures u !in r1 && u !in r2
      {
      }
      NoMembersEmpty(r1);
      NoMembersEmpty(r2);
    } else {
      assert r1[0] in r2;
      assert r2[0] in r1;
      var i :| 0 <= i < |r1| && r1[i] == r2[0];
      var j :| 0 <= j < |r2| && r2[j] == r1[0];
      assert r1[0] <= r1[i] && r2[0] <= r2[j];
      assert r1[0] == r2[0];
      forall u
        ensures u in r1[1..] <==> u in r2[1..]
      {
        if u in r1[1..] {
          var k :| 1 <= k < |r1| && r1[k] == u;
          assert u in r2 && u != r2[0];
        }
        if u in r2[1..] {
          var k :| 1 <= k < |r2| && r2[k] == u;
          assert u in r1 && u != r1[0];
        }
      }
      IncreasingUnique(r1[1..], r2[1..]);
      assert r1 == [r1[0]] + r1[1..];
      assert r2 == [r2[0]] + r2[1..];
    }
  }

  // ---------------------------------------------------------------------------
  // The specification of the derivation

  /** The users owed a settlement row: counted assignees other than the payer,
      in ascending id order. */
  function Debtors(items: seq<Item>, payerId: UserId): (r: seq<UserId>)
    ensures Increasing(r)
    ensures forall u :: u in r <==> u in Assignees(items) && u != payerId
  {
    WithoutIncreasing(AscendingKeys(Assignees(items)), payerId);
    Without(AscendingKeys(Assignees(items)), payerId)
  }

  /** The settlements derived from a bill's items: one pending row per debtor,
      owed to the payer, for that debtor's total. */
  function Derive(items: seq<Item>, payerId: UserId): (r: seq<Intent>)
    ensures forall i :: 0 <= i < |r| ==>
      r[i].toUserId == payerId && r[i].status == Pending && r[i].fromUserId != payerId
    ensures forall i :: 0 <= i < |r| ==>
      r[i].fromUserId in Assignees(items) && r[i].amount == TotalFor(items, r[i].fromUserId)
    ensures forall i, j :: 0 <= i < j < |r| ==> r[i].fromUserId < r[j].fromUserId
    ensures forall u :: u in Assignees(items) && u != payerId ==>
      exists i :: 0 <= i < |r| && r[i].fromUserId == u
  {
    var keys := Debtors(items, payerId);
    assert forall i :: 0 <= i < |keys| ==> keys[i] in keys;
    IntentsFor(keys, items, payerId)
  }

  /** One pending row per listed user, owed to the payer, for that user's total. */
  function IntentsFor(keys: seq<UserId>, items: seq<Item>, payerId: UserId): (r: seq<Intent>)
    ensures |r| == |keys|
    ensures forall i :: 0 <= i < |r| ==> r[i] == Intent(keys[i], payerId, TotalFor(items, keys[i]), Pending)
  {
    seq(|keys|, i requires 0 <= i < |keys| => Intent(keys[i], payerId, TotalFor(items, keys[i]), Pending))
  }

  // ---------------------------------------------------------------------------
  // computeSettlements

  /** The deriver as the route runs it: accumulate per-user totals in a record,
      then list its entries in key order, drop the payer and emit pending rows. */
  method ComputeSettlements(items: seq<Item>, payerId: UserId) returns (r: seq<Intent>)
    ensures r == Derive(items, payerId)
  {
    var totals: map<UserId, int> := map[];
    for i := 0 to |items|
      invariant totals.Keys == Assignees(items[..i])
      invariant forall u :: u in totals ==> totals[u] == TotalFor(items[..i], u)
      invariant forall u :: u !in totals ==> TotalFor(items[..i], u) == 0
    {
      assert items[..i + 1][..i] == items[..i];
      var item := items[i];
      assert forall u :: TotalFor(items[..i + 1], u) == TotalFor(items[..i], u) + Share(item, u);
      if item.assignedUserId == 0 || item.amount == 0 {
        continue;
      }
      var sofar := if item.assignedUserId in totals then totals[item.assignedUserId] else 0;
      totals := totals[item.assignedUserId := sofar + item.amount];
    }
    assert items[..|items|] == items;
    var keys := Without(AscendingKeys(totals.Keys), payerId);
    r := seq(|keys|, k requires 0 <= k < |keys| => Intent(keys[k], payerId, totals[keys[k]], Pending));
  }

  // ---------------------------------------------------------------------------
  // Properties of the derivation

  lemma {:induction false} TotalForConcat(a: seq<Item>, b: seq<Item>, u: UserId)
    ensures TotalFor(a + b, u) == TotalFor(a, u) + TotalFor(b, u)
    decreases |b|
  {
    if b != [] {
      assert (a + b)[..|a + b| - 1] == a + b[..|b| - 1];
      TotalForConcat(a, b[..|b| - 1], u);
    } else {
      assert a + b == a;
    }
  }

  lemma {:induction false} AssigneesConcat(a: seq<Item>, b: seq<Item>)
    ensures Assignees(a + b) == Assignees(a) + Assignees(b)
    decreases |b|
  {
    if b != [] {
      assert (a + b)[..|a + b| - 1] == a + b[..|b| - 1];
      AssigneesConcat(a, b[..|b| - 1]);
    } else {
      assert a + b == a;
    }
  }

  lemma {:induction false} CountedIsAssignee(items: seq<Item>, k: nat)
    requires k < |items| && Counted(items[k])
    ensures items[k].assignedUserId in Assignees(items)
    decreases |items|
  {
    if k < |items| - 1 {
      CountedIsAssignee(items[..|items| - 1], k);
    }
  }

  /** Derivation reads the items only through who was assigned what. */
  lemma DeriveCongruence(a: seq<Item>, b: seq<Item>, payerId: UserId)
    requires Assignees(a) == Assignees(b)
    requires forall u :: TotalFor(a, u) == TotalFor(b, u)
    ensures Derive(a, payerId) == Derive(b, payerId)
  {
    var keys := Debtors(a, payerId);
    assert keys == Debtors(b, payerId);
    var ra, rb := IntentsFor(keys, a, payerId), IntentsFor(keys, b, payerId);
    assert forall i :: 0 <= i < |ra| ==> ra[i] == rb[i];
  }

  /** Sum of the per-user totals over a list of users. */
  function TotalsOver(keys: seq<UserId>, items: seq<Item>): int {
    if keys == [] then 0 else TotalsOver(keys[..|keys| - 1], items) + TotalFor(items, keys[|keys| - 1])
  }

  /** Sum of the shares one item gives to a list of users. */
  function SharesOver(keys: seq<UserId>, item: Item): int {
    if keys == [] then 0 else SharesOver(keys[..|keys| - 1], item) + Share(item, keys[|keys| - 1])
  }

  /** The sum of the counted amounts whose assignee is in `s`. */
  function TotalIn(items: seq<Item>, s: set<UserId>): int {
    if items == [] then 0
    else
      var last := items[|items| - 1];
      TotalIn(items[..|items| - 1], s) + (if Counted(last) && last.assignedUserId in s then last.amount else 0)
  }

  lemma {:induction false} IntentsTotalIsTotalsOver(keys: seq<UserId>, items: seq<Item>, payerId: UserId)
    ensures IntentsTotal(IntentsFor(keys, items, payerId)) == TotalsOver(keys, items)
    decreases |keys|
  {
    if keys != [] {
      var init := keys[..|keys| - 1];
      IntentsTotalIsTotalsOver(init, items, payerId);
      var r := IntentsFor(keys, items, payerId);
      assert r[..|r| - 1] == IntentsFor(init, items, payerId);
    }
  }

  lemma {:induction false} TotalsOverSnoc(keys: seq<UserId>, items: seq<Item>, x: Item)
    ensures TotalsOver(keys, items + [x]) == TotalsOver(keys, items) + SharesOver(keys, x)
    decreases |keys|
  {
    if keys != [] {
      assert (items + [x])[..|items|] == items;
      TotalsOverSnoc(keys[..|keys| - 1], items, x);
    }
  }

  lemma {:induction false} SharesOverDistinct(keys: seq<UserId>, x: Item)
    requires Increasing(keys)
    ensures SharesOver(keys, x) == if Counted(x) && x.assignedUserId in keys then x.amount else 0
    decreases |keys|
  {
    if keys != [] {
      var init := keys[..|keys| - 1];
      assert Increasing(init);
      SharesOverDistinct(init, x);
      assert keys == init + [keys[|keys| - 1]];
      if x.assignedUserId == keys[|keys| - 1] {
        assert x.assignedUserId !in init;
      }
    }
  }

  lemma {:induction false} TotalsOverIsTotalIn(keys: seq<UserId>, items: seq<Item>)
    requires Increasing(keys)
    ensures TotalsOver(keys, items) == TotalIn(items, set u | u in keys)
    decreases |items|
  {
    if items == [] {
      ZeroTotalsOver(keys);
    } else {
      var init, last := items[..|items| - 1], items[|items| - 1];
      assert items == init + [last];
      TotalsOverIsTotalIn(keys, init);
      TotalsOverSnoc(keys, init, last);
      SharesOverDistinct(keys, last);
    }
  }

  lemma {:induction false} ZeroTotalsOver(keys: seq<UserId>)
    ensures TotalsOver(keys, []) == 0
    decreases |keys|
  {
    if keys != [] { ZeroTotalsOver(keys[..|keys| - 1]); }
  }

  lemma {:induction false} TotalInIsPayable(items: seq<Item>, payerId: UserId, s: set<UserId>)
    requires forall k :: 0 <= k < |items| && Counted(items[k]) ==>
      (items[k].assignedUserId in s <==> items[k].assignedUserId != payerId)
    ensures TotalIn(items, s) == PayableTotal(items, payerId)
    decreases |items|
  {
    if items != [] {
      var init := items[..|items| - 1];
      forall k | 0 <= k < |init| && Counted(init[k])
        ensures init[k].assignedUserId in s <==> init[k].assignedUserId != payerId
      {
        assert init[k] == items[k];
      }
      TotalInIsPayable(init, payerId, s);
    }
  }

  /** The derived amounts add up to what the non-payer users were assigned. */
  lemma DeriveTotal(items: seq<Item>, payerId: UserId)
    ensures IntentsTotal(Derive(items, payerId)) == PayableTotal(items, payerId)
  {
    var keys := Debtors(items, payerId);
    IntentsTotalIsTotalsOver(keys, items, payerId);
    TotalsOverIsTotalIn(keys, items);
    var s := set u | u in keys;
    forall k | 0 <= k < |items| && Counted(items[k])
      ensures items[k].assignedUserId in s <==> items[k].assignedUserId != payerId
    {
      CountedIsAssignee(items, k);
    }
    TotalInIsPayable(items, payerId, s);
  }

  /** Moving one item to the end changes no total. */
  lemma MoveToEnd(pre: seq<Item>, x: Item, post: seq<Item>)
    ensures Assignees(pre + [x] + post) == Assignees(pre + post + [x])
    ensures forall u :: TotalFor(pre + [x] + post, u) == TotalFor(pre + post + [x], u)
  {
    assert [x][..0] == [];
    assert (pre + post + [x])[..|pre + post|] == pre + post;
    AssigneesConcat(pre + [x], post);
    AssigneesConcat(pre, [x]);
    AssigneesConcat(pre, post);
    forall u
      ensures TotalFor(pre + [x] + post, u) == TotalFor(pre + post + [x], u)
    {
      TotalForConcat(pre + [x], post, u);
      TotalForConcat(pre, [x], u);
      TotalForConcat(pre, post, u);
    }
  }

  lemma RemoveFromMultiset(a: seq<Item>, b: seq<Item>, k: nat)
    requires multiset(a) == multiset(b) && a != [] && k < |b| && b[k] == a[|a| - 1]
    ensures multiset(a[..|a| - 1]) == multiset(b[..k] + b[k + 1..])
  {
    var init, x, pre, post := a[..|a| - 1], a[|a| - 1], b[..k], b[k + 1..];
    assert a == init + [x];
    assert b == pre + [x] + post;
    assert multiset(pre + post) == multiset(pre) + multiset(post);
    forall e
      ensures multiset(init)[e] == multiset(pre + post)[e]
    {
      assert multiset(a)[e] == multiset(b)[e];
    }
  }

  lemma {:induction false} SameTotals(a: seq<Item>, b: seq<Item>)
    requires multiset(a) == multiset(b)
    ensures Assignees(a) == Assignees(b)
    ensures forall u :: TotalFor(a, u) == TotalFor(b, u)
    decreases |a|
  {
    if a == [] {
      assert |b| == |multiset(b)|;
    } else {
      var init, x := a[..|a| - 1], a[|a| - 1];
      assert x in multiset(b);
      var k :| 0 <= k < |b| && b[k] == x;
      var pre, post := b[..k], b[k + 1..];
      RemoveFromMultiset(a, b, k);
      SameTotals(init, pre + post);
      MoveToEnd(pre, x, post);
      assert b == pre + [x] + post;
      assert (pre + post + [x])[..|pre + post|] == pre + post;
    }
  }

  /** Derivation depends on the items only as a multiset: reordering them
      changes nothing. */
  lemma DeriveOrderIndependent(a: seq<Item>, b: seq<Item>, payerId: UserId)
    requires multiset(a) == multiset(b)
    ensures Derive(a, payerId) == Derive(b, payerId)
  {
    SameTotals(a, b);
    DeriveCongruence(a, b, payerId);
  }

  /** An item with a falsy assignee or amount contributes to no settlement. */
  lemma DeriveSkipsUncounted(a: seq<Item>, x: Item, b: seq<Item>, payerId: UserId)
    requires !Counted(x)
    ensures Derive(a + [x] + b, payerId) == Derive(a + b, payerId)
  {
    MoveToEnd(a, x, b);
    assert (a + b + [x])[..|a + b|] == a + b;
    DeriveCongruence(a + [x] + b, a + b, payerId);
  }

  lemma {:induction false} AssigneesWithin(items: seq<Item>, payerId: UserId)
    requires forall k :: 0 <= k < |items| ==> items[k].assignedUserId == payerId
    ensures Assignees(items) <= {payerId}
    decreases |items|
  {
    if items != [] {
      AssigneesWithin(items[..|items| - 1], payerId);
    }
  }

  /** If every item is assigned to the payer, nothing is owed. */
  lemma DeriveAllToPayer(items: seq<Item>, payerId: UserId)
    requires forall k :: 0 <= k < |items| ==> items[k].assignedUserId == payerId
    ensures Derive(items, payerId) == []
  {
    AssigneesWithin(items, payerId);
    var keys := Debtors(items, payerId);
    forall u
      ensures u !in keys
    {
    }
    NoMembersEmpty(keys);
  }

  lemma {:induction false} TotalForPositive(items: seq<Item>, u: UserId)
    requires forall k :: 0 <= k < |items| ==> items[k].amount >= 0
    ensures TotalFor(items, u) >= 0
    ensures u in Assignees(items) ==> TotalFor(items, u) > 0
    decreases |items|
  {
    if items != [] {
      TotalForPositive(items[..|items| - 1], u);
    }
  }

  /** With non-negative amounts no derived settlement is for zero. */
  lemma DerivePositive(items: seq<Item>, payerId: UserId)
    requires forall k :: 0 <= k < |items| ==> items[k].amount >= 0
    ensures forall i :: 0 <= i < |Derive(items, payerId)| ==> Derive(items, payerId)[i].amount > 0
  {
    var r := Derive(items, payerId);
    forall i | 0 <= i < |r|
      ensures r[i].amount > 0
    {
      TotalForPositive(items, r[i].fromUserId);
    }
  }

  lemma ExampleTotals(items: seq<Item>)
    requires items == [Item("", 30, 2), Item("", 20, 3), Item("", 10, 1)]
    ensures Assignees(items) == {1, 2, 3}
    ensures TotalFor(items, 2) == 30 && TotalFor(items, 3) == 20
  {
    var i1 := items[..1];
    var i2 := items[..2];
    assert i1[..0] == [] && i2[..1] == i1;
    assert Assignees(i1) == {2} && TotalFor(i1, 2) == 30 && TotalFor(i1, 3) == 0;
    assert Assignees(i2) == {2, 3} && TotalFor(i2, 2) == 30 && TotalFor(i2, 3) == 20;
  }

  /** The worked example: 30 to user 2, 20 to user 3 and 10 to the payer 1. */
  lemma WorkedExample(items: seq<Item>, payerId: UserId)
    requires items == [Item("", 30, 2), Item("", 20, 3), Item("", 10, 1)] && payerId == 1
    ensures Derive(items, payerId) == [Intent(2, 1, 30, Pending), Intent(3, 1, 20, Pending)]
  {
    ExampleTotals(items);
    var keys := Debtors(items, payerId);
    var expected := [2, 3];
    assert forall u :: u in keys <==> u in expected;
    assert Increasing(expected);
    IncreasingUnique(keys, expected);
  }

  /** Amounts that cancel out still leave a row: a user whose counted amounts
      sum to zero is owed a settlement for 0. */
  lemma CancellingAmountsKeepRow(items: seq<Item>, payerId: UserId)
    requires items == [Item("", 5, 2), Item("", -5, 2)] && payerId == 1
    ensures Derive(items, payerId) == [Intent(2, 1, 0, Pending)]
  {
    var first := items[..1];
    assert first == [Item("", 5, 2)] && first[..0] == [];
    assert Assignees(first) == {2} && TotalFor(first, 2) == 5;
    assert Assignees(items) == {2} && TotalFor(items, 2) == 0;
    var keys := Debtors(items, payerId);
    var expected := [2];
    assert forall u :: u in keys <==> u in expected;
    IncreasingUnique(keys, expected);
  }
}
