/** The bills API route: the read-time projection of each bill (`fetchBills`) and
    the create route (`POST`), which validates and normalises its body and then
    writes the bill, its items and its derived settlements in one transaction. */
module BillsRoute {
  import opened Wrappers
  import opened Derivation

  /** A monetary value as the store or a JSON body carries it: absent (null or
      undefined), a JavaScript number, or a store decimal. All in cents. */
  datatype Amount = Absent | Number(value: int) | Decimal(value: int)

  /** `toNumber`: null and undefined read as 0; a number reads as itself; a decimal
      reads as the number its text spells, which is its own value. */
  function ToNumber(a: Amount): (r: int)
    ensures a.Absent? ==> r == 0
    ensures !a.Absent? ==> r == a.value
  {
    match a
    case Absent => 0
    case Number(v) => v
    case Decimal(v) => v
  }

  /** Stored rows. A bill owns its items and settlements; they are kept inside it. */
  datatype BillItem = BillItem(description: string, amount: Amount, assignedUserId: UserId)
  datatype Settlement = Settlement(fromUserId: UserId, toUserId: UserId, amount: Amount, status: Status)
  datatype Bill = Bill(id: nat, title: string, date: string, payerId: UserId,
                       items: seq<BillItem>, settlements: seq<Settlement>)

  /** A bill as the list route returns it, with its three derived aggregates. */
  datatype BillView = BillView(bill: Bill, total: int, outstanding: int, paid: int)

  // ---------------------------------------------------------------------------
  // The read-time projection

  /** The sum of the item amounts. */
  function ItemsTotal(items: seq<BillItem>): int {
    if items == [] then 0 else ItemsTotal(items[..|items| - 1]) + ToNumber(items[|items| - 1].amount)
  }

  /** The sum of the settlement amounts. */
  function SettlementsTotal(ss: seq<Settlement>): int {
    if ss == [] then 0 else SettlementsTotal(ss[..|ss| - 1]) + ToNumber(ss[|ss| - 1].amount)
  }

  /** The settlements with the given status, in order; each matching row is
      kept as often as it occurs. */
  function WithStatus(ss: seq<Settlement>, st: Status): (r: seq<Settlement>)
    ensures forall s :: s in r <==> s in ss && s.status == st
  {
    if ss == [] then []
    else
      var last := ss[|ss| - 1];
      WithStatus(ss[..|ss| - 1], st) + (if last.status == st then [last] else [])
  }

  /** The status filter keeps every matching settlement as often as it occurs
      and drops every other one. */
  lemma {:induction false} WithStatusCounts(ss: seq<Settlement>, st: Status)
    ensures forall s :: multiset(WithStatus(ss, st))[s] == if s.status == st then multiset(ss)[s] else 0
    decreases |ss|
  {
    if ss != [] {
      var init, last := ss[..|ss| - 1], ss[|ss| - 1];
      assert ss == init + [last];
      WithStatusCounts(init, st);
    }
  }

  /** The status filter distributes over concatenation, so it keeps the
      settlements in their original order. */
  lemma {:induction false} WithStatusConcat(a: seq<Settlement>, c: seq<Settlement>, st: Status)
    ensures WithStatus(a + c, st) == WithStatus(a, st) + WithStatus(c, st)
    decreases |c|
  {
    if c == [] {
      assert a + c == a;
    } else {
      assert (a + c)[..|a + c| - 1] == a + c[..|c| - 1];
      WithStatusConcat(a, c[..|c| - 1], st);
    }
  }

  lemma {:induction false} SettlementsTotalSnoc(ss: seq<Settlement>, s: Settlement)
    ensures SettlementsTotal(ss + [s]) == SettlementsTotal(ss) + ToNumber(s.amount)
  {
    assert (ss + [s])[..|ss|] == ss;
  }

  /** Pending and paid settlements partition a bill's settlements, so what is
      outstanding and what is paid add up to all that was ever owed. */
  lemma {:induction false} StatusSplit(ss: seq<Settlement>)
    ensures SettlementsTotal(WithStatus(ss, Pending)) + SettlementsTotal(WithStatus(ss, Paid))
         == SettlementsTotal(ss)
  {
    if ss != [] {
      var init, last := ss[..|ss| - 1], ss[|ss| - 1];
      StatusSplit(init);
      SettlementsTotalSnoc(WithStatus(init, last.status), last);
      assert WithStatus(init, Pending) + [] == WithStatus(init, Pending);
      assert WithStatus(init, Paid) + [] == WithStatus(init, Paid);
    }
  }

  /** One bill of the list route: `total` sums the items, `outstanding` the
      pending settlements and `paid` the paid ones. */
  function Project(b: Bill): (v: BillView)
    ensures v.bill == b
    ensures v.outstanding + v.paid == SettlementsTotal(b.settlements)
  {
    StatusSplit(b.settlements);
    BillView(b, ItemsTotal(b.items),
             SettlementsTotal(WithStatus(b.settlements, Pending)),
             SettlementsTotal(WithStatus(b.settlements, Paid)))
  }

  // ---------------------------------------------------------------------------
  // The create route

  /** An item of the request body. Absent fields are `None`; a present assignee
      that does not parse as a number is 0, like NaN a falsy id. */
  datatype RawItem = RawItem(description: Option<string>, amount: Option<int>, assignedUserId: Option<UserId>)

  /** The request body. A missing or empty title or date is "", a missing or
      falsy payer id is 0, and `items` is `None` when it is not an array. */
  datatype CreateRequest = CreateRequest(title: string, date: string, payerId: UserId, items: Option<seq<RawItem>>)

  const RequiredFieldsError := "title, date, payerId, and at least one item are required"
  const CreateFailedError := "Failed to create bill"

  /** 201 with the created bill, 400 for a body that fails validation, 500 when
      the store aborts the transaction. */
  datatype Response = Created(bill: Bill) | BadRequest(error: string) | ServerError(error: string)

  /** The route's validation: every one of title, date and payer id must be
      truthy and `items` a non-empty array. */
  predicate Rejected(req: CreateRequest) {
    req.title == "" || req.date == "" || req.payerId == 0 || req.items.None? || |req.items.value| == 0
  }

  /** A missing description becomes "", a missing amount 0, a missing assignee
      the falsy id. */
  function Normalize(raw: RawItem): Item {
    Item(raw.description.GetOr(""), raw.amount.GetOr(0), raw.assignedUserId.GetOr(0))
  }

  function NormalizeAll(raws: seq<RawItem>): (r: seq<Item>)
    ensures |r| == |raws| && forall i :: 0 <= i < |r| ==> r[i] == Normalize(raws[i])
  {
    seq(|raws|, i requires 0 <= i < |raws| => Normalize(raws[i]))
  }

  /** The item rows written for a bill; the store keeps amounts as decimals. */
  function StoreItems(items: seq<Item>): (r: seq<BillItem>)
    ensures |r| == |items|
    ensures forall i :: 0 <= i < |r| ==>
      r[i] == BillItem(items[i].description, Decimal(items[i].amount), items[i].assignedUserId)
  {
    seq(|items|, i requires 0 <= i < |items| =>
      BillItem(items[i].description, Decimal(items[i].amount), items[i].assignedUserId))
  }

  /** The settlement rows written for a bill. */
  function StoreSettlements(intents: seq<Intent>): (r: seq<Settlement>)
    ensures |r| == |intents|
    ensures forall i :: 0 <= i < |r| ==>
      r[i] == Settlement(intents[i].fromUserId, intents[i].toUserId, Decimal(intents[i].amount), intents[i].status)
  {
    seq(|intents|, i requires 0 <= i < |intents| =>
      Settlement(intents[i].fromUserId, intents[i].toUserId, Decimal(intents[i].amount), intents[i].status))
  }

  /** The bill a valid request creates under the fresh id `id`. */
  function NewBill(id: nat, req: CreateRequest): Bill
    requires req.items.Some?
  {
    var items := NormalizeAll(req.items.value);
    Bill(id, req.title, req.date, req.payerId, StoreItems(items), StoreSettlements(Derive(items, req.payerId)))
  }

  /** The in-memory ledger standing for the store: the bills in creation order,
      each with its items and settlements, and the next fresh bill id. */
  class Ledger {
    var bills: seq<Bill>
    var nextId: nat

    ghost predicate Valid()
      reads this
    {
      (forall i :: 0 <= i < |bills| ==> bills[i].id < nextId) &&
      (forall i, j :: 0 <= i < j < |bills| ==> bills[i].id < bills[j].id)
    }

    constructor ()
      ensures Valid() && bills == []
    {
      bills := [];
      nextId := 1;
    }

    /** `POST /bills`. A body that fails validation is answered 400 and writes
        nothing. Otherwise the bill, its items and its settlements are staged in
        that order and become visible together, or not at all when the store
        aborts (`commits` is false). After the commit the bill is read back
        (`rereads` says whether that read succeeds); a failed read is answered
        500 although the bill is already stored. */
    method Create(req: CreateRequest, commits: bool, rereads: bool) returns (res: Response)
      requires Valid()
      modifies this
      ensures Valid()
      ensures Rejected(req) ==>
        res == BadRequest(RequiredFieldsError) && bills == old(bills) && nextId == old(nextId)
      ensures !Rejected(req) && !commits ==>
        res == ServerError(CreateFailedError) && bills == old(bills) && nextId == old(nextId)
      ensures !Rejected(req) && commits ==>
        bills == old(bills) + [NewBill(old(nextId), req)]
        && forall i :: 0 <= i < |old(bills)| ==> old(bills)[i].id != old(nextId)
      ensures !Rejected(req) && commits && rereads ==> res == Created(NewBill(old(nextId), req))
      ensures !Rejected(req) && commits && !rereads ==> res == ServerError(CreateFailedError)
    {
      if Rejected(req) {
        return BadRequest(RequiredFieldsError);
      }
      var items := NormalizeAll(req.items.value);
      var intents := ComputeSettlements(items, req.payerId);

      // The transaction: bill, then items, then settlements.
      var staged := Bill(nextId, req.title, req.date, req.payerId, [], []);
      if |items| > 0 {
        staged := staged.(items := StoreItems(items));
      }
      if |intents| > 0 {
        staged := staged.(settlements := StoreSettlements(intents));
      }
      if !commits {
        return ServerError(CreateFailedError);
      }
      bills := bills + [staged];
      nextId := nextId + 1;

      // The read-back after the commit, inside the same error handler.
      if !rereads {
        return ServerError(CreateFailedError);
      }
      res := Created(staged);
    }
  }

  // ---------------------------------------------------------------------------
  // Properties of a created bill

  /** The sum of the request's item amounts, a missing amount counting 0. */
  function RawTotal(raws: seq<RawItem>): int {
    if raws == [] then 0 else RawTotal(raws[..|raws| - 1]) + raws[|raws| - 1].amount.GetOr(0)
  }

  /** A created bill keeps the request's header, has one item per request item
      in the same order with its defaults filled in, and owes the payer one
      pending row per other assignee. */
  lemma NewBillShape(id: nat, req: CreateRequest)
    requires !Rejected(req)
    ensures var b := NewBill(id, req); var raws := req.items.value;
      b.id == id && b.title == req.title && b.date == req.date && b.payerId == req.payerId
      && |b.items| == |raws|
      && (forall i :: 0 <= i < |raws| ==>
            b.items[i].description == (if raws[i].description.Some? then raws[i].description.value else "")
            && b.items[i].amount == Decimal(if raws[i].amount.Some? then raws[i].amount.value else 0)
            && b.items[i].assignedUserId == (if raws[i].assignedUserId.Some? then raws[i].assignedUserId.value else 0))
      && (forall s :: s in b.settlements ==>
            s.toUserId == req.payerId && s.fromUserId != s.toUserId && s.status == Pending)
  {
    var b := NewBill(id, req);
    var intents := Derive(NormalizeAll(req.items.value), req.payerId);
    forall s | s in b.settlements
      ensures s.toUserId == req.payerId && s.fromUserId != s.toUserId && s.status == Pending
    {
      var k :| 0 <= k < |b.settlements| && b.settlements[k] == s;
      assert s.fromUserId == intents[k].fromUserId;
    }
  }

  lemma {:induction false} StoredTotal(intents: seq<Intent>)
    ensures SettlementsTotal(StoreSettlements(intents)) == IntentsTotal(intents)
    decreases |intents|
  {
    if intents != [] {
      var init := intents[..|intents| - 1];
      StoredTotal(init);
      assert StoreSettlements(intents)[..|init|] == StoreSettlements(init);
    }
  }

  lemma {:induction false} AllPending(ss: seq<Settlement>)
    requires forall i :: 0 <= i < |ss| ==> ss[i].status == Pending
    ensures WithStatus(ss, Pending) == ss && WithStatus(ss, Paid) == []
    decreases |ss|
  {
    if ss != [] {
      AllPending(ss[..|ss| - 1]);
    }
  }

  lemma {:induction false} StoredItemsTotal(raws: seq<RawItem>)
    ensures ItemsTotal(StoreItems(NormalizeAll(raws))) == RawTotal(raws)
    decreases |raws|
  {
    if raws != [] {
      var init := raws[..|raws| - 1];
      StoredItemsTotal(init);
      assert StoreItems(NormalizeAll(raws))[..|init|] == StoreItems(NormalizeAll(init));
    }
  }

  /** Right after creation nothing is paid, everything the non-payer users were
      assigned is outstanding, and the total is the sum of the request's amounts. */
  lemma NewBillProjection(id: nat, req: CreateRequest)
    requires !Rejected(req)
    ensures var v := Project(NewBill(id, req)); var items := NormalizeAll(req.items.value);
      v.paid == 0 && v.outstanding == PayableTotal(items, req.payerId)
      && v.total == RawTotal(req.items.value)
  {
    var items := NormalizeAll(req.items.value);
    var intents := Derive(items, req.payerId);
    var ss := StoreSettlements(intents);
    AllPending(ss);
    StoredTotal(intents);
    DeriveTotal(items, req.payerId);
    StoredItemsTotal(req.items.value);
  }
}
