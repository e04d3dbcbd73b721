/** The split-bills page: the global balance sheet folded over every bill, the
    item rows of the create form and the form's submit step. */
module SplitBillsPage {
  import opened Wrappers
  import opened Derivation
  import opened BillsRoute

  // ---------------------------------------------------------------------------
  // Global balances

  /** What settlement `s` does to user `u`'s balance: a pending settlement takes
      its amount from the debtor and gives it to the creditor; a paid one does
      nothing. */
  function Effect(s: Settlement, u: UserId): int {
    if s.status != Pending then 0
    else
      var amount := ToNumber(s.amount);
      (if s.toUserId == u then amount else 0) - (if s.fromUserId == u then amount else 0)
  }

  /** User `u`'s net balance over a list of settlements. */
  function NetIn(ss: seq<Settlement>, u: UserId): int {
    if ss == [] then 0 else NetIn(ss[..|ss| - 1], u) + Effect(ss[|ss| - 1], u)
  }

  /** User `u`'s net balance over all bills: positive when owed, negative when owing. */
  function NetBalance(bills: seq<Bill>, u: UserId): int {
    if bills == [] then 0 else NetBalance(bills[..|bills| - 1], u) + NetIn(bills[|bills| - 1].settlements, u)
  }

  /** The users at either end of a pending settlement. */
  function PartiesIn(ss: seq<Settlement>): set<UserId> {
    if ss == [] then {}
    else
      var s := ss[|ss| - 1];
      PartiesIn(ss[..|ss| - 1]) + (if s.status == Pending then {s.fromUserId, s.toUserId} else {})
  }

  function Parties(bills: seq<Bill>): set<UserId> {
    if bills == [] then {} else Parties(bills[..|bills| - 1]) + PartiesIn(bills[|bills| - 1].settlements)
  }

  /** A user's entry in the balance record, 0 when the record has none. */
  function BalanceOf(balances: map<UserId, int>, u: UserId): int {
    if u in balances then balances[u] else 0
  }

  /** `globalBalances`: walk every bill's settlements, skip those not pending,
      debit the debtor and credit the creditor. */
  method GlobalBalances(bills: seq<Bill>) returns (balances: map<UserId, int>)
    ensures balances.Keys == Parties(bills)
    ensures forall u :: BalanceOf(balances, u) == NetBalance(bills, u)
  {
    balances := map[];
    for i := 0 to |bills|
      invariant balances.Keys == Parties(bills[..i])
      invariant forall u :: BalanceOf(balances, u) == NetBalance(bills[..i], u)
    {
      assert bills[..i + 1][..i] == bills[..i];
      var ss := bills[i].settlements;
      for j := 0 to |ss|
        invariant balances.Keys == Parties(bills[..i]) + PartiesIn(ss[..j])
        invariant forall u :: BalanceOf(balances, u) == NetBalance(bills[..i], u) + NetIn(ss[..j], u)
      {
        assert ss[..j + 1][..j] == ss[..j];
        var s := ss[j];
        if s.status != Pending {
          continue;
        }
        var amount := ToNumber(s.amount);
        balances := balances[s.fromUserId := BalanceOf(balances, s.fromUserId) - amount];
        balances := balances[s.toUserId := BalanceOf(balances, s.toUserId) + amount];
      }
      assert ss[..|ss|] == ss;
    }
    assert bills[..|bills|] == bills;
  }

  /** A user in no pending settlement has balance 0. */
  lemma {:induction false} OutsiderHasZeroBalance(bills: seq<Bill>, u: UserId)
    requires u !in Parties(bills)
    ensures NetBalance(bills, u) == 0
    decreases |bills|
  {
    if bills != [] {
      OutsiderHasZeroBalance(bills[..|bills| - 1], u);
      OutsiderHasZeroNet(bills[|bills| - 1].settlements, u);
    }
  }

  lemma {:induction false} OutsiderHasZeroNet(ss: seq<Settlement>, u: UserId)
    requires u !in PartiesIn(ss)
    ensures NetIn(ss, u) == 0
    decreases |ss|
  {
    if ss != [] {
      OutsiderHasZeroNet(ss[..|ss| - 1], u);
    }
  }

  predicate Distinct(users: seq<UserId>) {
    forall i, j :: 0 <= i < j < |users| ==> users[i] != users[j]
  }

  /** The balances of a list of users, added up. */
  function SumBalances(users: seq<UserId>, bills: seq<Bill>): int {
    if users == [] then 0 else SumBalances(users[..|users| - 1], bills) + NetBalance(bills, users[|users| - 1])
  }

  function SumNetIn(users: seq<UserId>, ss: seq<Settlement>): int {
    if users == [] then 0 else SumNetIn(users[..|users| - 1], ss) + NetIn(ss, users[|users| - 1])
  }

  function SumEffect(users: seq<UserId>, s: Settlement): int {
    if users == [] then 0 else SumEffect(users[..|users| - 1], s) + Effect(s, users[|users| - 1])
  }

  lemma {:induction false} SumEffectCounts(users: seq<UserId>, s: Settlement)
    requires Distinct(users)
    ensures s.status == Pending ==>
      SumEffect(users, s) == (if s.toUserId in users then ToNumber(s.amount) else 0)
                             - (if s.fromUserId in users then ToNumber(s.amount) else 0)
    ensures s.status != Pending ==> SumEffect(users, s) == 0
    decreases |users|
  {
    if users != [] {
      var init, last := users[..|users| - 1], users[|users| - 1];
      assert Distinct(init);
      assert users == init + [last];
      assert last !in init;
      SumEffectCounts(init, s);
    }
  }

  lemma {:induction false} SumNetInSnoc(users: seq<UserId>, ss: seq<Settlement>, s: Settlement)
    ensures SumNetIn(users, ss + [s]) == SumNetIn(users, ss) + SumEffect(users, s)
    decreases |users|
  {
    assert (ss + [s])[..|ss|] == ss;
    if users != [] {
      SumNetInSnoc(users[..|users| - 1], ss, s);
    }
  }

  lemma {:induction false} SumNetInZero(users: seq<UserId>, ss: seq<Settlement>)
    requires Distinct(users)
    requires PartiesIn(ss) <= set u | u in users
    ensures SumNetIn(users, ss) == 0
    decreases |ss|
  {
    if ss == [] {
      SumNetInEmpty(users);
    } else {
      var init, s := ss[..|ss| - 1], ss[|ss| - 1];
      assert ss == init + [s];
      SumNetInZero(users, init);
      SumNetInSnoc(users, init, s);
      SumEffectCounts(users, s);
      if s.status == Pending {
        assert s.fromUserId in PartiesIn(ss) && s.toUserId in PartiesIn(ss);
      }
    }
  }

  lemma {:induction false} SumNetInEmpty(users: seq<UserId>)
    ensures SumNetIn(users, []) == 0
    decreases |users|
  {
    if users != [] { SumNetInEmpty(users[..|users| - 1]); }
  }

  lemma {:induction false} SumBalancesSnoc(users: seq<UserId>, bills: seq<Bill>, b: Bill)
    ensures SumBalances(users, bills + [b]) == SumBalances(users, bills) + SumNetIn(users, b.settlements)
    decreases |users|
  {
    assert (bills + [b])[..|bills|] == bills;
    if users != [] {
      SumBalancesSnoc(users[..|users| - 1], bills, b);
    }
  }

  lemma {:induction false} SumBalancesEmpty(users: seq<UserId>)
    ensures SumBalances(users, []) == 0
    decreases |users|
  {
    if users != [] { SumBalancesEmpty(users[..|users| - 1]); }
  }

  /** Every pending settlement moves money from one user to another, so the
      balances of all users involved (each listed once) add up to 0. */
  lemma {:induction false} BalancesSumToZero(users: seq<UserId>, bills: seq<Bill>)
    requires Distinct(users)
    requires Parties(bills) <= set u | u in users
    ensures SumBalances(users, bills) == 0
    decreases |bills|
  {
    if bills == [] {
      SumBalancesEmpty(users);
    } else {
      var init, b := bills[..|bills| - 1], bills[|bills| - 1];
      assert bills == init + [b];
      BalancesSumToZero(users, init);
      SumBalancesSnoc(users, init, b);
      SumNetInZero(users, b.settlements);
    }
  }

  // ---------------------------------------------------------------------------
  // Item rows of the create form

  /** One editable item row; every field is the text of its input. */
  datatype Row = Row(tempId: string, description: string, amount: string, assignedUserId: string)

  datatype Field = TempId | Description | Amount | AssignedUser

  function Blank(tempId: string): Row {
    Row(tempId, "", "", "")
  }

  function Get(row: Row, f: Field): string {
    match f
    case TempId => row.tempId
    case Description => row.description
    case Amount => row.amount
    case AssignedUser => row.assignedUserId
  }

  /** `{ ...item, [field]: value }` */
  function Set(row: Row, f: Field, value: string): Row {
    match f
    case TempId => row.(tempId := value)
    case Description => row.(description := value)
    case Amount => row.(amount := value)
    case AssignedUser => row.(assignedUserId := value)
  }

  predicate UniqueIds(rows: seq<Row>) {
    forall i, j :: 0 <= i < j < |rows| ==> rows[i].tempId != rows[j].tempId
  }

  predicate IdAbsent(rows: seq<Row>, id: string) {
    forall i :: 0 <= i < |rows| ==> rows[i].tempId != id
  }

  /** `handleAddItem`: append one blank row under a fresh id. */
  function AddItem(rows: seq<Row>, freshId: string): (r: seq<Row>)
    ensures |r| == |rows| + 1 && r[..|rows|] == rows && r[|rows|] == Blank(freshId)
  {
    rows + [Blank(freshId)]
  }

  /** `handleRemoveItem`: keep the rows whose id differs, in order. */
  function RemoveItem(rows: seq<Row>, id: string): (r: seq<Row>)
    ensures forall x :: x in r <==> x in rows && x.tempId != id
    ensures |r| <= |rows|
  {
    if rows == [] then []
    else
      var last := rows[|rows| - 1];
      RemoveItem(rows[..|rows| - 1], id) + (if last.tempId != id then [last] else [])
  }

  /** `handleItemChange`: set one field of the rows carrying the id. */
  function ChangeItem(rows: seq<Row>, id: string, f: Field, value: string): (r: seq<Row>)
    ensures |r| == |rows|
    ensures forall i, g :: 0 <= i < |r| ==>
      Get(r[i], g) == if rows[i].tempId == id && g == f then value else Get(rows[i], g)
  {
    seq(|rows|, i requires 0 <= i < |rows| => if rows[i].tempId == id then Set(rows[i], f, value) else rows[i])
  }

  lemma {:induction false} RemoveAbsent(rows: seq<Row>, id: string)
    requires IdAbsent(rows, id)
    ensures RemoveItem(rows, id) == rows
    decreases |rows|
  {
    if rows != [] {
      var init := rows[..|rows| - 1];
      assert IdAbsent(init, id) by {
        forall i | 0 <= i < |init| ensures init[i].tempId != id { assert init[i] == rows[i]; }
      }
      RemoveAbsent(init, id);
      assert rows[|rows| - 1].tempId != id;
      assert rows == init + [rows[|rows| - 1]];
    }
  }

  lemma {:induction false} RemoveConcat(a: seq<Row>, b: seq<Row>, id: string)
    ensures RemoveItem(a + b, id) == RemoveItem(a, id) + RemoveItem(b, id)
    decreases |b|
  {
    if b == [] {
      assert a + b == a;
    } else {
      assert (a + b)[..|a + b| - 1] == a + b[..|b| - 1];
      RemoveConcat(a, b[..|b| - 1], id);
    }
  }

  /** Removing the row just added gives the rows back. */
  lemma RemoveUndoesAdd(rows: seq<Row>, freshId: string)
    requires IdAbsent(rows, freshId)
    ensures RemoveItem(AddItem(rows, freshId), freshId) == rows
  {
    RemoveAbsent(rows, freshId);
    assert (rows + [Blank(freshId)])[..|rows|] == rows;
  }

  lemma OthersLackId(rows: seq<Row>, k: nat)
    requires UniqueIds(rows) && k < |rows|
    ensures IdAbsent(rows[..k], rows[k].tempId) && IdAbsent(rows[k + 1..], rows[k].tempId)
  {
    var pre, post := rows[..k], rows[k + 1..];
    forall i | 0 <= i < |pre| ensures pre[i].tempId != rows[k].tempId { assert pre[i] == rows[i]; }
    forall i | 0 <= i < |post| ensures post[i].tempId != rows[k].tempId { assert post[i] == rows[k + 1 + i]; }
  }

  lemma RemoveSplit(pre: seq<Row>, x: Row, post: seq<Row>)
    requires IdAbsent(pre, x.tempId) && IdAbsent(post, x.tempId)
    ensures RemoveItem(pre + [x] + post, x.tempId) == pre + post
  {
    var id := x.tempId;
    RemoveAbsent(pre, id);
    RemoveAbsent(post, id);
    assert [x][..0] == [];
    assert RemoveItem([x], id) == [];
    RemoveConcat(pre, [x], id);
    assert RemoveItem(pre + [x], id) == pre;
    RemoveConcat(pre + [x], post, id);
  }

  /** Kept as a lemma: proved with `UniqueIds` in scope, as in
      `RemoveExactlyOne`, this sequence identity exhausts the solver. */
  lemma SplitAt(rows: seq<Row>, k: nat)
    requires k < |rows|
    ensures rows == rows[..k] + [rows[k]] + rows[k + 1..]
  {
  }

  /** With unique ids, removing row `k`'s id removes exactly that row and keeps
      the others in order. */
  lemma RemoveExactlyOne(rows: seq<Row>, k: nat)
    requires UniqueIds(rows) && k < |rows|
    ensures RemoveItem(rows, rows[k].tempId) == rows[..k] + rows[k + 1..]
  {
    OthersLackId(rows, k);
    SplitAt(rows, k);
    RemoveSplit(rows[..k], rows[k], rows[k + 1..]);
  }

  /** The Remove control is offered only when there are at least two rows, so
      a removal drops exactly one row and never empties the item list. Adding
      and changing rows cannot empty it either, by the length clauses of
      `AddItem` and `ChangeItem`. */
  lemma RowEditsKeepOneRow(rows: seq<Row>, k: nat)
    requires UniqueIds(rows) && |rows| > 1 && k < |rows|
    ensures |RemoveItem(rows, rows[k].tempId)| == |rows| - 1 >= 1
  {
    RemoveExactlyOne(rows, k);
  }

  /** Adding a row under an id no row has keeps the ids unique. */
  lemma AddKeepsUniqueIds(rows: seq<Row>, freshId: string)
    requires UniqueIds(rows) && IdAbsent(rows, freshId)
    ensures UniqueIds(AddItem(rows, freshId))
  {
    var r := AddItem(rows, freshId);
    forall i, j | 0 <= i < j < |r| ensures r[i].tempId != r[j].tempId {
      assert r[i] == rows[i];
      if j < |rows| { assert r[j] == rows[j]; }
    }
  }

  /** Removing rows keeps the ids unique. */
  lemma {:induction false} RemoveKeepsUniqueIds(rows: seq<Row>, id: string)
    requires UniqueIds(rows)
    ensures UniqueIds(RemoveItem(rows, id))
    decreases |rows|
  {
    if rows != [] {
      var init, last := rows[..|rows| - 1], rows[|rows| - 1];
      assert UniqueIds(init) by {
        forall i, j | 0 <= i < j < |init| ensures init[i].tempId != init[j].tempId {
          assert init[i] == rows[i] && init[j] == rows[j];
        }
      }
      RemoveKeepsUniqueIds(init, id);
      var r := RemoveItem(init, id);
      forall i | 0 <= i < |r| ensures r[i].tempId != last.tempId {
        assert r[i] in init;
        var j :| 0 <= j < |init| && init[j] == r[i];
        assert rows[j] == init[j];
      }
    }
  }

  /** Editing a description, amount or assignee leaves every id as it was. */
  lemma ChangeKeepsUniqueIds(rows: seq<Row>, id: string, f: Field, value: string)
    requires UniqueIds(rows) && f != TempId
    ensures UniqueIds(ChangeItem(rows, id, f, value))
  {
    var r := ChangeItem(rows, id, f, value);
    forall i | 0 <= i < |r| ensures r[i].tempId == rows[i].tempId {
      assert Get(r[i], TempId) == Get(rows[i], TempId);
    }
  }

  /** One user action on the item rows. */
  datatype Edit = AddRow(freshId: string) | RemoveRow(id: string) | ChangeRow(id: string, field: Field, value: string)

  /** What the page offers: Add under a fresh random id, Remove on a row's own
      id while there are two or more rows, and edits of the description,
      amount and assignee inputs. */
  predicate Offered(rows: seq<Row>, e: Edit) {
    match e
    case AddRow(freshId) => IdAbsent(rows, freshId)
    case RemoveRow(id) => |rows| > 1 && exists k :: 0 <= k < |rows| && rows[k].tempId == id
    case ChangeRow(_, f, _) => f != TempId
  }

  function Apply(rows: seq<Row>, e: Edit): seq<Row> {
    match e
    case AddRow(freshId) => AddItem(rows, freshId)
    case RemoveRow(id) => RemoveItem(rows, id)
    case ChangeRow(id, f, value) => ChangeItem(rows, id, f, value)
  }

  /** Every edit of the run is offered in the state it meets. */
  predicate OfferedRun(rows: seq<Row>, edits: seq<Edit>)
    decreases |edits|
  {
    edits == [] || (Offered(rows, edits[0]) && OfferedRun(Apply(rows, edits[0]), edits[1..]))
  }

  function Replay(rows: seq<Row>, edits: seq<Edit>): seq<Row>
    decreases |edits|
  {
    if edits == [] then rows else Replay(Apply(rows, edits[0]), edits[1..])
  }

  lemma EditKeepsRows(rows: seq<Row>, e: Edit)
    requires UniqueIds(rows) && |rows| >= 1 && Offered(rows, e)
    ensures UniqueIds(Apply(rows, e)) && |Apply(rows, e)| >= 1
  {
    match e
    case AddRow(freshId) =>
      AddKeepsUniqueIds(rows, freshId);
    case RemoveRow(id) =>
      var k :| 0 <= k < |rows| && rows[k].tempId == id;
      RemoveExactlyOne(rows, k);
      RemoveKeepsUniqueIds(rows, id);
    case ChangeRow(id, f, value) =>
      ChangeKeepsUniqueIds(rows, id, f, value);
  }

  lemma {:induction false} ReplayKeepsRows(rows: seq<Row>, edits: seq<Edit>)
    requires UniqueIds(rows) && |rows| >= 1 && OfferedRun(rows, edits)
    ensures UniqueIds(Replay(rows, edits)) && |Replay(rows, edits)| >= 1
    decreases |edits|
  {
    if edits != [] {
      EditKeepsRows(rows, edits[0]);
      ReplayKeepsRows(Apply(rows, edits[0]), edits[1..]);
    }
  }

  /** Every item list the form reaches from one blank row (its initial state
      and its state after a successful submit) has unique ids and at least one
      row, so every Remove the page offers removes exactly one row. */
  lemma ReachableRowsUnique(freshId: string, edits: seq<Edit>)
    requires OfferedRun([Blank(freshId)], edits)
    ensures UniqueIds(Replay([Blank(freshId)], edits)) && |Replay([Blank(freshId)], edits)| >= 1
  {
    ReplayKeepsRows([Blank(freshId)], edits);
  }

  // ---------------------------------------------------------------------------
  // Submitting the form

  datatype Form = Form(title: string, date: string, payerId: string, items: seq<Row>)

  datatype PayloadItem = PayloadItem(description: string, amount: int, assignedUserId: UserId)

  /** The JSON body posted to the create route. */
  datatype Payload = Payload(title: string, date: string, payerId: UserId, items: seq<PayloadItem>)

  const HeaderError := "Please fill in title, date, and payer"
  const RowsError := "Please fill all item rows"

  datatype Check = Invalid(message: string) | Ready(payload: Payload)

  predicate RowComplete(row: Row) {
    row.description != "" && row.amount != "" && row.assignedUserId != ""
  }

  /** `items.some(...)`: some row has an empty field. */
  function SomeIncomplete(rows: seq<Row>): (b: bool)
    ensures b <==> exists i :: 0 <= i < |rows| && !RowComplete(rows[i])
  {
    if rows == [] then false
    else
      var b := SomeIncomplete(rows[..|rows| - 1]);
      assert forall i :: 0 <= i < |rows| - 1 ==> rows[..|rows| - 1][i] == rows[i];
      b || !RowComplete(rows[|rows| - 1])
  }

  /** The payload rows: `Number(...)` of the amount and assignee texts, the
      conversions given as `parseAmount` and `parseId`. */
  function PayloadItems(rows: seq<Row>, parseAmount: string -> int, parseId: string -> UserId): (r: seq<PayloadItem>)
    ensures |r| == |rows|
  {
    seq(|rows|, i requires 0 <= i < |rows| =>
      PayloadItem(rows[i].description, parseAmount(rows[i].amount), parseId(rows[i].assignedUserId)))
  }

  /** `handleSubmit`'s checks and the payload it builds. */
  function CheckForm(form: Form, parseAmount: string -> int, parseId: string -> UserId): (r: Check)
    ensures r == Invalid(HeaderError) <==> form.title == "" || form.date == "" || form.payerId == ""
    ensures r.Ready? <==>
      form.title != "" && form.date != "" && form.payerId != "" && |form.items| > 0
      && forall i :: 0 <= i < |form.items| ==> RowComplete(form.items[i])
    ensures r.Ready? ==>
      r.payload.title == form.title && r.payload.date == form.date
      && r.payload.payerId == parseId(form.payerId)
      && |r.payload.items| == |form.items|
      && forall i :: 0 <= i < |form.items| ==>
           r.payload.items[i].description == form.items[i].description
           && r.payload.items[i].amount == parseAmount(form.items[i].amount)
           && r.payload.items[i].assignedUserId == parseId(form.items[i].assignedUserId)
    ensures r == Invalid(RowsError) <==>
      form.title != "" && form.date != "" && form.payerId != ""
      && (|form.items| == 0 || exists i :: 0 <= i < |form.items| && !RowComplete(form.items[i]))
    ensures r.Invalid? ==> r == Invalid(HeaderError) || r == Invalid(RowsError)
  {
    if form.title == "" || form.date == "" || form.payerId == "" then Invalid(HeaderError)
    else if |form.items| == 0 || SomeIncomplete(form.items) then Invalid(RowsError)
    else Ready(Payload(form.title, form.date, parseId(form.payerId), PayloadItems(form.items, parseAmount, parseId)))
  }

  /** What a submit leaves behind: the payload sent, if any, and the form. */
  datatype Submitted = Submitted(sent: Option<Payload>, form: Form)

  /** `handleSubmit`: send only a complete form; once the server accepts it,
      clear the title, reset the date to today and the items to one blank row
      under a fresh id. A rejected or failed request leaves the form as it was. */
  function HandleSubmit(form: Form, parseAmount: string -> int, parseId: string -> UserId,
                        accepted: bool, freshId: string, today: string): (r: Submitted)
    ensures r.sent.Some? <==> CheckForm(form, parseAmount, parseId).Ready?
    ensures r.sent.Some? ==> r.sent.value == CheckForm(form, parseAmount, parseId).payload
    ensures r.sent.Some? && accepted ==>
      r.form.title == "" && r.form.date == today && r.form.payerId == form.payerId
      && r.form.items == [Blank(freshId)]
    ensures !(r.sent.Some? && accepted) ==> r.form == form
  {
    match CheckForm(form, parseAmount, parseId)
    case Invalid(_) => Submitted(None, form)
    case Ready(payload) =>
      if accepted then Submitted(Some(payload), Form("", today, form.payerId, [Blank(freshId)]))
      else Submitted(Some(payload), form)
  }

  /** The create route's view of a payload. */
  function ToRequest(p: Payload): CreateRequest {
    CreateRequest(p.title, p.date, p.payerId, Some(seq(|p.items|, i requires 0 <= i < |p.items| =>
      RawItem(Some(p.items[i].description), Some(p.items[i].amount), Some(p.items[i].assignedUserId)))))
  }

  /** A payload the form sends passes the route's validation unless the payer
      id converts to a falsy number, and the route's normalisation keeps every
      row as the form sent it. */
  lemma SentPayloadIsAccepted(form: Form, parseAmount: string -> int, parseId: string -> UserId)
    requires CheckForm(form, parseAmount, parseId).Ready?
    ensures var p := CheckForm(form, parseAmount, parseId).payload;
      (Rejected(ToRequest(p)) <==> p.payerId == 0)
      && NormalizeAll(ToRequest(p).items.value)
         == seq(|p.items|, i requires 0 <= i < |p.items| =>
              Item(p.items[i].description, p.items[i].amount, p.items[i].assignedUserId))
  {
  }
}
