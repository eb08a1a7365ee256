/** The settlement allocator behind `record_payment`, stated over values:
    which debts a payment is applied to, how much each receives, which
    become Settled, and what that does to the debts and payments tables. */
module Settlement {

  import opened Tables

  function Min(a: real, b: real): real {
    if a <= b then a else b
  }

  /** `x` if it is positive, else 0. */
  function Pos(x: real): real {
    if x > 0.0 then x else 0.0
  }

  /** The sum of the payments recorded against one debt (`already_paid`). */
  function Paid(pays: seq<Payment>, debtId: int): real {
    if pays == [] then 0.0
    else (if pays[0].debtId == debtId then pays[0].amount else 0.0) + Paid(pays[1..], debtId)
  }

  lemma {:induction false} PaidAppend(a: seq<Payment>, b: seq<Payment>, id: int)
    ensures Paid(a + b, id) == Paid(a, id) + Paid(b, id)
  {
    if a == [] {
      assert a + b == b;
    } else {
      assert (a + b)[1..] == a[1..] + b;
      PaidAppend(a[1..], b, id);
    }
  }

  /** What is still owed on a debt: its original amount less what was paid. */
  function Balance(d: Debt, pays: seq<Payment>): real {
    d.amount - Paid(pays, d.id)
  }

  /** No debt has received more than its original amount. */
  ghost predicate NoOverpayment(debts: seq<Debt>, pays: seq<Payment>) {
    forall k :: 0 <= k < |debts| ==> Paid(pays, debts[k].id) <= debts[k].amount
  }

  /** Ids strictly ascending along the sequence (hence pairwise distinct). */
  ghost predicate Ascending(ds: seq<Debt>) {
    forall i, j :: 0 <= i < j < |ds| ==> ds[i].id < ds[j].id
  }

  /** The filter of the debts query: borrower = payer, lender = receiver, status = Active. */
  predicate Selected(d: Debt, payer: int, receiver: int) {
    d.borrower == payer && d.lender == receiver && d.status == Active
  }

  /** The rows the debts query returns, in table order. */
  function ActiveDebts(debts: seq<Debt>, payer: int, receiver: int): (r: seq<Debt>)
    ensures forall d :: d in r <==> d in debts && Selected(d, payer, receiver)
  {
    if debts == [] then []
    else (if Selected(debts[0], payer, receiver) then [debts[0]] else [])
         + ActiveDebts(debts[1..], payer, receiver)
  }

  /** The query's rows come back ordered by ascending id when the table's ids ascend. */
  lemma {:induction false} ActiveDebtsAscending(debts: seq<Debt>, payer: int, receiver: int)
    requires Ascending(debts)
    ensures Ascending(ActiveDebts(debts, payer, receiver))
  {
    if debts != [] {
      var rest := ActiveDebts(debts[1..], payer, receiver);
      ActiveDebtsAscending(debts[1..], payer, receiver);
      forall d | d in rest
        ensures debts[0].id < d.id
      {
        var m :| 1 <= m < |debts| && debts[m] == d;
      }
    }
  }

  /** One payment row the loop writes: `amount` applied to `debt`, and whether
      the loop then set that debt Settled. */
  datatype Allocation = Allocation(debt: Debt, amount: real, settles: bool)

  /** The loop of `record_payment` over the fetched debts `ds`, with `remaining`
      left to apply and `pays` the payments table it reads `already_paid` from. */
  function Plan(ds: seq<Debt>, pays: seq<Payment>, remaining: real): seq<Allocation>
    decreases |ds|
  {
    if ds == [] || remaining <= 0.0 then []
    else
      var d := ds[0];
      var alreadyPaid := Paid(pays, d.id);
      var chunk := Min(remaining, d.amount - alreadyPaid);
      if chunk > 0.0 then
        [Allocation(d, chunk, alreadyPaid + chunk >= d.amount)] + Plan(ds[1..], pays, remaining - chunk)
      else
        Plan(ds[1..], pays, remaining)
  }

  /** Every row the loop writes is for a fetched debt, is positive and at most
      that debt's balance, and settles the debt exactly when it covers the balance. */
  lemma {:induction false} PlanRows(ds: seq<Debt>, pays: seq<Payment>, remaining: real)
    ensures forall k :: 0 <= k < |Plan(ds, pays, remaining)| ==>
              && Plan(ds, pays, remaining)[k].debt in ds
              && 0.0 < Plan(ds, pays, remaining)[k].amount <= Balance(Plan(ds, pays, remaining)[k].debt, pays)
              && (Plan(ds, pays, remaining)[k].settles
                  <==> Plan(ds, pays, remaining)[k].amount == Balance(Plan(ds, pays, remaining)[k].debt, pays))
  {
    if ds != [] && remaining > 0.0 {
      var chunk := Min(remaining, Balance(ds[0], pays));
      var rest := if chunk > 0.0 then remaining - chunk else remaining;
      var tail := Plan(ds[1..], pays, rest);
      PlanRows(ds[1..], pays, rest);
      PlanStep(ds, pays, remaining);
      forall k | 0 <= k < |tail|
        ensures tail[k].debt in ds
      {
        assert tail[k].debt in ds[1..];
      }
    }
  }

  /** The total the plan writes. */
  function Applied(p: seq<Allocation>): real {
    if p == [] then 0.0 else p[0].amount + Applied(p[1..])
  }

  /** What the plan writes against the debt with id `id`. */
  function AllocatedTo(p: seq<Allocation>, id: int): real {
    if p == [] then 0.0
    else (if p[0].debt.id == id then p[0].amount else 0.0) + AllocatedTo(p[1..], id)
  }

  /** The ids of the debts the plan sets Settled, in the order it does so. */
  function SettledIds(p: seq<Allocation>): seq<int> {
    if p == [] then [] else (if p[0].settles then [p[0].debt.id] else []) + SettledIds(p[1..])
  }

  /** The sum of the positive balances of `ds`: all that a payment can be applied to. */
  function PositiveBalance(ds: seq<Debt>, pays: seq<Payment>): real {
    if ds == [] then 0.0 else Pos(Balance(ds[0], pays)) + PositiveBalance(ds[1..], pays)
  }

  /** Reference definition of oldest-first allocation: the j-th debt receives
      what is left of `amount` after every earlier debt was paid off, capped by
      its own balance. */
  function Greedy(ds: seq<Debt>, pays: seq<Payment>, amount: real, j: nat): real
    requires j < |ds|
  {
    Min(Pos(amount - PositiveBalance(ds[..j], pays)), Pos(Balance(ds[j], pays)))
  }

  lemma {:induction false} PositiveBalanceNonneg(ds: seq<Debt>, pays: seq<Payment>)
    ensures PositiveBalance(ds, pays) >= 0.0
  {
    if ds != [] {
      PositiveBalanceNonneg(ds[1..], pays);
    }
  }

  lemma {:induction false} PositiveBalanceAppend(a: seq<Debt>, b: seq<Debt>, pays: seq<Payment>)
    ensures PositiveBalance(a + b, pays) == PositiveBalance(a, pays) + PositiveBalance(b, pays)
  {
    if a == [] {
      assert a + b == b;
    } else {
      assert (a + b)[1..] == a[1..] + b;
      PositiveBalanceAppend(a[1..], b, pays);
    }
  }

  /** A plan that touches no allocation of debt `id` writes nothing for it and settles nothing with it. */
  lemma {:induction false} AllocatedToAbsent(p: seq<Allocation>, id: int)
    requires forall k :: 0 <= k < |p| ==> p[k].debt.id != id
    ensures AllocatedTo(p, id) == 0.0
    ensures id !in SettledIds(p)
  {
    if p != [] {
      AllocatedToAbsent(p[1..], id);
    }
  }

  /** What the loop applies to the first fetched debt. */
  function FirstChunk(ds: seq<Debt>, pays: seq<Payment>, amount: real): real
    requires ds != []
  {
    Min(amount, Balance(ds[0], pays))
  }

  /** What is left to apply after the first fetched debt. */
  function AfterFirst(ds: seq<Debt>, pays: seq<Payment>, amount: real): real
    requires ds != []
  {
    if FirstChunk(ds, pays, amount) > 0.0 then amount - FirstChunk(ds, pays, amount) else amount
  }

  /** One turn of the loop: the first debt's row (if its chunk is positive),
      then the rest of the loop with what remains. */
  lemma PlanStep(ds: seq<Debt>, pays: seq<Payment>, amount: real)
    requires ds != [] && amount > 0.0
    ensures var c := FirstChunk(ds, pays, amount);
            Plan(ds, pays, amount)
            == (if c > 0.0 then [Allocation(ds[0], c, c == Balance(ds[0], pays))] else [])
               + Plan(ds[1..], pays, AfterFirst(ds, pays, amount))
  {
  }

  /** The rest of the loop never writes for the first debt again. */
  lemma TailAvoidsHead(ds: seq<Debt>, pays: seq<Payment>, amount: real)
    requires Ascending(ds)
    requires ds != []
    ensures forall k :: 0 <= k < |Plan(ds[1..], pays, amount)| ==>
              Plan(ds[1..], pays, amount)[k].debt.id != ds[0].id
  {
    var tail := Plan(ds[1..], pays, amount);
    PlanRows(ds[1..], pays, amount);
    forall k | 0 <= k < |tail|
      ensures tail[k].debt.id != ds[0].id
    {
      assert tail[k].debt in ds[1..];
      var m :| 0 <= m < |ds[1..]| && ds[1..][m] == tail[k].debt;
      assert ds[m + 1] == tail[k].debt;
    }
  }

  /** The reference allocation of a later debt, seen from the second debt on. */
  lemma GreedyShift(ds: seq<Debt>, pays: seq<Payment>, amount: real, j: nat)
    requires 0 < j < |ds|
    requires amount > 0.0
    ensures Greedy(ds, pays, amount, j) == Greedy(ds[1..], pays, AfterFirst(ds, pays, amount), j - 1)
  {
    var d := ds[0];
    assert ds[1..][j - 1] == ds[j];
    assert ds[..j] == [d] + ds[1..][..j - 1];
    PositiveBalanceAppend([d], ds[1..][..j - 1], pays);
    PositiveBalanceNonneg(ds[1..][..j - 1], pays);
    assert PositiveBalance([d], pays) == Pos(Balance(d, pays));
  }

  /** The loop agrees, debt by debt, with the oldest-first reference: the j-th
      fetched debt receives Greedy(j), and is set Settled exactly when that is
      a positive amount covering its whole balance. */
  lemma {:induction false} PlanIsGreedy(ds: seq<Debt>, pays: seq<Payment>, amount: real, j: nat)
    requires Ascending(ds)
    requires j < |ds|
    ensures AllocatedTo(Plan(ds, pays, amount), ds[j].id) == Greedy(ds, pays, amount, j)
    ensures ds[j].id in SettledIds(Plan(ds, pays, amount))
            <==> Greedy(ds, pays, amount, j) > 0.0 && Greedy(ds, pays, amount, j) == Balance(ds[j], pays)
  {
    PositiveBalanceNonneg(ds[..j], pays);
    if amount > 0.0 {
      var rest := AfterFirst(ds, pays, amount);
      var tail := Plan(ds[1..], pays, rest);
      PlanStep(ds, pays, amount);
      TailAvoidsHead(ds, pays, rest);
      if j == 0 {
        AllocatedToAbsent(tail, ds[0].id);
      } else {
        assert ds[0].id < ds[j].id;
        assert ds[1..][j - 1] == ds[j];
        PlanIsGreedy(ds[1..], pays, rest, j - 1);
        GreedyShift(ds, pays, amount, j);
      }
    }
  }

  /** The total written is the payment capped by all that is owed on the
      fetched debts (nothing for a payment that is not positive). */
  lemma {:induction false} AppliedTotal(ds: seq<Debt>, pays: seq<Payment>, amount: real)
    ensures Applied(Plan(ds, pays, amount))
            == if amount <= 0.0 then 0.0 else Min(amount, PositiveBalance(ds, pays))
  {
    if ds != [] && amount > 0.0 {
      var chunk := Min(amount, Balance(ds[0], pays));
      PositiveBalanceNonneg(ds[1..], pays);
      if chunk > 0.0 {
        AppliedTotal(ds[1..], pays, amount - chunk);
      } else {
        AppliedTotal(ds[1..], pays, amount);
      }
    }
  }

  /** Oldest first: when a later debt receives money, every earlier debt that
      was still owing was paid its whole balance and set Settled. */
  lemma EarlierDebtsPaidFirst(ds: seq<Debt>, pays: seq<Payment>, amount: real, i: nat, j: nat)
    requires Ascending(ds)
    requires i < j < |ds|
    requires AllocatedTo(Plan(ds, pays, amount), ds[j].id) > 0.0
    requires Balance(ds[i], pays) > 0.0
    ensures AllocatedTo(Plan(ds, pays, amount), ds[i].id) == Balance(ds[i], pays)
    ensures ds[i].id in SettledIds(Plan(ds, pays, amount))
  {
    PlanIsGreedy(ds, pays, amount, i);
    PlanIsGreedy(ds, pays, amount, j);
    PositiveBalancePrefix(ds, pays, i, j);
  }

  /** The owed total of a longer prefix includes the whole positive balance of
      every debt in the shorter one and of the debt right after it. */
  lemma PositiveBalancePrefix(ds: seq<Debt>, pays: seq<Payment>, i: nat, j: nat)
    requires i < j <= |ds|
    ensures PositiveBalance(ds[..j], pays) >= PositiveBalance(ds[..i], pays) + Pos(Balance(ds[i], pays))
  {
    assert ds[..j] == ds[..i] + [ds[i]] + ds[i + 1..j];
    PositiveBalanceAppend(ds[..i] + [ds[i]], ds[i + 1..j], pays);
    PositiveBalanceAppend(ds[..i], [ds[i]], pays);
    PositiveBalanceNonneg(ds[i + 1..j], pays);
    assert PositiveBalance([ds[i]], pays) == Pos(Balance(ds[i], pays));
  }

  /** Once the payment is used up by the debts before position j, the j-th
      debt and every later one receive nothing and keep their status. */
  lemma NothingPastExhaustion(ds: seq<Debt>, pays: seq<Payment>, amount: real, j: nat)
    requires Ascending(ds)
    requires j < |ds|
    requires amount <= PositiveBalance(ds[..j], pays)
    ensures AllocatedTo(Plan(ds, pays, amount), ds[j].id) == 0.0
    ensures ds[j].id !in SettledIds(Plan(ds, pays, amount))
  {
    PlanIsGreedy(ds, pays, amount, j);
  }

  /** The payment rows the loop inserts, numbered from `nextId`. */
  function PaymentRows(p: seq<Allocation>, nextId: int, date: Date, payer: int): (rows: seq<Payment>)
    ensures |rows| == |p|
    ensures forall k :: 0 <= k < |p| ==>
              rows[k] == Payment(nextId + k, date, p[k].debt.id, payer, p[k].amount)
  {
    if p == [] then []
    else [Payment(nextId, date, p[0].debt.id, payer, p[0].amount)] + PaymentRows(p[1..], nextId + 1, date, payer)
  }

  /** Reading `already_paid` back from the inserted rows gives what the plan allocated. */
  lemma {:induction false} PaidRows(p: seq<Allocation>, nextId: int, date: Date, payer: int, id: int)
    ensures Paid(PaymentRows(p, nextId, date, payer), id) == AllocatedTo(p, id)
  {
    if p != [] {
      PaidRows(p[1..], nextId + 1, date, payer, id);
    }
  }

  /** The debts table after `status = 'Settled'` is written for each id in `ids`:
      only statuses change, and only to Settled. */
  function SettleAll(debts: seq<Debt>, ids: seq<int>): (r: seq<Debt>)
    ensures |r| == |debts|
    ensures forall k :: 0 <= k < |r| ==> r[k].(status := debts[k].status) == debts[k]
    ensures forall k :: 0 <= k < |r| ==>
              r[k].status == (if debts[k].id in ids then Settled else debts[k].status)
  {
    if debts == [] then []
    else [if debts[0].id in ids then debts[0].(status := Settled) else debts[0]] + SettleAll(debts[1..], ids)
  }

  /** A debt that was not overpaid before the payment is not overpaid after
      it: a fetched debt receives at most its balance, any other debt nothing. */
  lemma Conservation(debts: seq<Debt>, pays: seq<Payment>, payer: int, receiver: int, amount: real,
                     nextId: int, date: Date, k: nat)
    requires Ascending(debts)
    requires k < |debts|
    requires Paid(pays, debts[k].id) <= debts[k].amount
    ensures var p := Plan(ActiveDebts(debts, payer, receiver), pays, amount);
            Paid(pays + PaymentRows(p, nextId, date, payer), debts[k].id) <= debts[k].amount
  {
    var ds := ActiveDebts(debts, payer, receiver);
    var p := Plan(ds, pays, amount);
    var d := debts[k];
    PaidAppend(pays, PaymentRows(p, nextId, date, payer), d.id);
    PaidRows(p, nextId, date, payer, d.id);
    if Selected(d, payer, receiver) {
      ActiveDebtsAscending(debts, payer, receiver);
      var j :| 0 <= j < |ds| && ds[j] == d;
      PlanIsGreedy(ds, pays, amount, j);
    } else {
      UntouchedDebt(debts, payer, receiver, pays, amount, k);
    }
  }

  /** Table form: if no debt was overpaid before, none is after. */
  lemma ConservationTable(debts: seq<Debt>, pays: seq<Payment>, payer: int, receiver: int, amount: real,
                          nextId: int, date: Date)
    requires Ascending(debts)
    requires NoOverpayment(debts, pays)
    ensures var p := Plan(ActiveDebts(debts, payer, receiver), pays, amount);
            NoOverpayment(SettleAll(debts, SettledIds(p)), pays + PaymentRows(p, nextId, date, payer))
  {
    var p := Plan(ActiveDebts(debts, payer, receiver), pays, amount);
    var after := SettleAll(debts, SettledIds(p));
    forall k | 0 <= k < |after|
      ensures Paid(pays + PaymentRows(p, nextId, date, payer), after[k].id) <= after[k].amount
    {
      Conservation(debts, pays, payer, receiver, amount, nextId, date, k);
    }
  }

  /** A debt the query does not return gets no allocation. */
  lemma UntouchedDebt(debts: seq<Debt>, payer: int, receiver: int, pays: seq<Payment>, amount: real, k: nat)
    requires Ascending(debts)
    requires k < |debts|
    requires !Selected(debts[k], payer, receiver)
    ensures var p := Plan(ActiveDebts(debts, payer, receiver), pays, amount);
            AllocatedTo(p, debts[k].id) == 0.0 && debts[k].id !in SettledIds(p)
  {
    var p := Plan(ActiveDebts(debts, payer, receiver), pays, amount);
    PlanRows(ActiveDebts(debts, payer, receiver), pays, amount);
    forall m | 0 <= m < |p|
      ensures p[m].debt.id != debts[k].id
    {
      assert p[m].debt in ActiveDebts(debts, payer, receiver);
      var k' :| 0 <= k' < |debts| && debts[k'] == p[m].debt;
    }
    AllocatedToAbsent(p, debts[k].id);
  }

  /** Debts outside the payer/receiver/Active selection are left as they were
      and receive no payment row. */
  lemma UnselectedUnchanged(debts: seq<Debt>, pays: seq<Payment>, payer: int, receiver: int, amount: real,
                            nextId: int, date: Date, k: nat)
    requires Ascending(debts)
    requires k < |debts|
    requires !Selected(debts[k], payer, receiver)
    ensures var p := Plan(ActiveDebts(debts, payer, receiver), pays, amount);
            && SettleAll(debts, SettledIds(p))[k] == debts[k]
            && Paid(pays + PaymentRows(p, nextId, date, payer), debts[k].id) == Paid(pays, debts[k].id)
  {
    var p := Plan(ActiveDebts(debts, payer, receiver), pays, amount);
    UntouchedDebt(debts, payer, receiver, pays, amount, k);
    PaidAppend(pays, PaymentRows(p, nextId, date, payer), debts[k].id);
    PaidRows(p, nextId, date, payer, debts[k].id);
  }

  /** A debt the call sets Settled has been paid exactly its original amount. */
  lemma SettledMeansCovered(debts: seq<Debt>, pays: seq<Payment>, payer: int, receiver: int, amount: real,
                            nextId: int, date: Date, k: nat)
    requires Ascending(debts)
    requires k < |debts|
    requires debts[k].id in SettledIds(Plan(ActiveDebts(debts, payer, receiver), pays, amount))
    ensures var p := Plan(ActiveDebts(debts, payer, receiver), pays, amount);
            Paid(pays + PaymentRows(p, nextId, date, payer), debts[k].id) == debts[k].amount
  {
    var ds := ActiveDebts(debts, payer, receiver);
    var p := Plan(ds, pays, amount);
    var d := debts[k];
    PaidAppend(pays, PaymentRows(p, nextId, date, payer), d.id);
    PaidRows(p, nextId, date, payer, d.id);
    if !Selected(d, payer, receiver) {
      UntouchedDebt(debts, payer, receiver, pays, amount, k);
    } else {
      ActiveDebtsAscending(debts, payer, receiver);
      var j :| 0 <= j < |ds| && ds[j] == d;
      PlanIsGreedy(ds, pays, amount, j);
    }
  }

  /** Appending one allocation appends one row, numbered after the others. */
  lemma PaymentRowsSnoc(p: seq<Allocation>, a: Allocation, nextId: int, date: Date, payer: int)
    ensures PaymentRows(p + [a], nextId, date, payer)
            == PaymentRows(p, nextId, date, payer) + [Payment(nextId + |p|, date, a.debt.id, payer, a.amount)]
  {
    var lhs := PaymentRows(p + [a], nextId, date, payer);
    var rhs := PaymentRows(p, nextId, date, payer) + [Payment(nextId + |p|, date, a.debt.id, payer, a.amount)];
    assert |lhs| == |rhs|;
    forall k | 0 <= k < |lhs|
      ensures lhs[k] == rhs[k]
    {
      assert (p + [a])[k] == if k < |p| then p[k] else a;
    }
  }

  lemma {:induction false} SettledIdsSnoc(p: seq<Allocation>, a: Allocation)
    ensures SettledIds(p + [a]) == SettledIds(p) + (if a.settles then [a.debt.id] else [])
  {
    if p == [] {
      assert p + [a] == [a];
    } else {
      var q := p + [a];
      assert q[0] == p[0] && q[1..] == p[1..] + [a];
      SettledIdsSnoc(p[1..], a);
      calc {
        SettledIds(q);
        (if p[0].settles then [p[0].debt.id] else []) + SettledIds(p[1..] + [a]);
        (if p[0].settles then [p[0].debt.id] else [])
          + (SettledIds(p[1..]) + (if a.settles then [a.debt.id] else []));
        { ConcatAssoc(if p[0].settles then [p[0].debt.id] else [], SettledIds(p[1..]),
                      if a.settles then [a.debt.id] else []); }
        SettledIds(p) + (if a.settles then [a.debt.id] else []);
      }
    }
  }

  /** Settling in two updates is settling the union of the ids. */
  lemma SettleAllTwice(debts: seq<Debt>, a: seq<int>, b: seq<int>)
    ensures SettleAll(SettleAll(debts, a), b) == SettleAll(debts, a + b)
  {
    var lhs := SettleAll(SettleAll(debts, a), b);
    var rhs := SettleAll(debts, a + b);
    forall k | 0 <= k < |lhs|
      ensures lhs[k] == rhs[k]
    {
    }
  }

  /** Settling nothing leaves the table as it was. */
  lemma SettleNone(debts: seq<Debt>)
    ensures SettleAll(debts, []) == debts
  {
  }

  /** Settling keeps every id, so the table's id invariant survives it. */
  lemma SettleAllKeepsIds(debts: seq<Debt>, ids: seq<int>, next: int)
    requires DebtIdsOk(debts, next)
    ensures DebtIdsOk(SettleAll(debts, ids), next)
  {
  }

  /** The rows the loop inserts take the next ids in order. */
  lemma PaymentRowsKeepIds(pays: seq<Payment>, next: int, p: seq<Allocation>, date: Date, payer: int)
    requires PaymentIdsOk(pays, next)
    ensures PaymentIdsOk(pays + PaymentRows(p, next, date, payer), next + |p|)
  {
  }

  lemma ConcatAssoc<T>(a: seq<T>, b: seq<T>, c: seq<T>)
    ensures a + (b + c) == (a + b) + c
  {
  }

  /** The inputs of one run of the `record_payment` loop: the fetched debts,
      the tables and the next payment id as they were when it started, the
      amount, the date and the payer written into each row. */
  datatype PaymentRun = PaymentRun(ds: seq<Debt>, pays: seq<Payment>, debts: seq<Debt>, nextId: int,
                                   amount: real, date: Date, payer: int)

  /** The loop after visiting the first i fetched debts with `remaining` left:
      it has produced the allocations `done`, which are the start of the plan,
      and the tables hold the rows and statuses those allocations stand for. */
  ghost predicate Progress(r: PaymentRun, i: nat, remaining: real, done: seq<Allocation>, settled: seq<int>,
                           payments: seq<Payment>, debts: seq<Debt>, nextId: int)
  {
    && i <= |r.ds|
    && Plan(r.ds, r.pays, r.amount) == done + Plan(r.ds[i..], r.pays, remaining)
    && (i < |r.ds| ==> forall k :: 0 <= k < |done| ==> done[k].debt.id < r.ds[i].id)
    && payments == r.pays + PaymentRows(done, r.nextId, r.date, r.payer)
    && nextId == r.nextId + |done|
    && settled == SettledIds(done)
    && debts == SettleAll(r.debts, settled)
  }

  lemma ProgressInit(r: PaymentRun)
    ensures Progress(r, 0, r.amount, [], [], r.pays, r.debts, r.nextId)
  {
    assert r.ds[0..] == r.ds;
    assert r.pays + [] == r.pays;
    SettleNone(r.debts);
  }

  /** Before anything is written the tables are as they were. */
  lemma ProgressEmpty(r: PaymentRun, i: nat, remaining: real, settled: seq<int>,
                      payments: seq<Payment>, debts: seq<Debt>, nextId: int)
    requires Progress(r, i, remaining, [], settled, payments, debts, nextId)
    ensures payments == r.pays && debts == r.debts && nextId == r.nextId
  {
    assert r.pays + [] == r.pays;
    SettleNone(r.debts);
  }

  /** When the loop stops (no debt left, or nothing left to apply) it has
      produced the whole plan. */
  lemma ProgressFinished(r: PaymentRun, i: nat, remaining: real, done: seq<Allocation>, settled: seq<int>,
                         payments: seq<Payment>, debts: seq<Debt>, nextId: int)
    requires Progress(r, i, remaining, done, settled, payments, debts, nextId)
    requires i == |r.ds| || remaining <= 0.0
    ensures done == Plan(r.ds, r.pays, r.amount)
  {
    assert Plan(r.ds[i..], r.pays, remaining) == [];
    assert done + [] == done;
  }

  /** Rows written for other debts do not change what was paid on debt `id`. */
  lemma EarlierRowsOnly(pays: seq<Payment>, done: seq<Allocation>, nextId: int, date: Date, payer: int, id: int)
    requires forall k :: 0 <= k < |done| ==> done[k].debt.id < id
    ensures Paid(pays + PaymentRows(done, nextId, date, payer), id) == Paid(pays, id)
  {
    AllocatedToAbsent(done, id);
    PaidAppend(pays, PaymentRows(done, nextId, date, payer), id);
    PaidRows(done, nextId, date, payer, id);
  }

  /** The loop from position i on: the i-th debt's row, then the loop from i + 1. */
  lemma PlanFrom(ds: seq<Debt>, pays: seq<Payment>, i: nat, remaining: real)
    requires i < |ds| && remaining > 0.0
    ensures var c := Min(remaining, Balance(ds[i], pays));
            Plan(ds[i..], pays, remaining)
            == (if c > 0.0 then [Allocation(ds[i], c, c == Balance(ds[i], pays))] else [])
               + Plan(ds[i + 1..], pays, if c > 0.0 then remaining - c else remaining)
  {
    assert ds[i..][1..] == ds[i + 1..];
    PlanStep(ds[i..], pays, remaining);
  }

  /** A positive chunk for the i-th debt means the plan writes at least one row. */
  lemma FirstWriteNeeded(r: PaymentRun, i: nat, remaining: real, done: seq<Allocation>, settled: seq<int>,
                         payments: seq<Payment>, debts: seq<Debt>, nextId: int, chunk: real)
    requires Progress(r, i, remaining, done, settled, payments, debts, nextId)
    requires i < |r.ds| && remaining > 0.0
    requires chunk == Min(remaining, Balance(r.ds[i], payments)) && chunk > 0.0
    ensures Plan(r.ds, r.pays, r.amount) != []
  {
    EarlierRowsOnly(r.pays, done, r.nextId, r.date, r.payer, r.ds[i].id);
    PlanFrom(r.ds, r.pays, i, remaining);
  }

  /** One turn of the loop preserves Progress: the chunk the loop computes from
      the current payments table is the plan's next allocation, and the row it
      writes and the status it sets are the ones that allocation stands for. */
  lemma Advance(r: PaymentRun, i: nat, remaining: real, done: seq<Allocation>, settled: seq<int>,
                payments: seq<Payment>, debts: seq<Debt>, nextId: int, chunk: real, settles: bool,
                remaining': real, done': seq<Allocation>, settled': seq<int>,
                payments': seq<Payment>, debts': seq<Debt>, nextId': int)
    requires Ascending(r.ds)
    requires Progress(r, i, remaining, done, settled, payments, debts, nextId)
    requires i < |r.ds| && remaining > 0.0
    requires chunk == Min(remaining, Balance(r.ds[i], payments))
    requires settles == (Paid(payments, r.ds[i].id) + chunk >= r.ds[i].amount)
    requires chunk > 0.0 ==>
               && remaining' == remaining - chunk
               && done' == done + [Allocation(r.ds[i], chunk, settles)]
               && settled' == (if settles then settled + [r.ds[i].id] else settled)
               && payments' == payments + [Payment(nextId, r.date, r.ds[i].id, r.payer, chunk)]
               && debts' == (if settles then SettleAll(debts, [r.ds[i].id]) else debts)
               && nextId' == nextId + 1
    requires chunk <= 0.0 ==>
               && remaining' == remaining && done' == done && settled' == settled
               && payments' == payments && debts' == debts && nextId' == nextId
    ensures Progress(r, i + 1, remaining', done', settled', payments', debts', nextId')
  {
    EarlierRowsOnly(r.pays, done, r.nextId, r.date, r.payer, r.ds[i].id);
    AdvancePlan(r.ds, r.pays, r.amount, i, remaining, done, chunk, settles, remaining', done');
    if chunk > 0.0 {
      AdvanceTables(r, done, settled, payments, debts, nextId, Allocation(r.ds[i], chunk, settles));
    }
  }

  /** The plan half of Advance. */
  lemma AdvancePlan(ds: seq<Debt>, pays: seq<Payment>, amount: real, i: nat, remaining: real,
                    done: seq<Allocation>, chunk: real, settles: bool, remaining': real, done': seq<Allocation>)
    requires Ascending(ds)
    requires i < |ds| && remaining > 0.0
    requires Plan(ds, pays, amount) == done + Plan(ds[i..], pays, remaining)
    requires forall k :: 0 <= k < |done| ==> done[k].debt.id < ds[i].id
    requires chunk == Min(remaining, Balance(ds[i], pays))
    requires settles == (Paid(pays, ds[i].id) + chunk >= ds[i].amount)
    requires done' == if chunk > 0.0 then done + [Allocation(ds[i], chunk, settles)] else done
    requires remaining' == if chunk > 0.0 then remaining - chunk else remaining
    ensures Plan(ds, pays, amount) == done' + Plan(ds[i + 1..], pays, remaining')
    ensures i + 1 < |ds| ==> forall k :: 0 <= k < |done'| ==> done'[k].debt.id < ds[i + 1].id
  {
    PlanFrom(ds, pays, i, remaining);
    if chunk > 0.0 {
      ConcatAssoc(done, [Allocation(ds[i], chunk, settles)], Plan(ds[i + 1..], pays, remaining'));
    }
    if i + 1 < |ds| {
      assert ds[i].id < ds[i + 1].id;
    }
  }

  /** The tables half of Advance: one more allocation is one more payment row
      and, when it settles its debt, one more Settled status. */
  lemma AdvanceTables(r: PaymentRun, done: seq<Allocation>, settled: seq<int>,
                      payments: seq<Payment>, debts: seq<Debt>, nextId: int, a: Allocation)
    requires payments == r.pays + PaymentRows(done, r.nextId, r.date, r.payer)
    requires nextId == r.nextId + |done|
    requires settled == SettledIds(done)
    requires debts == SettleAll(r.debts, settled)
    ensures payments + [Payment(nextId, r.date, a.debt.id, r.payer, a.amount)]
            == r.pays + PaymentRows(done + [a], r.nextId, r.date, r.payer)
    ensures (if a.settles then settled + [a.debt.id] else settled) == SettledIds(done + [a])
    ensures (if a.settles then SettleAll(debts, [a.debt.id]) else debts)
            == SettleAll(r.debts, SettledIds(done + [a]))
  {
    PaymentRowsSnoc(done, a, r.nextId, r.date, r.payer);
    SettledIdsSnoc(done, a);
    ConcatAssoc(r.pays, PaymentRows(done, r.nextId, r.date, r.payer), [Payment(nextId, r.date, a.debt.id, r.payer, a.amount)]);
    if a.settles {
      SettleAllTwice(r.debts, settled, [a.debt.id]);
    } else {
      assert settled + [] == settled;
    }
  }
}
