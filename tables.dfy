/** The rows of the ledger's five tables (friends, expenses, debts, payments,
    item_health) and an in-memory store holding them. */
module Tables {

  import opened Text

  datatype Option<+T> = None | Some(value: T)

  /** A calendar date, stored by the program as "YYYY-MM-DD" text. */
  datatype Date = Date(year: int, month: int, day: int)

  /** The order of the stored "YYYY-MM-DD" text, which for four-digit years is
      the lexicographic order on (year, month, day). */
  predicate DateBefore(a: Date, b: Date) {
    || a.year < b.year
    || (a.year == b.year && a.month < b.month)
    || (a.year == b.year && a.month == b.month && a.day < b.day)
  }

  predicate DateAtOrAfter(a: Date, b: Date) {
    !DateBefore(a, b)
  }

  datatype Status = Active | Settled

  /** friends(id, name, phone) */
  datatype Friend = Friend(id: int, name: string, phone: Option<string>)

  /** expenses(id, date, item, amount, category, is_healthy); is_healthy may be NULL. */
  datatype Expense = Expense(id: int, date: Date, item: string, amount: real, category: string,
                             isHealthy: Option<bool>)

  /** debts(id, date, borrower_id, lender_id, amount, description, status) */
  datatype Debt = Debt(id: int, date: Date, borrower: int, lender: int, amount: real,
                       description: string, status: Status)

  /** payments(id, date, debt_id, payer_id, amount) */
  datatype Payment = Payment(id: int, date: Date, debtId: int, payer: int, amount: real)

  /** Which storage calls of one operation raise: every read, or every write. */
  datatype Faults = Faults(readFails: bool, writeFails: bool)

  /** Ids of an AUTOINCREMENT table: positive, ascending in insertion order,
      below the next id to hand out. */
  ghost predicate FriendIdsOk(rows: seq<Friend>, next: int) {
    && 0 < next
    && (forall i :: 0 <= i < |rows| ==> 0 < rows[i].id < next)
    && (forall i, j :: 0 <= i < j < |rows| ==> rows[i].id < rows[j].id)
  }

  ghost predicate ExpenseIdsOk(rows: seq<Expense>, next: int) {
    && 0 < next
    && (forall i :: 0 <= i < |rows| ==> 0 < rows[i].id < next)
    && (forall i, j :: 0 <= i < j < |rows| ==> rows[i].id < rows[j].id)
  }

  ghost predicate DebtIdsOk(rows: seq<Debt>, next: int) {
    && 0 < next
    && (forall i :: 0 <= i < |rows| ==> 0 < rows[i].id < next)
    && (forall i, j :: 0 <= i < j < |rows| ==> rows[i].id < rows[j].id)
  }

  ghost predicate PaymentIdsOk(rows: seq<Payment>, next: int) {
    && 0 < next
    && (forall i :: 0 <= i < |rows| ==> 0 < rows[i].id < next)
    && (forall i, j :: 0 <= i < j < |rows| ==> rows[i].id < rows[j].id)
  }

  /** The store the program reaches through its database client. */
  class Database {
    var friends: seq<Friend>
    var expenses: seq<Expense>
    var debts: seq<Debt>
    var payments: seq<Payment>
    /** item_health, keyed by the learned item name */
    var itemHealth: map<string, bool>
    var nextFriendId: int
    var nextExpenseId: int
    var nextDebtId: int
    var nextPaymentId: int

    ghost predicate Valid()
      reads this
    {
      && FriendIdsOk(friends, nextFriendId)
      && ExpenseIdsOk(expenses, nextExpenseId)
      && DebtIdsOk(debts, nextDebtId)
      && PaymentIdsOk(payments, nextPaymentId)
      && (forall k :: k in itemHealth ==> KeyNormal(k))
    }

    /** An empty store; AUTOINCREMENT ids start at 1. */
    constructor ()
      ensures Valid()
      ensures friends == [] && expenses == [] && debts == [] && payments == []
      ensures itemHealth == map[]
      ensures nextFriendId == 1 && nextExpenseId == 1 && nextDebtId == 1 && nextPaymentId == 1
    {
      friends, expenses, debts, payments := [], [], [], [];
      itemHealth := map[];
      nextFriendId, nextExpenseId, nextDebtId, nextPaymentId := 1, 1, 1, 1;
    }
  }

  /** The form in which item_health keys are written: lower-case, no outer spaces. */
  ghost predicate KeyNormal(k: string) {
    Lower(k) == k && Trimmed(k)
  }
}
