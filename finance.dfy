/** Personal spending: the item_health knowledge store (what the program has
    learned about whether an item is healthy) and the expense logger that
    consults it before it writes. */
module Finance {

  import opened Text
  import opened Tables

  /** The key `learn_item_health` writes: `item.lower().strip()`. */
  function LearnKey(item: string): string {
    Strip(Lower(item))
  }

  /** The pattern `check_item_health` matches case-insensitively: `item.strip()`,
      in the case-free form the stored keys have. */
  function QueryKey(item: string): string {
    Lower(Strip(item))
  }

  /** Lower-casing and stripping commute, so the query and the learned key agree. */
  lemma QueryIsLearnKey(item: string)
    ensures QueryKey(item) == LearnKey(item)
  {
    LowerStripCommute(item);
  }

  /** A learned key is in the normal form the store keeps: lower-case, no outer spaces. */
  lemma LearnKeyNormal(item: string)
    ensures KeyNormal(LearnKey(item))
  {
    StripLowerForm(item);
  }

  /** Every stored key is normal (what the store's invariant keeps). */
  ghost predicate NormalKeys(facts: map<string, bool>) {
    forall k :: k in facts ==> KeyNormal(k)
  }

  /** `check_item_health`: the flag of the fact whose key equals `item.strip()`
      up to case, or nothing when no key matches or the read fails. Keys are
      normal, so at most one key matches and the lookup is a map lookup. */
  function CheckItemHealth(facts: map<string, bool>, item: string, readFails: bool): (r: Option<bool>)
    requires NormalKeys(facts)
    ensures r.Some? <==> !readFails && exists k :: k in facts && Lower(k) == Lower(Strip(item))
    ensures !readFails ==> forall k :: k in facts && Lower(k) == Lower(Strip(item)) ==> r == Some(facts[k])
  {
    var q := QueryKey(item);
    LowerSpec(Strip(item));
    assert forall k :: k in facts && Lower(k) == q ==> k == q;
    if readFails then None
    else if q in facts then
      assert Lower(q) == Lower(Strip(item));
      Some(facts[q])
    else None
  }

  /** `learn_item_health`: upsert the flag under the item's learned key; a
      failed write leaves the store as it was. */
  method LearnItemHealth(db: Database, item: string, isHealthy: bool, writeFails: bool)
    requires db.Valid()
    modifies db`itemHealth
    ensures db.Valid()
    ensures writeFails ==> unchanged(db)
    ensures !writeFails ==> db.itemHealth == old(db.itemHealth)[LearnKey(item) := isHealthy]
  {
    if writeFails {
      return;
    }
    LearnKeyNormal(item);
    db.itemHealth := db.itemHealth[LearnKey(item) := isHealthy];
  }

  /** Learning keeps the keys normal, so the upsert never creates a second
      fact for the same item. */
  lemma LearnKeepsKeysNormal(facts: map<string, bool>, item: string, b: bool)
    requires NormalKeys(facts)
    ensures NormalKeys(facts[LearnKey(item) := b])
    ensures forall k :: k in facts[LearnKey(item) := b] && Lower(k) == QueryKey(item) ==> k == LearnKey(item)
  {
    LearnKeyNormal(item);
    QueryIsLearnKey(item);
  }

  /** Learning round trip: after learning `x`, asking about any spelling of `x`
      that differs only in case and outer spaces gives back the learned flag. */
  lemma LearnThenCheck(facts: map<string, bool>, x: string, b: bool, y: string)
    requires NormalKeys(facts)
    requires QueryKey(y) == QueryKey(x)
    ensures NormalKeys(facts[LearnKey(x) := b])
    ensures CheckItemHealth(facts[LearnKey(x) := b], y, false) == Some(b)
  {
    LearnKeepsKeysNormal(facts, x, b);
    QueryIsLearnKey(x);
    LearnKeyNormal(x);
    assert Lower(LearnKey(x)) == Lower(Strip(y));
  }

  /** Learning one item leaves what is known about every other item as it was. */
  lemma LearnLeavesOthers(facts: map<string, bool>, x: string, b: bool, y: string, readFails: bool)
    requires NormalKeys(facts)
    requires QueryKey(y) != QueryKey(x)
    ensures NormalKeys(facts[LearnKey(x) := b])
    ensures CheckItemHealth(facts[LearnKey(x) := b], y, readFails) == CheckItemHealth(facts, y, readFails)
  {
    LearnKeepsKeysNormal(facts, x, b);
    QueryIsLearnKey(x);
  }

  /** A later learn of the same item, in any spelling, overwrites the earlier one. */
  lemma LaterLearnOverwrites(facts: map<string, bool>, x: string, y: string, a: bool, b: bool)
    requires QueryKey(y) == QueryKey(x)
    ensures facts[LearnKey(x) := a][LearnKey(y) := b] == facts[LearnKey(x) := b]
  {
    QueryIsLearnKey(x);
    QueryIsLearnKey(y);
  }

  datatype ExpenseResult =
    | NeedsClarification(item: string, amount: real)
    | ExpenseLogged(item: string, amount: real, isHealthy: bool)
    | ExpenseError

  /** `log_expense`: the caller's hint wins; without one the store is asked,
      and when it knows nothing the user is asked and nothing is written.
      Otherwise one expense row carrying the flag is appended. The amount is
      not checked. */
  method LogExpense(db: Database, item: string, amount: real, category: string, hint: Option<bool>,
                    today: Date, faults: Faults) returns (r: ExpenseResult)
    requires db.Valid()
    modifies db`expenses, db`nextExpenseId
    ensures db.Valid()
    ensures hint.None? && CheckItemHealth(db.itemHealth, item, faults.readFails).None? ==>
              r == NeedsClarification(item, amount) && unchanged(db)
    ensures hint.Some? || CheckItemHealth(db.itemHealth, item, faults.readFails).Some? ==>
              var h := if hint.Some? then hint.value else CheckItemHealth(db.itemHealth, item, faults.readFails).value;
              && (faults.writeFails ==> r == ExpenseError && unchanged(db))
              && (!faults.writeFails ==>
                    && r == ExpenseLogged(item, amount, h)
                    && db.expenses == old(db.expenses) + [Expense(old(db.nextExpenseId), today, item, amount, category, Some(h))]
                    && db.nextExpenseId == old(db.nextExpenseId) + 1)
  {
    var isHealthy := hint;
    if isHealthy.None? {
      var known := CheckItemHealth(db.itemHealth, item, faults.readFails);
      if known.Some? {
        isHealthy := known;
      } else {
        return NeedsClarification(item, amount);
      }
    }
    if faults.writeFails {
      return ExpenseError;
    }
    db.expenses := db.expenses + [Expense(db.nextExpenseId, today, item, amount, category, isHealthy)];
    db.nextExpenseId := db.nextExpenseId + 1;
    r := ExpenseLogged(item, amount, isHealthy.value);
  }

  /** An item no key matches cannot be logged without a hint, whatever the amount. */
  lemma UnknownItemNeedsClarification(facts: map<string, bool>, item: string, readFails: bool)
    requires NormalKeys(facts)
    requires QueryKey(item) !in facts
    ensures CheckItemHealth(facts, item, readFails).None?
  {
    LowerSpec(Strip(item));
  }

  /** A concrete case: "tea" learned as healthy is found when " Tea" is logged. */
  lemma TeaExample()
    ensures NormalKeys(map["tea" := true])
    ensures CheckItemHealth(map["tea" := true], " Tea", false) == Some(true)
  {
    assert LearnKey("tea") == "tea" by {
      assert Lower("tea") == "tea";
      StripTrimmed("tea");
    }
    assert QueryKey(" Tea") == "tea" by {
      assert TrimStart(" Tea") == "Tea";
      StripTrimmed("Tea");
      assert Lower("Tea") == "tea";
    }
    LearnThenCheck(map[], "tea", true, " Tea");
  }
}
