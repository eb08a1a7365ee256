/** The social ledger: resolving names to friend ids, registering friends,
    recording debts, and applying a repayment across the open debts. */
module Social {

  import opened Text
  import opened Tables
  import opened Settlement

  /** The ledger owner. No friends row carries this id. */
  const OwnerId: int := 0

  /** Names that always mean the owner. */
  const SelfAliases: set<string> := {"me", "i", "myself", "user", "self", "you"}

  /** The shorter alias list `log_debt` checks before resolving a party. */
  const DebtSelfAliases: set<string> := {"me", "i", "myself", "user"}

  /** `normalize_name`: an empty name stays empty, any other is lower-cased and stripped. */
  function NormalizeName(name: string): string {
    if name == "" then "" else Strip(Lower(name))
  }

  /** A normalised name has no upper-case letter and no outer space, and is
      its own lower-case form. */
  lemma NormalizeNameForm(name: string)
    ensures Trimmed(NormalizeName(name))
    ensures forall k :: 0 <= k < |NormalizeName(name)| ==> !IsUpper(NormalizeName(name)[k])
    ensures Lower(NormalizeName(name)) == NormalizeName(name)
  {
    var r := NormalizeName(name);
    if name != "" {
      StripLowerForm(name);
    }
    LowerSpec(r);
  }

  /** `normalize_name` is idempotent. */
  lemma NormalizeNameIdempotent(name: string)
    ensures NormalizeName(NormalizeName(name)) == NormalizeName(name)
  {
    NormalizeNameForm(name);
    StripTrimmed(NormalizeName(name));
  }

  /** Stripping a name first does not change what it normalises to. */
  lemma NormalizeStrip(name: string)
    ensures NormalizeName(Strip(name)) == NormalizeName(name)
  {
    LowerStripCommute(name);
    StripIdempotent(Lower(name));
    if name != "" && Strip(name) == "" {
      assert Lower(Strip(name)) == "";
    }
  }

  /** `name.lower().strip()`, the form `log_debt` compares, is the normalised name. */
  lemma LowerStripIsNormalized(name: string)
    ensures Strip(Lower(name)) == NormalizeName(name)
  {
    if name == "" {
      assert Lower(name) == "";
    }
  }

  predicate Matches(f: Friend, clean: string) {
    NormalizeName(f.name) == clean
  }

  /** Position i holds the first friend whose normalised name is `clean`. */
  predicate IsFirstMatch(friends: seq<Friend>, clean: string, i: int) {
    && 0 <= i < |friends|
    && Matches(friends[i], clean)
    && forall j :: 0 <= j < i ==> !Matches(friends[j], clean)
  }

  /** The id of the first friend whose normalised name is `clean`, if any. */
  function FirstMatch(friends: seq<Friend>, clean: string): (r: Option<int>)
    ensures r.None? <==> forall i :: 0 <= i < |friends| ==> !Matches(friends[i], clean)
    ensures r.Some? ==> exists i :: IsFirstMatch(friends, clean, i) && r.value == friends[i].id
  {
    if friends == [] then None
    else if Matches(friends[0], clean) then
      assert IsFirstMatch(friends, clean, 0);
      Some(friends[0].id)
    else
      var r := FirstMatch(friends[1..], clean);
      assert r.Some? ==> exists i :: IsFirstMatch(friends, clean, i) && r.value == friends[i].id by {
        if r.Some? {
          var i :| IsFirstMatch(friends[1..], clean, i) && r.value == friends[1..][i].id;
          assert IsFirstMatch(friends, clean, i + 1);
        }
      }
      r
  }

  /** A friend appended after the others is found only if no earlier one matches. */
  lemma {:induction false} FirstMatchAppend(friends: seq<Friend>, f: Friend, clean: string)
    ensures FirstMatch(friends + [f], clean)
            == if FirstMatch(friends, clean).Some? then FirstMatch(friends, clean)
               else if Matches(f, clean) then Some(f.id) else None
  {
    if friends == [] {
      assert friends + [f] == [f];
    } else {
      assert (friends + [f])[1..] == friends[1..] + [f];
      FirstMatchAppend(friends[1..], f, clean);
    }
  }

  /** What `get_friend_id` returns: the owner for an alias, otherwise the first
      match in the friends table, and nothing when the table cannot be read. */
  function Resolve(friends: seq<Friend>, name: string, readFails: bool): Option<int> {
    var clean := NormalizeName(name);
    if clean in SelfAliases then Some(OwnerId)
    else if readFails then None
    else FirstMatch(friends, clean)
  }

  /** What `Resolve` means: an alias is the owner; any other name gives the
      id of the first friend whose normalised name equals its own, and it
      finds nothing only when the read fails or no friend matches. */
  lemma ResolveMeaning(friends: seq<Friend>, name: string, readFails: bool)
    ensures NormalizeName(name) in SelfAliases ==> Resolve(friends, name, readFails) == Some(OwnerId)
    ensures NormalizeName(name) !in SelfAliases && Resolve(friends, name, readFails).Some? ==>
              exists i :: IsFirstMatch(friends, NormalizeName(name), i)
                          && Resolve(friends, name, readFails).value == friends[i].id
    ensures NormalizeName(name) !in SelfAliases && readFails ==> Resolve(friends, name, readFails).None?
    ensures NormalizeName(name) !in SelfAliases && !readFails && Resolve(friends, name, readFails).None? ==>
              forall i :: 0 <= i < |friends| ==> !Matches(friends[i], NormalizeName(name))
  {
  }

  /** `get_friend_id`: a linear scan over the friends table, computing `Resolve`. */
  method GetFriendId(db: Database, name: string, readFails: bool) returns (id: Option<int>)
    ensures id == Resolve(db.friends, name, readFails)
  {
    var clean := NormalizeName(name);
    if clean in SelfAliases {
      return Some(OwnerId);
    }
    if readFails {
      return None;
    }
    var i := 0;
    while i < |db.friends|
      invariant 0 <= i <= |db.friends|
      invariant forall j :: 0 <= j < i ==> !Matches(db.friends[j], clean)
    {
      if NormalizeName(db.friends[i].name) == clean {
        assert IsFirstMatch(db.friends, clean, i);
        return Some(db.friends[i].id);
      }
      i := i + 1;
    }
    return None;
  }

  /** No two friends share a normalised name. */
  ghost predicate UniqueNames(friends: seq<Friend>) {
    forall i, j :: 0 <= i < j < |friends| ==> NormalizeName(friends[i].name) != NormalizeName(friends[j].name)
  }

  datatype AddFriendResult = AlreadyExists(name: string) | FriendAdded(name: string) | AddFriendError

  /** `add_friend`: the name is stripped (case kept); a name that already
      resolves, an alias included, is reported and nothing is written. */
  method AddFriend(db: Database, name: string, phone: Option<string>, faults: Faults) returns (r: AddFriendResult)
    requires db.Valid()
    modifies db`friends, db`nextFriendId
    ensures db.Valid()
    ensures Resolve(old(db.friends), Strip(name), faults.readFails).Some? ==>
              r == AlreadyExists(Strip(name)) && unchanged(db)
    ensures Resolve(old(db.friends), Strip(name), faults.readFails).None? && faults.writeFails ==>
              r == AddFriendError && unchanged(db)
    ensures Resolve(old(db.friends), Strip(name), faults.readFails).None? && !faults.writeFails ==>
              && r == FriendAdded(Strip(name))
              && db.friends == old(db.friends) + [Friend(old(db.nextFriendId), Strip(name), phone)]
              && db.nextFriendId == old(db.nextFriendId) + 1
  {
    var clean := Strip(name);
    var existing := GetFriendId(db, clean, faults.readFails);
    if existing.Some? {
      return AlreadyExists(clean);
    }
    if faults.writeFails {
      return AddFriendError;
    }
    db.friends := db.friends + [Friend(db.nextFriendId, clean, phone)];
    db.nextFriendId := db.nextFriendId + 1;
    r := FriendAdded(clean);
  }

  /** After a friend is added, every spelling that normalises like its name
      resolves to the new id. */
  lemma AddedFriendResolves(friends: seq<Friend>, name: string, phone: Option<string>, id: int, other: string)
    requires Resolve(friends, Strip(name), false).None?
    requires NormalizeName(other) == NormalizeName(name)
    ensures Resolve(friends + [Friend(id, Strip(name), phone)], other, false) == Some(id)
  {
    NormalizeStrip(name);
    FirstMatchAppend(friends, Friend(id, Strip(name), phone), NormalizeName(name));
  }

  /** Registering " bob " and then "BOB" writes one row: the second call finds the first. */
  lemma SecondSpellingAlreadyExists(friends: seq<Friend>, a: string, b: string, phone: Option<string>, id: int)
    requires Resolve(friends, Strip(a), false).None?
    requires NormalizeName(a) == NormalizeName(b)
    ensures Resolve(friends + [Friend(id, Strip(a), phone)], Strip(b), false) == Some(id)
  {
    NormalizeStrip(b);
    AddedFriendResolves(friends, a, phone, id, Strip(b));
  }

  /** When its duplicate check can read the table, `add_friend` keeps names unique. */
  lemma AddFriendKeepsNamesUnique(friends: seq<Friend>, name: string, phone: Option<string>, id: int)
    requires UniqueNames(friends)
    requires Resolve(friends, Strip(name), false).None?
    ensures UniqueNames(friends + [Friend(id, Strip(name), phone)])
  {
    NormalizeStrip(name);
  }

  /** When the duplicate check cannot read the table it finds nothing, and
      the insert that follows can repeat an existing name. */
  lemma FailedLookupAdmitsDuplicate()
    ensures var friends := [Friend(1, "Bob", None)];
            && Resolve(friends, Strip("bob"), true).None?
            && !UniqueNames(friends + [Friend(2, Strip("bob"), None)])
  {
    var friends := [Friend(1, "Bob", None)];
    var both := friends + [Friend(2, Strip("bob"), None)];
    StripTrimmed("bob");
    assert Lower("bob") == "bob";
    assert Lower("Bob") == "bob";
    assert NormalizeName(both[0].name) == NormalizeName(both[1].name);
  }

  /** `list_friends`: the names in table order, or none when the read fails. */
  function ListFriends(friends: seq<Friend>, readFails: bool): (names: seq<string>)
    ensures readFails ==> names == []
    ensures !readFails ==> |names| == |friends| && forall i :: 0 <= i < |names| ==> names[i] == friends[i].name
  {
    if readFails then [] else seq(|friends|, i requires 0 <= i < |friends| => friends[i].name)
  }

  /** How `log_debt` resolves one party: its own short alias list, then
      `get_friend_id`. It agrees with `get_friend_id` on every name. */
  method ResolveDebtParty(db: Database, name: string, readFails: bool) returns (id: Option<int>)
    ensures id == Resolve(db.friends, name, readFails)
    ensures id.Some? ==> id.value == OwnerId || exists i :: 0 <= i < |db.friends| && db.friends[i].id == id.value
  {
    LowerStripIsNormalized(name);
    if Strip(Lower(name)) in DebtSelfAliases {
      id := Some(OwnerId);
    } else {
      id := GetFriendId(db, name, readFails);
    }
  }

  datatype DebtResult =
    | BorrowerNotFound(name: string)
    | LenderNotFound(name: string)
    | DebtLogged(borrower: string, lender: string, amount: real)
    | DebtError

  /** `log_debt`: both parties must resolve (the borrower is reported first);
      then one Active debt is appended. The amount is not checked and a party
      may owe itself. */
  method LogDebt(db: Database, borrowerName: string, lenderName: string, amount: real,
                 description: string, today: Date, faults: Faults) returns (r: DebtResult)
    requires db.Valid()
    modifies db`debts, db`nextDebtId
    ensures db.Valid()
    ensures Resolve(db.friends, borrowerName, faults.readFails).None? ==>
              r == BorrowerNotFound(borrowerName) && unchanged(db)
    ensures Resolve(db.friends, borrowerName, faults.readFails).Some?
            && Resolve(db.friends, lenderName, faults.readFails).None? ==>
              r == LenderNotFound(lenderName) && unchanged(db)
    ensures Resolve(db.friends, borrowerName, faults.readFails).Some?
            && Resolve(db.friends, lenderName, faults.readFails).Some? && faults.writeFails ==>
              r == DebtError && unchanged(db)
    ensures Resolve(db.friends, borrowerName, faults.readFails).Some?
            && Resolve(db.friends, lenderName, faults.readFails).Some? && !faults.writeFails ==>
              && r == DebtLogged(borrowerName, lenderName, amount)
              && db.debts == old(db.debts) + [Debt(old(db.nextDebtId), today,
                                                  Resolve(db.friends, borrowerName, faults.readFails).value,
                                                  Resolve(db.friends, lenderName, faults.readFails).value,
                                                  amount, description, Active)]
              && db.nextDebtId == old(db.nextDebtId) + 1
  {
    var lenderId := ResolveDebtParty(db, lenderName, faults.readFails);
    var borrowerId := ResolveDebtParty(db, borrowerName, faults.readFails);
    if borrowerId.None? {
      return BorrowerNotFound(borrowerName);
    }
    if lenderId.None? {
      return LenderNotFound(lenderName);
    }
    if faults.writeFails {
      return DebtError;
    }
    db.debts := db.debts + [Debt(db.nextDebtId, today, borrowerId.value, lenderId.value, amount, description, Active)];
    db.nextDebtId := db.nextDebtId + 1;
    r := DebtLogged(borrowerName, lenderName, amount);
  }

  datatype PaymentResult =
    | PartyNotFound
    | NoActiveDebts(payer: string, receiver: string)
    | PaymentRecorded(settled: seq<int>)
    | PaymentError

  /** `record_payment`: fetch the payer's Active debts to the receiver in
      ascending id order and apply the payment oldest first, writing one
      payment row per debt that receives money and settling each debt it
      covers. The new tables are those the Plan of the fetched debts gives. */
  method RecordPayment(db: Database, payerName: string, receiverName: string, amount: real,
                       today: Date, faults: Faults) returns (r: PaymentResult)
    requires db.Valid()
    modifies db`debts, db`payments, db`nextPaymentId
    ensures db.Valid()
    ensures Resolve(db.friends, payerName, faults.readFails).None?
            || Resolve(db.friends, receiverName, faults.readFails).None? ==>
              r == PartyNotFound && unchanged(db)
    ensures Resolve(db.friends, payerName, faults.readFails).Some?
            && Resolve(db.friends, receiverName, faults.readFails).Some? ==>
              var payer := Resolve(db.friends, payerName, faults.readFails).value;
              var receiver := Resolve(db.friends, receiverName, faults.readFails).value;
              var ds := ActiveDebts(old(db.debts), payer, receiver);
              var plan := Plan(ds, old(db.payments), amount);
              if faults.readFails then r == PaymentError && unchanged(db)
              else if ds == [] then r == NoActiveDebts(payerName, receiverName) && unchanged(db)
              else if faults.writeFails && plan != [] then r == PaymentError && unchanged(db)
              else
                && r == PaymentRecorded(SettledIds(plan))
                && db.payments == old(db.payments) + PaymentRows(plan, old(db.nextPaymentId), today, payer)
                && db.nextPaymentId == old(db.nextPaymentId) + |plan|
                && db.debts == SettleAll(old(db.debts), SettledIds(plan))
  {
    var payerId := GetFriendId(db, payerName, faults.readFails);
    var receiverId := GetFriendId(db, receiverName, faults.readFails);
    if payerId.None? || receiverId.None? {
      return PartyNotFound;
    }
    if faults.readFails {
      return PaymentError;
    }
    var ds := ActiveDebts(db.debts, payerId.value, receiverId.value);
    if ds == [] {
      return NoActiveDebts(payerName, receiverName);
    }
    ActiveDebtsAscending(db.debts, payerId.value, receiverId.value);
    ghost var pays0, debts0, next0 := db.payments, db.debts, db.nextPaymentId;
    var ok, settled := ApplyPayment(db, ds, payerId.value, amount, today, faults.writeFails);
    r := if ok then PaymentRecorded(settled) else PaymentError;
    SettleAllKeepsIds(debts0, settled, db.nextDebtId);
    PaymentRowsKeepIds(pays0, next0, Plan(ds, pays0, amount), today, payerId.value);
  }

  /** The loop of `record_payment` over the fetched debts `ds`: one payment row
      per positive chunk, a Settled update for each debt it covers; the first
      write that raises ends the call before anything is written. */
  method ApplyPayment(db: Database, ds: seq<Debt>, payer: int, amount: real, today: Date, writeFails: bool)
    returns (ok: bool, settled: seq<int>)
    requires Ascending(ds)
    modifies db`debts, db`payments, db`nextPaymentId
    ensures var plan := Plan(ds, old(db.payments), amount);
            if writeFails && plan != [] then !ok && unchanged(db)
            else
              && ok && settled == SettledIds(plan)
              && db.payments == old(db.payments) + PaymentRows(plan, old(db.nextPaymentId), today, payer)
              && db.nextPaymentId == old(db.nextPaymentId) + |plan|
              && db.debts == SettleAll(old(db.debts), settled)
  {
    ghost var run := PaymentRun(ds, db.payments, db.debts, db.nextPaymentId, amount, today, payer);
    ghost var done: seq<Allocation> := [];
    var remaining := amount;
    settled := [];
    ProgressInit(run);
    var i := 0;
    while i < |ds|
      invariant Progress(run, i, remaining, done, settled, db.payments, db.debts, db.nextPaymentId)
      invariant writeFails ==> done == []
    {
      if remaining <= 0.0 {
        break;
      }
      var d := ds[i];
      ghost var payments0, debts0, nextId0 := db.payments, db.debts, db.nextPaymentId;
      ghost var remaining0, done0, settled0 := remaining, done, settled;
      var chunk, settles, failed := PayDebt(db, d, payer, remaining, today, writeFails);
      if failed {
        FirstWriteNeeded(run, i, remaining0, done0, settled0, payments0, debts0, nextId0, chunk);
        ProgressEmpty(run, i, remaining0, settled0, payments0, debts0, nextId0);
        return false, [];
      }
      if chunk > 0.0 {
        if settles {
          settled := settled + [d.id];
        }
        remaining := remaining - chunk;
        done := done + [Allocation(d, chunk, settles)];
      }
      Advance(run, i, remaining0, done0, settled0, payments0, debts0, nextId0, chunk, settles,
              remaining, done, settled, db.payments, db.debts, db.nextPaymentId);
      i := i + 1;
    }
    ProgressFinished(run, i, remaining, done, settled, db.payments, db.debts, db.nextPaymentId);
    ok := true;
    if writeFails {
      ProgressEmpty(run, i, remaining, settled, db.payments, db.debts, db.nextPaymentId);
    }
  }

  /** One turn of the loop of `record_payment`: read what was already paid on
      `d`, write a payment row for the chunk (if positive), and set the debt
      Settled when the chunk covers it; a write that raises changes nothing. */
  method PayDebt(db: Database, d: Debt, payer: int, remaining: real, today: Date, writeFails: bool)
    returns (chunk: real, settles: bool, failed: bool)
    modifies db`debts, db`payments, db`nextPaymentId
    ensures chunk == Min(remaining, Balance(d, old(db.payments)))
    ensures settles == (Paid(old(db.payments), d.id) + chunk >= d.amount)
    ensures failed == (chunk > 0.0 && writeFails)
    ensures chunk <= 0.0 || failed ==> unchanged(db)
    ensures chunk > 0.0 && !failed ==>
              && db.payments == old(db.payments) + [Payment(old(db.nextPaymentId), today, d.id, payer, chunk)]
              && db.nextPaymentId == old(db.nextPaymentId) + 1
              && db.debts == if settles then SettleAll(old(db.debts), [d.id]) else old(db.debts)
  {
    var alreadyPaid := Paid(db.payments, d.id);
    var balance := d.amount - alreadyPaid;
    chunk := Min(remaining, balance);
    settles := alreadyPaid + chunk >= d.amount;
    failed := false;
    if chunk > 0.0 {
      if writeFails {
        return chunk, settles, true;
      }
      db.payments := db.payments + [Payment(db.nextPaymentId, today, d.id, payer, chunk)];
      db.nextPaymentId := db.nextPaymentId + 1;
      if settles {
        db.debts := SettleAll(db.debts, [d.id]);
      }
    }
  }
}
