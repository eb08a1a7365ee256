# Personal ledger core, modelled in Dafny

This project models the bookkeeping core of a personal finance assistant.

- **Social ledger** (`modules/social_manager.py`):
  - names are normalised to lower case without outer spaces;
  - names are resolved to friend ids, and a fixed set of self-aliases means the owner (id 0);
  - friends are registered;
  - debts are logged;
  - a repayment is applied oldest debt first. One payment row is written per debt that receives money, and each debt it covers is set `Settled`.
- **Item-health store and expense logger** (`modules/finance_manager.py`):
  - an item's healthiness is looked up case-insensitively;
  - it is learned by an upsert under the key `item.lower().strip()`;
  - an expense is logged behind a clarification gate. With no hint and nothing known, the user is asked and nothing is written.
- **Monthly report** (`modules/report_generator.py`):
  - the month it covers and the half-open date window of that month;
  - the total, healthy and unhealthy spending in that window;
  - the diet score.

## Modelling choices

- **Store:** the database is an in-memory `Tables.Database` class.
  - The friends, expenses, debts and payments tables are sequences in insertion order, and item_health is a map.
  - Each AUTOINCREMENT table has a next-id counter.
  - The class invariant `Valid` says that ids are positive, ascending and below their counter, and that every item_health key is lower-case with no outer spaces.
- **Imperative parts:** operations that write are methods with `modifies` frames on the fields they change.
  - The payment loop of `record_payment` is a `while` loop (`Social.ApplyPayment`).
  - That loop is proved equal to the specification function `Settlement.Plan`.
  - `Plan` is in turn proved equal, debt by debt, to a closed-form oldest-first reference (`Settlement.Greedy`).
- **Pure parts:** lookups and the report are functions.
- **Failures:** storage exceptions are a per-call `Faults(readFails, writeFails)` parameter, meaning every read or every write of that call raises.
  - A read that raises behaves as the code's `except` does, which is to return nothing or an error result.
  - Dates and the current day are parameters.
- **Amounts:** amounts are exact `real`s.
- **Dates:** a date is a (year, month, day) value. The stored `YYYY-MM-DD` text order is the lexicographic order on the triple (for four-digit years).
- **Text:** `str.lower()` is modelled for ASCII letters. `str.strip()` removes the characters Python's `str.isspace()` accepts.

The model follows the code where a stricter design would differ:

- The self-aliases resolve to the hard-coded id 0 rather than to a stored owner row.
- No amount is validated: zero or negative amounts are written as given.
- An empty name is not rejected.
- A name is never created on first use. Unknown names fail with "not found".
- A party may owe itself.

## Model

| member | source | states |
|---|---|---|
| Text.StripSpec | modules/social_manager.py:8 | `strip` returns the slice between the leading and the trailing run of whitespace; only spaces are dropped and the result has no outer space |
| Text.StripIdempotent | modules/social_manager.py:8 | stripping twice is stripping once |
| Text.LowerSpec | modules/social_manager.py:8 | `lower` keeps the length, leaves no upper-case letter and is idempotent |
| Text.LowerStripCommute | modules/finance_manager.py:13-25 | lower-then-strip equals strip-then-lower, so `item.strip()` matched case-insensitively and the learned key `item.lower().strip()` agree |
| Text.StripLowerForm | modules/finance_manager.py:25 | `s.lower().strip()` is its own lower-case form and has no outer space |
| Tables.Database.constructor | modules/database.py:31-78 | a new store has four empty tables and an empty item_health map, and satisfies the id invariant (counters start at 1) |
| Social.NormalizeNameForm | modules/social_manager.py:5-8 | a normalised name has no outer space and no upper-case letter |
| Social.NormalizeNameIdempotent | modules/social_manager.py:5-8 | normalising twice is normalising once |
| Social.NormalizeStrip | modules/social_manager.py:5-8 | stripping a name before normalising changes nothing, which is why `add_friend`'s stripped name resolves like the raw one |
| Social.LowerStripIsNormalized | modules/social_manager.py:68 | `name.lower().strip()` as `log_debt` computes it is the normalised name, the empty name included |
| Social.FirstMatch | modules/social_manager.py:22-25 | returns nothing iff no friend's normalised name matches; otherwise the id of the first friend that matches |
| Social.FirstMatchAppend | modules/social_manager.py:23-25 | a friend appended at the end is found only when no earlier friend matches |
| Social.ResolveMeaning | modules/social_manager.py:11-29 | an alias resolves to the owner id 0; a failed read resolves nothing; otherwise the result is the first matching friend's id, and nothing only when no friend matches |
| Social.GetFriendId | modules/social_manager.py:11-29 | the scan returns exactly `Resolve` of the friends table |
| Social.AddFriend | modules/social_manager.py:32-49 | a stripped name that already resolves (alias included) gives AlreadyExists and writes nothing; a failed insert gives an error and writes nothing; otherwise exactly one row with the stripped name and the next id is appended |
| Social.AddedFriendResolves | modules/social_manager.py:32-46 | after a friend is added, every spelling that normalises like its name resolves to the new id |
| Social.SecondSpellingAlreadyExists | modules/social_manager.py:34-38 | registering a second spelling of an added name is refused as already existing |
| Social.AddFriendKeepsNamesUnique | modules/social_manager.py:34-44 | with a readable table, adding keeps normalised names pairwise distinct |
| Social.FailedLookupAdmitsDuplicate | modules/social_manager.py:26-29 | when the lookup's read fails, the duplicate check finds nothing and a second "bob" can be inserted next to "Bob" |
| Social.ListFriends | modules/social_manager.py:52-58 | the names of all friends in table order, or the empty list when the read fails |
| Social.ResolveDebtParty | modules/social_manager.py:67-79 | `log_debt`'s four-alias shortcut followed by `get_friend_id` resolves every name exactly as `get_friend_id` does; a resolved id is the owner or a stored friend's |
| Social.LogDebt | modules/social_manager.py:61-106 | an unknown borrower is reported first, then an unknown lender, and neither writes; a failed insert writes nothing; otherwise one Active debt with both resolved ids, the amount and the next id is appended |
| Social.RecordPayment | modules/social_manager.py:108-161 | an unknown party, no Active debts, or a failed read writes nothing; otherwise the payments table grows by the rows of the plan for the payer's Active debts to the receiver in id order, those debts the plan covers become Settled, and the reply lists them in order |
| Social.ApplyPayment | modules/social_manager.py:128-159 | the loop writes exactly the plan's payment rows with consecutive ids and settles exactly the plan's settled ids; a write failure at the first write leaves the tables untouched |
| Social.PayDebt | modules/social_manager.py:135-157 | one turn: the chunk is min(remaining, amount - already paid); a positive chunk writes one row, and settles the debt iff already paid + chunk covers the amount |
| Settlement.PaidAppend | modules/social_manager.py:136-137 | the amount already paid on a debt is additive over the payments table |
| Settlement.ActiveDebts | modules/social_manager.py:118-122 | the query returns exactly the debts with this borrower, this lender and status Active |
| Settlement.ActiveDebtsAscending | modules/social_manager.py:118-122 | with ascending table ids the query's rows come back in ascending id order |
| Settlement.PlanRows | modules/social_manager.py:132-157 | every row written is for a fetched debt, is positive, is at most that debt's balance, and settles it iff it pays the whole balance |
| Settlement.PlanStep | modules/social_manager.py:132-157 | one loop turn: the first debt's row when its chunk is positive, then the loop over the rest with what remains |
| Settlement.PlanIsGreedy | modules/social_manager.py:132-157 | the j-th fetched debt receives what is left after all earlier positive balances are paid off, capped by its own balance; it is set Settled iff that amount is positive and covers the balance |
| Settlement.AppliedTotal | modules/social_manager.py:128-157 | the total written is min(payment, the sum of the positive balances), and zero for a payment that is not positive |
| Settlement.EarlierDebtsPaidFirst | modules/social_manager.py:132-157 | oldest first: when a later debt receives money, every earlier debt still owing was paid its whole balance and settled |
| Settlement.NothingPastExhaustion | modules/social_manager.py:132-133 | once the earlier debts absorb the payment, a later debt gets no row and is not settled |
| Settlement.PaymentRows | modules/social_manager.py:143-151 | one payment row per allocation, in order, with consecutive ids, the debt id, the payer and the chunk |
| Settlement.PaidRows | modules/social_manager.py:136-151 | reading `already_paid` back from the inserted rows gives what the plan allocated to that debt |
| Settlement.SettleAll | modules/social_manager.py:153-154 | the update changes only the status, and only of debts whose id is listed, to Settled |
| Settlement.SettleAllTwice | modules/social_manager.py:153-154 | settling in two updates equals settling all the ids at once |
| Settlement.Conservation | modules/social_manager.py:139-157 | per debt: a debt whose payments did not exceed its amount before the call does not exceed it after, whatever the other debts hold |
| Settlement.ConservationTable | modules/social_manager.py:139-157 | table form: if no debt was overpaid before a payment, none is after |
| Settlement.UntouchedDebt | modules/social_manager.py:118-122 | a debt the query does not return receives no row and is not settled |
| Settlement.UnselectedUnchanged | modules/social_manager.py:118-154 | debts of other parties and Settled debts keep their row and their paid amount |
| Settlement.SettledMeansCovered | modules/social_manager.py:153-154 | a debt the call sets Settled has been paid exactly its original amount |
| Finance.QueryIsLearnKey | modules/finance_manager.py:13-25 | the case-free form of `item.strip()` is the learned key `item.lower().strip()` |
| Finance.LearnKeyNormal | modules/finance_manager.py:25 | a learned key is lower-case with no outer space |
| Finance.CheckItemHealth | modules/finance_manager.py:7-18 | a flag is found iff the read succeeds and some key equals `item.strip()` ignoring case, and then it is that key's flag |
| Finance.LearnItemHealth | modules/finance_manager.py:21-32 | upsert: the map gains or overwrites the learned key with the flag and nothing else changes; a failed write changes nothing; keys stay normal |
| Finance.LearnKeepsKeysNormal | modules/finance_manager.py:25-29 | after a learn the only key matching the item is its learned key, so one fact per normalised item |
| Finance.LearnThenCheck | modules/finance_manager.py:13-29 | learning round trip: after learning x with b, looking up any spelling of x up to case and outer spaces gives b |
| Finance.LearnLeavesOthers | modules/finance_manager.py:25-29 | learning one item leaves the lookup of every other item unchanged |
| Finance.LaterLearnOverwrites | modules/finance_manager.py:25-29 | a later learn of the same item in any spelling overwrites the earlier flag |
| Finance.LogExpense | modules/finance_manager.py:35-71 | a hint wins over the store; with no hint and nothing known the result is NeedsClarification with item and amount and nothing is written; a failed insert writes nothing; otherwise exactly one row with the date, item, amount, category and resolved flag is appended |
| Finance.UnknownItemNeedsClarification | modules/finance_manager.py:39-49 | an item with no matching key finds no flag, so logging it without a hint asks for clarification |
| Finance.TeaExample | modules/finance_manager.py:7-29 | "tea" learned as healthy is found when " Tea" is looked up |
| Report.ReportPeriod | modules/report_generator.py:68-71 | both given: that month and year; either missing: today's month and year |
| Report.WindowIsMonth | modules/report_generator.py:75-93 | for month 1..12 and a valid date, the window [first of month, first of next month) holds exactly that month's dates, December included |
| Report.DecemberWindow | modules/report_generator.py:78-79 | in every year, December's window ends on 1 January of the next year: it holds 31 December and not 1 January |
| Report.RowsIn | modules/report_generator.py:91-96 | the query returns exactly the expenses dated inside the window |
| Report.RowsInAppend | modules/report_generator.py:91-96 | an appended expense joins the window's rows iff its date is inside the window |
| Report.SumsPartition | modules/report_generator.py:103-105 | total = healthy + unhealthy + the amounts with no flag |
| Report.FlaggedLeavesNothing | modules/report_generator.py:103-105 | with no NULL flag the unflagged amount is zero |
| Report.SumsNonNegative | modules/report_generator.py:103-105 | non-negative amounts give a non-negative total and non-negative healthy, unhealthy and unflagged sums |
| Report.SplitBounds | modules/report_generator.py:103-105 | healthy + unhealthy <= total for non-negative amounts, with equality when every row is flagged |
| Report.SumsAppend | modules/report_generator.py:103-105 | the three sums are additive over concatenation |
| Report.ScoreIsPercentage | modules/report_generator.py:111-113 | with non-negative amounts and a positive total the diet score lies in [0, 100] |
| Report.GenerateMonthlyReport | modules/report_generator.py:60-118 | the period as resolved; a failed read gives CloudError; NoExpenses iff no expense lies in the window; otherwise the total, healthy and unhealthy fields are the sums over the window's rows, the score is present iff the total is positive and is then healthy / total * 100 |
| Report.ReportScoreIsPercentage | modules/report_generator.py:111-113 | with non-negative amounts the report's diet score field lies in [0, 100] |
| Report.OtherMonthIgnored | modules/report_generator.py:91-105 | an expense dated outside the month leaves the report unchanged |
| Report.SameMonthCounted | modules/report_generator.py:91-105 | an expense dated inside the month adds its amount to the total, and to the healthy or unhealthy sum as its flag says |

## Left out

- Social.RecordPayment: a write that raises after some rows were written is not modelled. Either every write of the call raises (nothing is written) or none does.
- Social.RecordPayment: the read-then-write race between two concurrent payments is not modelled. Calls are sequential.
- Social.GetFriendId, Social.LogDebt, Social.RecordPayment: when the friends read fails, the code prints and continues with "not found"; the model returns nothing without modelling the printed text.
- Finance.CheckItemHealth: the `ilike` pattern characters `%` and `_` are not treated as wildcards. The match is case-insensitive equality.
- Finance.CheckItemHealth: stores holding any key that is not lower-case and stripped are excluded by its precondition (a single key "Burger" is excluded too). `learn_item_health`, the only writer, never stores such a key. The lookup of rows written by other means, and the row order that would pick `data[0]` among several matches, are not modelled.
- Social.FirstMatch, Social.ListFriends: the friends queries have no `ORDER BY`, so the server may return rows in any order. The model assumes insertion order. That order decides which id resolves when two friends share a normalised name.
- Text.Lower: only ASCII letters are lower-cased. Python's full Unicode case mapping is not modelled.
- All returned message strings (emoji, formatted amounts, the "Settled Debt #id" text) are replaced by result datatypes carrying the same data.
- Report.GenerateMonthlyReport: `export_to_excel` (file and spreadsheet output) and the `excel_status` line are not modelled. The report body keeps the numbers rather than the formatted text.
- Report.GenerateMonthlyReport: floating-point sums and the `.2f` and `.1f` rounding are not modelled. Amounts are exact.
- Report.InWindow: dates are compared as (year, month, day) triples. This is the text order only for four-digit years, and month values outside 1..12 are not checked.
- `is_healthy` values other than true, false and NULL, and `amount` values that are not numbers, are not modelled. The model's types exclude them.
- The database client (`get_client`), the MCP server, the command-line front end, the dashboard, the AI analysis, OCR and the seeding scripts are not part of this model.
