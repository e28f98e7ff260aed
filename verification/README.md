# Roommate bills: the debt-ledger engine

A small web application that lets roommates record shared bills. A bill has
a payer, an amount, a description and a participant column: user ids joined
with commas. Each participant other than the payer owes an even share of the
amount. When they pay, a settlement row keyed by (bill, settler) records the
share. Each bill also caches an `is_settled` flag. `settle_individual`
recomputes it with `check_fully_settled()`; `toggle_settlement` and
`edit_bill` set it directly. From the bills and rows the application
reports, for each user, whom they owe and who owes them, grouped by display
name, plus a running balance.

This project models that engine in Dafny:

- **Participants** (`participants.dfy`): parsing the participant column, which
  fails where Python's `int()` raises, and the payer being added to a new bill.
- **Money** and **Bills** (`money.dfy`, `bills.dfy`): the even split, with
  `round(x, 2)` taken as round-half-to-even on integer cents. Also the
  per-participant status table, progress counts, full settlement and the list
  of unsettled participants.
- **Store** (`ledger.dfy`): a `Ledger` class over in-memory tables holding the
  state-changing routes `add_bill`, `settle_individual`, `toggle_settlement`
  and `edit_bill`. Its class invariant (`Store.Inv`, behind
  `Store.Ledger.Valid`) has four parts:
  - bills are stored under their own ids, below the next id, with known payers;
  - the insertion order lists each stored bill once;
  - every settlement row holds its bill's current split;
  - the cached flag agrees with the rows for every bill that has a debtor,
    i.e. a participant other than the payer who resolves to a user.
- **Debts** (`debts.dfy`): the two aggregation routines,
  `calculate_debt_details` and `calculate_user_balance`. Each is a loop
  proved equal to a fold over the bills.
- **Text** and **Uploads** (`text.dfy`, `uploads.dfy`): the file-extension
  filter for uploaded receipts.
- **Config** and **Accounts** (`config.dfy`, `accounts.dfy`):
  - the settings table, whose stored text `get_config` reads back as a bool,
    int, float or string;
  - the failed-login counter of a user account, and the limit it is compared
    against.

Money is integer cents throughout.

### Behaviour of the code worth knowing

- `settle_individual` does not refuse the payer as target user
  (app.py:235-247). Toggling the payer adds or removes a row for the payer.
  The payer's status entry stays settled either way. It reports that row's
  amount as `settled_amount`, or 0 without a row (models.py:117-121,
  `Bills.Entry`).
- `add_bill` and `edit_bill` do not check that the amount is positive.
- `edit_bill` stores the chosen participants as given. Unlike `add_bill`, it
  does not append the payer.
- The cached flag agrees with `check_fully_settled()` only for bills where at
  least one participant other than the payer resolves to a user. This is
  `Store.FlagInSync`, part of `Store.Ledger.Valid`.
  - Take a bill whose column lists the payer, and where no other listed id
    resolves to a user. For it, `check_fully_settled()` is true
    (`Bills.PayerOnlyIsFullySettled`).
  - Yet `add_bill` stores such a bill with the flag false, and so do
    `edit_bill` and the "unsettle all" branch of `toggle_settlement`.
- `calculate_debt_details` groups debts by display name. Listing a
  participant twice makes them owe the payer twice in the "owed to me"
  report, but they appear once in the status table.
- `calculate_user_balance` reads only the cached flag and ignores settlement
  rows. Its receivable for a bill is `amount - split` whatever rows exist.
  The debt report counts `split` once per listed position, other than the
  payer's, that resolves to a user without a row. The two differ by the
  rounding residue only when three things hold:
  - no other participant has a row;
  - every other listed id resolves to a user;
  - the payer is listed once.
  `Debts.Receivable` bounds that residue. Otherwise they also differ by one
  split per share already paid or not owed by a resolving user. Example: A
  pays 10000 cents over "A,B,C,D" and B settles alone. The receivable stays
  7500, while "owed to me" totals 5000.

## Model

| member | source | states |
|---|---|---|
| `Money.RoundHalfEven` | models.py:92 | the rounded quotient is within half a cent of `a/d`, and an exact tie rounds to the even neighbour |
| `Money.RoundHalfEvenUnique` | roommate-bills/models.py:54 | any integer meeting the half-cent bound, with ties going to even, is the rounded value, so the split is fully determined |
| `Participants.Parse` | models.py:82-86 | an empty participant column reads as the empty list |
| `Participants.ParseSingle` | models.py:85 | a single piece with no comma reads as no id when `strip()` leaves nothing, as the one id `int()` gives when `int()` accepts it, and fails otherwise |
| `Participants.ParseUnsigned` | models.py:85 | `int()` of a non-empty run of ASCII digits is its decimal value |
| `Participants.ParseNegative` | models.py:85 | `int()` of '-' followed by a non-empty run of digits is the negated decimal value |
| `Participants.BlankRefused` | models.py:85 | text that `strip()` reduces to nothing is refused by `int()` |
| `Participants.SeparatorRefused` | models.py:85 | a digit run preceded by one of U+001C..U+001F survives `strip()`, is refused by `int()`, and makes the whole column fail to read |
| `Participants.ParseConcat` | roommate-bills/models.py:44-48 | reading `a,b` is reading `a` followed by reading `b`, so pieces are read in order and any bad piece makes the whole read fail |
| `Participants.StrParses` | app.py:174 | `int(str(n)) == n` for every id, and `str(n)` holds no comma and is not blank |
| `Participants.JoinParses` | app.py:181 | reading back `','.join` of the ids' strings gives exactly the ids, in order |
| `Participants.WithPayer` | app.py:173-175 | the chosen list is kept as a prefix, at most one entry is added, and the payer's id string is present afterwards |
| `Participants.PayerIncluded` | app.py:173-181 | the stored column of a new bill reads back without error and contains the payer; when the payer was not chosen, it reads as the chosen ids followed by the payer |
| `Bills.Split` | roommate-bills/models.py:50-55 | no participants gives 0; otherwise `split * n` is within n/2 cents of the amount, with ties to even |
| `Bills.SplitAmount` | models.py:88-93 | the split exists iff the participant column reads; it is 0 for no participants and otherwise the rounded share over the list length, duplicates included |
| `Bills.StatusKeys` | models.py:112-114 | the status keys are exactly the participant ids that resolve to a user, each once |
| `Bills.SettlementStatus` | models.py:95-125 | one entry per resolving participant, each once; the payer is settled and expects 0; any other participant is settled iff a row exists for them, expects the split, and reports the row's amount or 0 |
| `Bills.GetSettlementStatus` | roommate-bills/models.py:57-87 | the two loops that fill the settled-users and status dicts compute exactly `SettlementStatus` |
| `Bills.ProgressOf` | models.py:127-141 | an empty status gives zeros; otherwise total is the number of entries, settled counts the settled ones, `settled <= total`, and `percentage` is within half a point of `100 * settled / total`, an exact tie going to the even neighbour; so it lies in 0..100 and is 100 when all are settled |
| `Bills.PercentBounds` | models.py:135 | `round(settled / total * 100)` lies in 0..100 and is 100 when `settled == total` |
| `Bills.ProgressCounts` | roommate-bills/models.py:89-103 | total is the number of distinct resolving participants; settled is the payer, if resolving, plus the resolving participants with a row |
| `Bills.FullySettledIsComplete` | roommate-bills/models.py:105-108 | "every status entry settled and at least one entry" holds iff `settled == total` and `total > 0` |
| `Bills.SettlementProgress` | models.py:127-141 | the progress exists iff the participant column reads; then `settled <= total` and the percentage lies in 0..100 |
| `Bills.CheckFullySettled` | models.py:143-146 | the result exists iff the column reads; it is true iff the progress's settled count equals its total and the total is positive |
| `Bills.FullySettledIffAllPaid` | models.py:143-146 | `check_fully_settled()` is true iff some participant resolves to a user and every resolving participant other than the payer has a row |
| `Bills.IsFullySettled` | app.py:275 | builds the status table, then gives true iff some participant resolves and every resolving non-payer has a row; errors exactly when the column does not read |
| `Bills.Unsettled` | roommate-bills/models.py:110-116 | every listed entry is unsettled and not the payer; every such status entry is listed |
| `Bills.UnsettledDistinct` | roommate-bills/models.py:110-116 | walking distinct status keys lists no user twice |
| `Bills.UnsettledParticipants` | models.py:148-154 | the list exists iff the column reads; each listed entry is unsettled and not the payer, and no user is listed twice |
| `Bills.UnsettledExactly` | models.py:148-154 | a user is in the unsettled list iff they are a resolving participant, not the payer, without a row; each listed entry expects the split |
| `Bills.PayerOnlyIsFullySettled` | models.py:119-120 | a readable bill that lists its payer, where no other listed id resolves to a user, counts as fully settled and has no debtor |
| `Store.InSyncIsChecked` | app.py:275 | for a bill with a resolvable debtor, the ledger invariant on its flag says exactly that the flag equals `check_fully_settled()` |
| `Store.Toggle` | app.py:250-270 | the (bill, user) row is deleted if present, otherwise added with the split; every other row is unchanged |
| `Store.ToggleTwice` | app.py:250-270 | toggling the same row twice restores the table exactly |
| `Store.ClearRows` | app.py:306 | exactly the rows of the given bill are removed; other rows keep their amounts |
| `Store.NoRowsNotPaid` | app.py:304-307 | a bill with a debtor and no rows is not fully paid, so clearing its rows and flag keeps them in agreement |
| `Store.Ledger.constructor` | models.py:66-79 | an empty bill and settlement store over a fixed user table satisfies the ledger invariant |
| `Store.Ledger.AllBills` | app.py:388 | all stored bills, in insertion order |
| `Store.Ledger.AddBill` | app.py:173-183 | a fresh id and a bill paid by the caller; its column joins the chosen ids, with the payer appended if missing; the flag is false; rows are unchanged; the invariant is kept |
| `Store.Ledger.SettleIndividual` | app.py:229-276 | unknown bill or user, non-payer caller, unreadable column and non-participant target each leave everything unchanged; otherwise the (bill, user) row is toggled with the split, and the flag becomes "all resolving debtors have paid", i.e. `check_fully_settled()` on the new rows; the invariant is kept |
| `Store.Ledger.ToggleSettlement` | app.py:293-328 | refused as above; a settled bill loses all its rows and its flag; otherwise every listed non-payer gets a row, existing rows keep their amount, new rows hold the split, no other row changes, and the flag is set; the invariant is kept |
| `Store.Ledger.EditBill` | app.py:647-677 | refused when the bill is unknown or the caller is not its payer; otherwise the bill takes the new description, amount and joined participants; its rows and flag are cleared iff the amount or the participant column changed |
| `Store.ReplaceKeeps` | app.py:229-328 | replacing one bill keeps the ledger invariant when its id and payer stay, other bills' rows are untouched, its own rows hold its split, and its flag agrees with the new rows |
| `Store.AddKeeps` | app.py:173-183 | adding an unsettled bill paid by a known user under the next id keeps the ledger invariant |
| `Store.AddMissingRows` | app.py:315-324 | every listed non-payer has a row for the bill, rows that existed keep their amount, new ones hold the split, and nothing else changes |
| `Store.Ledger.ToggleRow` | app.py:250-275 | the (bill, user) row is toggled with the split, the result tells whether the user became settled, and the bill's flag becomes `check_fully_settled()` on the new rows; the invariant is kept |
| `Store.Ledger.Rewrite` | app.py:662-677 | the bill takes the new description, amount and column; when amount or column changed its flag is cleared and its rows are deleted, otherwise rows and flag stay; the invariant is kept |
| `Store.ToggleTwiceRestores` | app.py:250-275 | two individual toggles of the same row restore the settlement table; the bills are restored too when the bill has a resolvable debtor |
| `Debts.OweMeItems` | app.py:402-409 | each accrued item is a listed participant other than the user, with a status entry that is unsettled, owing the split under their display name for this bill; one item per such listed position, a participant listed twice counting twice |
| `Debts.OweMeComplete` | app.py:402-409 | every listed, resolvable, unsettled participant other than the user is accrued |
| `Debts.BillItems` | app.py:391-416 | a bill not listing the user contributes nothing; as payer the user accrues only "owed to me" items; otherwise the user owes the payer the split iff their own status exists and is unsettled; errors iff the column does not read |
| `Debts.OweMeCoversDebtors` | app.py:400-409 | as payer, each resolvable non-payer participant without a row is owed to the user |
| `Debts.OweMeCount` | app.py:400-409 | as payer, the number of "owed to me" accruals of a bill is the number of listed positions, other than the user's, that resolve to a user without a row |
| `Debts.OweMeSum` | app.py:408 | the "owed to me" accruals of one bill add up to the split times the number of owing positions |
| `Debts.AllItems` | app.py:388-393 | the accruals over all bills exist iff every bill's column reads; no item names the user as counterparty |
| `Debts.AccrueFindSame` | app.py:408-416 | adding an accrual to the grouped list grows the entry of its display name by its amount and appends its bill description, or creates that entry |
| `Debts.AccrueFindOther` | app.py:408-416 | adding an accrual leaves the entries of every other display name unchanged |
| `Debts.AccrueTotal` | app.py:408-415 | adding an accrual raises the sum of the grouped amounts by its amount |
| `Debts.GroupDistinct` | app.py:384-385 | the grouped list has at most one entry per display name, like the defaultdict's keys |
| `Debts.GroupExactly` | app.py:384-433 | grouping gives one entry per display name, whose amount is the sum of that name's items and whose bill list is their descriptions in order; a name with no items has no entry |
| `Debts.GroupTotal` | app.py:435-437 | the sum of the grouped amounts is the sum of all accrued items |
| `Debts.GroupNames` | app.py:419-433 | every grouped name comes from some accrued item |
| `Debts.DebtDetails` | app.py:380-444 | the report exists iff every bill's participant column reads |
| `Debts.ReportTotals` | app.py:435-443 | each report total equals the sum of the split amounts accrued in that direction |
| `Debts.NoSelfDebt` | app.py:400-416 | with distinct display names, the user never appears in their own "I owe" or "owed to me" list |
| `Debts.AccrueOweMe` | app.py:402-409 | the inner loop over the participants of a bill the user paid adds exactly that bill's "owed to me" accruals to the grouped list |
| `Debts.AccrueBill` | app.py:391-416 | one pass of the bill loop, for a bill listing the user, adds exactly that bill's accruals to the two grouped lists |
| `Debts.CalculateDebtDetails` | app.py:380-444 | the loop over all bills, with its inner loop over participants, computes exactly `DebtDetails` |
| `Debts.Receivable` | app.py:360-366 | an unsettled bill the user paid and is listed on adds `amount - split`, and every other bill adds 0; that value is within n/2 cents of `(n - 1) * split`, what the other n - 1 participants owe; it errors exactly when an unsettled bill the user paid has a column that does not read |
| `Debts.Payable` | app.py:369-376 | an unsettled bill paid by someone else and listing the user costs the split; other bills cost 0; errors only when such a bill's column does not read |
| `Debts.BalanceDefined` | app.py:355-378 | the balance exists iff every unsettled bill's participant column reads |
| `Debts.CalculateUserBalance` | app.py:355-378 | the two loops compute exactly `Balance`, receivables minus payables |
| `Debts.ReceivablesFail` | app.py:361-363 | one unreadable bill among the user's unsettled paid bills makes the whole balance fail |
| `Debts.PayablesFail` | app.py:370-373 | one unreadable bill among the others' unsettled bills makes the whole balance fail |
| `Text.LowerChar` | app.py:55 | an ASCII capital maps to its lower-case letter; every other character is unchanged |
| `Text.Lower` | models.py:198 | lower-casing keeps the length and maps each character |
| `Text.LastDot` | app.py:55 | the index of the last '.', with no '.' after it, or -1 when there is none |
| `Uploads.Extension` | app.py:55 | for a name holding a '.', the result holds no '.', and the name is its text up to the last '.', then '.', then the result |
| `Uploads.AllowedFile` | app.py:52-55 | an accepted name holds a '.', and its extension has 3 or 4 characters, the lengths of the allowed ones |
| `Uploads.LastDotBeforeExtension` | app.py:55 | in `stem + "." + ext` with a dot-free `ext`, the last dot is the one before `ext` |
| `Uploads.AllowedByExtension` | app.py:52-55 | `stem.ext` is allowed iff `ext`, lower-cased, is png, jpg, jpeg, gif or pdf |
| `Uploads.NoDotRefused` | app.py:54 | a name without '.' is refused |
| `Config.Coerce` | models.py:193-209 | a bool results iff the lower-cased text is "true" or "false", and it is true iff that text is "true"; digit text gives the int of its decimal value, and an int comes only from digit text; a float comes from text with exactly one dot and digits elsewhere, as the undotted digits scaled by the digits after the dot; text coerced to a string is the stored text itself |
| `Config.BoolRoundTrip` | models.py:198-199 | a stored `str(True)` or `str(False)` reads back as that bool |
| `Config.AnyCaseBool` | models.py:198-199 | "TRUE", "True", "tRuE" and so on read as true |
| `Config.NatRoundTrip` | models.py:201-202 | a stored `str(n)` for `n >= 0` reads back as the int `n` |
| `Config.NegativeStaysText` | models.py:201-207 | a stored negative integer reads back as its text, not as an int |
| `Config.DecimalRoundTrip` | models.py:204-205 | `w.f` with digit runs `w`, `f`, not both empty, reads back as the float `wf / 10^len(f)` |
| `Config.TwoDotsStayText` | models.py:204-209 | digit runs joined by two dots read back as text: with some digit they pass the digit test but `float()` raises, and ".." alone fails the digit test |
| `Config.ConfigStore.constructor` | models.py:181-188 | an empty settings table |
| `Config.ConfigStore.GetConfig` | models.py:191-210 | a missing key gives the default; a present key gives `Some(Coerce(stored text))` |
| `Config.ConfigStore.SetConfig` | models.py:213-227 | an existing key takes the new text and keeps its description unless a non-empty one is given; a new key gets a row; afterwards the key reads back as the coerced text and every other key reads as before |
| `Accounts.Reached` | models.py:36 | the comparison raises exactly when the limit is text; a float limit compares exactly by value |
| `Accounts.ReachedMonotone` | models.py:36 | once the limit is reached, more failed logins keep it reached |
| `Accounts.StoredLimit` | models.py:35-36 | a limit stored as `str(n)` for `n >= 0` is the threshold `n` |
| `Accounts.NegativeLimitRaises` | models.py:35-36 | a limit stored as a negative integer reads back as text, so the check raises |
| `Accounts.Account.constructor` | models.py:16-20 | a new account has no failed logins, no lock, and the default-password flag set |
| `Accounts.Account.NeedsPasswordReset` | models.py:33-36 | with no configured limit, the check is `attempts >= 5`; it raises exactly when the configured limit reads back as text |
| `Accounts.Account.IncrementLoginAttempts` | models.py:50-52 | the count goes up by exactly one; nothing else changes |
| `Accounts.Account.ResetLoginAttempts` | models.py:55-57 | the count becomes 0; nothing else changes |
| `Accounts.Account.ResetToDefaultPassword` | models.py:43-48 | default password, count 0, default-password flag set, no lock |

## Left out

- HTTP handling is not modelled: Flask routing, templates, `flash`,
  `redirect`, `jsonify`, AJAX headers and status codes. The outcome of a
  refused request is the `Store.Outcome` value.
- Receipts and uploads are not modelled beyond the extension filter:
  `secure_filename_with_timestamp`, saving files, `api_receipt`,
  `view_receipt`, `delete_receipt`, the `Receipt` rows and receipt fields.
- `delete_bill` is not modelled. It is file clean-up plus an ORM delete, and
  `Bill.settlements` declares no cascade (models.py:79).
- Floating point is not modelled. Money is integer cents, and `round(x, 2)`
  is exact round-half-to-even on rationals. Binary representation effects on
  ties are not captured, and `round(..., 2)` of sums of whole cents is the
  identity.
- Form parsing is not modelled. The amount arrives as cents and the chosen
  participants as strings; the bill type, notes and date handling that build
  the description are left out.
- Timestamps are not modelled: `date`, `created_at`, `settled_date`,
  `updated_at`, `last_login`, `lock_account` (it needs the clock) and
  `update_last_login`.
- `locked_until` holds an opaque timestamp.
- Password hashing is not modelled. `set_password` and `check_password` use
  werkzeug; the model stores the password text as given.
- `LoginLog`, the login route, `init_database`, `run.py`, `config.py` and
  `static/js/main.js` are not part of this model.
- SQLAlchemy sessions, commits and rollbacks are not modelled. Each route is
  one atomic update of in-memory maps. The users table is fixed, and a
  status entry's `user` object is represented by its id.
- `Participants.Parse` models `int()` on ASCII digits with an optional sign
  and surrounding whitespace. It does not accept `_` digit separators or
  non-ASCII digits, which `int()` does.
- `Uploads.AllowedFile` lower-cases the extension with `Text.Lower`, which
  maps ASCII capitals only. Python's `str.lower()` also maps other scripts.
  The only non-ASCII character it maps wholly into ASCII is KELVIN SIGN, to
  'k', and no allowed extension holds a 'k'. So the filter gives the same
  answer for every name.
- `Bills.ProgressOf` rounds `100 * settled / total` exactly, ties to even. The
  source computes `round((settled / total) * 100)` in binary floating point,
  where an exact tie may already be off by one ulp: for 23 settled of 40 the
  source gives 57 and the model 58.
- `Config.Coerce` lower-cases ASCII letters only, and treats only ASCII `0-9`
  as digits. `str.isdigit()` also accepts other Unicode digits.
- `Accounts.Reached` compares a float limit with its exact decimal value. It
  does not model the rounding of a long decimal to the nearest double.
- `Config.ConfigStore.SetConfig` takes the value already rendered by `str()`.
  The rendering of bools and non-negative ints is covered by
  `Config.BoolText` and `Participants.Str`; `str()` of floats is not modelled.
- `Debts.AllItems` requires every bill's payer to be a known user (the
  foreign key on `payer_id`). With a dangling payer the source would fail on
  `payer.display_name`.
- `Debts.NoSelfDebt` assumes display names are distinct, because debts are
  grouped by name (app.py:408, 415).
