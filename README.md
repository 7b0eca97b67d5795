# Double-entry validation rules of a small Flask ledger

This project models the bookkeeping logic of `app.py`, a Flask application
that keeps an `account` table in SQLite. It covers the following parts:

- **`Entry`** (`entries.dfy`): a value with an id, a direction and an amount.
  Its constructor refuses any direction other than `"debit"` or `"credit"`.
- **`validate_transaction_entries`** (`validation.dfy`): the zero-sum check.
  It walks the request's entries front to back, subtracts each `"debit"`
  amount and adds each `"credit"` amount, and accepts when the sum is 0.
  - An entry with any other direction is skipped.
  - Amounts are not checked for sign.
  - Request entries are JSON objects. Reading a key that is absent raises a
    KeyError. The direction is always read. The amount is read only for a
    debit or a credit. The model keeps both keys optional and reports the
    KeyError as a `Fault`.
  - The loop is proved against `Verdict`, a definition without the loop: the
    first missing key, otherwise whether the credit total minus the debit
    total is 0.
- **`create_account`** (`ledger.dfy`): the request checks and the defaults.
  The body must be present and carry a direction of `"debit"` or
  `"credit"`. A supplied `"id"` must not already exist. The new account gets
  a fresh id (the supplied id is not used to choose it), balance 0 and the requested name or
  `"New Account"`. The table is the `accounts` field of class `Ledger`, a
  map from id to row.
- **`apply_entries_to_account`**: a stub. It reads each entry's direction and
  changes nothing.
- **`post_transaction`**: validate first. Answer 400 when the entries do not
  balance. Hand them to the apply step only when they do. A ghost log,
  `applied`, records what reached the apply step. The class invariant says
  every logged list balanced and every balance is still 0.

A double-entry ledger usually makes the checks below. This code makes none of them, and the model follows the code:

- The code does not check for at least two entries.
- It does not check that amounts are non-negative.
- It does not check that the referenced accounts exist.
- It never changes a balance.
- It has no idempotent replay and no locking.

## Model

| member | source | states |
|---|---|---|
| Entries.ParseDirection | app.py:12 | a direction literal is accepted exactly when it is "debit" or "credit", and the parsed direction prints back as the same literal |
| Entries.ParseDirectionName | app.py:12 | parsing the literal of either direction gives that direction back |
| Entries.NewEntry | app.py:11-17 | construction fails (InvalidDirection) exactly when the direction is neither "debit" nor "credit"; on success id, direction and amount equal the arguments |
| Validation.ValidateTransactionEntries | app.py:78-87 | the loop's result is the first missing "direction"/"amount" key if any entry lacks one it reads, otherwise true exactly when the sum of credit amounts minus the sum of debit amounts is 0 |
| Validation.VerdictPermutation | app.py:81-85 | reordering the entries never changes whether validation raises, and when it does not, never changes the accept/refuse answer |
| Validation.VerdictIgnoresUnknownDirection | app.py:82-85 | inserting (or removing) an entry whose direction is present but neither "debit" nor "credit" leaves the verdict unchanged |
| Validation.VerdictEmpty | app.py:79-87 | the empty entry list is accepted as balanced |
| Validation.NegativeAmountsBalance | app.py:82-85 | amounts are not checked for sign: a debit and a credit of the same negative amount are accepted |
| Validation.NoFaultIff | app.py:81-85 | reading a list raises nothing exactly when reading each of its entries raises nothing |
| Validation.TotalPermutation | app.py:81-85 | the credit total and the debit total do not depend on the order of the entries |
| Ledger.CheckAccountRequest | app.py:46-56 | refused as invalid exactly when the body is absent, has no direction, or its direction is not "debit"/"credit"; refused as existing exactly when the body is otherwise valid and its supplied id is in the table; accepted exactly when the direction is valid and the id is absent or unused, giving the requested direction |
| Ledger.CreateAccountAsWritten | app.py:59-63 | as written, every request fails: with the check's error when a check fails, otherwise with the TypeError of the INSERT call |
| Ledger.AsWrittenRefusesWellFormedRequest | app.py:62-63 | the body {"direction": "debit"} on an empty table passes every check, yet the code as written creates no account |
| Ledger.FreshIdExists | app.py:61 | the table always leaves some id unused, so a new account can get an id not present before |
| Ledger.Ledger.CreateAccount | app.py:42-65 | a refused request leaves the table unchanged and reports the check's error; an accepted one adds exactly one row, under an id not present before, with balance 0, the requested direction and the requested or default name, and keeps every other row |
| Ledger.Ledger.ApplyEntriesToAccount | app.py:89-98 | leaves every account unchanged; raises a missing-"direction" KeyError exactly when some entry has no direction |
| Ledger.Ledger.PostTransaction | app.py:100-113 | no account changes; an absent body or "entries" key raises; otherwise the answer is OK exactly when the entries balance, "Invalid transaction" exactly when they do not, and the apply step is reached only in the OK case; the invariant that every applied list balanced and every balance is 0 is kept |

## Findings

| source | as written | input that shows it | evidently intended | confidence | as-written member | corrected member |
|---|---|---|---|---|---|---|
| app.py:62-63 | `cur.execute(sql, new_id, name, 0, direction)` passes the four values as separate arguments. `sqlite3.Cursor.execute` accepts the SQL and a single parameter sequence, so the call raises TypeError. | body `{"direction": "debit"}` on an empty table | `cur.execute(sql, (new_id, name, 0, direction))`, which inserts the new row | high; not executed | Ledger.CreateAccountAsWritten | Ledger.Ledger.CreateAccount |

## Left out

- Flask routing, templates, `jsonify`, `make_response` and HTTP status codes (app.py:3-29). Responses are the outcome values `CreateError` and `PostOutcome`.
- `get_account` and `get_transaction` (app.py:31-39, 67-75): single-row SQL reads. In the model a lookup is map access on `accounts`. There is no transactions table.
- SQLite itself: connections, cursors and SQL strings. The table is an in-memory map.
- `create_account` never calls `commit` on its connection. Even a corrected INSERT would be rolled back when that connection closes, and `get_account` reads through a second connection. The model treats the corrected insert as durable and returns the new id rather than the re-read row.
- `uuid.uuid4()` (app.py:61): modelled as an arbitrary id not yet in the table. The UUID format and the remote chance of a collision are not modelled.
- `Entry.__repr__` (app.py:19-20): JSON serialisation through a library.
- JSON value types: directions, ids and names are strings, amounts are integers, and `"entries"` is a list of objects. Not modelled: a body that is not an object, a `null` name, non-integer amounts (float arithmetic, or a TypeError for a string amount), and an `"entries"` value that is not a list of objects: `{}` or `""` is iterated zero times and answered OK, while `null` or `[5]` raises a TypeError.
- A request body that is not JSON: recent Flask versions raise instead of returning no body. Not modelled.
- The account reference of a request entry: the code never reads it.
- The commented-out lines at app.py:107-111: they are not behaviour.
- Any sign convention for applying entries to balances: the apply step is a stub, so every balance stays 0.
