/**
 * The account table and the two request handlers of app.py that change or
 * guard it: `create_account` and `post_transaction`, with the stub
 * `apply_entries_to_account`. The SQLite table is the map `accounts` from
 * account id to its row; HTTP responses are the outcome datatypes below.
 */
module Ledger {
  import opened Wrappers
  import opened Entries
  import opened Validation

  /** A row of the account table, keyed by its id. */
  datatype Account = Account(name: string, balance: int, direction: Direction)

  /** The JSON body of a create-account request; each key may be absent. */
  datatype AccountRequest = AccountRequest(direction: Option<string>, id: Option<string>, name: Option<string>)

  /** Why account creation is refused. */
  datatype CreateError =
    | InvalidRequest        // 400 "Invalid request"
    | AccountAlreadyExists  // 400 "Account already exists"
    | InsertArgumentError   // the TypeError raised by the INSERT call as written

  /** The JSON body of a post-transaction request; the "entries" key may be absent. */
  datatype TransactionRequest = TransactionRequest(entries: Option<seq<RawEntry>>)

  /** The result of posting a transaction. */
  datatype PostOutcome =
    | Posted                // 200 "OK"
    | InvalidTransaction    // 400 "Invalid transaction"
    | NoBody                // the body is absent, so subscripting it raises a TypeError
    | Raised(fault: Fault)  // a KeyError while reading the request

  /** The name given to an account when the request names none. */
  const DefaultName := "New Account"

  /**
   * The checks of `create_account`, in order: the body must be present and
   * carry a "direction" that is "debit" or "credit"; then an "id", when
   * given, must not be taken already. On success, the requested direction.
   */
  function CheckAccountRequest(body: Option<AccountRequest>, existing: set<string>): (r: Result<Direction, CreateError>)
    ensures r == Failure(InvalidRequest) <==>
      body.None? || body.value.direction.None? || ParseDirection(body.value.direction.value).None?
    ensures r == Failure(AccountAlreadyExists) <==>
      body.Some? && body.value.direction.Some? && ParseDirection(body.value.direction.value).Some? &&
      body.value.id.Some? && body.value.id.value in existing
    ensures r.Success? <==>
      body.Some? && body.value.direction.Some? && ParseDirection(body.value.direction.value).Some? &&
      !(body.value.id.Some? && body.value.id.value in existing)
    ensures r.Success? ==> body.Some? && body.value.direction == Some(DirectionName(r.value))
  {
    if body.None? || body.value.direction.None? then Failure(InvalidRequest)
    else match ParseDirection(body.value.direction.value)
      case None => Failure(InvalidRequest)
      case Some(d) =>
        if body.value.id.Some? && body.value.id.value in existing then Failure(AccountAlreadyExists)
        else Success(d)
  }

  /** The name a new account gets: the requested one, or the default. */
  function AccountName(req: AccountRequest): string
  {
    match req.name
    case Some(n) => n
    case None => DefaultName
  }

  /**
   * `create_account` as written: once the checks pass, the INSERT passes its
   * four values as separate arguments to `execute`, which accepts the SQL and
   * one parameter sequence only, so it raises a TypeError and no account is
   * ever created.
   */
  function CreateAccountAsWritten(body: Option<AccountRequest>, existing: set<string>): (r: Result<string, CreateError>)
    ensures r.Failure?
    ensures CheckAccountRequest(body, existing).Failure? ==> r.error == CheckAccountRequest(body, existing).error
    ensures CheckAccountRequest(body, existing).Success? ==> r.error == InsertArgumentError
  {
    match CheckAccountRequest(body, existing)
    case Failure(e) => Failure(e)
    case Success(_) => Failure(InsertArgumentError)
  }

  /** A well-formed request on an empty table, refused by the code as written. */
  lemma AsWrittenRefusesWellFormedRequest()
    ensures CheckAccountRequest(Some(AccountRequest(Some("debit"), None, None)), {}).Success?
    ensures CreateAccountAsWritten(Some(AccountRequest(Some("debit"), None, None)), {}) == Failure(InsertArgumentError)
  {
  }

  /** A string longer than every string of `ids`. */
  ghost function LongerThanAll(ids: set<string>): (r: string)
    ensures forall s :: s in ids ==> |s| < |r|
    decreases ids
  {
    if ids == {} then "x"
    else
      var s :| s in ids;
      var longer := LongerThanAll(ids - {s});
      if |s| < |longer| then longer else s + "x"
  }

  /** There is always an id the table does not use yet. */
  lemma FreshIdExists(ids: set<string>)
    ensures exists id :: id !in ids
  {
    var r := LongerThanAll(ids);
    assert r !in ids;
  }

  /** The account table, and a record of what was handed to the apply step. */
  class Ledger {
    /** The rows of the account table, by id. */
    var accounts: map<string, Account>
    /** Every entry list passed to `ApplyEntriesToAccount`, oldest first. */
    ghost var applied: seq<seq<RawEntry>>

    /**
     * The invariant the two request handlers keep: each entry list that
     * reached the apply step was balanced, and every balance is still 0,
     * since the apply step changes no account. Only `PostTransaction` calls
     * `ApplyEntriesToAccount`; a direct call with an unbalanced list would
     * break the first part, so that method neither requires nor keeps it.
     */
    ghost predicate Valid()
      reads this
    {
      (forall k :: 0 <= k < |applied| ==> Verdict(applied[k]) == Success(true)) &&
      (forall id :: id in accounts ==> accounts[id].balance == 0)
    }

    /** An empty table, with nothing applied. */
    constructor ()
      ensures Valid()
      ensures accounts == map[] && applied == []
    {
      accounts := map[];
      applied := [];
    }

    /**
     * `create_account` with the INSERT made as intended: a refused request
     * leaves the table as it was; an accepted one adds exactly one row, under
     * an id the table did not use (the supplied id is not used to choose it), with
     * balance 0, the requested direction and the requested or default name.
     */
    method CreateAccount(body: Option<AccountRequest>) returns (r: Result<string, CreateError>)
      requires Valid()
      modifies this
      ensures Valid()
      ensures applied == old(applied)
      ensures r.Failure? <==> CheckAccountRequest(body, old(accounts).Keys).Failure?
      ensures r.Failure? ==> r.error == CheckAccountRequest(body, old(accounts).Keys).error && accounts == old(accounts)
      ensures r.Success? ==>
        r.value !in old(accounts) &&
        accounts == old(accounts)[r.value := Account(AccountName(body.value), 0, CheckAccountRequest(body, old(accounts).Keys).value)]
    {
      var check := CheckAccountRequest(body, accounts.Keys);
      if check.Failure? {
        return Failure(check.error);
      }
      FreshIdExists(accounts.Keys);
      var newId :| newId !in accounts.Keys;
      accounts := accounts[newId := Account(AccountName(body.value), 0, check.value)];
      r := Success(newId);
    }

    /**
     * `apply_entries_to_account`: reads the direction of every entry (a
     * missing one raises) and does nothing with it, so no account changes.
     */
    method ApplyEntriesToAccount(entries: seq<RawEntry>) returns (r: Result<(), Fault>)
      modifies this
      ensures accounts == old(accounts)
      ensures applied == old(applied) + [entries]
      ensures r.Failure? <==> exists k :: 0 <= k < |entries| && entries[k].direction.None?
      ensures r.Failure? ==> r.error == MissingKey("direction")
    {
      applied := applied + [entries];
      var i := 0;
      while i < |entries|
        invariant 0 <= i <= |entries|
        invariant forall k :: 0 <= k < i ==> entries[k].direction.Some?
      {
        if entries[i].direction.None? {
          return Failure(MissingKey("direction"));
        }
        i := i + 1;
      }
      r := Success(());
    }

    /**
     * `post_transaction`: reads the entries, validates them, answers
     * "Invalid transaction" when they do not balance, and only when they do
     * hands them to the apply step and answers "OK". No account changes.
     */
    method PostTransaction(body: Option<TransactionRequest>) returns (r: PostOutcome)
      requires Valid()
      modifies this
      ensures Valid()
      ensures accounts == old(accounts)
      ensures body.None? ==> r == NoBody && applied == old(applied)
      ensures body.Some? && body.value.entries.None? ==>
        r == Raised(MissingKey("entries")) && applied == old(applied)
      ensures body.Some? && body.value.entries.Some? ==>
        var es := body.value.entries.value;
        (r == Posted <==> Verdict(es) == Success(true)) &&
        (r == InvalidTransaction <==> Verdict(es) == Success(false)) &&
        (Verdict(es).Failure? ==> r == Raised(Verdict(es).error)) &&
        applied == old(applied) + (if r == Posted then [es] else [])
    {
      if body.None? {
        return NoBody;
      }
      if body.value.entries.None? {
        return Raised(MissingKey("entries"));
      }
      var es := body.value.entries.value;
      var verdict := ValidateTransactionEntries(es);
      if verdict.Failure? {
        return Raised(verdict.error);
      }
      if !verdict.value {
        return InvalidTransaction;
      }
      NoFaultIff(es);
      var applyResult := ApplyEntriesToAccount(es);
      assert applyResult.Success?;
      r := Posted;
    }
  }
}
