/** The `Entry` value of app.py: one posting line with a direction and an amount. */
module Entries {
  import opened Wrappers

  /** The two directions an entry (or an account) can have. */
  datatype Direction = Debit | Credit

  /** The literal the request and the table use for a direction. */
  function DirectionName(d: Direction): string
  {
    match d
    case Debit => "debit"
    case Credit => "credit"
  }

  /** Reads a direction literal; only "debit" and "credit" are directions. */
  function ParseDirection(s: string): (r: Option<Direction>)
    ensures r.Some? <==> s == "debit" || s == "credit"
    ensures r.Some? ==> DirectionName(r.value) == s
  {
    if s == "debit" then Some(Debit)
    else if s == "credit" then Some(Credit)
    else None
  }

  /** Parsing the literal of a direction gives that direction back. */
  lemma ParseDirectionName(d: Direction)
    ensures ParseDirection(DirectionName(d)) == Some(d)
  {
  }

  /** An entry: the id it refers to, its direction and its amount (any integer: the sign is not checked). */
  datatype Entry = Entry(id: string, direction: Direction, amount: int)

  /** The error the constructor raises. */
  datatype EntryError = InvalidDirection

  /**
   * The constructor of `Entry`: refuses a direction other than "debit" or
   * "credit", and otherwise keeps id, direction and amount as given.
   */
  function NewEntry(id: string, direction: string, amount: int): (r: Result<Entry, EntryError>)
    ensures r.Failure? <==> direction != "debit" && direction != "credit"
    ensures r.Failure? ==> r.error == InvalidDirection
    ensures r.Success? ==>
      r.value.id == id && DirectionName(r.value.direction) == direction && r.value.amount == amount
  {
    match ParseDirection(direction)
    case None => Failure(InvalidDirection)
    case Some(d) => Success(Entry(id, d, amount))
  }
}
