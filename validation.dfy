/**
 * The zero-sum check `validate_transaction_entries` of app.py.
 *
 * A request entry is a JSON object; only its "direction" and "amount" keys
 * are read. Reading a key the object does not have raises a KeyError, so
 * both keys are optional here and a missing one is a `Fault`.
 */
module Validation {
  import opened Wrappers

  /** An entry of a posted request, as the decoded JSON object gives it. */
  datatype RawEntry = RawEntry(direction: Option<string>, amount: Option<int>)

  /** The exception raised when a key that is read is absent. */
  datatype Fault = MissingKey(key: string)

  /** True when the entry's direction is one the validator counts. */
  predicate Counted(e: RawEntry)
  {
    e.direction == Some("debit") || e.direction == Some("credit")
  }

  /**
   * The exception reading this entry raises, if any: the direction is
   * always read, the amount only for a debit or a credit.
   */
  function EntryFault(e: RawEntry): Option<Fault>
  {
    if e.direction.None? then Some(MissingKey("direction"))
    else if Counted(e) && e.amount.None? then Some(MissingKey("amount"))
    else None
  }

  /** The exception of the first entry that raises one, reading front to back. */
  function FirstFault(s: seq<RawEntry>): Option<Fault>
  {
    if s == [] then None
    else if EntryFault(s[0]).Some? then EntryFault(s[0])
    else FirstFault(s[1..])
  }

  /** The amount of an entry, 0 when it has none. */
  function AmountOf(e: RawEntry): int
  {
    match e.amount
    case None => 0
    case Some(a) => a
  }

  /** The sum of the amounts of the entries whose direction is `dir`. */
  function Total(s: seq<RawEntry>, dir: string): int
  {
    if s == [] then 0
    else (if s[0].direction == Some(dir) then AmountOf(s[0]) else 0) + Total(s[1..], dir)
  }

  /**
   * What the validator decides, stated without its loop: the first missing
   * key if some entry lacks one it needs, otherwise whether the credit
   * amounts minus the debit amounts come to exactly 0.
   */
  function Verdict(s: seq<RawEntry>): Result<bool, Fault>
  {
    match FirstFault(s)
    case Some(f) => Failure(f)
    case None => Success(Total(s, "credit") - Total(s, "debit") == 0)
  }

  /**
   * The validator: subtracts the amount of every "debit" entry and adds
   * that of every "credit" entry, front to back, skipping any other
   * direction; accepts when the sum is 0.
   */
  method ValidateTransactionEntries(entries: seq<RawEntry>) returns (r: Result<bool, Fault>)
    ensures r == Verdict(entries)
  {
    var sum := 0;
    var i := 0;
    while i < |entries|
      invariant 0 <= i <= |entries|
      invariant FirstFault(entries) == FirstFault(entries[i..])
      invariant sum == Total(entries[..i], "credit") - Total(entries[..i], "debit")
    {
      var e := entries[i];
      assert entries[i..][0] == e && entries[i..][1..] == entries[i + 1..];
      assert entries[..i + 1] == entries[..i] + [e];
      TotalAppend(entries[..i], [e], "credit");
      TotalAppend(entries[..i], [e], "debit");
      if e.direction.None? {
        return Failure(MissingKey("direction"));
      }
      if e.direction.value == "debit" {
        if e.amount.None? {
          return Failure(MissingKey("amount"));
        }
        sum := sum - e.amount.value;
      } else if e.direction.value == "credit" {
        if e.amount.None? {
          return Failure(MissingKey("amount"));
        }
        sum := sum + e.amount.value;
      }
      i := i + 1;
    }
    assert entries[..i] == entries;
    r := Success(sum == 0);
  }

  /** The totals of a concatenation are the sums of the totals of its parts. */
  lemma {:induction false} TotalAppend(a: seq<RawEntry>, b: seq<RawEntry>, dir: string)
    ensures Total(a + b, dir) == Total(a, dir) + Total(b, dir)
  {
    if a == [] {
      assert a + b == b;
    } else {
      assert (a + b)[0] == a[0];
      assert (a + b)[1..] == a[1..] + b;
      TotalAppend(a[1..], b, dir);
    }
  }

  /** The first fault of a concatenation is that of its first part, if it has one. */
  lemma {:induction false} FirstFaultAppend(a: seq<RawEntry>, b: seq<RawEntry>)
    ensures FirstFault(a + b) == if FirstFault(a).Some? then FirstFault(a) else FirstFault(b)
  {
    if a == [] {
      assert a + b == b;
    } else {
      assert (a + b)[0] == a[0];
      assert (a + b)[1..] == a[1..] + b;
      FirstFaultAppend(a[1..], b);
    }
  }

  /** A list raises nothing exactly when none of its entries does. */
  lemma {:induction false} NoFaultIff(s: seq<RawEntry>)
    ensures FirstFault(s).None? <==> forall k :: 0 <= k < |s| ==> EntryFault(s[k]).None?
  {
    if s != [] {
      NoFaultIff(s[1..]);
      assert forall k :: 0 < k < |s| ==> s[k] == s[1..][k - 1];
    }
  }

  /** Reordering the entries does not change either total. */
  lemma {:induction false} TotalPermutation(s: seq<RawEntry>, t: seq<RawEntry>, dir: string)
    requires multiset(s) == multiset(t)
    ensures Total(s, dir) == Total(t, dir)
    decreases |s|
  {
    if s == [] {
      assert |t| == |multiset(t)| == 0;
    } else {
      var x := s[0];
      assert x in multiset(t);
      var i :| 0 <= i < |t| && t[i] == x;
      var rest := t[..i] + t[i + 1..];
      assert t == t[..i] + [x] + t[i + 1..];
      assert s == [x] + s[1..];
      assert multiset(t) == multiset(t[..i]) + multiset([x]) + multiset(t[i + 1..]);
      assert multiset(s) == multiset([x]) + multiset(s[1..]);
      assert multiset(rest) == multiset(t[..i]) + multiset(t[i + 1..]);
      assert multiset(s[1..]) == multiset(s) - multiset{x};
      assert multiset(rest) == multiset(t) - multiset{x};
      TotalPermutation(s[1..], rest, dir);
      TotalAppend(t[..i] + [x], t[i + 1..], dir);
      TotalAppend(t[..i], [x], dir);
      TotalAppend(t[..i], t[i + 1..], dir);
    }
  }

  /**
   * The verdict does not depend on the order of the entries: a reordered
   * list raises exactly when the original does, and when neither raises
   * the two are accepted or refused alike. (Which key is reported missing
   * can depend on the order, since the first faulty entry is reported.)
   */
  lemma VerdictPermutation(s: seq<RawEntry>, t: seq<RawEntry>)
    requires multiset(s) == multiset(t)
    ensures Verdict(s).Success? <==> Verdict(t).Success?
    ensures Verdict(s).Success? ==> Verdict(s) == Verdict(t)
  {
    NoFaultIff(s);
    NoFaultIff(t);
    forall k | 0 <= k < |s|
      ensures exists j :: 0 <= j < |t| && t[j] == s[k]
    {
      assert s[k] in multiset(t);
    }
    forall j | 0 <= j < |t|
      ensures exists k :: 0 <= k < |s| && s[k] == t[j]
    {
      assert t[j] in multiset(s);
    }
    TotalPermutation(s, t, "credit");
    TotalPermutation(s, t, "debit");
  }

  /**
   * An entry whose direction is present but is neither "debit" nor
   * "credit" is skipped: inserting it anywhere (or, read backwards,
   * removing it) leaves the verdict as it was.
   */
  lemma VerdictIgnoresUnknownDirection(s: seq<RawEntry>, e: RawEntry, i: nat)
    requires e.direction.Some? && !Counted(e)
    requires i <= |s|
    ensures Verdict(s[..i] + [e] + s[i..]) == Verdict(s)
  {
    assert s == s[..i] + s[i..];
    FirstFaultAppend(s[..i] + [e], s[i..]);
    FirstFaultAppend(s[..i], [e]);
    FirstFaultAppend(s[..i], s[i..]);
    TotalAppend(s[..i] + [e], s[i..], "credit");
    TotalAppend(s[..i], [e], "credit");
    TotalAppend(s[..i], s[i..], "credit");
    TotalAppend(s[..i] + [e], s[i..], "debit");
    TotalAppend(s[..i], [e], "debit");
    TotalAppend(s[..i], s[i..], "debit");
  }

  /** The empty list is balanced: the sum starts at 0 and nothing changes it. */
  lemma VerdictEmpty()
    ensures Verdict([]) == Success(true)
  {
  }

  /**
   * Amounts are not checked for sign: a debit and a credit of the same
   * negative amount balance.
   */
  lemma NegativeAmountsBalance(n: int)
    requires n < 0
    ensures Verdict([RawEntry(Some("debit"), Some(n)), RawEntry(Some("credit"), Some(n))]) == Success(true)
  {
    var d, c := RawEntry(Some("debit"), Some(n)), RawEntry(Some("credit"), Some(n));
    assert "debit" != "credit" by { assert "debit"[0] != "credit"[0]; }
    assert [d, c] == [d] + [c];
    assert [d][1..] == [] && [c][1..] == [];
    assert Total([d], "credit") == 0 && Total([d], "debit") == n;
    assert Total([c], "credit") == n && Total([c], "debit") == 0;
    TotalAppend([d], [c], "credit");
    TotalAppend([d], [c], "debit");
    assert FirstFault([c]) == None;
    assert FirstFault([d, c]) == None by { assert [d, c][1..] == [c]; }
  }
}
