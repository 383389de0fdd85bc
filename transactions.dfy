/**
 * The uploaded table, reduced to the two columns the summary endpoint reads
 * (`user_id` and `transaction_amount`), and the filter-then-reduce that
 * `get_summary` performs on it with pandas: a boolean-mask filter on
 * `user_id`, then `.min()`, `.max()` and `.mean()` of the amounts.
 */
module Transactions {

  /** One parsed CSV record. Amounts are integers (see README, "Left out"). */
  datatype Row = Row(userId: int, amount: int)

  /** The rows of one user, in table order: `data[data["user_id"] == user_id]`. */
  function Matching(rows: seq<Row>, userId: int): (r: seq<Row>)
    ensures |r| <= |rows|
    ensures forall i :: 0 <= i < |r| ==> r[i].userId == userId
    ensures forall x :: x in r <==> x in rows && x.userId == userId
  {
    if rows == [] then []
    else if rows[0].userId == userId then [rows[0]] + Matching(rows[1..], userId)
    else Matching(rows[1..], userId)
  }

  /** `.min()` of the amount column of a non-empty table: a lower bound that some row attains. */
  function MinAmount(rows: seq<Row>): (m: int)
    requires rows != []
    ensures forall i :: 0 <= i < |rows| ==> m <= rows[i].amount
    ensures exists i :: 0 <= i < |rows| && rows[i].amount == m
  {
    if |rows| == 1 then rows[0].amount
    else
      var rest := MinAmount(rows[1..]);
      if rows[0].amount <= rest then rows[0].amount else rest
  }

  /** `.max()` of the amount column of a non-empty table: an upper bound that some row attains. */
  function MaxAmount(rows: seq<Row>): (m: int)
    requires rows != []
    ensures forall i :: 0 <= i < |rows| ==> rows[i].amount <= m
    ensures exists i :: 0 <= i < |rows| && rows[i].amount == m
  {
    if |rows| == 1 then rows[0].amount
    else
      var rest := MaxAmount(rows[1..]);
      if rest <= rows[0].amount then rows[0].amount else rest
  }

  /** The total of the amount column; `.mean()` is this divided by the row count. */
  function SumAmount(rows: seq<Row>): int {
    if rows == [] then 0 else rows[0].amount + SumAmount(rows[1..])
  }

  /** Filtering a concatenation filters each part. */
  lemma {:induction false} MatchingConcat(a: seq<Row>, b: seq<Row>, userId: int)
    ensures Matching(a + b, userId) == Matching(a, userId) + Matching(b, userId)
  {
    if a == [] {
      assert a + b == b;
    } else {
      assert (a + b)[0] == a[0];
      assert (a + b)[1..] == a[1..] + b;
      MatchingConcat(a[1..], b, userId);
    }
  }

  /** Filtering twice on the same id changes nothing. */
  lemma {:induction false} MatchingIdempotent(rows: seq<Row>, userId: int)
    ensures Matching(Matching(rows, userId), userId) == Matching(rows, userId)
  {
    if rows != [] {
      MatchingIdempotent(rows[1..], userId);
    }
  }

  /** A row of another user contributes nothing to a user's rows, wherever it sits. */
  lemma OtherUserRowIgnored(rows: seq<Row>, k: nat, other: Row, userId: int)
    requires k <= |rows| && other.userId != userId
    ensures Matching(rows[..k] + [other] + rows[k..], userId) == Matching(rows, userId)
  {
    var front, back := rows[..k], rows[k..];
    var none := Matching([other], userId);
    assert none == [] by {
      assert [other][1..] == [];
    }
    calc {
      Matching(front + [other] + back, userId);
      { MatchingConcat(front + [other], back, userId); }
      Matching(front + [other], userId) + Matching(back, userId);
      { MatchingConcat(front, [other], userId); }
      Matching(front, userId) + none + Matching(back, userId);
      Matching(front, userId) + Matching(back, userId);
      { MatchingConcat(front, back, userId); }
      Matching(front + back, userId);
      { assert front + back == rows; }
      Matching(rows, userId);
    }
  }

  /** If every amount is at least `lo`, the total is at least `|rows| * lo`. */
  lemma {:induction false} SumAtLeast(rows: seq<Row>, lo: int)
    requires forall i :: 0 <= i < |rows| ==> lo <= rows[i].amount
    ensures |rows| * lo <= SumAmount(rows)
  {
    if rows != [] {
      SumAtLeast(rows[1..], lo);
      assert |rows| * lo == lo + (|rows| - 1) * lo;
    }
  }

  /** If every amount is at most `hi`, the total is at most `|rows| * hi`. */
  lemma {:induction false} SumAtMost(rows: seq<Row>, hi: int)
    requires forall i :: 0 <= i < |rows| ==> rows[i].amount <= hi
    ensures SumAmount(rows) <= |rows| * hi
  {
    if rows != [] {
      SumAtMost(rows[1..], hi);
      assert |rows| * hi == hi + (|rows| - 1) * hi;
    }
  }

  /** The total lies between count times the minimum and count times the maximum. */
  lemma SumBetweenMinAndMax(rows: seq<Row>)
    requires rows != []
    ensures |rows| * MinAmount(rows) <= SumAmount(rows) <= |rows| * MaxAmount(rows)
  {
    SumAtLeast(rows, MinAmount(rows));
    SumAtMost(rows, MaxAmount(rows));
  }
}
