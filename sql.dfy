/**
 * The fragment of SQL the route handlers issue, over a table held as the
 * sequence of its rows in primary-key order.  The handlers read the first
 * row of a result (`results[0]`), so row order is part of the model.
 */
module Sql {
  import opened Wrappers

  /** Row `i` is the first row satisfying `p`. */
  ghost predicate IsFirst<T>(rows: seq<T>, p: T -> bool, i: nat)
  {
    i < |rows| && p(rows[i]) && forall j :: 0 <= j < i ==> !p(rows[j])
  }

  /** At most one row is the first match. */
  lemma FirstIsUnique<T>(rows: seq<T>, p: T -> bool, i: nat)
    requires IsFirst(rows, p, i)
    ensures forall j: nat :: IsFirst(rows, p, j) ==> j == i
  {
  }

  /** The position of the first row satisfying `p`: the row a handler reads
      as `results[0]` after `SELECT ... WHERE p`. */
  function FirstIndex<T>(rows: seq<T>, p: T -> bool): (r: Option<nat>)
    ensures r.None? <==> forall i :: 0 <= i < |rows| ==> !p(rows[i])
    ensures r.Some? ==> IsFirst(rows, p, r.value)
  {
    if |rows| == 0 then None
    else if p(rows[0]) then Some(0)
    else match FirstIndex(rows[1..], p)
      case None => None
      case Some(k) => Some(k + 1)
  }

  /** The number of rows `UPDATE ... WHERE p` matches: the driver's
      `affectedRows`, which counts matched rows. */
  function CountWhere<T>(rows: seq<T>, p: T -> bool): (n: nat)
    ensures n <= |rows|
    ensures n == 0 <==> forall i :: 0 <= i < |rows| ==> !p(rows[i])
  {
    if |rows| == 0 then 0
    else (if p(rows[0]) then 1 else 0) + CountWhere(rows[1..], p)
  }

  /** `UPDATE table SET f WHERE p`: every matching row is rewritten by `f`,
      every other row is kept, and no row moves. */
  function UpdateWhere<T>(rows: seq<T>, p: T -> bool, f: T -> T): (r: seq<T>)
    ensures |r| == |rows|
    ensures forall i :: 0 <= i < |rows| ==> r[i] == (if p(rows[i]) then f(rows[i]) else rows[i])
  {
    if |rows| == 0 then []
    else [if p(rows[0]) then f(rows[0]) else rows[0]] + UpdateWhere(rows[1..], p, f)
  }

  /** `SELECT * FROM table WHERE p`, in table order.  `DELETE FROM table
      WHERE p` leaves `Where(rows, x => !p(x))`. */
  function Where<T>(rows: seq<T>, p: T -> bool): (r: seq<T>)
  {
    if |rows| == 0 then []
    else (if p(rows[0]) then [rows[0]] else []) + Where(rows[1..], p)
  }

  /** What a SELECT returns: table rows that match, and every row that
      matches. */
  lemma {:induction false} WhereMembers<T>(rows: seq<T>, p: T -> bool)
    ensures |Where(rows, p)| <= |rows|
    ensures forall i :: 0 <= i < |Where(rows, p)| ==> Where(rows, p)[i] in rows && p(Where(rows, p)[i])
    ensures forall i :: 0 <= i < |rows| && p(rows[i]) ==> rows[i] in Where(rows, p)
  {
    if |rows| > 0 {
      WhereMembers(rows[1..], p);
      var head := if p(rows[0]) then [rows[0]] else [];
      var r, tail := Where(rows, p), Where(rows[1..], p);
      assert r == head + tail;
      forall i | 0 <= i < |r| ensures r[i] in rows && p(r[i]) {
        if i >= |head| {
          assert r[i] == tail[i - |head|];
          assert tail[i - |head|] in rows[1..];
        }
      }
      forall i | 0 <= i < |rows| && p(rows[i]) ensures rows[i] in r {
        if i > 0 {
          assert rows[i] == rows[1..][i - 1];
        }
      }
    }
  }

  /** SELECT ... WHERE returns one row per matching row: as many rows as the
      same WHERE clause matches. */
  lemma {:induction false} WhereCountsMatches<T>(rows: seq<T>, p: T -> bool)
    ensures |Where(rows, p)| == CountWhere(rows, p)
  {
    if |rows| > 0 {
      WhereCountsMatches(rows[1..], p);
    }
  }

  /** A filter that every row passes keeps the table as it is. */
  lemma {:induction false} WhereKeepsAll<T>(rows: seq<T>, p: T -> bool)
    requires forall i :: 0 <= i < |rows| ==> p(rows[i])
    ensures Where(rows, p) == rows
  {
    if |rows| > 0 {
      WhereKeepsAll(rows[1..], p);
    }
  }

  /** Filtering distributes over concatenation. */
  lemma {:induction false} WhereAppend<T>(a: seq<T>, b: seq<T>, p: T -> bool)
    ensures Where(a + b, p) == Where(a, p) + Where(b, p)
  {
    if |a| > 0 {
      assert (a + b)[1..] == a[1..] + b;
      WhereAppend(a[1..], b, p);
    } else {
      assert a + b == b;
    }
  }

  /** A filter that exactly the row at `k` fails removes that row and keeps
      all the others, in order. */
  lemma {:induction false} WhereDropsOne<T>(rows: seq<T>, p: T -> bool, k: nat)
    requires k < |rows|
    requires forall i :: 0 <= i < |rows| ==> (p(rows[i]) <==> i != k)
    ensures Where(rows, p) == rows[..k] + rows[k + 1..]
  {
    var before, after := rows[..k], rows[k + 1..];
    assert rows == before + ([rows[k]] + after) by {
      assert rows[k..] == [rows[k]] + after;
      assert rows == before + rows[k..];
    }
    assert Where(before, p) == before by {
      assert forall i :: 0 <= i < |before| ==> before[i] == rows[i];
      WhereKeepsAll(before, p);
    }
    assert Where(after, p) == after by {
      assert forall i :: 0 <= i < |after| ==> after[i] == rows[k + 1 + i];
      WhereKeepsAll(after, p);
    }
    assert Where([rows[k]] + after, p) == after by {
      WhereAppend([rows[k]], after, p);
      assert Where([rows[k]], p) == [];
    }
    WhereAppend(before, [rows[k]] + after, p);
  }
}
