/** The two query shapes the gateway uses: `WHERE` and `ORDER BY created_at`. */
module Queries {
  import opened Text
  import opened Timestamps

  /** `WHERE keep`, in table order. */
  function Where<T>(rows: seq<T>, keep: T -> bool): seq<T> {
    if rows == [] then []
    else
      var last := rows[|rows| - 1];
      Where(rows[..|rows| - 1], keep) + if keep(last) then [last] else []
  }

  lemma WhereAppend<T>(rows: seq<T>, row: T, keep: T -> bool)
    ensures Where(rows + [row], keep) == Where(rows, keep) + if keep(row) then [row] else []
  {
    assert (rows + [row])[..|rows|] == rows;
  }

  lemma {:induction false} WhereMember<T>(rows: seq<T>, keep: T -> bool, row: T)
    ensures row in Where(rows, keep) <==> row in rows && keep(row)
  {
    if rows != [] {
      WhereMember(rows[..|rows| - 1], keep, row);
      assert rows == rows[..|rows| - 1] + [rows[|rows| - 1]];
    }
  }

  lemma {:induction false} WhereAll<T>(rows: seq<T>, keep: T -> bool)
    requires forall i | 0 <= i < |rows| :: keep(rows[i])
    ensures Where(rows, keep) == rows
  {
    if rows != [] {
      WhereAll(rows[..|rows| - 1], keep);
      assert rows == rows[..|rows| - 1] + [rows[|rows| - 1]];
    }
  }

  // ---------------------------------------------------------------- ORDER BY created_at

  /** `created_at` is a text column and is compared as text. */
  predicate Sorted<T>(rows: seq<T>, key: T -> string) {
    forall i, j | 0 <= i < j < |rows| :: !TextLess(key(rows[j]), key(rows[i]))
  }

  /** Strictly ascending: the order is then the only one an `ORDER BY` can return. */
  predicate Ascending<T>(rows: seq<T>, key: T -> string) {
    forall i, j | 0 <= i < j < |rows| :: TextLess(key(rows[i]), key(rows[j]))
  }

  /** The row may be appended to an ascending table. */
  predicate ComesLast<T>(rows: seq<T>, row: T, key: T -> string) {
    forall i | 0 <= i < |rows| :: TextLess(key(rows[i]), key(row))
  }

  /** Puts a row behind every row that does not come after it. */
  function Insert<T>(sorted: seq<T>, row: T, key: T -> string): seq<T> {
    if sorted == [] then [row]
    else
      var last := sorted[|sorted| - 1];
      if TextLess(key(row), key(last)) then Insert(sorted[..|sorted| - 1], row, key) + [last]
      else sorted + [row]
  }

  function OrderBy<T>(rows: seq<T>, key: T -> string): seq<T> {
    if rows == [] then [] else Insert(OrderBy(rows[..|rows| - 1], key), rows[|rows| - 1], key)
  }

  lemma NotLater(x: string, y: string, z: string)
    requires TextLess(x, y) && !TextLess(z, y)
    ensures TextLess(x, z)
  {
    TextLessIsStrict(y, z);
    if y != z {
      TextLessIsTransitive(x, y, z);
    }
  }

  lemma SortedAppend<T>(rows: seq<T>, row: T, key: T -> string)
    requires Sorted(rows, key)
    requires forall i | 0 <= i < |rows| :: !TextLess(key(row), key(rows[i]))
    ensures Sorted(rows + [row], key)
  {
  }

  lemma {:induction false} InsertSorts<T>(sorted: seq<T>, row: T, key: T -> string)
    requires Sorted(sorted, key)
    ensures Sorted(Insert(sorted, row, key), key)
    ensures multiset(Insert(sorted, row, key)) == multiset(sorted) + multiset{row}
  {
    if sorted != [] {
      var front, last := sorted[..|sorted| - 1], sorted[|sorted| - 1];
      assert sorted == front + [last];
      if TextLess(key(row), key(last)) {
        InsertSorts(front, row, key);
        var r := Insert(front, row, key);
        TextLessIsStrict(key(row), key(last));
        forall i | 0 <= i < |r| ensures !TextLess(key(last), key(r[i])) {
          assert r[i] in multiset(r);
          assert r[i] in front || r[i] == row;
        }
        SortedAppend(r, last, key);
      } else {
        forall i | 0 <= i < |sorted| ensures !TextLess(key(row), key(sorted[i])) {
          if TextLess(key(row), key(sorted[i])) {
            NotLater(key(row), key(sorted[i]), key(last));
          }
        }
        SortedAppend(sorted, row, key);
      }
    }
  }

  /** `OrderBy` is a sort: it returns the same rows, in text order of the key. */
  lemma {:induction false} OrderBySorts<T>(rows: seq<T>, key: T -> string)
    ensures Sorted(OrderBy(rows, key), key)
    ensures multiset(OrderBy(rows, key)) == multiset(rows)
  {
    if rows != [] {
      var front, last := rows[..|rows| - 1], rows[|rows| - 1];
      assert rows == front + [last];
      OrderBySorts(front, key);
      InsertSorts(OrderBy(front, key), last, key);
    }
  }

  lemma {:induction false} SortedIsFixed<T>(rows: seq<T>, key: T -> string)
    requires Sorted(rows, key)
    ensures OrderBy(rows, key) == rows
  {
    if rows != [] {
      var front, last := rows[..|rows| - 1], rows[|rows| - 1];
      SortedIsFixed(front, key);
      assert rows == front + [last];
      if front != [] {
        assert !TextLess(key(rows[|rows| - 1]), key(rows[|rows| - 2]));
      }
    }
  }

  /** A query returns append order exactly when the stored texts never step back. */
  lemma QueryOrderIsAppendOrder<T>(rows: seq<T>, key: T -> string)
    ensures OrderBy(rows, key) == rows <==> Sorted(rows, key)
  {
    OrderBySorts(rows, key);
    if Sorted(rows, key) {
      SortedIsFixed(rows, key);
    }
  }

  /** Every key is the `to_iso8601` text of the row's instant. */
  predicate Stamped<T>(rows: seq<T>, key: T -> string, stamp: T -> Instant) {
    forall i | 0 <= i < |rows| :: key(rows[i]) == ToIso8601(stamp(rows[i]))
  }

  predicate ClockAdvances<T>(rows: seq<T>, stamp: T -> Instant) {
    forall i, j | 0 <= i < j < |rows| :: Earlier(stamp(rows[i]), stamp(rows[j]))
  }

  lemma StepsBack<T>(rows: seq<T>, key: T -> string, stamp: T -> Instant, i: nat, j: nat)
    requires Stamped(rows, key, stamp) && ClockAdvances(rows, stamp) && i < j < |rows|
    ensures TextLess(key(rows[j]), key(rows[i])) <==> FractionDropped(stamp(rows[i]), stamp(rows[j]))
  {
    var a, b := stamp(rows[i]), stamp(rows[j]);
    TextOrderIsTimeOrder(a, b);
    assert key(rows[i]) == ToIso8601(a) && key(rows[j]) == ToIso8601(b);
  }

  /** No row that dropped its fraction is followed by another row of the same second. */
  predicate FractionsKept<T>(rows: seq<T>, stamp: T -> Instant) {
    forall i, j | 0 <= i < j < |rows| :: !FractionDropped(stamp(rows[i]), stamp(rows[j]))
  }

  lemma SortedIffFractionsKept<T>(rows: seq<T>, key: T -> string, stamp: T -> Instant)
    requires Stamped(rows, key, stamp) && ClockAdvances(rows, stamp)
    ensures Sorted(rows, key) <==> FractionsKept(rows, stamp)
  {
    forall i: nat, j: nat | i < j < |rows|
      ensures TextLess(key(rows[j]), key(rows[i])) <==> FractionDropped(stamp(rows[i]), stamp(rows[j]))
    {
      StepsBack(rows, key, stamp, i, j);
    }
  }

  /**
   On a clock that only moves forward, a query over rows stamped by `to_iso8601` returns append
   order exactly when no row was stamped with zero microseconds and followed by another row
   within the same second.
   */
  lemma ForwardClockQueryOrder<T>(rows: seq<T>, key: T -> string, stamp: T -> Instant)
    requires Stamped(rows, key, stamp) && ClockAdvances(rows, stamp)
    ensures OrderBy(rows, key) == rows <==> FractionsKept(rows, stamp)
  {
    QueryOrderIsAppendOrder(rows, key);
    SortedIffFractionsKept(rows, key, stamp);
  }

  /** A row stamped by an advancing clock sorts last, unless an earlier row dropped its fraction. */
  lemma AdvancingClockComesLast<T>(rows: seq<T>, row: T, key: T -> string, stamp: T -> Instant)
    requires Stamped(rows + [row], key, stamp) && ClockAdvances(rows + [row], stamp)
    ensures ComesLast(rows, row, key) <==>
            forall i | 0 <= i < |rows| :: !FractionDropped(stamp(rows[i]), stamp(row))
  {
    var all := rows + [row];
    forall i | 0 <= i < |rows|
      ensures TextLess(key(rows[i]), key(row)) <==> !FractionDropped(stamp(rows[i]), stamp(row))
    {
      var a, b := stamp(all[i]), stamp(all[|rows|]);
      TextOrderIsTimeOrder(a, b);
      assert key(all[i]) == ToIso8601(a) && key(all[|rows|]) == ToIso8601(b);
    }
    hide ToIso8601, FractionDropped, Stamped, ClockAdvances;
  }

  // ---------------------------------------------------------------- places in a listing

  lemma SameMember<T>(xs: seq<T>, ys: seq<T>, x: T)
    requires multiset(xs) == multiset(ys) && x in xs
    ensures x in ys && |xs| == |ys|
  {
    assert x in multiset(ys);
    assert |multiset(xs)| == |xs| && |multiset(ys)| == |ys|;
  }

  predicate DistinctKeys<T>(rows: seq<T>, key: T -> string) {
    forall i, j | 0 <= i < j < |rows| :: key(rows[i]) != key(rows[j])
  }

  lemma StampsGiveDistinctKeys<T>(rows: seq<T>, key: T -> string, stamp: T -> Instant)
    requires Stamped(rows, key, stamp) && ClockAdvances(rows, stamp)
    ensures DistinctKeys(rows, key)
  {
    forall i, j | 0 <= i < j < |rows| ensures key(rows[i]) != key(rows[j]) {
      assert key(rows[i]) == ToIso8601(stamp(rows[i])) && key(rows[j]) == ToIso8601(stamp(rows[j]));
      TextIsUnique(stamp(rows[i]), stamp(rows[j]));
      EarlierIsTotal(stamp(rows[i]), stamp(rows[j]));
    }
  }

  lemma {:induction false} InsertAscends<T>(sorted: seq<T>, row: T, key: T -> string)
    requires Ascending(sorted, key) && forall i | 0 <= i < |sorted| :: key(sorted[i]) != key(row)
    ensures Ascending(Insert(sorted, row, key), key)
    ensures multiset(Insert(sorted, row, key)) == multiset(sorted) + multiset{row}
  {
    if sorted != [] {
      var front, last := sorted[..|sorted| - 1], sorted[|sorted| - 1];
      assert sorted == front + [last];
      TextLessIsStrict(key(row), key(last));
      if TextLess(key(row), key(last)) {
        InsertAscends(front, row, key);
        var r := Insert(front, row, key);
        forall i | 0 <= i < |r| ensures TextLess(key(r[i]), key(last)) {
          assert r[i] in multiset(r);
          assert r[i] in front || r[i] == row;
        }
        AscendingAppend(r, last, key);
      } else {
        forall i | 0 <= i < |sorted| ensures TextLess(key(sorted[i]), key(row)) {
          if i < |sorted| - 1 {
            TextLessIsTransitive(key(sorted[i]), key(last), key(row));
          }
        }
        AscendingAppend(sorted, row, key);
      }
    }
  }

  lemma {:induction false} OrderByAscends<T>(rows: seq<T>, key: T -> string)
    requires DistinctKeys(rows, key)
    ensures Ascending(OrderBy(rows, key), key)
  {
    if rows != [] {
      var front, last := rows[..|rows| - 1], rows[|rows| - 1];
      OrderByAscends(front, key);
      OrderBySorts(front, key);
      var sorted := OrderBy(front, key);
      forall i | 0 <= i < |sorted| ensures key(sorted[i]) != key(last) {
        SameMember(sorted, front, sorted[i]);
        var k :| 0 <= k < |front| && front[k] == sorted[i];
        assert rows[k] == front[k];
      }
      InsertAscends(sorted, last, key);
    }
  }

  /** The rows whose text comes after the row's. */
  function SortsBehind<T>(row: T, key: T -> string): T -> bool {
    (other: T) => TextLess(key(row), key(other))
  }

  lemma {:induction false} InsertKeepsCount<T>(sorted: seq<T>, row: T, key: T -> string, keep: T -> bool)
    ensures |Where(Insert(sorted, row, key), keep)| == |Where(sorted, keep)| + if keep(row) then 1 else 0
  {
    if sorted != [] && TextLess(key(row), key(sorted[|sorted| - 1])) {
      var front, last := sorted[..|sorted| - 1], sorted[|sorted| - 1];
      InsertKeepsCount(front, row, key, keep);
      WhereAppend(Insert(front, row, key), last, keep);
    } else {
      WhereAppend(sorted, row, keep);
      assert sorted == [] ==> sorted + [row] == [row];
    }
  }

  lemma {:induction false} OrderByKeepsCount<T>(rows: seq<T>, key: T -> string, keep: T -> bool)
    ensures |Where(OrderBy(rows, key), keep)| == |Where(rows, keep)|
  {
    if rows != [] {
      var front, last := rows[..|rows| - 1], rows[|rows| - 1];
      OrderByKeepsCount(front, key, keep);
      InsertKeepsCount(OrderBy(front, key), last, key, keep);
    }
  }

  /** In ascending rows, as many rows sort behind a row as stand behind it. */
  lemma {:induction false} CountBehind<T>(rows: seq<T>, key: T -> string, p: nat)
    requires Ascending(rows, key) && p < |rows|
    ensures |Where(rows, SortsBehind(rows[p], key))| == |rows| - 1 - p
  {
    var n := |rows| - 1;
    var behind := SortsBehind(rows[p], key);
    if p < n {
      CountBehind(rows[..n], key, p);
    } else if Where(rows, behind) != [] {
      var other := Where(rows, behind)[0];
      WhereMember(rows, behind, other);
      var q :| 0 <= q < |rows| && rows[q] == other;
      TextLessIsStrict(key(rows[p]), key(rows[q]));
      assert false;
    }
  }

  /** The place of a row in a listing: as many rows stand behind it as sort behind it. */
  lemma PlaceOf<T>(rows: seq<T>, key: T -> string, i: nat) returns (p: nat)
    requires DistinctKeys(rows, key) && i < |rows|
    ensures |OrderBy(rows, key)| == |rows| && p < |rows| && OrderBy(rows, key)[p] == rows[i]
    ensures |Where(rows, SortsBehind(rows[i], key))| == |rows| - 1 - p
  {
    hide TextLess, Where;
    var sorted := OrderBy(rows, key);
    OrderBySorts(rows, key);
    OrderByAscends(rows, key);
    SameMember(rows, sorted, rows[i]);
    p :| 0 <= p < |sorted| && sorted[p] == rows[i];
    CountBehind(sorted, key, p);
    OrderByKeepsCount(rows, key, SortsBehind(rows[i], key));
  }

  // ---------------------------------------------------------------- the row listed last

  lemma GreatestIsLast<T>(rows: seq<T>, key: T -> string, i: nat)
    requires i < |rows|
    requires forall j | 0 <= j < |rows| && j != i :: TextLess(key(rows[j]), key(rows[i]))
    ensures |OrderBy(rows, key)| == |rows| && OrderBy(rows, key)[|rows| - 1] == rows[i]
  {
    var sorted := OrderBy(rows, key);
    OrderBySorts(rows, key);
    hide OrderBy, TextLess;
    SameMember(rows, sorted, rows[i]);
    var shown := sorted[|sorted| - 1];
    SameMember(sorted, rows, shown);
    var p :| 0 <= p < |sorted| && sorted[p] == rows[i];
    var j :| 0 <= j < |rows| && rows[j] == shown;
  }

  /** The last row keeps its place, unless an earlier row of its second dropped the fraction. */
  predicate ShownLast<T>(rows: seq<T>, stamp: T -> Instant, i: nat)
    requires i < |rows|
  {
    var last := |rows| - 1;
    if i < last then FractionDropped(stamp(rows[i]), stamp(rows[last]))
    else forall j | 0 <= j < last :: !FractionDropped(stamp(rows[j]), stamp(rows[last]))
  }

  lemma DroppedSortsBehind<T>(rows: seq<T>, key: T -> string, stamp: T -> Instant, i: nat, j: nat)
    requires Stamped(rows, key, stamp) && ClockAdvances(rows, stamp) && i < |rows| - 1 && j < |rows| && i != j
    requires FractionDropped(stamp(rows[i]), stamp(rows[|rows| - 1]))
    ensures TextLess(key(rows[j]), key(rows[i]))
  {
    var a, b, c := stamp(rows[i]), stamp(rows[j]), stamp(rows[|rows| - 1]);
    assert key(rows[i]) == ToIso8601(a) && key(rows[j]) == ToIso8601(b);
    if i < j {
      BetweenIsSameSecond(a, b, c);
    }
    TextOrder(b, a);
    hide ToIso8601;
    LexLessIsTotal(Seconds(a), Seconds(b));
  }

  lemma KeptSortsBefore<T>(rows: seq<T>, key: T -> string, stamp: T -> Instant, i: nat, j: nat)
    requires Stamped(rows, key, stamp) && ClockAdvances(rows, stamp) && i < j < |rows|
    requires !FractionDropped(stamp(rows[i]), stamp(rows[j]))
    ensures TextLess(key(rows[i]), key(rows[j]))
  {
    TextOrderIsTimeOrder(stamp(rows[i]), stamp(rows[j]));
    hide ToIso8601, Earlier, FractionDropped, TextLess;
    assert key(rows[i]) == ToIso8601(stamp(rows[i])) && key(rows[j]) == ToIso8601(stamp(rows[j]));
  }

  /** The row that an `ORDER BY` puts last, for any rows stamped by an advancing clock. */
  lemma ShownLastIsListedLast<T>(rows: seq<T>, key: T -> string, stamp: T -> Instant, i: nat)
    requires Stamped(rows, key, stamp) && ClockAdvances(rows, stamp) && i < |rows| && ShownLast(rows, stamp, i)
    ensures |OrderBy(rows, key)| == |rows| && OrderBy(rows, key)[|rows| - 1] == rows[i]
  {
    hide TextLess, OrderBy, ToIso8601, Earlier, Stamped, ClockAdvances;
    var last := |rows| - 1;
    forall j: nat | j < |rows| && j != i ensures TextLess(key(rows[j]), key(rows[i])) {
      if i < last {
        DroppedSortsBehind(rows, key, stamp, i, j);
      } else {
        KeptSortsBefore(rows, key, stamp, j, last);
      }
    }
    GreatestIsLast(rows, key, i);
  }

  // ---------------------------------------------------------------- ascending tables

  lemma AscendingIsSorted<T>(rows: seq<T>, key: T -> string)
    requires Ascending(rows, key)
    ensures OrderBy(rows, key) == rows
  {
    forall i, j | 0 <= i < j < |rows| ensures !TextLess(key(rows[j]), key(rows[i])) {
      TextLessIsStrict(key(rows[i]), key(rows[j]));
    }
    SortedIsFixed(rows, key);
  }

  lemma AscendingAppend<T>(rows: seq<T>, row: T, key: T -> string)
    requires Ascending(rows, key) && ComesLast(rows, row, key)
    ensures Ascending(rows + [row], key)
  {
  }

  lemma {:induction false} WhereAscending<T>(rows: seq<T>, keep: T -> bool, key: T -> string)
    requires Ascending(rows, key)
    ensures Ascending(Where(rows, keep), key)
    ensures OrderBy(Where(rows, keep), key) == Where(rows, keep)
  {
    if rows != [] {
      var front, last := rows[..|rows| - 1], rows[|rows| - 1];
      assert Ascending(front, key);
      WhereAscending(front, keep, key);
      var w := Where(front, keep);
      forall i | 0 <= i < |w| ensures TextLess(key(w[i]), key(last)) {
        WhereMember(front, keep, w[i]);
        var k :| 0 <= k < |front| && front[k] == w[i];
        assert rows[k] == front[k];
      }
      AscendingAppend(w, last, key);
    }
    AscendingIsSorted(Where(rows, keep), key);
  }

  /** The last `n` rows: `ORDER BY ... DESC LIMIT n`, read back in ascending order. */
  function Latest<T>(rows: seq<T>, n: nat): seq<T> {
    if |rows| <= n then rows else rows[|rows| - n..]
  }
}
