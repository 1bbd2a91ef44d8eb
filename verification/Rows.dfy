/**
 * Append-only tables keyed by session, and the two ways the store reads them: `WHERE session_id = ?` and `ORDER BY`.
 */
module Rows {

  datatype Row<+T> = Row(sessionId: string, body: T)

  /** The rows of one session, in insertion order. */
  function Of<T>(rows: seq<Row<T>>, session: string): seq<T> {
    if rows == [] then []
    else
      var last := rows[|rows| - 1];
      Of(rows[..|rows| - 1], session) + if last.sessionId == session then [last.body] else []
  }

  lemma OfAppend<T>(rows: seq<Row<T>>, row: Row<T>)
    ensures forall session :: Of(rows + [row], session)
                              == Of(rows, session) + if row.sessionId == session then [row.body] else []
  {
    assert (rows + [row])[..|rows|] == rows;
  }

  lemma {:induction false} OfMember<T>(rows: seq<Row<T>>, session: string, body: T)
    ensures body in Of(rows, session) <==> Row(session, body) in rows
  {
    if rows != [] {
      var n := |rows| - 1;
      OfMember(rows[..n], session, body);
      assert rows == rows[..n] + [rows[n]];
    }
  }

  // ----- ORDER BY

  predicate Ascending<T>(rows: seq<T>, key: T -> int) {
    forall i, j :: 0 <= i < j < |rows| ==> key(rows[i]) < key(rows[j])
  }

  /** Stable insertion of one row into an ordered list. */
  function Insert<T>(ordered: seq<T>, row: T, key: T -> int): seq<T> {
    if ordered == [] || key(ordered[|ordered| - 1]) <= key(row) then ordered + [row]
    else Insert(ordered[..|ordered| - 1], row, key) + [ordered[|ordered| - 1]]
  }

  function OrderBy<T>(rows: seq<T>, key: T -> int): seq<T> {
    if rows == [] then [] else Insert(OrderBy(rows[..|rows| - 1], key), rows[|rows| - 1], key)
  }

  /** Rows that were inserted in ascending order are read back as they were inserted. */
  lemma {:induction false} OrderByAscending<T>(rows: seq<T>, key: T -> int)
    requires Ascending(rows, key)
    ensures OrderBy(rows, key) == rows
  {
    if rows != [] {
      OrderByAscending(rows[..|rows| - 1], key);
    }
  }

  predicate InOrder<T>(rows: seq<T>, key: T -> int) {
    forall i, j :: 0 <= i < j < |rows| ==> key(rows[i]) <= key(rows[j])
  }

  lemma AppendInOrder<T>(ordered: seq<T>, row: T, key: T -> int)
    requires InOrder(ordered, key) && (ordered != [] ==> key(ordered[|ordered| - 1]) <= key(row))
    ensures InOrder(ordered + [row], key)
  {
  }

  lemma {:induction false} InsertSorts<T>(ordered: seq<T>, row: T, key: T -> int)
    requires InOrder(ordered, key)
    ensures InOrder(Insert(ordered, row, key), key)
    ensures
      var after := Insert(ordered, row, key);
      && after != []
      && key(after[|after| - 1])
         == if ordered == [] || key(ordered[|ordered| - 1]) <= key(row) then key(row) else key(ordered[|ordered| - 1])
  {
    hide InOrder;
    if ordered == [] || key(ordered[|ordered| - 1]) <= key(row) {
      AppendInOrder(ordered, row, key);
    } else {
      var n := |ordered| - 1;
      PrefixInOrder(ordered, n, key);
      InsertSorts(ordered[..n], row, key);
      AppendInOrder(Insert(ordered[..n], row, key), ordered[n], key);
    }
  }

  lemma PrefixInOrder<T>(ordered: seq<T>, n: nat, key: T -> int)
    requires InOrder(ordered, key) && n < |ordered|
    ensures InOrder(ordered[..n], key)
    ensures n > 0 ==> key(ordered[..n][n - 1]) <= key(ordered[n])
  {
  }

  lemma {:induction false} InsertMembers<T>(ordered: seq<T>, row: T, key: T -> int)
    ensures multiset(Insert(ordered, row, key)) == multiset(ordered) + multiset{row}
  {
    if ordered != [] && key(ordered[|ordered| - 1]) > key(row) {
      var n := |ordered| - 1;
      InsertMembers(ordered[..n], row, key);
      assert ordered == ordered[..n] + [ordered[n]];
    }
  }

  /** Ordering a table loses no row, adds none, and leaves the keys in order. */
  lemma {:induction false} OrderBySorts<T>(rows: seq<T>, key: T -> int)
    ensures InOrder(OrderBy(rows, key), key)
    ensures multiset(OrderBy(rows, key)) == multiset(rows)
  {
    hide Insert;
    if rows != [] {
      var n := |rows| - 1;
      OrderBySorts(rows[..n], key);
      InsertSorts(OrderBy(rows[..n], key), rows[n], key);
      InsertMembers(OrderBy(rows[..n], key), rows[n], key);
      assert rows == rows[..n] + [rows[n]];
    }
  }

  /** The largest key of a session's rows, 0 when there are none: `coalesce(max(sequence), 0)`. */
  function MaxKey<T>(rows: seq<T>, key: T -> int): int {
    if rows == [] then 0
    else
      var earlier, last := MaxKey(rows[..|rows| - 1], key), key(rows[|rows| - 1]);
      if |rows| == 1 || earlier < last then last else earlier
  }

  lemma {:induction false} MaxKeyAscending<T>(rows: seq<T>, key: T -> int)
    requires Ascending(rows, key)
    ensures MaxKey(rows, key) == if rows == [] then 0 else key(rows[|rows| - 1])
  {
    if |rows| > 1 { MaxKeyAscending(rows[..|rows| - 1], key); }
  }

  /**
   * Over append-only tables whose sequences start at 1 and increase, an equal watermark means an equal evidence set.
   */
  lemma EqualWatermarkMeansEqualRows<T>(earlier: seq<T>, later: seq<T>, key: T -> int)
    requires earlier <= later && Ascending(later, key) && forall r :: r in later ==> key(r) > 0
    ensures MaxKey(earlier, key) == MaxKey(later, key) <==> earlier == later
  {
    assert Ascending(earlier, key);
    MaxKeyAscending(earlier, key);
    MaxKeyAscending(later, key);
    if |earlier| < |later| {
      assert later[|later| - 1] in later;
      if earlier != [] { assert earlier[|earlier| - 1] == later[|earlier| - 1]; }
    }
  }
}
