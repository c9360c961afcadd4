/** Tables as sequences of rows: the `WHERE key = ?` filter, UNIQUE key
    columns, a plain INSERT that honours them and the INSERT OR REPLACE that
    overrides them, and `ORDER BY <timestamp> DESC`
    over text timestamps, which SQLite compares character by character. */
module Relation {
  import opened Wrappers

  // ---------------------------------------------------------------------
  // Filtering

  /** The rows whose key column equals `k`, in table order. Every matching
      row is kept with its multiplicity and nothing else is. */
  function Matching<R(!new)>(rows: seq<R>, key: R -> string, k: string): (r: seq<R>)
    ensures forall i :: 0 <= i < |r| ==> key(r[i]) == k
    ensures forall x :: multiset(r)[x] == if key(x) == k then multiset(rows)[x] else 0
    ensures |r| <= |rows|
  {
    if |rows| == 0 then []
    else
      assert rows == [rows[0]] + rows[1..];
      var rest := Matching(rows[1..], key, k);
      if key(rows[0]) == k then [rows[0]] + rest else rest
  }

  /** A row with key `k` is in the table exactly when the filter returns
      something. */
  lemma MatchingEmptyIff<R(!new)>(rows: seq<R>, key: R -> string, k: string)
    ensures |Matching(rows, key, k)| == 0 <==> forall x :: x in rows ==> key(x) != k
  {
    var r := Matching(rows, key, k);
    if |r| > 0 {
      assert multiset(r)[r[0]] > 0;
      assert r[0] in rows;
    }
    forall x | x in rows && key(x) == k
      ensures x in r
    {
      assert multiset(rows)[x] > 0;
    }
  }

  /** The filter returns something exactly when some row carries the key. */
  lemma MatchingNonEmptyIff<R(!new)>(rows: seq<R>, key: R -> string, k: string)
    ensures |Matching(rows, key, k)| > 0 <==> HasKey(rows, key, k)
  {
    MatchingEmptyIff(rows, key, k);
    if HasKey(rows, key, k) {
      var i :| 0 <= i < |rows| && key(rows[i]) == k;
      assert rows[i] in rows;
    }
  }

  // ---------------------------------------------------------------------
  // UNIQUE key columns

  /** No two rows share a key. */
  predicate KeysUnique<R>(rows: seq<R>, key: R -> string) {
    forall i, j :: 0 <= i < j < |rows| ==> key(rows[i]) != key(rows[j])
  }

  /** Some row carries key `k`. */
  predicate HasKey<R>(rows: seq<R>, key: R -> string, k: string) {
    exists i :: 0 <= i < |rows| && key(rows[i]) == k
  }

  /** Under a UNIQUE key a lookup by that key returns at most one row, and
      the row carrying the key when there is one. */
  lemma {:induction false} UniqueLookup<R(!new)>(rows: seq<R>, key: R -> string, k: string)
    requires KeysUnique(rows, key)
    ensures |Matching(rows, key, k)| <= 1
    ensures forall i :: 0 <= i < |rows| && key(rows[i]) == k ==> Matching(rows, key, k) == [rows[i]]
    decreases |rows|
  {
    if |rows| > 0 {
      var tail := rows[1..];
      assert KeysUnique(tail, key) by {
        forall i, j | 0 <= i < j < |tail|
          ensures key(tail[i]) != key(tail[j])
        {
          assert tail[i] == rows[i + 1] && tail[j] == rows[j + 1];
        }
      }
      UniqueLookup(tail, key, k);
      if key(rows[0]) == k {
        forall i | 0 <= i < |tail|
          ensures key(tail[i]) != k
        {
          assert tail[i] == rows[i + 1];
        }
        MatchingEmptyIff(tail, key, k);
      } else {
        forall i | 1 <= i < |rows| && key(rows[i]) == k
          ensures Matching(rows, key, k) == [rows[i]]
        {
          assert rows[i] == tail[i - 1];
        }
      }
    }
  }

  /** A plain `INSERT`: rejected with SQLite's message when the key is taken,
      otherwise the row is appended. `constraint` names the column as
      `table.column`. */
  function Insert<R>(rows: seq<R>, key: R -> string, row: R, constraint: string): (r: Result<seq<R>>)
    ensures r.Fault? <==> HasKey(rows, key, key(row))
    ensures r.Fault? ==> r.error == "UNIQUE constraint failed: " + constraint
    ensures r.Ok? ==> r.value == rows + [row]
    ensures r.Ok? && KeysUnique(rows, key) ==> KeysUnique(r.value, key)
  {
    if exists i :: 0 <= i < |rows| && key(rows[i]) == key(row) then
      Fault("UNIQUE constraint failed: " + constraint)
    else
      Ok(rows + [row])
  }

  /** After a successful insert, a lookup by the new key returns exactly the
      inserted row. */
  lemma InsertThenLookup<R(!new)>(rows: seq<R>, key: R -> string, row: R, constraint: string)
    requires KeysUnique(rows, key)
    requires Insert(rows, key, row, constraint).Ok?
    ensures Matching(Insert(rows, key, row, constraint).value, key, key(row)) == [row]
  {
    var t := rows + [row];
    UniqueLookup(t, key, key(row));
    assert t[|rows|] == row;
  }

  /** The rows whose key column differs from `k`, in table order: the rows
      a `DELETE … WHERE key = k` leaves behind. */
  function Without<R(!new)>(rows: seq<R>, key: R -> string, k: string): (r: seq<R>)
    ensures forall i :: 0 <= i < |r| ==> key(r[i]) != k
    ensures forall x :: multiset(r)[x] == if key(x) == k then 0 else multiset(rows)[x]
  {
    if |rows| == 0 then []
    else
      assert rows == [rows[0]] + rows[1..];
      var rest := Without(rows[1..], key, k);
      if key(rows[0]) != k then [rows[0]] + rest else rest
  }

  /** Deleting rows keeps a UNIQUE key unique. */
  lemma {:induction false} WithoutKeepsUnique<R(!new)>(rows: seq<R>, key: R -> string, k: string)
    requires KeysUnique(rows, key)
    ensures KeysUnique(Without(rows, key, k), key)
    decreases |rows|
  {
    if |rows| > 0 {
      var tail := rows[1..];
      assert KeysUnique(tail, key) by {
        forall i, j | 0 <= i < j < |tail|
          ensures key(tail[i]) != key(tail[j])
        {
          assert tail[i] == rows[i + 1] && tail[j] == rows[j + 1];
        }
      }
      WithoutKeepsUnique(tail, key, k);
      var rest := Without(tail, key, k);
      if key(rows[0]) != k {
        forall j | 0 <= j < |rest|
          ensures key(rest[j]) != key(rows[0])
        {
          assert rest[j] in multiset(rest);
          var m :| 0 <= m < |tail| && tail[m] == rest[j];
          assert rows[m + 1] == rest[j];
        }
        var r := [rows[0]] + rest;
        forall i, j | 0 <= i < j < |r|
          ensures key(r[i]) != key(r[j])
        {
          assert r[j] == rest[j - 1];
          if i > 0 {
            assert r[i] == rest[i - 1];
          }
        }
      }
    }
  }

  /** `INSERT OR REPLACE`: every row holding the new row's key is deleted,
      then the row is appended. It never fails on the key. */
  function Replace<R(!new)>(rows: seq<R>, key: R -> string, row: R): (r: seq<R>)
    ensures |r| > 0 && r[|r| - 1] == row
    ensures forall x ::
              multiset(r)[x] == if key(x) == key(row) then (if x == row then 1 else 0) else multiset(rows)[x]
    ensures KeysUnique(rows, key) ==> KeysUnique(r, key)
  {
    var w := Without(rows, key, key(row));
    if KeysUnique(rows, key) then
      WithoutKeepsUnique(rows, key, key(row));
      w + [row]
    else
      w + [row]
  }

  /** After a replace, a lookup by the new key returns exactly the new row,
      whatever the table held before. */
  lemma ReplaceThenLookup<R(!new)>(rows: seq<R>, key: R -> string, row: R)
    ensures Matching(Replace(rows, key, row), key, key(row)) == [row]
  {
    var m := Matching(Replace(rows, key, row), key, key(row));
    assert multiset(m) == multiset{row} by {
      forall x
        ensures multiset(m)[x] == multiset{row}[x]
      {
      }
    }
    assert |m| == 1;
    assert m[0] in multiset(m);
  }

  /** A replace leaves every other key's lookup as it was, order included. */
  lemma ReplaceKeepsOthers<R(!new)>(rows: seq<R>, key: R -> string, row: R, k: string)
    requires k != key(row)
    ensures Matching(Replace(rows, key, row), key, k) == Matching(rows, key, k)
  {
    var w := Without(rows, key, key(row));
    MatchingWithout(rows, key, key(row), k);
    MatchingSnocOther(w, key, row, k);
  }

  /** When the key is free, a replace is the plain insert. */
  lemma ReplaceWhenFree<R(!new)>(rows: seq<R>, key: R -> string, row: R, constraint: string)
    ensures !HasKey(rows, key, key(row)) ==> Insert(rows, key, row, constraint) == Ok(Replace(rows, key, row))
  {
    if !HasKey(rows, key, key(row)) {
      WithoutAbsent(rows, key, key(row));
    }
  }

  /** Removing the rows of one key does not disturb the lookup of another. */
  lemma {:induction false} MatchingWithout<R(!new)>(rows: seq<R>, key: R -> string, gone: string, k: string)
    requires k != gone
    ensures Matching(Without(rows, key, gone), key, k) == Matching(rows, key, k)
    decreases |rows|
  {
    if |rows| > 0 {
      MatchingWithout(rows[1..], key, gone, k);
      if key(rows[0]) != gone {
        var rest := Without(rows[1..], key, gone);
        assert ([rows[0]] + rest)[1..] == rest;
      }
    }
  }

  /** Appending a row of another key leaves a lookup as it was. */
  lemma {:induction false} MatchingSnocOther<R(!new)>(rows: seq<R>, key: R -> string, row: R, k: string)
    requires key(row) != k
    ensures Matching(rows + [row], key, k) == Matching(rows, key, k)
    decreases |rows|
  {
    var all := rows + [row];
    if |rows| == 0 {
      assert all == [row] && all[1..] == [];
    } else {
      assert all[0] == rows[0] && all[1..] == rows[1..] + [row];
      MatchingSnocOther(rows[1..], key, row, k);
    }
  }

  /** Replacing a row by itself a second time changes nothing: the second
      statement deletes the row the first appended and appends it again. */
  lemma ReplaceIdempotent<R(!new)>(rows: seq<R>, key: R -> string, row: R)
    ensures Replace(Replace(rows, key, row), key, row) == Replace(rows, key, row)
  {
    var w := Without(rows, key, key(row));
    WithoutSnocSame(w, key, row);
    WithoutAbsent(w, key, key(row));
  }

  /** Deleting a key also deletes an appended row holding it. */
  lemma {:induction false} WithoutSnocSame<R(!new)>(rows: seq<R>, key: R -> string, row: R)
    ensures Without(rows + [row], key, key(row)) == Without(rows, key, key(row))
    decreases |rows|
  {
    var all := rows + [row];
    if |rows| == 0 {
      assert all == [row] && all[1..] == [];
    } else {
      assert all[0] == rows[0] && all[1..] == rows[1..] + [row];
      WithoutSnocSame(rows[1..], key, row);
    }
  }

  /** Removing a key no row holds changes nothing. */
  lemma {:induction false} WithoutAbsent<R(!new)>(rows: seq<R>, key: R -> string, k: string)
    requires !HasKey(rows, key, k)
    ensures Without(rows, key, k) == rows
    decreases |rows|
  {
    if |rows| > 0 {
      assert !HasKey(rows[1..], key, k) by {
        forall i | 0 <= i < |rows[1..]|
          ensures key(rows[1..][i]) != k
        {
          assert rows[1..][i] == rows[i + 1];
        }
      }
      WithoutAbsent(rows[1..], key, k);
      assert rows == [rows[0]] + rows[1..];
    }
  }

  // ---------------------------------------------------------------------
  // Text order and ORDER BY … DESC

  /** SQLite's BINARY collation on text: `a` sorts no later than `b`. */
  predicate LexLe(a: string, b: string) {
    |a| == 0 || (|b| > 0 && (a[0] < b[0] || (a[0] == b[0] && LexLe(a[1..], b[1..]))))
  }

  /** Any two texts are comparable. */
  lemma {:induction false} LexTotal(a: string, b: string)
    ensures LexLe(a, b) || LexLe(b, a)
    decreases |a|
  {
    if |a| > 0 && |b| > 0 && a[0] == b[0] {
      LexTotal(a[1..], b[1..]);
    }
  }

  /** The text order is transitive. */
  lemma {:induction false} LexTrans(a: string, b: string, c: string)
    requires LexLe(a, b) && LexLe(b, c)
    ensures LexLe(a, c)
    decreases |a|
  {
    if |a| > 0 && a[0] == b[0] && b[0] == c[0] {
      LexTrans(a[1..], b[1..], c[1..]);
    }
  }

  /** Rows ordered newest first by their timestamp text. */
  predicate NewestFirstOrdered<R>(rows: seq<R>, stamp: R -> string) {
    forall i, j :: 0 <= i < j < |rows| ==> LexLe(stamp(rows[j]), stamp(rows[i]))
  }

  /** Place `x` into rows already ordered newest first, ahead of the first
      row that is not newer than it. */
  function InsertByStamp<R>(x: R, rows: seq<R>, stamp: R -> string): (r: seq<R>)
    requires NewestFirstOrdered(rows, stamp)
    ensures multiset(r) == multiset(rows) + multiset{x}
    ensures NewestFirstOrdered(r, stamp)
  {
    if |rows| == 0 || LexLe(stamp(rows[0]), stamp(x)) then
      assert forall j :: 0 <= j < |rows| ==> LexLe(stamp(rows[j]), stamp(x)) by {
        forall j | 0 <= j < |rows|
          ensures LexLe(stamp(rows[j]), stamp(x))
        {
          if j > 0 {
            LexTrans(stamp(rows[j]), stamp(rows[0]), stamp(x));
          }
        }
      }
      [x] + rows
    else
      LexTotal(stamp(rows[0]), stamp(x));
      assert rows == [rows[0]] + rows[1..];
      var rest := InsertByStamp(x, rows[1..], stamp);
      HeadIsNewest(rows, x, rest, stamp);
      [rows[0]] + rest
  }

  /** The head of an ordered table is no older than any other row of it, nor
      than a row `x` older than the head: so it may lead the merged rest. */
  lemma HeadIsNewest<R>(rows: seq<R>, x: R, rest: seq<R>, stamp: R -> string)
    requires |rows| > 0 && NewestFirstOrdered(rows, stamp)
    requires LexLe(stamp(x), stamp(rows[0]))
    requires multiset(rest) == multiset(rows[1..]) + multiset{x}
    ensures forall j :: 0 <= j < |rest| ==> LexLe(stamp(rest[j]), stamp(rows[0]))
  {
    forall j | 0 <= j < |rest|
      ensures LexLe(stamp(rest[j]), stamp(rows[0]))
    {
      assert rest[j] in multiset(rest);
      if rest[j] != x {
        assert rest[j] in multiset(rows[1..]);
        var m :| 0 <= m < |rows[1..]| && rows[1..][m] == rest[j];
        assert rows[m + 1] == rest[j];
      }
    }
  }

  /** `ORDER BY stamp DESC`: the same rows, newest first; rows with equal
      timestamps keep their table order. */
  function NewestFirst<R>(rows: seq<R>, stamp: R -> string): (r: seq<R>)
    ensures multiset(r) == multiset(rows)
    ensures |r| == |rows|
    ensures NewestFirstOrdered(r, stamp)
  {
    if |rows| == 0 then []
    else
      assert rows == [rows[0]] + rows[1..];
      InsertByStamp(rows[0], NewestFirst(rows[1..], stamp), stamp)
  }
}
