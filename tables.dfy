/** A persisted table as the repositories see it: records in storage order,
    each with a unique numeric key that the store assigns. `key` extracts a
    record's id, so the same queries and writes serve every entity. */
module Tables {
  import opened Errors
  import opened Seqs

  type Id = nat

  ghost predicate UniqueKeys<T>(rows: seq<T>, key: T -> Id) {
    forall i, j :: 0 <= i < j < |rows| ==> key(rows[i]) != key(rows[j])
  }

  /** Every key is below the store's next fresh id. */
  ghost predicate KeysBelow<T>(rows: seq<T>, key: T -> Id, bound: Id) {
    forall i :: 0 <= i < |rows| ==> key(rows[i]) < bound
  }

  predicate HasKey<T>(rows: seq<T>, key: T -> Id, id: Id) {
    exists i :: 0 <= i < |rows| && key(rows[i]) == id
  }

  /** A unique column: no two records share its value. The database raises
      on any write that would break this. */
  ghost predicate UniqueColumn<T>(rows: seq<T>, column: T -> string) {
    forall i, j :: 0 <= i < j < |rows| ==> column(rows[i]) != column(rows[j])
  }

  /** Some record holds `value` in `column`: a new record with that value
      breaks the unique constraint. */
  predicate Held<T>(rows: seq<T>, column: T -> string, value: string) {
    exists i :: 0 <= i < |rows| && column(rows[i]) == value
  }

  /** Some record other than `id` holds `value` in `column`: rewriting
      record `id` with that value breaks the unique constraint. */
  predicate HeldByOther<T>(rows: seq<T>, key: T -> Id, column: T -> string, id: Id, value: string) {
    exists i :: 0 <= i < |rows| && key(rows[i]) != id && column(rows[i]) == value
  }

  /** Prisma `findUnique({ where: { id } })`. */
  function Lookup<T(!new)>(rows: seq<T>, key: T -> Id, id: Id): (r: Option<T>)
    ensures r.Some? ==> r.value in rows && key(r.value) == id
    ensures r.None? <==> !HasKey(rows, key, id)
  {
    Find(rows, (x: T) => key(x) == id)
  }

  /** The table after `delete({ where: { id } })`. */
  function Remove<T(!new)>(rows: seq<T>, key: T -> Id, id: Id): (r: seq<T>)
    ensures forall x :: x in r <==> x in rows && key(x) != id
  {
    Filter(rows, (x: T) => key(x) != id)
  }

  /** The table after `update({ where: { id }, data })`: the record `id`
      becomes `f` of itself, every other record stays as it was. */
  function Overwrite<T>(rows: seq<T>, key: T -> Id, id: Id, f: T -> T): (r: seq<T>)
    ensures |r| == |rows|
    ensures forall k :: 0 <= k < |rows| ==> r[k] == if key(rows[k]) == id then f(rows[k]) else rows[k]
  {
    seq(|rows|, k requires 0 <= k < |rows| => if key(rows[k]) == id then f(rows[k]) else rows[k])
  }

  /** Removing a present key shortens the table by exactly one record. */
  lemma {:induction false} RemoveOne<T(!new)>(rows: seq<T>, key: T -> Id, id: Id)
    requires UniqueKeys(rows, key) && HasKey(rows, key, id)
    ensures |Remove(rows, key, id)| == |rows| - 1
  {
    if key(rows[0]) == id {
      assert !HasKey(rows[1..], key, id) by {
        forall k | 0 <= k < |rows[1..]| ensures key(rows[1..][k]) != id {
          assert key(rows[k + 1]) != key(rows[0]);
        }
      }
      RemoveAbsent(rows[1..], key, id);
    } else {
      var i :| 0 <= i < |rows| && key(rows[i]) == id;
      assert key(rows[1..][i - 1]) == id;
      RemoveOne(rows[1..], key, id);
    }
  }

  /** Removing an absent key leaves the table as it was. */
  lemma {:induction false} RemoveAbsent<T(!new)>(rows: seq<T>, key: T -> Id, id: Id)
    requires !HasKey(rows, key, id)
    ensures Remove(rows, key, id) == rows
  {
    if |rows| > 0 {
      assert !HasKey(rows[1..], key, id) by {
        forall k | 0 <= k < |rows[1..]| ensures key(rows[1..][k]) != id {
          assert key(rows[k + 1]) != id;
        }
      }
      RemoveAbsent(rows[1..], key, id);
      assert rows == [rows[0]] + rows[1..];
    }
  }

  /** Removing keeps keys distinct and below the bound. */
  lemma {:induction false} RemoveKeepsKeys<T(!new)>(rows: seq<T>, key: T -> Id, id: Id, bound: Id)
    requires UniqueKeys(rows, key) && KeysBelow(rows, key, bound)
    ensures UniqueKeys(Remove(rows, key, id), key) && KeysBelow(Remove(rows, key, id), key, bound)
  {
    if |rows| > 0 {
      assert UniqueKeys(rows[1..], key) by {
        forall i, j | 0 <= i < j < |rows[1..]| ensures key(rows[1..][i]) != key(rows[1..][j]) {
          assert key(rows[i + 1]) != key(rows[j + 1]);
        }
      }
      assert KeysBelow(rows[1..], key, bound) by {
        forall i | 0 <= i < |rows[1..]| ensures key(rows[1..][i]) < bound {
          assert key(rows[i + 1]) < bound;
        }
      }
      RemoveKeepsKeys(rows[1..], key, id, bound);
      var tail := Remove(rows[1..], key, id);
      if key(rows[0]) != id {
        assert Remove(rows, key, id) == [rows[0]] + tail;
        forall x | x in tail ensures key(x) != key(rows[0]) {
          var k :| 0 <= k < |rows[1..]| && rows[1..][k] == x;
          assert rows[k + 1] == x;
        }
      }
    }
  }

  /** Appending a record under the fresh id keeps keys distinct and below
      the next fresh id. */
  lemma AppendFreshKeepsKeys<T>(rows: seq<T>, key: T -> Id, bound: Id, x: T)
    requires UniqueKeys(rows, key) && KeysBelow(rows, key, bound) && key(x) == bound
    ensures UniqueKeys(rows + [x], key) && KeysBelow(rows + [x], key, bound + 1)
    ensures !HasKey(rows, key, bound)
  {
  }

  /** Rewriting a record under its own key keeps keys distinct and bounded. */
  lemma OverwriteKeepsKeys<T>(rows: seq<T>, key: T -> Id, id: Id, f: T -> T, bound: Id)
    requires UniqueKeys(rows, key) && KeysBelow(rows, key, bound)
    requires forall k :: 0 <= k < |rows| && key(rows[k]) == id ==> key(f(rows[k])) == id
    ensures UniqueKeys(Overwrite(rows, key, id, f), key) && KeysBelow(Overwrite(rows, key, id, f), key, bound)
  {
  }

  /** Appending a record whose value nobody holds keeps the column unique. */
  lemma AppendFreshKeepsColumn<T>(rows: seq<T>, column: T -> string, x: T)
    requires UniqueColumn(rows, column) && !Held(rows, column, column(x))
    ensures UniqueColumn(rows + [x], column)
  {
    forall i, j | 0 <= i < j < |rows + [x]| ensures column((rows + [x])[i]) != column((rows + [x])[j]) {
      if j == |rows| {
        assert (rows + [x])[i] == rows[i];
      }
    }
  }

  /** Rewriting record `id` with a value no other record holds keeps the
      column unique. */
  lemma OverwriteKeepsColumn<T>(rows: seq<T>, key: T -> Id, id: Id, f: T -> T, column: T -> string, value: string)
    requires UniqueKeys(rows, key) && UniqueColumn(rows, column)
    requires forall x :: column(f(x)) == value
    requires !HeldByOther(rows, key, column, id, value)
    ensures UniqueColumn(Overwrite(rows, key, id, f), column)
  {
    var r := Overwrite(rows, key, id, f);
    forall i, j | 0 <= i < j < |r| ensures column(r[i]) != column(r[j]) {
      if key(rows[i]) == id {
        assert key(rows[j]) != id;
      } else if key(rows[j]) == id {
        assert key(rows[i]) != id;
      }
    }
  }

  /** Removing a record keeps the column unique. */
  lemma {:induction false} RemoveKeepsColumn<T(!new)>(rows: seq<T>, key: T -> Id, id: Id, column: T -> string)
    requires UniqueColumn(rows, column)
    ensures UniqueColumn(Remove(rows, key, id), column)
  {
    if |rows| > 0 {
      assert UniqueColumn(rows[1..], column) by {
        forall i, j | 0 <= i < j < |rows[1..]| ensures column(rows[1..][i]) != column(rows[1..][j]) {
          assert column(rows[i + 1]) != column(rows[j + 1]);
        }
      }
      RemoveKeepsColumn(rows[1..], key, id, column);
      var tail := Remove(rows[1..], key, id);
      if key(rows[0]) != id {
        assert Remove(rows, key, id) == [rows[0]] + tail;
        forall x | x in tail ensures column(x) != column(rows[0]) {
          var k :| 0 <= k < |rows[1..]| && rows[1..][k] == x;
          assert rows[k + 1] == x;
        }
      }
    }
  }
}
