/** A store table as the sequence of its rows in insertion order, and the two things the
    store does with one: a point lookup by natural key that reads `Count() > 0 ? Single() :
    null`, and an insert that writes only when that lookup finds nothing. */
module Tables {
  import opened Wrappers

  /** No row of the table has natural key `k`. */
  predicate Absent<R, K(==)>(rows: seq<R>, key: R -> K, k: K) {
    forall i :: 0 <= i < |rows| ==> key(rows[i]) != k
  }

  /** No two rows of the table share a natural key. */
  predicate KeysUnique<R, K(==)>(rows: seq<R>, key: R -> K) {
    forall i, j :: 0 <= i < j < |rows| ==> key(rows[i]) != key(rows[j])
  }

  /** The lookup: null when no row has the key, the row when exactly one has it, and the
      exception `Single()` throws when several have it. */
  function Select<R, K(==)>(rows: seq<R>, key: R -> K, k: K): (r: Result<Option<R>>)
    ensures r == Ok(None) <==> Absent(rows, key, k)
    ensures r.Ok? && r.value.Some? ==> r.value.value in rows && key(r.value.value) == k
    ensures r.Err? <==> exists i, j :: 0 <= i < j < |rows| && key(rows[i]) == k && key(rows[j]) == k
    ensures KeysUnique(rows, key) ==> r.Ok?
    ensures KeysUnique(rows, key) ==> forall i :: 0 <= i < |rows| && key(rows[i]) == k ==> r == Ok(Some(rows[i]))
  {
    if rows == [] then Ok(None)
    else
      var rest :- Select(rows[1..], key, k);
      assert forall i :: 1 <= i < |rows| ==> rows[i] == rows[1..][i - 1];
      if key(rows[0]) != k then Ok(rest)
      else if rest.None? then Ok(Some(rows[0]))
      else
        assert rest.value in rows[1..];
        Err(NotSingle("more than one row with the key"))
  }

  /** Insert-if-absent: the row is appended when the lookup finds no row with its key;
      otherwise the table is left as it is. */
  function InsertIfAbsent<R, K(==)>(rows: seq<R>, key: R -> K, row: R): (r: seq<R>)
    ensures Absent(rows, key, key(row)) ==> r == rows + [row]
    ensures !Absent(rows, key, key(row)) ==> r == rows
    ensures !Absent(r, key, key(row))
    ensures KeysUnique(rows, key) ==> KeysUnique(r, key)
  {
    if Absent(rows, key, key(row)) then
      assert (rows + [row])[|rows|] == row;
      rows + [row]
    else rows
  }

  /** Inserting the same row twice leaves the table as inserting it once. */
  lemma InsertIdempotent<R, K>(rows: seq<R>, key: R -> K, row: R)
    ensures InsertIfAbsent(InsertIfAbsent(rows, key, row), key, row) == InsertIfAbsent(rows, key, row)
  {
  }

  /** The bulk insert: insert-if-absent applied to each row in list order. */
  function InsertAll<R, K(==)>(rows: seq<R>, key: R -> K, xs: seq<R>): seq<R> {
    if xs == [] then rows else InsertIfAbsent(InsertAll(rows, key, xs[..|xs| - 1]), key, xs[|xs| - 1])
  }

  /** The bulk insert only appends: the rows that were there stay, in place. */
  lemma {:induction false} InsertAllExtends<R, K>(rows: seq<R>, key: R -> K, xs: seq<R>)
    ensures rows <= InsertAll(rows, key, xs)
    ensures forall i :: |rows| <= i < |InsertAll(rows, key, xs)| ==> InsertAll(rows, key, xs)[i] in xs
  {
    if xs != [] {
      InsertAllExtends(rows, key, xs[..|xs| - 1]);
    }
  }

  /** After the bulk insert, the key of every input row is in the table. */
  lemma {:induction false} InsertAllCoversKeys<R, K>(rows: seq<R>, key: R -> K, xs: seq<R>)
    ensures forall j :: 0 <= j < |xs| ==> !Absent(InsertAll(rows, key, xs), key, key(xs[j]))
  {
    if xs != [] {
      var init := xs[..|xs| - 1];
      InsertAllCoversKeys(rows, key, init);
      var before := InsertAll(rows, key, init);
      assert before <= InsertAll(rows, key, xs);
      forall j | 0 <= j < |xs|
        ensures !Absent(InsertAll(rows, key, xs), key, key(xs[j]))
      {
        if j < |xs| - 1 {
          assert xs[j] == init[j];
          var i :| 0 <= i < |before| && key(before[i]) == key(xs[j]);
          assert InsertAll(rows, key, xs)[i] == before[i];
        }
      }
    }
  }

  /** The bulk insert keeps the natural key unique. */
  lemma {:induction false} InsertAllKeepsKeysUnique<R, K>(rows: seq<R>, key: R -> K, xs: seq<R>)
    requires KeysUnique(rows, key)
    ensures KeysUnique(InsertAll(rows, key, xs), key)
  {
    if xs != [] {
      InsertAllKeepsKeysUnique(rows, key, xs[..|xs| - 1]);
    }
  }

  /** Rows whose keys are all present already insert nothing. */
  lemma {:induction false} InsertAllPresent<R, K>(rows: seq<R>, key: R -> K, xs: seq<R>)
    requires forall j :: 0 <= j < |xs| ==> !Absent(rows, key, key(xs[j]))
    ensures InsertAll(rows, key, xs) == rows
  {
    if xs != [] {
      InsertAllPresent(rows, key, xs[..|xs| - 1]);
    }
  }

  /** Re-running a bulk insert with the same rows inserts nothing more. */
  lemma InsertAllIdempotent<R, K>(rows: seq<R>, key: R -> K, xs: seq<R>)
    ensures InsertAll(InsertAll(rows, key, xs), key, xs) == InsertAll(rows, key, xs)
  {
    InsertAllCoversKeys(rows, key, xs);
    InsertAllPresent(InsertAll(rows, key, xs), key, xs);
  }
}
