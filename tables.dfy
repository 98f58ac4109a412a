/**
 * A table as its rows in primary-key order, and the bulk insert with
 * `ignore_conflicts=True`: a candidate whose unique key is already taken
 * is dropped without error, so the row already stored (or the first
 * candidate with that key) is the one that stays.
 */
module Tables {

  /** No two rows share a value of `key`: a unique constraint. */
  predicate UniqueKeys<R, K(==)>(rows: seq<R>, key: R -> K)
  {
    forall i, j :: 0 <= i < j < |rows| ==> key(rows[i]) != key(rows[j])
  }

  /** The set of key values present in the table. */
  function Keys<R, K(==)>(rows: seq<R>, key: R -> K): set<K>
  {
    set i | 0 <= i < |rows| :: key(rows[i])
  }

  /** One row of the conflict-ignoring insert. */
  function InsertOne<R, K(==)>(rows: seq<R>, c: R, key: R -> K): seq<R>
  {
    if key(c) in Keys(rows, key) then rows else rows + [c]
  }

  /** `bulk_create(cands, ignore_conflicts=True)`, row by row in order. */
  function InsertOrIgnore<R, K(==)>(rows: seq<R>, cands: seq<R>, key: R -> K): (r: seq<R>)
    ensures |rows| <= |r| <= |rows| + |cands|
    ensures r[..|rows|] == rows
    decreases |cands|
  {
    if cands == [] then rows
    else InsertOrIgnore(InsertOne(rows, cands[0], key), cands[1..], key)
  }

  /** The insert never breaks the unique constraint it guards. */
  lemma {:induction false} InsertOrIgnoreUnique<R, K>(rows: seq<R>, cands: seq<R>, key: R -> K)
    requires UniqueKeys(rows, key)
    ensures UniqueKeys(InsertOrIgnore(rows, cands, key), key)
    decreases |cands|
  {
    if cands != [] {
      var next := InsertOne(rows, cands[0], key);
      if key(cands[0]) !in Keys(rows, key) {
        forall i | 0 <= i < |rows| ensures key(rows[i]) != key(cands[0]) {
          assert rows[i] in rows;
        }
      }
      InsertOrIgnoreUnique(next, cands[1..], key);
    }
  }

  /** Key values of a concatenation of rows. */
  lemma KeysConcat<R, K>(a: seq<R>, b: seq<R>, key: R -> K)
    ensures Keys(a + b, key) == Keys(a, key) + Keys(b, key)
  {
    forall k | k in Keys(a + b, key) ensures k in Keys(a, key) + Keys(b, key) {
      var i :| 0 <= i < |a + b| && key((a + b)[i]) == k;
      if i >= |a| { assert (a + b)[i] == b[i - |a|]; }
    }
    forall k | k in Keys(b, key) ensures k in Keys(a + b, key) {
      var i :| 0 <= i < |b| && key(b[i]) == k;
      assert (a + b)[|a| + i] == b[i];
    }
    forall k | k in Keys(a, key) ensures k in Keys(a + b, key) {
      var i :| 0 <= i < |a| && key(a[i]) == k;
      assert (a + b)[i] == a[i];
    }
  }

  /** A prefix of a table has no key value the table lacks. */
  lemma KeysPrefix<R, K>(prefix: seq<R>, rows: seq<R>, key: R -> K)
    requires prefix <= rows
    ensures Keys(prefix, key) <= Keys(rows, key)
  {
    forall k | k in Keys(prefix, key) ensures k in Keys(rows, key) {
      var i :| 0 <= i < |prefix| && key(prefix[i]) == k;
      assert rows[i] == prefix[i];
    }
  }

  /** A prefix of a table with unique keys has unique keys. */
  lemma UniqueKeysPrefix<R, K>(prefix: seq<R>, rows: seq<R>, key: R -> K)
    requires prefix <= rows
    requires UniqueKeys(rows, key)
    ensures UniqueKeys(prefix, key)
  {
    forall i, j | 0 <= i < j < |prefix| ensures key(prefix[i]) != key(prefix[j]) {
      assert prefix[i] == rows[i] && prefix[j] == rows[j];
    }
  }

  /** Removing one row of a table with unique keys leaves unique keys, none equal to the removed row's. */
  lemma RemoveAtUnique<R, K>(rows: seq<R>, i: nat, key: R -> K)
    requires i < |rows|
    requires UniqueKeys(rows, key)
    ensures UniqueKeys(rows[..i] + rows[i + 1..], key)
    ensures forall r :: r in rows[..i] + rows[i + 1..] ==> key(r) != key(rows[i])
  {
    var remaining := rows[..i] + rows[i + 1..];
    assert forall j :: 0 <= j < |remaining| ==> remaining[j] == rows[if j < i then j else j + 1];
    forall r | r in remaining ensures key(r) != key(rows[i]) {
      var j :| 0 <= j < |remaining| && remaining[j] == r;
    }
  }

  /** A row whose key no other row has can be put in front. */
  lemma ConsUnique<R, K>(row: R, rows: seq<R>, key: R -> K)
    requires UniqueKeys(rows, key)
    requires forall r :: r in rows ==> key(r) != key(row)
    ensures UniqueKeys([row] + rows, key)
  {
    var all := [row] + rows;
    forall a, b | 0 <= a < b < |all| ensures key(all[a]) != key(all[b]) {
      if a == 0 {
        assert all[b] in rows;
      } else {
        assert all[a] == rows[a - 1] && all[b] == rows[b - 1];
      }
    }
  }

  /** Afterwards the key values are exactly the old ones plus the candidates' ones. */
  lemma {:induction false} InsertOrIgnoreKeys<R, K>(rows: seq<R>, cands: seq<R>, key: R -> K)
    ensures Keys(InsertOrIgnore(rows, cands, key), key) == Keys(rows, key) + Keys(cands, key)
    decreases |cands|
  {
    if cands != [] {
      var c := cands[0];
      var next := InsertOne(rows, c, key);
      KeysConcat(rows, [c], key);
      KeysConcat([c], cands[1..], key);
      assert cands == [c] + cands[1..];
      InsertOrIgnoreKeys(next, cands[1..], key);
    }
  }

  /** Every stored row is an old row or one of the candidates. */
  lemma {:induction false} InsertOrIgnoreRows<R, K>(rows: seq<R>, cands: seq<R>, key: R -> K)
    ensures forall r :: r in InsertOrIgnore(rows, cands, key) ==> r in rows || r in cands
    decreases |cands|
  {
    if cands != [] {
      var next := InsertOne(rows, cands[0], key);
      InsertOrIgnoreRows(next, cands[1..], key);
      assert forall r :: r in next ==> r in rows || r == cands[0];
      assert forall r :: r in cands[1..] ==> r in cands;
    }
  }

  /**
   * The first candidate for a key not yet in the table is the row that is
   * stored; later candidates with the same key are dropped.
   */
  lemma {:induction false} InsertOrIgnoreFirstWins<R, K>(rows: seq<R>, cands: seq<R>, key: R -> K, i: nat)
    requires i < |cands|
    requires key(cands[i]) !in Keys(rows, key)
    requires forall j :: 0 <= j < i ==> key(cands[j]) != key(cands[i])
    ensures cands[i] in InsertOrIgnore(rows, cands, key)
    decreases |cands|
  {
    var next := InsertOne(rows, cands[0], key);
    if i == 0 {
      assert next == rows + [cands[0]];
      var r := InsertOrIgnore(next, cands[1..], key);
      assert r[..|next|] == next;
      assert r[|rows|] == cands[0];
    } else {
      assert Keys(next, key) <= Keys(rows, key) + {key(cands[0])} by {
        assert forall r :: r in next ==> r in rows || r == cands[0];
      }
      InsertOrIgnoreFirstWins(next, cands[1..], key, i - 1);
    }
  }

  /** Inserting candidates whose keys are all present changes nothing. */
  lemma {:induction false} InsertOrIgnorePresent<R, K>(rows: seq<R>, cands: seq<R>, key: R -> K)
    requires Keys(cands, key) <= Keys(rows, key)
    ensures InsertOrIgnore(rows, cands, key) == rows
    decreases |cands|
  {
    if cands != [] {
      assert cands[0] in cands;
      assert Keys(cands[1..], key) <= Keys(cands, key) by {
        assert forall r :: r in cands[1..] ==> r in cands;
      }
      InsertOrIgnorePresent(rows, cands[1..], key);
    }
  }

  /** Re-running the same bulk insert is a no-op. */
  lemma InsertOrIgnoreIdempotent<R, K>(rows: seq<R>, cands: seq<R>, key: R -> K)
    ensures var once := InsertOrIgnore(rows, cands, key);
      InsertOrIgnore(once, cands, key) == once
  {
    var once := InsertOrIgnore(rows, cands, key);
    InsertOrIgnoreKeys(rows, cands, key);
    InsertOrIgnorePresent(once, cands, key);
  }

  /**
   * A second unique constraint (a primary key) also survives, provided the
   * old rows and the candidates together satisfy it.
   */
  lemma {:induction false} InsertOrIgnoreUniqueOther<R, K, L>(rows: seq<R>, cands: seq<R>, key: R -> K, other: R -> L)
    requires UniqueKeys(rows + cands, other)
    ensures UniqueKeys(InsertOrIgnore(rows, cands, key), other)
    decreases |cands|
  {
    if cands == [] {
      assert rows + cands == rows;
    } else {
      var c := cands[0];
      var next := InsertOne(rows, c, key);
      if key(c) in Keys(rows, key) {
        forall i, j | 0 <= i < j < |rows + cands[1..]|
          ensures other((rows + cands[1..])[i]) != other((rows + cands[1..])[j])
        {
          var i' := if i < |rows| then i else i + 1;
          var j' := if j < |rows| then j else j + 1;
          assert (rows + cands[1..])[i] == (rows + cands)[i'];
          assert (rows + cands[1..])[j] == (rows + cands)[j'];
        }
      } else {
        assert next + cands[1..] == rows + cands;
      }
      InsertOrIgnoreUniqueOther(next, cands[1..], key, other);
    }
  }

  /** Distinct key values: the set of keys has one element per row. */
  lemma {:induction false} UniqueKeysCount<R, K>(rows: seq<R>, key: R -> K)
    requires UniqueKeys(rows, key)
    ensures |Keys(rows, key)| == |rows|
    decreases |rows|
  {
    if rows != [] {
      var last := rows[|rows| - 1];
      var init := rows[..|rows| - 1];
      assert rows == init + [last];
      UniqueKeysPrefix(init, rows, key);
      UniqueKeysCount(init, key);
      KeysConcat(init, [last], key);
      assert Keys([last], key) == {key(last)};
      assert key(last) !in Keys(init, key) by {
        forall r | r in init ensures key(r) != key(last) {
          var i :| 0 <= i < |init| && init[i] == r;
          assert rows[i] == r;
        }
      }
    }
  }
}
