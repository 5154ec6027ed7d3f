/**
 * The meaning of the Room annotations that the data-access objects are made of,
 * stated once for any row type `E` given its primary key `idOf` and, where a
 * query orders or filters by it, its `timestamp` column `key`:
 *
 *   - `WHERE p`                         Filter
 *   - `ORDER BY key` / `ORDER BY key DESC LIMIT n`   SortBy, Newest
 *   - `WHERE key BETWEEN lo AND hi ORDER BY key`     Between
 *   - `@PrimaryKey(autoGenerate = true)` with `@Insert(onConflict = REPLACE)`   Insert
 *
 * A table is the sequence of its rows in storage order together with the
 * largest key it has ever assigned (SQLite keeps that in `sqlite_sequence`
 * for an AUTOINCREMENT key, and a DELETE does not reset it).
 */
module Rows {
  import opened Wrappers

  datatype Table<E> = Table(rows: seq<E>, lastId: int)

  /** The result of an insert: the new table and the key the insert returns. */
  datatype Placed<E> = Placed(table: Table<E>, id: int)

  /** `ORDER BY key`: the sequence is non-decreasing in `key`. */
  ghost predicate Ascending<E>(s: seq<E>, key: E -> int) {
    forall i, j :: 0 <= i < j < |s| ==> key(s[i]) <= key(s[j])
  }

  /** `ORDER BY key DESC`: the sequence is non-increasing in `key`. */
  ghost predicate Descending<E>(s: seq<E>, key: E -> int) {
    forall i, j :: 0 <= i < j < |s| ==> key(s[i]) >= key(s[j])
  }

  // ---------------------------------------------------------------------------
  // Queries

  /** `WHERE p`: the rows satisfying `p`, each as often as it is stored, in storage order. */
  function Filter<E(!new)>(s: seq<E>, p: E -> bool): (r: seq<E>)
    ensures |r| <= |s|
    ensures forall x :: x in r <==> x in s && p(x)
    ensures forall x :: multiset(r)[x] == if p(x) then multiset(s)[x] else 0
  {
    if |s| == 0 then []
    else
      assert s == [s[0]] + s[1..];
      (if p(s[0]) then [s[0]] else []) + Filter(s[1..], p)
  }

  /** Inserts `x` before the first row whose key is not smaller; InsertByKeyProperties says
      that this keeps an ordered sequence ordered. */
  function InsertByKey<E>(x: E, s: seq<E>, key: E -> int): seq<E> {
    if |s| == 0 || key(x) <= key(s[0]) then [x] + s
    else [s[0]] + InsertByKey(x, s[1..], key)
  }

  /** Insertion adds exactly `x`, and into an ordered sequence it keeps the order. */
  lemma {:induction false} InsertByKeyProperties<E>(x: E, s: seq<E>, key: E -> int)
    ensures multiset(InsertByKey(x, s, key)) == multiset(s) + multiset{x}
    ensures Ascending(s, key) ==> Ascending(InsertByKey(x, s, key), key)
  {
    if |s| > 0 && key(s[0]) < key(x) {
      var t := InsertByKey(x, s[1..], key);
      InsertByKeyProperties(x, s[1..], key);
      assert s == [s[0]] + s[1..];
      if Ascending(s, key) {
        HeadBelowInsertion(x, s, key, t);
        ConsAscending(s[0], t, key);
      }
    }
  }

  /** The head of an ordered sequence is at most every row of the rest with `x` inserted. */
  lemma HeadBelowInsertion<E>(x: E, s: seq<E>, key: E -> int, t: seq<E>)
    requires |s| > 0 && Ascending(s, key) && key(s[0]) < key(x)
    requires multiset(t) == multiset(s[1..]) + multiset{x}
    ensures forall y :: y in t ==> key(s[0]) <= key(y)
  {
    forall y | y in t
      ensures key(s[0]) <= key(y)
    {
      assert y in multiset(t);
      if y != x {
        assert y in multiset(s[1..]);
        var j :| 0 <= j < |s[1..]| && s[1..][j] == y;
        assert s[j + 1] == y;
      }
    }
  }

  lemma ConsAscending<E>(h: E, t: seq<E>, key: E -> int)
    requires Ascending(t, key)
    requires forall y :: y in t ==> key(h) <= key(y)
    ensures Ascending([h] + t, key)
  {
    var r := [h] + t;
    forall i, j | 0 <= i < j < |r| ensures key(r[i]) <= key(r[j]) {
      if i == 0 {
        assert r[j] == t[j - 1];
      } else {
        assert r[i] == t[i - 1] && r[j] == t[j - 1];
      }
    }
  }

  /** A stable insertion sort by `key`: the same rows, ordered by `key`. */
  function SortBy<E>(s: seq<E>, key: E -> int): (r: seq<E>)
    ensures Ascending(r, key)
    ensures multiset(r) == multiset(s)
    ensures |r| == |s|
  {
    if |s| == 0 then []
    else
      assert s == [s[0]] + s[1..];
      var r := InsertByKey(s[0], SortBy(s[1..], key), key);
      InsertByKeyProperties(s[0], SortBy(s[1..], key), key);
      assert |r| == |multiset(r)| == |multiset(s)| == |s|;
      r
  }

  /** `LIMIT n`; SQLite reads a negative limit as "no limit". */
  function Limit<E>(s: seq<E>, n: int): seq<E> {
    if 0 <= n < |s| then s[..n] else s
  }

  /** `WHERE key BETWEEN lo AND hi ORDER BY key`: the rows whose key lies in the closed
      interval [lo, hi], in non-decreasing key order; BetweenProperties says which rows. */
  function Between<E>(s: seq<E>, key: E -> int, lo: int, hi: int): seq<E>
  {
    if |s| == 0 then []
    else
      var rest := Between(s[1..], key, lo, hi);
      if lo <= key(s[0]) <= hi then InsertByKey(s[0], rest, key) else rest
  }

  /** Exactly the rows whose key lies in [lo, hi], each as often as it is stored, in key
      order; none when the interval is empty. */
  lemma BetweenProperties<E>(s: seq<E>, key: E -> int, lo: int, hi: int)
    ensures var r := Between(s, key, lo, hi);
      && Ascending(r, key)
      && (forall x :: multiset(r)[x] == if lo <= key(x) <= hi then multiset(s)[x] else 0)
      && (forall x :: x in r <==> x in s && lo <= key(x) <= hi)
      && (lo > hi ==> r == [])
  {
    BetweenAscending(s, key, lo, hi);
    BetweenCounts(s, key, lo, hi);
    var r := Between(s, key, lo, hi);
    assert forall x :: x in r <==> x in multiset(r);
    assert forall x :: x in s <==> x in multiset(s);
  }

  lemma {:induction false} BetweenAscending<E>(s: seq<E>, key: E -> int, lo: int, hi: int)
    ensures Ascending(Between(s, key, lo, hi), key)
  {
    if |s| > 0 {
      BetweenAscending(s[1..], key, lo, hi);
      InsertByKeyProperties(s[0], Between(s[1..], key, lo, hi), key);
    }
  }

  lemma {:induction false} BetweenCounts<E>(s: seq<E>, key: E -> int, lo: int, hi: int)
    ensures forall x :: multiset(Between(s, key, lo, hi))[x] == if lo <= key(x) <= hi then multiset(s)[x] else 0
  {
    if |s| > 0 {
      BetweenCounts(s[1..], key, lo, hi);
      InsertByKeyProperties(s[0], Between(s[1..], key, lo, hi), key);
      assert s == [s[0]] + s[1..];
    }
  }

  /** One more row adds one matching row when it satisfies `p`, and none otherwise. */
  lemma {:induction false} FilterSnoc<E(!new)>(s: seq<E>, x: E, p: E -> bool)
    ensures |Filter(s + [x], p)| == |Filter(s, p)| + if p(x) then 1 else 0
  {
    if |s| == 0 {
      assert s + [x] == [x];
    } else {
      assert (s + [x])[0] == s[0] && (s + [x])[1..] == s[1..] + [x];
      FilterSnoc(s[1..], x, p);
    }
  }

  /** The same, read from the end of a non-empty sequence. */
  lemma FilterInit<E(!new)>(s: seq<E>, p: E -> bool)
    requires |s| > 0
    ensures |Filter(s, p)| == |Filter(s[..|s| - 1], p)| + if p(s[|s| - 1]) then 1 else 0
  {
    assert s == s[..|s| - 1] + [s[|s| - 1]];
    FilterSnoc(s[..|s| - 1], s[|s| - 1], p);
  }

  /** `ORDER BY key DESC LIMIT n`: at most `n` rows (all of them for a negative `n`),
      newest first, and no row left out is newer than a row returned. */
  function Newest<E>(s: seq<E>, key: E -> int, n: int): (r: seq<E>)
    ensures |r| == if 0 <= n < |s| then n else |s|
    ensures Descending(r, key)
    ensures multiset(r) <= multiset(s)
    ensures forall x, y :: x in multiset(s) - multiset(r) && y in r ==> key(x) <= key(y)
  {
    var sorted := SortBy(s, x => -key(x));
    var r := Limit(sorted, n);
    NewestProperties(s, sorted, r, key);
    r
  }

  /** `WHERE p ORDER BY key DESC LIMIT n`: only rows satisfying `p`, `n` of them or all the
      matching rows when there are fewer (all of them for a negative `n`), newest first, and
      no row satisfying `p` that is left out is newer than a row returned. */
  function NewestWhere<E(!new)>(s: seq<E>, p: E -> bool, key: E -> int, n: int): (r: seq<E>)
    ensures |r| == if 0 <= n < |Filter(s, p)| then n else |Filter(s, p)|
    ensures multiset(r) <= multiset(s)
    ensures forall x :: x in r ==> x in s && p(x)
    ensures Descending(r, key)
    ensures forall x, y :: x in multiset(s) - multiset(r) && p(x) && y in r ==> key(x) <= key(y)
    ensures n != 0 ==> (r == [] <==> forall x :: x in s ==> !p(x))
  {
    var matching := Filter(s, p);
    FilteredNewest(s, p, key, n);
    Newest(matching, key, n)
  }

  lemma FilteredNewest<E(!new)>(s: seq<E>, p: E -> bool, key: E -> int, n: int)
    ensures var r := Newest(Filter(s, p), key, n);
      && (forall x :: x in r ==> x in s && p(x))
      && (forall x, y :: x in multiset(s) - multiset(r) && p(x) && y in r ==> key(x) <= key(y))
      && (n != 0 ==> (r == [] <==> forall x :: x in s ==> !p(x)))
  {
    var matching := Filter(s, p);
    var r := Newest(matching, key, n);
    assert matching == [] <==> forall x :: x in s ==> !p(x) by {
      if matching != [] { assert matching[0] in matching; }
    }
    forall x | x in multiset(s) - multiset(r) && p(x)
      ensures x in multiset(matching) - multiset(r)
    {
      assert multiset(matching)[x] == multiset(s)[x];
    }
    assert forall x :: x in r ==> x in multiset(r);
  }

  /** `WHERE p ORDER BY key DESC LIMIT 1` read as a nullable row: null exactly when no row
      satisfies `p`, otherwise a row satisfying `p` with the largest key among them. */
  function LatestWhere<E(!new)>(s: seq<E>, p: E -> bool, key: E -> int): (r: Option<E>)
    ensures r.None? <==> forall x :: x in s ==> !p(x)
    ensures r.Some? ==> r.value in s && p(r.value)
    ensures r.Some? ==> forall x :: x in s && p(x) ==> key(x) <= key(r.value)
  {
    var newest := NewestWhere(s, p, key, 1);
    if |newest| == 0 then None
    else
      assert newest[0] in newest && newest == [newest[0]];
      SoleNewestIsLatest(s, p, key, newest[0]);
      Some(newest[0])
  }

  /** A row that no other matching row outdates is the latest of the matching rows. */
  lemma SoleNewestIsLatest<E>(s: seq<E>, p: E -> bool, key: E -> int, y: E)
    requires forall x :: x in multiset(s) - multiset([y]) && p(x) ==> key(x) <= key(y)
    ensures forall x :: x in s && p(x) ==> key(x) <= key(y)
  {
    forall x | x in s && p(x) ensures key(x) <= key(y) {
      if x != y {
        assert multiset([y])[x] == 0;
        assert multiset(s)[x] > 0;
        assert x in multiset(s) - multiset([y]);
      }
    }
  }

  lemma NewestProperties<E>(s: seq<E>, sorted: seq<E>, r: seq<E>, key: E -> int)
    requires Ascending(sorted, x => -key(x)) && multiset(sorted) == multiset(s)
    requires r <= sorted
    ensures Descending(r, key)
    ensures multiset(r) <= multiset(s)
    ensures forall x, y :: x in multiset(s) - multiset(r) && y in r ==> key(x) <= key(y)
  {
    NegatedKeyDescends(sorted, key);
    PrefixRemainder(s, sorted, r);
    PrefixDominates(sorted, r, key);
  }

  lemma NegatedKeyDescends<E>(s: seq<E>, key: E -> int)
    requires Ascending(s, x => -key(x))
    ensures Descending(s, key)
  {
    forall i, j | 0 <= i < j < |s| ensures key(s[i]) >= key(s[j]) {
      assert (x => -key(x))(s[i]) <= (x => -key(x))(s[j]);
    }
  }

  /** What a prefix leaves out of a permutation of `s` is the rest of that permutation. */
  lemma PrefixRemainder<E>(s: seq<E>, sorted: seq<E>, r: seq<E>)
    requires multiset(sorted) == multiset(s)
    requires r <= sorted
    ensures multiset(r) <= multiset(s)
    ensures multiset(s) - multiset(r) == multiset(sorted[|r|..])
  {
    var rest := sorted[|r|..];
    assert sorted == r + rest;
    assert multiset(sorted) == multiset(r) + multiset(rest);
  }

  /** In a sequence ordered newest first, every row of a prefix is at least as new as any row after it. */
  lemma PrefixDominates<E>(sorted: seq<E>, r: seq<E>, key: E -> int)
    requires Descending(sorted, key)
    requires r <= sorted
    ensures Descending(r, key)
    ensures forall x, y :: x in sorted[|r|..] && y in r ==> key(x) <= key(y)
  {
    var k := |r|;
    forall x, y | x in sorted[k..] && y in r
      ensures key(x) <= key(y)
    {
      var j :| 0 <= j < |sorted[k..]| && sorted[k..][j] == x;
      var i :| 0 <= i < |r| && r[i] == y;
      assert sorted[i] == y && sorted[k + j] == x;
    }
  }

  // ---------------------------------------------------------------------------
  // Tables keyed by an auto-generated primary key

  /** No two stored rows share a primary key. */
  ghost predicate UniqueKeys<E>(s: seq<E>, idOf: E -> int) {
    forall i, j :: 0 <= i < j < |s| ==> idOf(s[i]) != idOf(s[j])
  }

  /** The table invariant: distinct keys, no stored key is 0 (Room's "unassigned"), and
      every stored key is at most the largest key ever assigned. */
  ghost predicate TableInvariant<E>(t: Table<E>, idOf: E -> int) {
    && 0 <= t.lastId
    && UniqueKeys(t.rows, idOf)
    && forall x :: x in t.rows ==> idOf(x) != 0 && idOf(x) <= t.lastId
  }

  /** The table seen as a map from primary key to row; one entry per stored row. */
  function ById<E>(s: seq<E>, idOf: E -> int): (m: map<int, E>)
    requires UniqueKeys(s, idOf)
    ensures |m| == |s|
    ensures forall x :: x in s ==> idOf(x) in m && m[idOf(x)] == x
    ensures forall k :: k in m ==> m[k] in s && idOf(m[k]) == k
  {
    if |s| == 0 then map[]
    else
      var init, last := s[..|s| - 1], s[|s| - 1];
      LastKeyIsNew(s, idOf);
      assert s == init + [last];
      ById(init, idOf)[idOf(last) := last]
  }

  /** With distinct keys, the last row's key is not used by the rows before it. */
  lemma LastKeyIsNew<E>(s: seq<E>, idOf: E -> int)
    requires |s| > 0 && UniqueKeys(s, idOf)
    ensures UniqueKeys(s[..|s| - 1], idOf)
    ensures forall x :: x in s[..|s| - 1] ==> idOf(x) != idOf(s[|s| - 1])
  {
    var init := s[..|s| - 1];
    forall x | x in init ensures idOf(x) != idOf(s[|s| - 1]) {
      var i :| 0 <= i < |init| && init[i] == x;
    }
  }

  /** Position of the row stored under key `id`, if any. */
  function IndexOf<E>(s: seq<E>, idOf: E -> int, id: int): (r: Option<nat>)
    ensures r.Some? ==> r.value < |s| && idOf(s[r.value]) == id
    ensures r.None? ==> forall x :: x in s ==> idOf(x) != id
  {
    if |s| == 0 then None
    else if idOf(s[|s| - 1]) == id then Some(|s| - 1)
    else
      assert forall x :: x in s ==> x in s[..|s| - 1] || x == s[|s| - 1];
      IndexOf(s[..|s| - 1], idOf, id)
  }

  /** The row an insert stores: a row whose key is 0 takes the next key. */
  function Keyed<E>(t: Table<E>, idOf: E -> int, withId: (E, int) -> E, row: E): E {
    if idOf(row) == 0 then withId(row, t.lastId + 1) else row
  }

  /**
   * `@Insert(onConflict = OnConflictStrategy.REPLACE)` on an auto-generated key: a row
   * whose key is 0 is stored under a key never used before (one past the largest ever
   * assigned), at the end; any other row is stored under its own key. The returned key is
   * the stored row's key, never 0. InsertReplacesByKey says what happens to the other rows.
   */
  function Insert<E(!new)>(t: Table<E>, idOf: E -> int, withId: (E, int) -> E, row: E): (p: Placed<E>)
    requires TableInvariant(t, idOf)
    requires idOf(row) == 0 ==> idOf(withId(row, t.lastId + 1)) == t.lastId + 1
    ensures TableInvariant(p.table, idOf)
    ensures p.id != 0 && idOf(Keyed(t, idOf, withId, row)) == p.id
    ensures idOf(row) != 0 ==> p.id == idOf(row)
    ensures idOf(row) == 0 ==> p.id == t.lastId + 1 && p.table.rows == t.rows + [Keyed(t, idOf, withId, row)]
    ensures p.table.lastId == if p.id > t.lastId then p.id else t.lastId
  {
    var stored := Keyed(t, idOf, withId, row);
    var id := idOf(stored);
    var lastId := if id > t.lastId then id else t.lastId;
    match IndexOf(t.rows, idOf, id)
    case Some(i) =>
      ReplaceKeepsKeysUnique(t.rows, idOf, i, stored);
      Placed(Table(t.rows[i := stored], lastId), id)
    case None =>
      AppendKeepsKeysUnique(t.rows, idOf, stored);
      Placed(Table(t.rows + [stored], lastId), id)
  }

  /** REPLACE seen through the keys: the stored row takes the entry of its key and every other
      key keeps its row; the table grows by one row exactly when the key was not stored, and
      then the row goes at the end. */
  lemma InsertReplacesByKey<E(!new)>(t: Table<E>, idOf: E -> int, withId: (E, int) -> E, row: E)
    requires TableInvariant(t, idOf)
    requires idOf(row) == 0 ==> idOf(withId(row, t.lastId + 1)) == t.lastId + 1
    ensures var p := Insert(t, idOf, withId, row);
      && ById(p.table.rows, idOf) == ById(t.rows, idOf)[p.id := Keyed(t, idOf, withId, row)]
      && |p.table.rows| == |t.rows| + (if p.id in ById(t.rows, idOf) then 0 else 1)
      && (p.id !in ById(t.rows, idOf) ==> p.table.rows == t.rows + [Keyed(t, idOf, withId, row)])
  {
    var stored := Keyed(t, idOf, withId, row);
    match IndexOf(t.rows, idOf, idOf(stored))
    case Some(i) =>
      ReplaceKeepsKeysUnique(t.rows, idOf, i, stored);
      ReplaceRowById(t.rows, idOf, i, stored);
      assert t.rows[i] in t.rows;
    case None =>
      AppendKeepsKeysUnique(t.rows, idOf, stored);
      AppendRowById(t.rows, idOf, stored);
  }

  /** REPLACE on a stored key overwrites the row in place and the keys stay distinct. */
  lemma ReplaceKeepsKeysUnique<E>(s: seq<E>, idOf: E -> int, i: nat, stored: E)
    requires UniqueKeys(s, idOf)
    requires i < |s| && idOf(s[i]) == idOf(stored)
    ensures UniqueKeys(s[i := stored], idOf)
    ensures forall x :: x in s[i := stored] ==> x in s || x == stored
  {
    var rows := s[i := stored];
    assert forall j :: 0 <= j < |rows| ==> idOf(rows[j]) == idOf(s[j]);
    forall x | x in rows ensures x in s || x == stored {
      var j :| 0 <= j < |rows| && rows[j] == x;
      if j != i { assert s[j] == x; }
    }
  }

  lemma ReplaceRowById<E>(s: seq<E>, idOf: E -> int, i: nat, stored: E)
    requires i < |s| && idOf(s[i]) == idOf(stored)
    requires UniqueKeys(s, idOf) && UniqueKeys(s[i := stored], idOf)
    ensures ById(s[i := stored], idOf) == ById(s, idOf)[idOf(stored) := stored]
  {
    var rows := s[i := stored];
    ReplacedKeysWereStored(s, idOf, i, stored, rows);
    StoredKeysAreReplaced(s, idOf, i, stored, rows);
    MapUpdateExtensionality(ById(rows, idOf), ById(s, idOf), idOf(stored), stored);
  }

  lemma ReplacedKeysWereStored<E>(s: seq<E>, idOf: E -> int, i: nat, stored: E, rows: seq<E>)
    requires i < |s| && idOf(s[i]) == idOf(stored) && rows == s[i := stored]
    requires UniqueKeys(s, idOf) && UniqueKeys(rows, idOf)
    ensures forall k :: k in ById(rows, idOf) ==> k == idOf(stored) || k in ById(s, idOf)
  {
    forall k | k in ById(rows, idOf) ensures k == idOf(stored) || k in ById(s, idOf) {
      var j :| 0 <= j < |rows| && rows[j] == ById(rows, idOf)[k];
      if j != i {
        assert s[j] in s;
      }
    }
  }

  lemma StoredKeysAreReplaced<E>(s: seq<E>, idOf: E -> int, i: nat, stored: E, rows: seq<E>)
    requires i < |s| && idOf(s[i]) == idOf(stored) && rows == s[i := stored]
    requires UniqueKeys(s, idOf) && UniqueKeys(rows, idOf)
    ensures idOf(stored) in ById(rows, idOf) && ById(rows, idOf)[idOf(stored)] == stored
    ensures forall k :: k in ById(s, idOf) && k != idOf(stored) ==> k in ById(rows, idOf) && ById(rows, idOf)[k] == ById(s, idOf)[k]
  {
    assert rows[i] == stored;
    forall k | k in ById(s, idOf) && k != idOf(stored)
      ensures k in ById(rows, idOf) && ById(rows, idOf)[k] == ById(s, idOf)[k]
    {
      var x := ById(s, idOf)[k];
      var j :| 0 <= j < |s| && s[j] == x;
      assert rows[j] == x;
    }
  }

  /** A map agreeing with `m` everywhere except at `k0`, where it holds `v`, is `m[k0 := v]`. */
  lemma MapUpdateExtensionality<K, V>(a: map<K, V>, m: map<K, V>, k0: K, v: V)
    requires forall k :: k in a ==> k == k0 || k in m
    requires k0 in a && a[k0] == v
    requires forall k :: k in m && k != k0 ==> k in a && a[k] == m[k]
    ensures a == m[k0 := v]
  {
    assert a.Keys == m[k0 := v].Keys;
  }

  /** An insert under a key not stored yet adds the row at the end, keys still distinct. */
  lemma AppendKeepsKeysUnique<E>(s: seq<E>, idOf: E -> int, stored: E)
    requires UniqueKeys(s, idOf)
    requires forall x :: x in s ==> idOf(x) != idOf(stored)
    ensures UniqueKeys(s + [stored], idOf)
  {
    var rows := s + [stored];
    forall i, j | 0 <= i < j < |rows| ensures idOf(rows[i]) != idOf(rows[j]) {
      if j == |s| { assert rows[i] in s; }
    }
  }

  lemma AppendRowById<E>(s: seq<E>, idOf: E -> int, stored: E)
    requires UniqueKeys(s, idOf) && UniqueKeys(s + [stored], idOf)
    ensures ById(s + [stored], idOf) == ById(s, idOf)[idOf(stored) := stored]
  {
    assert (s + [stored])[..|s|] == s;
  }

  /** `@Insert(onConflict = REPLACE)` of a list: the rows inserted one after another. */
  function InsertAll<E(!new)>(t: Table<E>, idOf: E -> int, withId: (E, int) -> E, rows: seq<E>): (r: Table<E>)
    requires TableInvariant(t, idOf)
    requires forall e, k :: idOf(withId(e, k)) == k
    ensures TableInvariant(r, idOf)
    ensures t.lastId <= r.lastId
    ensures |t.rows| <= |r.rows| <= |t.rows| + |rows|
    ensures ById(t.rows, idOf).Keys <= ById(r.rows, idOf).Keys
    decreases |rows|
  {
    if |rows| == 0 then t
    else
      InsertReplacesByKey(t, idOf, withId, rows[0]);
      InsertAll(Insert(t, idOf, withId, rows[0]).table, idOf, withId, rows[1..])
  }

  /** `DELETE ... WHERE NOT keep`: the rows kept are exactly those satisfying `keep`. */
  lemma {:induction false} FilterKeepsKeysUnique<E(!new)>(s: seq<E>, idOf: E -> int, keep: E -> bool)
    requires UniqueKeys(s, idOf)
    ensures UniqueKeys(Filter(s, keep), idOf)
  {
    if |s| > 0 {
      var tail := Filter(s[1..], keep);
      assert UniqueKeys(s[1..], idOf);
      FilterKeepsKeysUnique(s[1..], idOf, keep);
      HeadKeyNotInTail(s, idOf, tail);
      var r := Filter(s, keep);
      if keep(s[0]) {
        assert r == [s[0]] + tail;
        ConsKeepsUnique(s[0], tail, idOf);
      } else {
        assert r == tail;
      }
    }
  }

  lemma HeadKeyNotInTail<E>(s: seq<E>, idOf: E -> int, tail: seq<E>)
    requires UniqueKeys(s, idOf) && |s| > 0
    requires forall x :: x in tail ==> x in s[1..]
    ensures forall x :: x in tail ==> idOf(x) != idOf(s[0])
  {
    forall x | x in tail ensures idOf(x) != idOf(s[0]) {
      var j :| 0 <= j < |s[1..]| && s[1..][j] == x;
      assert s[j + 1] == x;
    }
  }

  lemma ConsKeepsUnique<E>(h: E, tail: seq<E>, idOf: E -> int)
    requires UniqueKeys(tail, idOf)
    requires forall x :: x in tail ==> idOf(x) != idOf(h)
    ensures UniqueKeys([h] + tail, idOf)
  {
    var r := [h] + tail;
    forall i, j | 0 <= i < j < |r| ensures idOf(r[i]) != idOf(r[j]) {
      assert r[j] == tail[j - 1];
      if i > 0 { assert r[i] == tail[i - 1]; }
    }
  }

  /** Deleting rows keeps the table invariant. */
  lemma DeletePreservesInvariant<E(!new)>(t: Table<E>, idOf: E -> int, keep: E -> bool)
    requires TableInvariant(t, idOf)
    ensures TableInvariant(Table(Filter(t.rows, keep), t.lastId), idOf)
  {
    FilterKeepsKeysUnique(t.rows, idOf, keep);
  }
}
