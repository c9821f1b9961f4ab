/** Generic facts about a table of records keyed by a string id: the
    primary-key constraint, the keyed view of a table, lookup by id,
    removal by id, and the descending sort that every read applies. */
module Tables {
  import opened Common

  /** The result of a whole-table replace: either every row went in, or the
      insert of row `at` broke the primary key and the rows before it stay. */
  datatype SaveOutcome = Saved | ConstraintViolation(at: nat)

  /** The primary-key constraint: no two rows share an id. */
  ghost predicate UniqueIds<T>(s: seq<T>, idOf: T -> string)
  {
    forall i, j :: 0 <= i < j < |s| ==> idOf(s[i]) != idOf(s[j])
  }

  /** The ids present in a table. */
  function Ids<T>(s: seq<T>, idOf: T -> string): set<string>
  {
    set i | 0 <= i < |s| :: idOf(s[i])
  }

  /** A table as the collection it stands for: each id mapped to its row. */
  ghost function Keyed<T>(s: seq<T>, idOf: T -> string): (m: map<string, T>)
    requires UniqueIds(s, idOf)
    ensures m.Keys == Ids(s, idOf)
    ensures forall i :: 0 <= i < |s| ==> m[idOf(s[i])] == s[i]
  {
    map i | 0 <= i < |s| :: idOf(s[i]) := s[i]
  }

  /** `findIndex(r => r.id === id)`: the first index holding `id`, or -1. */
  function IndexOfId<T>(s: seq<T>, idOf: T -> string, id: string): (r: int)
    ensures -1 <= r < |s|
    ensures r >= 0 ==> idOf(s[r]) == id && forall j :: 0 <= j < r ==> idOf(s[j]) != id
    ensures r < 0 <==> id !in Ids(s, idOf)
  {
    if |s| == 0 then -1
    else if idOf(s[0]) == id then 0
    else
      var r := IndexOfId(s[1..], idOf, id);
      assert forall j :: 1 <= j < |s| ==> s[1..][j - 1] == s[j];
      if r < 0 then -1 else r + 1
  }

  /** `filter(r => r.id !== id)`: every row with another id, as often as
      it occurs, and nothing else (the order is `WithoutAppend`). */
  function Without<T>(s: seq<T>, idOf: T -> string, id: string): (r: seq<T>)
    ensures |r| <= |s|
    ensures forall i :: 0 <= i < |r| ==> r[i] in s && idOf(r[i]) != id
    ensures forall i :: 0 <= i < |s| && idOf(s[i]) != id ==> multiset(r)[s[i]] == multiset(s)[s[i]]
    ensures forall i :: 0 <= i < |s| && idOf(s[i]) != id ==> s[i] in r
    ensures id !in Ids(s, idOf) ==> r == s
  {
    if |s| == 0 then []
    else
      var t := Without(s[1..], idOf, id);
      var r := if idOf(s[0]) == id then t else [s[0]] + t;
      WithoutStep(s, idOf, id, t, r);
      r
  }

  /** One step of `Without`: what holds of the filtered tail holds of the
      filtered sequence. */
  lemma WithoutStep<T>(s: seq<T>, idOf: T -> string, id: string, t: seq<T>, r: seq<T>)
    requires |s| > 0 && r == if idOf(s[0]) == id then t else [s[0]] + t
    requires |t| <= |s| - 1
    requires forall i :: 0 <= i < |t| ==> t[i] in s[1..] && idOf(t[i]) != id
    requires forall i :: 0 <= i < |s| - 1 && idOf(s[1..][i]) != id ==> multiset(t)[s[1..][i]] == multiset(s[1..])[s[1..][i]]
    requires id !in Ids(s[1..], idOf) ==> t == s[1..]
    ensures |r| <= |s|
    ensures forall i :: 0 <= i < |r| ==> r[i] in s && idOf(r[i]) != id
    ensures forall i :: 0 <= i < |s| && idOf(s[i]) != id ==> multiset(r)[s[i]] == multiset(s)[s[i]]
    ensures forall i :: 0 <= i < |s| && idOf(s[i]) != id ==> s[i] in r
    ensures id !in Ids(s, idOf) ==> r == s
  {
    assert s == [s[0]] + s[1..];
    forall i | 0 <= i < |s| && idOf(s[i]) != id ensures multiset(r)[s[i]] == multiset(s)[s[i]] {
      var x := s[i];
      if x == s[0] {
        if x in s[1..] {
          var j :| 0 <= j < |s| - 1 && s[1..][j] == x;
        }
      } else {
        assert x in s[1..] by { assert s[1..][i - 1] == x; }
      }
    }
    if id !in Ids(s, idOf) {
      assert id !in Ids(s[1..], idOf) by {
        forall k | 0 <= k < |s| - 1 ensures idOf(s[1..][k]) != id { assert s[1..][k] == s[k + 1]; }
      }
      assert idOf(s[0]) != id;
    }
  }

  /** Filtering keeps the order: filtering a concatenation filters each part. */
  lemma {:induction false} WithoutAppend<T>(a: seq<T>, b: seq<T>, idOf: T -> string, id: string)
    ensures Without(a + b, idOf, id) == Without(a, idOf, id) + Without(b, idOf, id)
  {
    if |a| > 0 {
      assert (a + b)[0] == a[0] && (a + b)[1..] == a[1..] + b;
      WithoutAppend(a[1..], b, idOf, id);
      if idOf(a[0]) != id {
        assert [a[0]] + (Without(a[1..], idOf, id) + Without(b, idOf, id))
            == ([a[0]] + Without(a[1..], idOf, id)) + Without(b, idOf, id);
      }
    } else {
      assert a + b == b;
    }
  }

  lemma UniqueCons<T>(h: T, t: seq<T>, idOf: T -> string)
    ensures UniqueIds([h] + t, idOf) <==>
      UniqueIds(t, idOf) && forall k :: 0 <= k < |t| ==> idOf(t[k]) != idOf(h)
  {
    var s := [h] + t;
    assert forall k :: 0 <= k < |t| ==> s[k + 1] == t[k];
    if UniqueIds(t, idOf) && forall k :: 0 <= k < |t| ==> idOf(t[k]) != idOf(h) {
      forall i, j | 0 <= i < j < |s| ensures idOf(s[i]) != idOf(s[j]) {
        assert s[j] == t[j - 1];
        if i > 0 {
          assert s[i] == t[i - 1];
        }
      }
    }
    if UniqueIds(s, idOf) {
      forall i, j | 0 <= i < j < |t| ensures idOf(t[i]) != idOf(t[j]) {
        assert s[i + 1] == t[i] && s[j + 1] == t[j];
      }
      forall k | 0 <= k < |t| ensures idOf(t[k]) != idOf(h) {
        assert s[k + 1] == t[k] && s[0] == h;
      }
    }
  }

  /** Removing the rows with one id keeps the primary key. */
  lemma {:induction false} UniqueWithout<T>(s: seq<T>, idOf: T -> string, id: string)
    requires UniqueIds(s, idOf)
    ensures UniqueIds(Without(s, idOf, id), idOf)
  {
    if |s| > 0 {
      var t := s[1..];
      assert s == [s[0]] + t;
      UniqueCons(s[0], t, idOf);
      UniqueWithout(t, idOf, id);
      if idOf(s[0]) != id {
        var w := Without(t, idOf, id);
        forall k | 0 <= k < |w| ensures idOf(w[k]) != idOf(s[0]) {
          var p :| 0 <= p < |t| && t[p] == w[k];
        }
        UniqueCons(s[0], w, idOf);
      }
    }
  }

  /** Removing an id from a keyed table removes exactly that key. */
  lemma KeyedWithout<T>(s: seq<T>, idOf: T -> string, id: string)
    requires UniqueIds(s, idOf)
    ensures UniqueIds(Without(s, idOf, id), idOf)
    ensures Keyed(Without(s, idOf, id), idOf) == Keyed(s, idOf) - {id}
  {
    UniqueWithout(s, idOf, id);
    KeyedEqual(Without(s, idOf, id), s, idOf, id);
  }

  /** A row of a keyed table is what its id maps to. */
  lemma KeyedHas<T>(s: seq<T>, x: T, idOf: T -> string)
    requires UniqueIds(s, idOf) && x in s
    ensures idOf(x) in Keyed(s, idOf) && Keyed(s, idOf)[idOf(x)] == x
  {
    var i :| 0 <= i < |s| && s[i] == x;
  }

  /** What an id maps to is a row of the table carrying that id. */
  lemma KeyedFrom<T>(s: seq<T>, k: string, idOf: T -> string)
    requires UniqueIds(s, idOf) && k in Keyed(s, idOf)
    ensures Keyed(s, idOf)[k] in s && idOf(Keyed(s, idOf)[k]) == k
  {
    var i :| 0 <= i < |s| && idOf(s[i]) == k;
  }

  /** `r` holds exactly the rows of `s` whose id is not `id`. */
  lemma KeyedEqual<T>(r: seq<T>, s: seq<T>, idOf: T -> string, id: string)
    requires UniqueIds(r, idOf) && UniqueIds(s, idOf)
    requires forall i :: 0 <= i < |r| ==> r[i] in s && idOf(r[i]) != id
    requires forall i :: 0 <= i < |s| && idOf(s[i]) != id ==> s[i] in r
    ensures Keyed(r, idOf) == Keyed(s, idOf) - {id}
  {
    var a, b := Keyed(r, idOf), Keyed(s, idOf) - {id};
    forall k | k in a ensures k in b && a[k] == b[k] {
      KeyedFrom(r, k, idOf);
      KeyedHas(s, a[k], idOf);
    }
    forall k | k in b ensures k in a {
      KeyedFrom(s, k, idOf);
      KeyedHas(r, b[k], idOf);
    }
    assert a.Keys == b.Keys;
  }

  /** Replacing the row at an index by one with the same id updates that key only. */
  lemma KeyedUpdate<T>(s: seq<T>, i: int, v: T, idOf: T -> string)
    requires UniqueIds(s, idOf)
    requires 0 <= i < |s| && idOf(v) == idOf(s[i])
    ensures UniqueIds(s[i := v], idOf)
    ensures Keyed(s[i := v], idOf) == Keyed(s, idOf)[idOf(v) := v]
  {
    var t := s[i := v];
    assert forall j :: 0 <= j < |s| ==> idOf(t[j]) == idOf(s[j]);
    assert UniqueIds(t, idOf);
    assert Ids(t, idOf) == Ids(s, idOf);
  }

  /** Appending a row with a new id keeps the primary key. */
  lemma UniqueAppend<T>(s: seq<T>, v: T, idOf: T -> string)
    requires UniqueIds(s, idOf) && idOf(v) !in Ids(s, idOf)
    ensures UniqueIds(s + [v], idOf)
  {
    var t := s + [v];
    assert forall j :: 0 <= j < |s| ==> t[j] == s[j];
  }

  /** Appending a row with a new id adds that key only. */
  lemma KeyedAppend<T>(s: seq<T>, v: T, idOf: T -> string)
    requires UniqueIds(s, idOf) && idOf(v) !in Ids(s, idOf)
    ensures UniqueIds(s + [v], idOf)
    ensures Keyed(s + [v], idOf) == Keyed(s, idOf)[idOf(v) := v]
  {
    var t := s + [v];
    assert forall j :: 0 <= j < |s| ==> t[j] == s[j];
    UniqueAppend(s, v, idOf);
    assert Ids(t, idOf) == Ids(s, idOf) + {idOf(v)} by {
      assert idOf(t[|s|]) == idOf(v);
    }
  }

  /** Under the primary key each row occurs once. */
  lemma {:induction false} UniqueOccursOnce<T>(s: seq<T>, idOf: T -> string, x: T)
    requires UniqueIds(s, idOf)
    ensures multiset(s)[x] <= 1
  {
    if |s| > 0 {
      var p := s[..|s| - 1];
      assert s == p + [s[|s| - 1]];
      assert UniqueIds(p, idOf);
      UniqueOccursOnce(p, idOf, x);
      if x == s[|s| - 1] {
        assert x !in p;
      }
    }
  }

  /** Reordering a table keeps the primary key. */
  lemma UniquePermutation<T>(a: seq<T>, b: seq<T>, idOf: T -> string)
    requires UniqueIds(a, idOf) && multiset(a) == multiset(b)
    ensures UniqueIds(b, idOf)
  {
    forall i, j | 0 <= i < j < |b| ensures idOf(b[i]) != idOf(b[j]) {
      if b[i] == b[j] {
        assert b == b[..j] + b[j..];
        assert b[i] in multiset(b[..j]) && b[j] in multiset(b[j..]);
        assert multiset(b)[b[i]] >= 2;
        UniqueOccursOnce(a, idOf, b[i]);
      } else {
        assert b[i] in multiset(a) && b[j] in multiset(a);
        var p :| 0 <= p < |a| && a[p] == b[i];
        var q :| 0 <= q < |a| && a[q] == b[j];
        assert p != q;
      }
    }
  }

  /** A permutation has the same elements. */
  lemma InPermutation<T>(a: seq<T>, b: seq<T>, x: T)
    requires multiset(a) == multiset(b) && x in a
    ensures x in b
  {
    assert x in multiset(a);
  }

  /** Reordering a keyed table keeps the primary key and the collection. */
  lemma KeyedPermutation<T>(a: seq<T>, b: seq<T>, idOf: T -> string)
    requires UniqueIds(a, idOf) && multiset(a) == multiset(b)
    ensures UniqueIds(b, idOf)
    ensures Keyed(b, idOf) == Keyed(a, idOf)
  {
    UniquePermutation(a, b, idOf);
    var ka, kb := Keyed(a, idOf), Keyed(b, idOf);
    forall k | k in kb ensures k in ka && ka[k] == kb[k] {
      KeyedFrom(b, k, idOf);
      InPermutation(b, a, kb[k]);
      KeyedHas(a, kb[k], idOf);
    }
    forall k | k in ka ensures k in kb {
      KeyedFrom(a, k, idOf);
      InPermutation(a, b, ka[k]);
      KeyedHas(b, ka[k], idOf);
    }
    assert ka.Keys == kb.Keys;
  }

  /** Every later element is not later than every earlier one. */
  ghost predicate SortedDesc<T>(s: seq<T>, key: T -> Option<Date>)
  {
    forall i, j :: 0 <= i < j < |s| ==> DayLe(key(s[j]), key(s[i]))
  }

  /** Inserts `x` into a descending sequence, before the first element not later than it. */
  function InsertDesc<T>(x: T, s: seq<T>, key: T -> Option<Date>): (r: seq<T>)
    requires SortedDesc(s, key)
    ensures SortedDesc(r, key)
    ensures multiset(r) == multiset(s) + multiset{x}
  {
    if |s| == 0 || DayLe(key(s[0]), key(x)) then
      PrependSorted(x, s, key);
      [x] + s
    else
      var t := InsertDesc(x, s[1..], key);
      assert s == [s[0]] + s[1..];
      forall i | 0 <= i < |t| ensures DayLe(key(t[i]), key(s[0])) {
        assert t[i] in multiset(t);
        if t[i] != x {
          assert t[i] in multiset(s[1..]);
          var p :| 0 <= p < |s[1..]| && s[1..][p] == t[i];
          assert s[p + 1] == t[i];
        }
      }
      PrependSorted(s[0], t, key);
      [s[0]] + t
  }

  lemma PrependSorted<T>(x: T, s: seq<T>, key: T -> Option<Date>)
    requires SortedDesc(s, key)
    requires forall i :: 0 <= i < |s| ==> DayLe(key(s[i]), key(x))
    ensures SortedDesc([x] + s, key)
  {
    var r := [x] + s;
    forall i, j | 0 <= i < j < |r| ensures DayLe(key(r[j]), key(r[i])) {
      assert r[j] == s[j - 1];
      if i > 0 {
        assert r[i] == s[i - 1];
      }
    }
  }

  /** `ORDER BY <key> DESC` (and `sort((a, b) => b.key - a.key)`): a stable
      insertion sort, latest first. */
  function SortDesc<T>(s: seq<T>, key: T -> Option<Date>): (r: seq<T>)
    ensures SortedDesc(r, key)
    ensures multiset(r) == multiset(s)
    ensures |r| == |s|
  {
    if |s| == 0 then []
    else
      assert s == [s[0]] + s[1..];
      InsertDesc(s[0], SortDesc(s[1..], key), key)
  }

  /** Sorting what is already sorted changes nothing. */
  lemma {:induction false} SortDescOfSorted<T>(s: seq<T>, key: T -> Option<Date>)
    requires SortedDesc(s, key)
    ensures SortDesc(s, key) == s
  {
    if |s| > 0 {
      assert SortedDesc(s[1..], key);
      SortDescOfSorted(s[1..], key);
      assert |s| == 1 || DayLe(key(s[1]), key(s[0]));
    }
  }
  /** What a whole-table replace leaves in the table: every row when the
      insert ran to the end; otherwise the rows before row `at`, whose id had
      already been inserted. */
  ghost predicate ReplacedBy<T>(table: seq<T>, rows: seq<T>, outcome: SaveOutcome, idOf: T -> string)
  {
    match outcome
    case Saved => table == rows
    case ConstraintViolation(at) => at < |rows| && table == rows[..at] && idOf(rows[at]) in Ids(table, idOf)
  }

  /** `DELETE FROM t` followed by one `INSERT` per row, in order, under the
      primary key: the first row whose id is already in the table stops the
      inserts, and the rows before it stay. It runs to the end exactly when
      the ids are distinct. */
  method InsertAll<T>(rows: seq<T>, idOf: T -> string) returns (table: seq<T>, outcome: SaveOutcome)
    ensures ReplacedBy(table, rows, outcome, idOf)
    ensures UniqueIds(table, idOf)
    ensures outcome == Saved <==> UniqueIds(rows, idOf)
  {
    table := [];
    var i := 0;
    while i < |rows|
      invariant 0 <= i <= |rows|
      invariant table == rows[..i]
      invariant UniqueIds(table, idOf)
    {
      if idOf(rows[i]) in Ids(table, idOf) {
        ghost var k :| 0 <= k < i && idOf(table[k]) == idOf(rows[i]);
        assert table[k] == rows[k] && idOf(rows[k]) == idOf(rows[i]);
        return table, ConstraintViolation(i);
      }
      UniqueAppend(table, rows[i], idOf);
      assert rows[..i + 1] == rows[..i] + [rows[i]];
      table := table + [rows[i]];
      i := i + 1;
    }
    assert table == rows;
    return table, Saved;
  }

  /** `INSERT OR REPLACE` of `rows`, one after the other, into the keyed table `m`. */
  ghost function Upserted<T>(m: map<string, T>, rows: seq<T>, idOf: T -> string): map<string, T>
  {
    if |rows| == 0 then m
    else Upserted(m, rows[..|rows| - 1], idOf)[idOf(rows[|rows| - 1]) := rows[|rows| - 1]]
  }

  /** After the upserts, an id that some row carries maps to the last such
      row, and any other id keeps its old row. */
  lemma {:induction false} UpsertedLookup<T>(m: map<string, T>, rows: seq<T>, idOf: T -> string, id: string)
    ensures id in Upserted(m, rows, idOf) <==> id in m || id in Ids(rows, idOf)
    ensures id !in Ids(rows, idOf) && id in m ==> Upserted(m, rows, idOf)[id] == m[id]
    ensures forall i :: 0 <= i < |rows| && idOf(rows[i]) == id && (forall j :: i < j < |rows| ==> idOf(rows[j]) != id) ==>
      Upserted(m, rows, idOf)[id] == rows[i]
  {
    if |rows| > 0 {
      var init := rows[..|rows| - 1];
      UpsertedLookup(m, init, idOf, id);
      assert Ids(rows, idOf) == Ids(init, idOf) + {idOf(rows[|rows| - 1])} by {
        forall k | k in Ids(rows, idOf) ensures k in Ids(init, idOf) + {idOf(rows[|rows| - 1])} {
          var p :| 0 <= p < |rows| && idOf(rows[p]) == k;
          if p < |rows| - 1 {
            assert init[p] == rows[p];
          }
        }
        forall k | k in Ids(init, idOf) ensures k in Ids(rows, idOf) {
          var p :| 0 <= p < |init| && idOf(init[p]) == k;
          assert rows[p] == init[p];
        }
      }
      forall i | 0 <= i < |rows| && idOf(rows[i]) == id && (forall j :: i < j < |rows| ==> idOf(rows[j]) != id)
        ensures Upserted(m, rows, idOf)[id] == rows[i]
      {
        if i < |rows| - 1 {
          assert init[i] == rows[i];
          assert forall j :: i < j < |init| ==> init[j] == rows[j];
        }
      }
    }
  }
  /** Setting a key overrides having removed it first. */
  lemma RemoveThenSet<T>(m: map<string, T>, k: string, v: T)
    ensures (m - {k})[k := v] == m[k := v]
  {
    var a, b := (m - {k})[k := v], m[k := v];
    assert a.Keys == b.Keys;
    forall x | x in a ensures a[x] == b[x] {
    }
  }

  /** `INSERT OR REPLACE` of one row: the row with its id goes, the new row is added. */
  lemma KeyedUpsert<T>(s: seq<T>, v: T, idOf: T -> string)
    requires UniqueIds(s, idOf)
    ensures UniqueIds(Without(s, idOf, idOf(v)) + [v], idOf)
    ensures Keyed(Without(s, idOf, idOf(v)) + [v], idOf) == Keyed(s, idOf)[idOf(v) := v]
  {
    var rest := Without(s, idOf, idOf(v));
    KeyedWithout(s, idOf, idOf(v));
    assert idOf(v) !in Keyed(rest, idOf);
    KeyedAppend(rest, v, idOf);
    RemoveThenSet(Keyed(s, idOf), idOf(v), v);
  }

  lemma UpsertedSnoc<T>(m: map<string, T>, rows: seq<T>, i: nat, idOf: T -> string)
    requires i < |rows|
    ensures Upserted(m, rows[..i + 1], idOf) == Upserted(m, rows[..i], idOf)[idOf(rows[i]) := rows[i]]
  {
    assert rows[..i + 1][..i] == rows[..i];
  }
  /** A replace of a table with distinct ids plus one more row can only fail
      on that last row, and then the table holds exactly the others. */
  lemma ReplaceFailsOnLast<T>(table: seq<T>, rows: seq<T>, v: T, at: nat, idOf: T -> string)
    requires UniqueIds(rows, idOf)
    requires ReplacedBy(table, rows + [v], ConstraintViolation(at), idOf)
    ensures at == |rows| && table == rows
  {
    var all := rows + [v];
    assert forall k :: 0 <= k < |rows| ==> all[k] == rows[k];
    assert all[..at] == rows;
  }
}
