/** What the SQL and pandas layers do to rows, stated over sequences:
    WHERE filters, SUM aggregates, ORDER BY sorts and GROUP BY sums. */
module Collections {

  /** `SELECT ... WHERE keep(row)`, keeping table order. */
  function Filter<T(!new)>(s: seq<T>, keep: T -> bool): (r: seq<T>)
    ensures |r| <= |s|
    ensures forall x :: x in r <==> x in s && keep(x)
    ensures forall i :: 0 <= i < |r| ==> keep(r[i])
    ensures multiset(r) <= multiset(s)
  {
    if |s| == 0 then []
    else
      var rest := Filter(s[..|s| - 1], keep);
      assert s == s[..|s| - 1] + [s[|s| - 1]];
      if keep(s[|s| - 1]) then rest + [s[|s| - 1]] else rest
  }

  /** `SUM(f(row))` with 0 for no rows (`COALESCE(SUM(...), 0)`, or a pandas
      sum of an empty column). */
  function SumBy<T>(s: seq<T>, f: T -> real): real {
    if |s| == 0 then 0.0 else SumBy(s[..|s| - 1], f) + f(s[|s| - 1])
  }

  lemma {:induction false} SumByAppend<T>(s: seq<T>, t: seq<T>, f: T -> real)
    ensures SumBy(s + t, f) == SumBy(s, f) + SumBy(t, f)
    decreases |t|
  {
    if |t| == 0 {
      assert s + t == s;
    } else {
      assert (s + t)[..|s + t| - 1] == s + t[..|t| - 1];
      SumByAppend(s, t[..|t| - 1], f);
    }
  }

  lemma {:induction false} SumByNonNegative<T>(s: seq<T>, f: T -> real)
    requires forall i :: 0 <= i < |s| ==> f(s[i]) >= 0.0
    ensures SumBy(s, f) >= 0.0
    decreases |s|
  {
    if |s| > 0 {
      SumByNonNegative(s[..|s| - 1], f);
    }
  }

  /** Summing a pointwise smaller quantity gives a smaller total. */
  lemma {:induction false} SumByMonotone<T>(s: seq<T>, f: T -> real, g: T -> real)
    requires forall i :: 0 <= i < |s| ==> f(s[i]) <= g(s[i])
    ensures SumBy(s, f) <= SumBy(s, g)
    decreases |s|
  {
    if |s| > 0 {
      SumByMonotone(s[..|s| - 1], f, g);
    }
  }

  /** Summing over a filter adds up exactly the kept rows' values. */
  lemma {:induction false} SumByFilter<T(!new)>(s: seq<T>, keep: T -> bool, f: T -> real)
    ensures SumBy(Filter(s, keep), f) == SumBy(s, x => if keep(x) then f(x) else 0.0)
    decreases |s|
  {
    if |s| > 0 {
      SumByFilter(s[..|s| - 1], keep, f);
      if keep(s[|s| - 1]) {
        SumByAppend(Filter(s[..|s| - 1], keep), [s[|s| - 1]], f);
      }
    }
  }

  /* ---------------- ORDER BY ---------------- */

  predicate SortedBy<T>(s: seq<T>, key: T -> int) {
    forall i, j :: 0 <= i < j < |s| ==> key(s[i]) <= key(s[j])
  }

  function InsertBy<T(!new)>(x: T, s: seq<T>, key: T -> int): (r: seq<T>)
    requires SortedBy(s, key)
    ensures multiset(r) == multiset(s) + multiset{x}
    ensures SortedBy(r, key)
    ensures |r| == |s| + 1
    ensures key(r[0]) == key(x) || (|s| > 0 && key(r[0]) == key(s[0]))
  {
    if |s| == 0 then [x]
    else if key(x) <= key(s[0]) then
      ConsSorted(x, s, key);
      [x] + s
    else
      TailSorted(s, key);
      var rest := InsertBy(x, s[1..], key);
      assert s == [s[0]] + s[1..];
      ConsSorted(s[0], rest, key);
      [s[0]] + rest
  }

  lemma TailSorted<T>(s: seq<T>, key: T -> int)
    requires SortedBy(s, key) && |s| > 0
    ensures SortedBy(s[1..], key)
  {
    forall i, j | 0 <= i < j < |s| - 1 ensures key(s[1..][i]) <= key(s[1..][j]) {
      assert s[1..][i] == s[i + 1] && s[1..][j] == s[j + 1];
    }
  }

  /** A row no larger than the head of a sorted sequence can go in front. */
  lemma ConsSorted<T>(x: T, s: seq<T>, key: T -> int)
    requires SortedBy(s, key)
    requires |s| > 0 ==> key(x) <= key(s[0])
    ensures SortedBy([x] + s, key)
  {
    var r := [x] + s;
    forall i, j | 0 <= i < j < |r| ensures key(r[i]) <= key(r[j]) {
      assert r[j] == s[j - 1];
      if i > 0 {
        assert r[i] == s[i - 1];
      } else if j > 1 {
        assert key(s[0]) <= key(s[j - 1]);
      }
    }
  }

  /** `ORDER BY key(row)`: a sorted permutation of the rows. */
  function SortBy<T(!new)>(s: seq<T>, key: T -> int): (r: seq<T>)
    ensures multiset(r) == multiset(s)
    ensures SortedBy(r, key)
  {
    if |s| == 0 then []
    else
      assert s == s[..|s| - 1] + [s[|s| - 1]];
      InsertBy(s[|s| - 1], SortBy(s[..|s| - 1], key), key)
  }

  /* ---------------- GROUP BY ---------------- */

  /** One group: a key and the sum of the amounts of the rows carrying it. */
  datatype Group<K> = Group(key: K, total: real)

  /** The keys of the groups. */
  function KeySet<K>(g: seq<Group<K>>): set<K> {
    if |g| == 0 then {} else {g[0].key} + KeySet(g[1..])
  }

  lemma {:induction false} KeySetMember<K>(g: seq<Group<K>>, k: K)
    ensures k in KeySet(g) <==> exists i :: 0 <= i < |g| && g[i].key == k
    decreases |g|
  {
    if |g| > 0 {
      KeySetMember(g[1..], k);
      if k in KeySet(g) && k != g[0].key {
        var i :| 0 <= i < |g[1..]| && g[1..][i].key == k;
        assert g[i + 1].key == k;
      }
      if exists i :: 0 <= i < |g| && g[i].key == k {
        var i :| 0 <= i < |g| && g[i].key == k;
        if i > 0 {
          assert g[1..][i - 1].key == k;
        }
      }
    }
  }

  predicate DistinctKeys<K(==)>(g: seq<Group<K>>) {
    forall i, j :: 0 <= i < j < |g| ==> g[i].key != g[j].key
  }

  function GroupTotals<K>(g: seq<Group<K>>): real {
    if |g| == 0 then 0.0 else g[0].total + GroupTotals(g[1..])
  }

  /** Adds `amount` to the group for `k`, opening a new group at the end when
      `k` has none yet. */
  function AddToGroup<K(==)>(g: seq<Group<K>>, k: K, amount: real): (r: seq<Group<K>>)
    ensures GroupTotals(r) == GroupTotals(g) + amount
    ensures KeySet(r) == KeySet(g) + {k}
    ensures DistinctKeys(g) ==> DistinctKeys(r)
    ensures |r| == if k in KeySet(g) then |g| else |g| + 1
  {
    if |g| == 0 then [Group(k, amount)]
    else if g[0].key == k then
      var r := [Group(k, g[0].total + amount)] + g[1..];
      assert r[1..] == g[1..];
      r
    else
      var rest := AddToGroup(g[1..], k, amount);
      var r := [g[0]] + rest;
      assert r[1..] == rest;
      assert DistinctKeys(g) ==> DistinctKeys(r) by {
        if DistinctKeys(g) {
          assert forall i :: 0 <= i < |g[1..]| ==> g[1..][i].key != g[0].key by {
            forall i | 0 <= i < |g[1..]| ensures g[1..][i].key != g[0].key {
              assert g[1..][i] == g[i + 1];
            }
          }
          KeySetMember(g[1..], g[0].key);
          assert g[0].key !in KeySet(rest);
          forall j | 1 <= j < |r| ensures r[0].key != r[j].key {
            assert r[j] == rest[j - 1];
            KeySetMember(rest, r[j].key);
          }
          assert DistinctKeys(g[1..]) by {
            forall a, b | 0 <= a < b < |g[1..]| ensures g[1..][a].key != g[1..][b].key {
              assert g[1..][a] == g[a + 1] && g[1..][b] == g[b + 1];
            }
          }
        }
      }
      r
  }

  /** `groupby(key)[amount].sum()`: one group per distinct key. */
  function GroupBy<T, K(==)>(rows: seq<T>, key: T -> K, amount: T -> real): (r: seq<Group<K>>)
    ensures DistinctKeys(r)
  {
    if |rows| == 0 then []
    else AddToGroup(GroupBy(rows[..|rows| - 1], key, amount), key(rows[|rows| - 1]), amount(rows[|rows| - 1]))
  }

  /** The keys appearing in the rows. */
  function RowKeys<T, K>(rows: seq<T>, key: T -> K): set<K> {
    if |rows| == 0 then {} else RowKeys(rows[..|rows| - 1], key) + {key(rows[|rows| - 1])}
  }

  lemma {:induction false} RowKeysMember<T, K>(rows: seq<T>, key: T -> K, k: K)
    ensures k in RowKeys(rows, key) <==> exists i :: 0 <= i < |rows| && key(rows[i]) == k
    decreases |rows|
  {
    if |rows| > 0 {
      var init := rows[..|rows| - 1];
      RowKeysMember(init, key, k);
      if k in RowKeys(rows, key) && k != key(rows[|rows| - 1]) {
        var i :| 0 <= i < |init| && key(init[i]) == k;
        assert rows[i] == init[i];
      }
      if exists i :: 0 <= i < |rows| && key(rows[i]) == k {
        var i :| 0 <= i < |rows| && key(rows[i]) == k;
        if i < |init| {
          assert init[i] == rows[i];
        }
      }
    }
  }

  lemma {:induction false} GroupByTotals<T, K>(rows: seq<T>, key: T -> K, amount: T -> real)
    ensures GroupTotals(GroupBy(rows, key, amount)) == SumBy(rows, amount)
    decreases |rows|
  {
    if |rows| > 0 {
      GroupByTotals(rows[..|rows| - 1], key, amount);
    }
  }

  lemma {:induction false} GroupByKeys<T, K>(rows: seq<T>, key: T -> K, amount: T -> real)
    ensures KeySet(GroupBy(rows, key, amount)) == RowKeys(rows, key)
    ensures |GroupBy(rows, key, amount)| == |RowKeys(rows, key)|
    decreases |rows|
  {
    if |rows| > 0 {
      var init := rows[..|rows| - 1];
      var last := rows[|rows| - 1];
      var g := GroupBy(init, key, amount);
      GroupByKeys(init, key, amount);
      CardinalityStep(KeySet(g), |g|, key(last), |AddToGroup(g, key(last), amount(last))|);
    }
  }

  lemma CardinalityStep<K>(before: set<K>, n: nat, k: K, m: nat)
    requires |before| == n
    requires m == if k in before then n else n + 1
    ensures |before + {k}| == m
  {
    if k in before {
      assert before + {k} == before;
    }
  }

  /** The rows whose key is `k`: the `WHERE key = k` of one group. */
  function WithKey<T, K(==)>(key: T -> K, k: K): T -> bool {
    x => key(x) == k
  }

  /** The total recorded for key `k`: that of its first group, or 0 when
      no group has it. */
  function TotalFor<K(==)>(g: seq<Group<K>>, k: K): real {
    if |g| == 0 then 0.0 else if g[0].key == k then g[0].total else TotalFor(g[1..], k)
  }

  /** Adding to the group for `k` raises the total for `k` by the amount
      and leaves every other key's total as it was. */
  lemma {:induction false} AddToGroupTotalFor<K>(g: seq<Group<K>>, k: K, amount: real, k': K)
    ensures TotalFor(AddToGroup(g, k, amount), k') == TotalFor(g, k') + (if k' == k then amount else 0.0)
    decreases |g|
  {
    var r := AddToGroup(g, k, amount);
    if |g| > 0 && g[0].key != k {
      AddToGroupTotalFor(g[1..], k, amount, k');
      assert r[1..] == AddToGroup(g[1..], k, amount);
    } else if |g| > 0 {
      assert r[1..] == g[1..];
    }
  }

  /** Each key's total is the sum of the amounts of exactly the rows
      carrying that key. */
  lemma {:induction false} GroupByTotalFor<T(!new), K>(rows: seq<T>, key: T -> K, amount: T -> real, k: K)
    ensures TotalFor(GroupBy(rows, key, amount), k) == SumBy(Filter(rows, WithKey(key, k)), amount)
    decreases |rows|
  {
    if |rows| > 0 {
      var init := rows[..|rows| - 1];
      var last := rows[|rows| - 1];
      var kept := Filter(init, WithKey(key, k));
      GroupByTotalFor(init, key, amount, k);
      AddToGroupTotalFor(GroupBy(init, key, amount), key(last), amount(last), k);
      if key(last) == k {
        assert Filter(rows, WithKey(key, k)) == kept + [last];
        assert (kept + [last])[..|kept|] == kept;
      } else {
        assert Filter(rows, WithKey(key, k)) == kept;
      }
    }
  }

  /** With distinct keys, the total for a group's key is that group's total. */
  lemma {:induction false} TotalForAt<K>(g: seq<Group<K>>, i: nat)
    requires DistinctKeys(g)
    requires i < |g|
    ensures TotalFor(g, g[i].key) == g[i].total
    decreases i
  {
    if i > 0 {
      assert DistinctKeys(g[1..]) by {
        forall a, b | 0 <= a < b < |g[1..]| ensures g[1..][a].key != g[1..][b].key {
          assert g[1..][a] == g[a + 1] && g[1..][b] == g[b + 1];
        }
      }
      assert g[0].key != g[i].key;
      TotalForAt(g[1..], i - 1);
    }
  }

  /** The groups partition the rows by key: one group per distinct key, each
      group's total the sum over exactly that key's rows, and the totals
      together the sum over all rows. */
  lemma GroupByPartitions<T(!new), K>(rows: seq<T>, key: T -> K, amount: T -> real)
    ensures GroupTotals(GroupBy(rows, key, amount)) == SumBy(rows, amount)
    ensures KeySet(GroupBy(rows, key, amount)) == RowKeys(rows, key)
    ensures |GroupBy(rows, key, amount)| == |RowKeys(rows, key)|
    ensures DistinctKeys(GroupBy(rows, key, amount))
    ensures forall i :: 0 <= i < |GroupBy(rows, key, amount)| ==>
      GroupBy(rows, key, amount)[i].total == SumBy(Filter(rows, WithKey(key, GroupBy(rows, key, amount)[i].key)), amount)
  {
    GroupByTotals(rows, key, amount);
    GroupByKeys(rows, key, amount);
    var g := GroupBy(rows, key, amount);
    forall i | 0 <= i < |g| ensures g[i].total == SumBy(Filter(rows, WithKey(key, g[i].key)), amount) {
      TotalForAt(g, i);
      GroupByTotalFor(rows, key, amount, g[i].key);
    }
  }
}
