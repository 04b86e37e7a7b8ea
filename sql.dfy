/**
 * The relational operators that the store's SQL statements use, over tables
 * modelled as sequences of rows in insertion order:
 *   WHERE            InWindow, Since
 *   GROUP BY, COUNT  GroupBy (built row by row with AddRow), CountKey, SumKey
 *   ORDER BY ... DESC  SortDesc
 *   SUM              SumOf
 * Column accessors are passed as named functions.
 */
module Sql {

  /** SUM(f(x)) over the rows of `s`. */
  function SumOf<T>(s: seq<T>, f: T -> int): int
  {
    if |s| == 0 then 0 else SumOf(s[..|s| - 1], f) + f(s[|s| - 1])
  }

  lemma {:induction false} SumOfConcat<T>(a: seq<T>, b: seq<T>, f: T -> int)
    ensures SumOf(a + b, f) == SumOf(a, f) + SumOf(b, f)
    decreases |b|
  {
    if |b| == 0 {
      assert a + b == a;
    } else {
      assert (a + b)[..|a + b| - 1] == a + b[..|b| - 1];
      SumOfConcat(a, b[..|b| - 1], f);
    }
  }

  lemma SumOfCons<T>(x: T, s: seq<T>, f: T -> int)
    ensures SumOf([x] + s, f) == f(x) + SumOf(s, f)
  {
    SumOfConcat([x], s, f);
    assert [x][..0] == [];
  }

  // ---------------------------------------------------------------------------
  // WHERE

  /**
   * `WHERE guild_id = ? AND timestamp >= ?`: the rows of `rows` that belong to
   * `guildId` and are not older than `since`, in table order.
   */
  function InWindow<R(!new)>(rows: seq<R>, guildOf: R -> int, timeOf: R -> int, guildId: int, since: int): (r: seq<R>)
    ensures |r| <= |rows|
    ensures forall x :: multiset(r)[x] == if guildOf(x) == guildId && timeOf(x) >= since then multiset(rows)[x] else 0
    ensures forall x :: x in r <==> x in rows && guildOf(x) == guildId && timeOf(x) >= since
  {
    if |rows| == 0 then []
    else
      var prefix := rows[..|rows| - 1];
      var x := rows[|rows| - 1];
      assert rows == prefix + [x];
      var prev := InWindow(prefix, guildOf, timeOf, guildId, since);
      if guildOf(x) == guildId && timeOf(x) >= since then prev + [x] else prev
  }

  /**
   * The rows that survive `DELETE ... WHERE timestamp < cutoff`: those whose
   * time is at least `cutoff`, in table order.
   */
  function Since<R>(rows: seq<R>, timeOf: R -> int, cutoff: int): (r: seq<R>)
    ensures |r| <= |rows|
  {
    if |rows| == 0 then []
    else
      var prefix := rows[..|rows| - 1];
      var x := rows[|rows| - 1];
      assert rows == prefix + [x];
      var prev := Since(prefix, timeOf, cutoff);
      if timeOf(x) >= cutoff then prev + [x] else prev
  }

  /** A row survives the delete exactly when it is in the table and at or after the cutoff. */
  lemma {:induction false} SinceMembers<R(!new)>(rows: seq<R>, timeOf: R -> int, cutoff: int)
    ensures forall x :: x in Since(rows, timeOf, cutoff) <==> x in rows && timeOf(x) >= cutoff
    decreases |rows|
  {
    if |rows| > 0 {
      var prefix := rows[..|rows| - 1];
      assert rows == prefix + [rows[|rows| - 1]];
      SinceMembers(prefix, timeOf, cutoff);
    }
  }

  /** Deleting distributes over concatenation: surviving rows keep their relative order. */
  lemma {:induction false} SinceConcat<R(!new)>(a: seq<R>, b: seq<R>, timeOf: R -> int, cutoff: int)
    ensures Since(a + b, timeOf, cutoff) == Since(a, timeOf, cutoff) + Since(b, timeOf, cutoff)
    decreases |b|
  {
    if |b| == 0 {
      assert a + b == a;
    } else {
      var b' := b[..|b| - 1];
      assert b == b' + [b[|b| - 1]];
      SinceConcat(a, b', timeOf, cutoff);
      SinceConcatSnoc(a, b', b[|b| - 1], timeOf, cutoff);
    }
  }

  /** The inductive step of `SinceConcat`: one more row at the end of the second part. */
  lemma SinceConcatSnoc<R(!new)>(a: seq<R>, b: seq<R>, y: R, timeOf: R -> int, cutoff: int)
    requires Since(a + b, timeOf, cutoff) == Since(a, timeOf, cutoff) + Since(b, timeOf, cutoff)
    ensures Since(a + (b + [y]), timeOf, cutoff) == Since(a, timeOf, cutoff) + Since(b + [y], timeOf, cutoff)
  {
    var ab, b1 := a + b, b + [y];
    assert a + b1 == ab + [y];
    SinceSnoc(ab, y, timeOf, cutoff);
    SinceSnoc(b, y, timeOf, cutoff);
    var sa, sb := Since(a, timeOf, cutoff), Since(b, timeOf, cutoff);
    if timeOf(y) >= cutoff {
      assert Since(ab + [y], timeOf, cutoff) == (sa + sb) + [y];
      assert (sa + sb) + [y] == sa + (sb + [y]);
    } else {
      assert Since(ab + [y], timeOf, cutoff) == sa + sb;
    }
  }

  /** Appending one row: it survives exactly when it is at or after the cutoff. */
  lemma SinceSnoc<R(!new)>(rows: seq<R>, y: R, timeOf: R -> int, cutoff: int)
    ensures Since(rows + [y], timeOf, cutoff) ==
            if timeOf(y) >= cutoff then Since(rows, timeOf, cutoff) + [y] else Since(rows, timeOf, cutoff)
  {
    var s := rows + [y];
    assert s[..|s| - 1] == rows;
    assert s[|s| - 1] == y;
  }

  /** Each row survives a purge as many times as the table holds it when it is at or after the cutoff, and not at all otherwise. */
  lemma {:induction false} SinceCounts<R(!new)>(rows: seq<R>, timeOf: R -> int, cutoff: int)
    ensures forall x :: multiset(Since(rows, timeOf, cutoff))[x] == if timeOf(x) >= cutoff then multiset(rows)[x] else 0
    decreases |rows|
  {
    if |rows| > 0 {
      var prefix := rows[..|rows| - 1];
      var y := rows[|rows| - 1];
      assert rows == prefix + [y];
      SinceCounts(prefix, timeOf, cutoff);
      SinceSnoc(prefix, y, timeOf, cutoff);
    }
  }

  /** Deleting the same old rows a second time removes nothing more. */
  lemma {:induction false} SinceIdempotent<R(!new)>(rows: seq<R>, timeOf: R -> int, cutoff: int)
    ensures Since(Since(rows, timeOf, cutoff), timeOf, cutoff) == Since(rows, timeOf, cutoff)
    decreases |rows|
  {
    if |rows| > 0 {
      var prefix := rows[..|rows| - 1];
      var x := rows[|rows| - 1];
      SinceIdempotent(prefix, timeOf, cutoff);
      if timeOf(x) >= cutoff {
        var p := Since(prefix, timeOf, cutoff);
        assert (p + [x])[..|p + [x]| - 1] == p;
      }
    }
  }

  // ---------------------------------------------------------------------------
  // ORDER BY ... DESC

  /** Non-increasing in `rank`: the order `ORDER BY rank DESC` produces. */
  ghost predicate SortedDesc<T>(s: seq<T>, rank: T -> int)
  {
    forall i, j :: 0 <= i < j < |s| ==> rank(s[i]) >= rank(s[j])
  }

  /** Inserts `x` into a sequence sorted by descending rank, before its equals. */
  function InsertDesc<T>(x: T, s: seq<T>, rank: T -> int): (r: seq<T>)
    requires SortedDesc(s, rank)
    ensures SortedDesc(r, rank)
    ensures multiset(r) == multiset(s) + multiset{x}
    ensures |r| == |s| + 1
  {
    if |s| == 0 || rank(x) >= rank(s[0]) then
      [x] + s
    else
      var rest := InsertDesc(x, s[1..], rank);
      assert s == [s[0]] + s[1..];
      HeadDominates(x, s, rest, rank);
      SortedCons(s[0], rest, rank);
      [s[0]] + rest
  }

  /** The head of a sorted list outranks `x` and the rest, so it outranks any arrangement of them. */
  lemma HeadDominates<T>(x: T, s: seq<T>, rest: seq<T>, rank: T -> int)
    requires SortedDesc(s, rank) && |s| > 0 && rank(x) < rank(s[0])
    requires multiset(rest) == multiset(s[1..]) + multiset{x}
    ensures forall j :: 0 <= j < |rest| ==> rank(s[0]) >= rank(rest[j])
  {
    forall j | 0 <= j < |rest| ensures rank(s[0]) >= rank(rest[j]) {
      assert rest[j] in multiset(rest);
      if rest[j] != x {
        assert rest[j] in multiset(s[1..]);
        var k :| 0 <= k < |s[1..]| && s[1..][k] == rest[j];
        assert s[k + 1] == rest[j];
      }
    }
  }

  /** A sorted list stays sorted under a head that outranks every element. */
  lemma SortedCons<T>(h: T, rest: seq<T>, rank: T -> int)
    requires SortedDesc(rest, rank)
    requires forall j :: 0 <= j < |rest| ==> rank(h) >= rank(rest[j])
    ensures SortedDesc([h] + rest, rank)
  {
    var r := [h] + rest;
    forall i, j | 0 <= i < j < |r| ensures rank(r[i]) >= rank(r[j]) {
      assert r[j] == rest[j - 1];
      if i > 0 {
        assert r[i] == rest[i - 1];
      }
    }
  }

  /**
   * The rows of `s` ordered by descending rank. SQL leaves the order of rows
   * with equal rank unspecified; this model fixes one such order.
   */
  function SortDesc<T>(s: seq<T>, rank: T -> int): (r: seq<T>)
    ensures SortedDesc(r, rank)
    ensures multiset(r) == multiset(s)
    ensures |r| == |s|
  {
    if |s| == 0 then []
    else
      assert s == [s[0]] + s[1..];
      InsertDesc(s[0], SortDesc(s[1..], rank), rank)
  }

  lemma {:induction false} InsertDescSum<T>(x: T, s: seq<T>, rank: T -> int, f: T -> int)
    requires SortedDesc(s, rank)
    ensures SumOf(InsertDesc(x, s, rank), f) == f(x) + SumOf(s, f)
    decreases |s|
  {
    if |s| == 0 || rank(x) >= rank(s[0]) {
      SumOfCons(x, s, f);
    } else {
      InsertDescSum(x, s[1..], rank, f);
      SumOfCons(s[0], InsertDesc(x, s[1..], rank), f);
      SumOfCons(s[0], s[1..], f);
      assert s == [s[0]] + s[1..];
    }
  }

  /** Ordering does not change a column's total. */
  lemma {:induction false} SortDescSum<T>(s: seq<T>, rank: T -> int, f: T -> int)
    ensures SumOf(SortDesc(s, rank), f) == SumOf(s, f)
    decreases |s|
  {
    if |s| > 0 {
      SortDescSum(s[1..], rank, f);
      InsertDescSum(s[0], SortDesc(s[1..], rank), rank, f);
      SumOfCons(s[0], s[1..], f);
      assert s == [s[0]] + s[1..];
    }
  }

  // ---------------------------------------------------------------------------
  // GROUP BY

  /** One output row of a grouped query: the group's key, COUNT(*) and a SUM. */
  datatype Group<K> = Group(key: K, count: nat, total: int)

  function GroupCount<K>(g: Group<K>): int { g.count }

  ghost predicate HasKey<K>(gs: seq<Group<K>>, k: K)
  {
    exists g :: g in gs && g.key == k
  }

  /** At most one group per key. */
  ghost predicate DistinctKeys<K>(gs: seq<Group<K>>)
  {
    forall i, j :: 0 <= i < j < |gs| ==> gs[i].key != gs[j].key
  }

  /** COUNT(*) of the rows whose key is `k`. */
  function CountKey<R, K(==)>(rows: seq<R>, key: R -> K, k: K): (n: nat)
    ensures n <= |rows|
    ensures n > 0 <==> exists x :: x in rows && key(x) == k
  {
    if |rows| == 0 then 0
    else
      var prefix := rows[..|rows| - 1];
      assert rows == prefix + [rows[|rows| - 1]];
      CountKey(prefix, key, k) + if key(rows[|rows| - 1]) == k then 1 else 0
  }

  /** SUM(weight) over the rows whose key is `k`. */
  function SumKey<R, K(==)>(rows: seq<R>, key: R -> K, weight: R -> int, k: K): int
  {
    if |rows| == 0 then 0
    else
      SumKey(rows[..|rows| - 1], key, weight, k)
      + if key(rows[|rows| - 1]) == k then weight(rows[|rows| - 1]) else 0
  }

  /** Position of the first group with key `k`, or `|gs|` when there is none. */
  function FindKey<K(==)>(gs: seq<Group<K>>, k: K): (i: nat)
    ensures i <= |gs|
    ensures i < |gs| ==> gs[i].key == k
    ensures forall j :: 0 <= j < i ==> gs[j].key != k
  {
    if |gs| == 0 then 0
    else if gs[0].key == k then 0
    else 1 + FindKey(gs[1..], k)
  }

  /** Replacing one element changes a sum by the difference. */
  lemma SumOfUpdate<T>(s: seq<T>, i: nat, y: T, f: T -> int)
    requires i < |s|
    ensures SumOf(s[i := y], f) == SumOf(s, f) - f(s[i]) + f(y)
  {
    assert s == s[..i] + [s[i]] + s[i + 1..];
    assert s[i := y] == s[..i] + [y] + s[i + 1..];
    SumOfConcat(s[..i] + [s[i]], s[i + 1..], f);
    SumOfConcat(s[..i] + [y], s[i + 1..], f);
    SumOfConcat(s[..i], [s[i]], f);
    SumOfConcat(s[..i], [y], f);
    assert [s[i]][..0] == [] && [y][..0] == [];
  }

  /**
   * Accounts for one more row, with key `k` and weight `w`: the group for `k`
   * has its count and total raised, or a new group for `k` is appended.
   */
  function AddRow<K(==,!new)>(gs: seq<Group<K>>, k: K, w: int): (r: seq<Group<K>>)
    requires DistinctKeys(gs)
    ensures DistinctKeys(r)
    ensures forall j :: HasKey(r, j) <==> HasKey(gs, j) || j == k
    ensures forall g :: g in r && g.key != k <==> g in gs && g.key != k
    ensures forall g :: g in r && g.key == k ==>
              if HasKey(gs, k)
              then exists g0 :: g0 in gs && g0.key == k && g == Group(k, g0.count + 1, g0.total + w)
              else g == Group(k, 1, w)
    ensures SumOf(r, GroupCount) == SumOf(gs, GroupCount) + 1
  {
    var i := FindKey(gs, k);
    if i < |gs| then
      var g' := Group(k, gs[i].count + 1, gs[i].total + w);
      SumOfUpdate(gs, i, g', GroupCount);
      ReplaceGroup(gs, i, g');
      assert gs[i] in gs && gs[i].key == k;
      assert HasKey(gs, k);
      gs[i := g']
    else
      var g' := Group(k, 1, w);
      SumOfConcat(gs, [g'], GroupCount);
      assert [g'][..0] == [];
      assert !HasKey(gs, k) by {
        forall g | g in gs ensures g.key != k {
          var j :| 0 <= j < |gs| && gs[j] == g;
        }
      }
      AppendGroup(gs, g');
      gs + [g']
  }

  /** Replacing a group by one with the same key keeps the keys distinct and leaves every other group in place. */
  lemma ReplaceGroup<K>(gs: seq<Group<K>>, i: int, g': Group<K>)
    requires DistinctKeys(gs) && 0 <= i < |gs| && g'.key == gs[i].key
    ensures DistinctKeys(gs[i := g'])
    ensures forall j :: HasKey(gs[i := g'], j) <==> HasKey(gs, j)
    ensures forall g :: g in gs[i := g'] && g.key != g'.key <==> g in gs && g.key != g'.key
    ensures forall g :: g in gs[i := g'] && g.key == g'.key ==> g == g'
  {
    var r := gs[i := g'];
    forall g ensures g in r && g.key != g'.key <==> g in gs && g.key != g'.key {
      if g in r && g.key != g'.key {
        var j :| 0 <= j < |r| && r[j] == g;
        assert gs[j] == g;
      }
      if g in gs && g.key != g'.key {
        var j :| 0 <= j < |gs| && gs[j] == g;
        assert r[j] == g;
      }
    }
    forall g | g in r && g.key == g'.key ensures g == g' {
      var j :| 0 <= j < |r| && r[j] == g;
    }
    forall j ensures HasKey(r, j) <==> HasKey(gs, j) {
      if HasKey(gs, j) {
        var g :| g in gs && g.key == j;
        if g.key == g'.key {
          assert r[i] == g';
        }
      }
      if HasKey(r, j) {
        var g :| g in r && g.key == j;
        if g.key == g'.key {
          assert gs[i] in gs;
        }
      }
    }
  }

  /** Appending a group with a new key keeps the keys distinct. */
  lemma AppendGroup<K>(gs: seq<Group<K>>, g': Group<K>)
    requires DistinctKeys(gs) && !HasKey(gs, g'.key)
    ensures DistinctKeys(gs + [g'])
    ensures forall j :: HasKey(gs + [g'], j) <==> HasKey(gs, j) || j == g'.key
    ensures forall g :: g in gs + [g'] && g.key != g'.key <==> g in gs && g.key != g'.key
    ensures forall g :: g in gs + [g'] && g.key == g'.key ==> g == g'
  {
    var r := gs + [g'];
    assert r[|gs|] == g';
    forall a, b | 0 <= a < b < |r| ensures r[a].key != r[b].key {
      if b == |gs| {
        assert r[a] in gs;
      }
    }
  }

  /**
   * `GROUP BY key` with `COUNT(*)` and `SUM(weight)`: one group per distinct
   * key among `rows`, each carrying that key's count and total.
   */
  function GroupBy<R(!new), K(==,!new)>(rows: seq<R>, key: R -> K, weight: R -> int): (r: seq<Group<K>>)
    ensures DistinctKeys(r)
    ensures forall k :: HasKey(r, k) <==> exists x :: x in rows && key(x) == k
    ensures forall g :: g in r ==> g.count == CountKey(rows, key, g.key) && g.total == SumKey(rows, key, weight, g.key)
    ensures SumOf(r, GroupCount) == |rows|
  {
    if |rows| == 0 then []
    else
      var prefix := rows[..|rows| - 1];
      var x := rows[|rows| - 1];
      assert rows == prefix + [x];
      var prev := GroupBy(prefix, key, weight);
      var r := AddRow(prev, key(x), weight(x));
      GroupByStep(prefix, x, prev, r, key, weight);
      r
  }

  /** One more row keeps every group's count and total equal to those of its key. */
  lemma GroupByStep<R, K(!new)>(prefix: seq<R>, x: R, prev: seq<Group<K>>, r: seq<Group<K>>, key: R -> K, weight: R -> int)
    requires forall g :: g in r && g.key != key(x) <==> g in prev && g.key != key(x)
    requires forall g :: g in r && g.key == key(x) ==>
               if HasKey(prev, key(x))
               then exists g0 :: g0 in prev && g0.key == key(x) && g == Group(key(x), g0.count + 1, g0.total + weight(x))
               else g == Group(key(x), 1, weight(x))
    requires forall k :: HasKey(prev, k) <==> exists y :: y in prefix && key(y) == k
    requires forall g :: g in prev ==> g.count == CountKey(prefix, key, g.key) && g.total == SumKey(prefix, key, weight, g.key)
    ensures forall g :: g in r ==> g.count == CountKey(prefix + [x], key, g.key) && g.total == SumKey(prefix + [x], key, weight, g.key)
  {
    var rows := prefix + [x];
    forall g | g in r
      ensures g.count == CountKey(rows, key, g.key) && g.total == SumKey(rows, key, weight, g.key)
    {
      KeySnoc(prefix, x, key, weight, g.key);
      if g.key != key(x) {
        assert g in prev;
      } else if HasKey(prev, key(x)) {
        var g0 :| g0 in prev && g0.key == key(x) && g == Group(key(x), g0.count + 1, g0.total + weight(x));
      } else {
        assert CountKey(prefix, key, key(x)) == 0;
        SumKeyAbsent(prefix, key, weight, key(x));
      }
    }
  }

  /** Counting and summing over one more row. */
  lemma KeySnoc<R, K>(prefix: seq<R>, x: R, key: R -> K, weight: R -> int, k: K)
    ensures CountKey(prefix + [x], key, k) == CountKey(prefix, key, k) + if key(x) == k then 1 else 0
    ensures SumKey(prefix + [x], key, weight, k) == SumKey(prefix, key, weight, k) + if key(x) == k then weight(x) else 0
  {
    var rows := prefix + [x];
    assert rows[..|rows| - 1] == prefix && rows[|rows| - 1] == x;
  }

  /** A key that no row carries has a zero total. */
  lemma {:induction false} SumKeyAbsent<R, K>(rows: seq<R>, key: R -> K, weight: R -> int, k: K)
    requires forall x :: x in rows ==> key(x) != k
    ensures SumKey(rows, key, weight, k) == 0
    decreases |rows|
  {
    if |rows| > 0 {
      var prefix := rows[..|rows| - 1];
      assert forall x :: x in prefix ==> x in rows;
      SumKeyAbsent(prefix, key, weight, k);
    }
  }

  /** A group may be put in front of others exactly when its key is new to them. */
  lemma DistinctCons<K>(y: Group<K>, t: seq<Group<K>>)
    ensures DistinctKeys([y] + t) <==> DistinctKeys(t) && !HasKey(t, y.key)
  {
    var r := [y] + t;
    if DistinctKeys(t) && !HasKey(t, y.key) {
      forall i, j | 0 <= i < j < |r| ensures r[i].key != r[j].key {
        assert r[j] == t[j - 1] && t[j - 1] in t;
        if i > 0 {
          assert r[i] == t[i - 1];
        }
      }
    }
    if DistinctKeys(r) {
      forall i, j | 0 <= i < j < |t| ensures t[i].key != t[j].key {
        assert t[i] == r[i + 1] && t[j] == r[j + 1];
      }
      forall g | g in t ensures g.key != y.key {
        var j :| 0 <= j < |t| && t[j] == g;
        assert r[j + 1] == g && r[0] == y;
      }
    }
  }

  /** The head of a sorted permutation of `rows` is one of them and outranks them all. */
  lemma SortedHeadIsMax<T>(rows: seq<T>, r: seq<T>, rank: T -> int)
    requires SortedDesc(r, rank) && multiset(r) == multiset(rows) && |r| > 0
    ensures r[0] in rows
    ensures forall t :: t in rows ==> rank(t) <= rank(r[0])
  {
    SameElements(r, rows);
    assert r[0] in r;
    forall t | t in rows ensures rank(t) <= rank(r[0]) {
      var j :| 0 <= j < |r| && r[j] == t;
    }
  }

  /** Elements of a permutation are the same elements. */
  lemma SameElements<T>(a: seq<T>, b: seq<T>)
    requires multiset(a) == multiset(b)
    ensures forall x :: x in a <==> x in b
  {
    forall x ensures x in a <==> x in b {
      assert x in a <==> x in multiset(a);
      assert x in b <==> x in multiset(b);
    }
  }

  /** A key absent from `t` and different from `x.key` is absent from any permutation of `t + [x]`. */
  lemma NoKeyAfterInsert<K>(h: Group<K>, x: Group<K>, t: seq<Group<K>>, rest: seq<Group<K>>)
    requires !HasKey(t, h.key) && x.key != h.key
    requires multiset(rest) == multiset(t) + multiset{x}
    ensures !HasKey(rest, h.key)
  {
    forall g | g in rest ensures g.key != h.key {
      assert g in multiset(rest);
      if g != x {
        assert g in multiset(t);
      }
    }
  }

  lemma {:induction false} InsertDescDistinct<K>(x: Group<K>, s: seq<Group<K>>, rank: Group<K> -> int)
    requires SortedDesc(s, rank) && DistinctKeys(s) && !HasKey(s, x.key)
    ensures DistinctKeys(InsertDesc(x, s, rank))
    decreases |s|
  {
    if |s| == 0 || rank(x) >= rank(s[0]) {
      DistinctCons(x, s);
    } else {
      assert s == [s[0]] + s[1..];
      DistinctCons(s[0], s[1..]);
      assert !HasKey(s[1..], x.key) by {
        forall g | g in s[1..] ensures g.key != x.key {
          assert g in s;
        }
      }
      InsertDescDistinct(x, s[1..], rank);
      var rest := InsertDesc(x, s[1..], rank);
      assert InsertDesc(x, s, rank) == [s[0]] + rest;
      assert x.key != s[0].key by {
        assert s[0] in s;
      }
      NoKeyAfterInsert(s[0], x, s[1..], rest);
      DistinctCons(s[0], rest);
    }
  }

  /** Ordering keeps one group per key. */
  lemma {:induction false} SortDescDistinct<K>(s: seq<Group<K>>, rank: Group<K> -> int)
    requires DistinctKeys(s)
    ensures DistinctKeys(SortDesc(s, rank))
    decreases |s|
  {
    if |s| > 0 {
      assert s == [s[0]] + s[1..];
      DistinctCons(s[0], s[1..]);
      SortDescDistinct(s[1..], rank);
      SameElements(SortDesc(s[1..], rank), s[1..]);
      InsertDescDistinct(s[0], SortDesc(s[1..], rank), rank);
    }
  }

  /**
   * `GROUP BY key ... ORDER BY COUNT(*) DESC`: one group per distinct key
   * among `rows`, each with its row count and the sum of `weight`, largest
   * count first; the counts add up to the number of rows.
   */
  function Rollup<R(!new), K(==,!new)>(rows: seq<R>, key: R -> K, weight: R -> int): (r: seq<Group<K>>)
    ensures forall i, j :: 0 <= i < j < |r| ==> r[i].count >= r[j].count
    ensures DistinctKeys(r)
    ensures forall k :: HasKey(r, k) <==> exists x :: x in rows && key(x) == k
    ensures forall g :: g in r ==>
              && g.count > 0
              && g.count == CountKey(rows, key, g.key)
              && g.total == SumKey(rows, key, weight, g.key)
    ensures SumOf(r, GroupCount) == |rows|
    ensures |r| <= |rows|
  {
    var groups := GroupBy(rows, key, weight);
    PositiveCounts(groups, rows, key);
    SortDescSum(groups, GroupCount, GroupCount);
    SortDescDistinct(groups, GroupCount);
    var r := SortDesc(groups, GroupCount);
    RollupOrder(groups, r, rows);
    RollupContents(groups, r, rows, key, weight);
    r
  }

  /** A permutation of positive-count groups, sorted by count, whose counts sum to the row count: its counts descend and it has no more groups than rows. */
  lemma RollupOrder<R, K>(groups: seq<Group<K>>, r: seq<Group<K>>, rows: seq<R>)
    requires SortedDesc(r, GroupCount) && multiset(r) == multiset(groups)
    requires SumOf(r, GroupCount) == |rows|
    requires forall g :: g in groups ==> g.count > 0
    ensures forall i, j :: 0 <= i < j < |r| ==> r[i].count >= r[j].count
    ensures |r| <= |rows|
  {
    SameElements(r, groups);
    CountsBoundLength(r);
  }

  /** A permutation of the groups of the rows keeps exactly their keys, each with its count and total. */
  lemma RollupContents<R(!new), K(!new)>(groups: seq<Group<K>>, r: seq<Group<K>>, rows: seq<R>, key: R -> K, weight: R -> int)
    requires multiset(r) == multiset(groups)
    requires forall k :: HasKey(groups, k) <==> exists x :: x in rows && key(x) == k
    requires forall g :: g in groups ==> g.count == CountKey(rows, key, g.key) && g.total == SumKey(rows, key, weight, g.key)
    ensures forall k :: HasKey(r, k) <==> exists x :: x in rows && key(x) == k
    ensures forall g :: g in r ==>
              && g.count > 0
              && g.count == CountKey(rows, key, g.key)
              && g.total == SumKey(rows, key, weight, g.key)
  {
    SameElements(r, groups);
    SameKeys(r, groups);
    PositiveCounts(r, rows, key);
  }

  /** When groups are ordered by count and cover every row's key, the first has the largest count of any key. */
  lemma HeadIsBusiest<R, K>(rows: seq<R>, key: R -> K, r: seq<Group<K>>)
    requires forall i, j :: 0 <= i < j < |r| ==> r[i].count >= r[j].count
    requires forall x :: x in rows ==> HasKey(r, key(x))
    requires forall g :: g in r ==> g.count == CountKey(rows, key, g.key)
    ensures |r| > 0 ==> forall k :: CountKey(rows, key, k) <= r[0].count
  {
    if |r| > 0 {
      assert r[0] in r;
      forall k | CountKey(rows, key, k) > 0 ensures CountKey(rows, key, k) <= r[0].count {
        var x :| x in rows && key(x) == k;
        assert HasKey(r, k);
        var g :| g in r && g.key == k;
        var j :| 0 <= j < |r| && r[j] == g;
      }
    }
  }

  /** Groups with positive counts are no more numerous than their total count. */
  lemma {:induction false} CountsBoundLength<K>(gs: seq<Group<K>>)
    requires forall g :: g in gs ==> g.count > 0
    ensures |gs| <= SumOf(gs, GroupCount)
    decreases |gs|
  {
    if |gs| > 0 {
      var prefix := gs[..|gs| - 1];
      assert forall g :: g in prefix ==> g in gs;
      CountsBoundLength(prefix);
      assert gs[|gs| - 1] in gs;
    }
  }

  /**
   * The keys of a rollup of the rows a window filter keeps, restated over the
   * unfiltered table: every kept row's key has a group, every group's key
   * comes from a kept row.
   */
  lemma RollupKeysInWindow<R(!new), K(!new)>(
    table: seq<R>, guildOf: R -> int, timeOf: R -> int, guildId: int, since: int, key: R -> K, gs: seq<Group<K>>)
    requires forall k :: HasKey(gs, k) <==> exists x :: x in InWindow(table, guildOf, timeOf, guildId, since) && key(x) == k
    ensures forall x :: x in table && guildOf(x) == guildId && timeOf(x) >= since ==> HasKey(gs, key(x))
    ensures forall g :: g in gs ==>
              exists x :: x in table && guildOf(x) == guildId && timeOf(x) >= since && key(x) == g.key
  {
    var rows := InWindow(table, guildOf, timeOf, guildId, since);
    forall x | x in table && guildOf(x) == guildId && timeOf(x) >= since
      ensures HasKey(gs, key(x))
    {
      assert x in rows;
    }
    forall g | g in gs
      ensures exists x :: x in table && guildOf(x) == guildId && timeOf(x) >= since && key(x) == g.key
    {
      assert HasKey(gs, g.key);
      var x :| x in rows && key(x) == g.key;
      assert x in table;
    }
  }

  lemma SameKeys<K>(a: seq<Group<K>>, b: seq<Group<K>>)
    requires forall g :: g in a <==> g in b
    ensures forall k :: HasKey(a, k) <==> HasKey(b, k)
  {
    forall k ensures HasKey(a, k) <==> HasKey(b, k) {
      if HasKey(a, k) {
        var g :| g in a && g.key == k;
        assert g in b;
      }
      if HasKey(b, k) {
        var g :| g in b && g.key == k;
        assert g in a;
      }
    }
  }

  /** A group counted from the rows that carry its key is never empty. */
  lemma PositiveCounts<R, K>(gs: seq<Group<K>>, rows: seq<R>, key: R -> K)
    requires forall g :: g in gs ==> g.count == CountKey(rows, key, g.key)
    requires forall k :: HasKey(gs, k) ==> exists x :: x in rows && key(x) == k
    ensures forall g :: g in gs ==> g.count > 0
  {
    forall g | g in gs ensures g.count > 0 {
      assert HasKey(gs, g.key);
    }
  }
}
