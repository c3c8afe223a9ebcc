/**
 * `df.groupby(keys).size()`: one group per distinct key present, with the
 * number of rows that carry it. Groups are listed in the order their keys
 * first appear.
 */
module Grouping {
  import opened Seqs

  datatype Group<K> = Group(key: K, size: nat)

  function Keys<K>(gs: seq<Group<K>>): (ks: seq<K>)
    ensures |ks| == |gs| && forall i :: 0 <= i < |gs| ==> ks[i] == gs[i].key
  {
    seq(|gs|, i requires 0 <= i < |gs| => gs[i].key)
  }

  predicate Distinct<K(==)>(s: seq<K>) {
    forall i, j :: 0 <= i < j < |s| ==> s[i] != s[j]
  }

  /** The sum of the group sizes. */
  function Total<K>(gs: seq<Group<K>>): int {
    if gs == [] then 0 else gs[0].size + Total(gs[1..])
  }

  /** The size of the group with key `x`, or 0 when there is none. */
  function SizeOf<K(==)>(gs: seq<Group<K>>, x: K): nat {
    if gs == [] then 0 else if gs[0].key == x then gs[0].size else SizeOf(gs[1..], x)
  }

  lemma {:induction false} SizeOfAt<K>(gs: seq<Group<K>>, i: nat)
    requires Distinct(Keys(gs)) && i < |gs|
    ensures SizeOf(gs, gs[i].key) == gs[i].size
  {
    if i > 0 {
      assert Keys(gs)[0] != Keys(gs)[i];
      assert Keys(gs[1..]) == Keys(gs)[1..];
      SizeOfAt(gs[1..], i - 1);
    }
  }

  lemma {:induction false} SizeOfAbsent<K>(gs: seq<Group<K>>, x: K)
    requires x !in Keys(gs)
    ensures SizeOf(gs, x) == 0
  {
    if gs != [] {
      assert Keys(gs[1..]) == Keys(gs)[1..];
      SizeOfAbsent(gs[1..], x);
    }
  }

  /**
   * `gs` is the size table of the key column `keys`: one group per distinct
   * key present, each as large as the number of rows carrying its key, sizes
   * summing to the number of rows.
   */
  predicate IsCountOf<K(==)>(gs: seq<Group<K>>, keys: seq<K>) {
    && Distinct(Keys(gs))
    && (forall i :: 0 <= i < |gs| ==> gs[i].size == multiset(keys)[gs[i].key] && gs[i].size >= 1)
    && (forall i :: 0 <= i < |keys| ==> keys[i] in Keys(gs))
    && Total(gs) == |keys|
  }

  /** Count one more row with key `k`: grow its group, or open a new one at the end. */
  function Bump<K(==)>(gs: seq<Group<K>>, k: K): seq<Group<K>> {
    if gs == [] then [Group(k, 1)]
    else if gs[0].key == k then [Group(k, gs[0].size + 1)] + gs[1..]
    else [gs[0]] + Bump(gs[1..], k)
  }

  lemma {:induction false} BumpKeys<K>(gs: seq<Group<K>>, k: K)
    ensures Keys(Bump(gs, k)) == if k in Keys(gs) then Keys(gs) else Keys(gs) + [k]
  {
    if gs != [] {
      assert Keys(gs[1..]) == Keys(gs)[1..];
      if gs[0].key != k {
        BumpKeys(gs[1..], k);
        assert Keys(Bump(gs, k)) == [gs[0].key] + Keys(Bump(gs[1..], k));
      }
    }
  }

  lemma {:induction false} BumpSize<K>(gs: seq<Group<K>>, k: K, x: K)
    ensures SizeOf(Bump(gs, k), x) == SizeOf(gs, x) + if x == k then 1 else 0
  {
    if gs != [] && gs[0].key != k {
      BumpSize(gs[1..], k, x);
    }
  }

  lemma {:induction false} BumpTotal<K>(gs: seq<Group<K>>, k: K)
    ensures Total(Bump(gs, k)) == Total(gs) + 1
  {
    if gs != [] {
      if gs[0].key == k {
        assert Bump(gs, k)[1..] == gs[1..];
      } else {
        BumpTotal(gs[1..], k);
        assert Bump(gs, k)[1..] == Bump(gs[1..], k);
      }
    }
  }

  /** Counting one more row keeps the size table exact. */
  lemma BumpCounts<K>(gs: seq<Group<K>>, keys: seq<K>, k: K)
    requires IsCountOf(gs, keys)
    ensures IsCountOf(Bump(gs, k), keys + [k])
  {
    var r := Bump(gs, k);
    var keys' := keys + [k];
    BumpKeys(gs, k);
    BumpTotal(gs, k);
    DistinctSnoc(Keys(gs), k);
    forall i | 0 <= i < |r|
      ensures r[i].size == multiset(keys')[r[i].key]
    {
      SizeOfAt(r, i);
      BumpSize(gs, k, r[i].key);
      SizeOfIsCount(gs, keys, r[i].key);
    }
    forall i | 0 <= i < |keys'|
      ensures keys'[i] in Keys(r)
    {
      if i < |keys| {
        assert keys'[i] == keys[i];
      }
    }
  }

  /** The first group's key is not repeated among the others, which stay distinct. */
  lemma KeysCons<K>(gs: seq<Group<K>>)
    requires Distinct(Keys(gs)) && gs != []
    ensures Keys(gs) == [gs[0].key] + Keys(gs[1..])
    ensures gs[0].key !in Keys(gs[1..]) && Distinct(Keys(gs[1..]))
  {
    forall j | 0 <= j < |gs| - 1 ensures Keys(gs[1..])[j] != gs[0].key {
      assert Keys(gs)[0] != Keys(gs)[j + 1];
    }
    assert Keys(gs[1..]) == Keys(gs)[1..];
  }

  lemma DistinctSnoc<K>(s: seq<K>, k: K)
    requires Distinct(s)
    ensures k !in s ==> Distinct(s + [k])
  {
  }

  /** In an exact size table, looking up any key gives its number of rows (zero when it has none). */
  lemma SizeOfIsCount<K>(gs: seq<Group<K>>, keys: seq<K>, x: K)
    requires IsCountOf(gs, keys)
    ensures SizeOf(gs, x) == multiset(keys)[x]
  {
    if x in Keys(gs) {
      var j :| 0 <= j < |gs| && Keys(gs)[j] == x;
      SizeOfAt(gs, j);
    } else {
      SizeOfAbsent(gs, x);
      assert x !in keys;
    }
  }

  /** `groupby(...).size()` over a column of keys. */
  function CountBy<K(==)>(keys: seq<K>): (r: seq<Group<K>>)
    ensures IsCountOf(r, keys)
  {
    if keys == [] then []
    else
      var init := keys[..|keys| - 1];
      var prev := CountBy(init);
      BumpCounts(prev, init, keys[|keys| - 1]);
      assert keys == init + [keys[|keys| - 1]];
      Bump(prev, keys[|keys| - 1])
  }

  /** A key is listed exactly when some row carries it. */
  lemma CountByKeysExact<K>(keys: seq<K>, x: K)
    ensures x in Keys(CountBy(keys)) <==> x in keys
  {
    var r := CountBy(keys);
    if x in Keys(r) {
      var i :| 0 <= i < |r| && Keys(r)[i] == x;
      assert multiset(keys)[x] >= 1;
    }
    if x in keys {
      var i :| 0 <= i < |keys| && keys[i] == x;
    }
  }

  // ------------------------------------------------------------------ sums

  /** Two per-group sums, as `groupby(...)[[a, b]].sum()` leaves them. */
  datatype Sums<K> = Sums(key: K, a: int, b: int)

  function SumKeys<K>(ts: seq<Sums<K>>): (ks: seq<K>)
    ensures |ks| == |ts| && forall i :: 0 <= i < |ts| ==> ks[i] == ts[i].key
  {
    seq(|ts|, i requires 0 <= i < |ts| => ts[i].key)
  }

  /** The sum of `f` over the rows, as pandas `sum()` adds a column. */
  function SumOf<T>(rows: seq<T>, f: T -> int): int {
    if rows == [] then 0 else f(rows[0]) + SumOf(rows[1..], f)
  }

  lemma {:induction false} SumOfAppend<T>(a: seq<T>, b: seq<T>, f: T -> int)
    ensures SumOf(a + b, f) == SumOf(a, f) + SumOf(b, f)
  {
    if a == [] {
      assert a + b == b;
    } else {
      assert (a + b)[1..] == a[1..] + b;
      SumOfAppend(a[1..], b, f);
    }
  }

  /** The sums of the group with key `x`, or zero for both when there is none. */
  function SumsAt<K(==)>(ts: seq<Sums<K>>, x: K): (int, int) {
    if ts == [] then (0, 0) else if ts[0].key == x then (ts[0].a, ts[0].b) else SumsAt(ts[1..], x)
  }

  lemma {:induction false} SumsAtIndex<K>(ts: seq<Sums<K>>, i: nat)
    requires Distinct(SumKeys(ts)) && i < |ts|
    ensures SumsAt(ts, ts[i].key) == (ts[i].a, ts[i].b)
  {
    if i > 0 {
      assert SumKeys(ts)[0] != SumKeys(ts)[i];
      assert SumKeys(ts[1..]) == SumKeys(ts)[1..];
      SumsAtIndex(ts[1..], i - 1);
    }
  }

  lemma {:induction false} SumsAtAbsent<K>(ts: seq<Sums<K>>, x: K)
    requires x !in SumKeys(ts)
    ensures SumsAt(ts, x) == (0, 0)
  {
    if ts != [] {
      assert SumKeys(ts[1..]) == SumKeys(ts)[1..];
      SumsAtAbsent(ts[1..], x);
    }
  }

  /** Add one row's two values to the group of `k`, or open a new group at the end. */
  function Add<K(==)>(ts: seq<Sums<K>>, k: K, da: int, db: int): seq<Sums<K>> {
    if ts == [] then [Sums(k, da, db)]
    else if ts[0].key == k then [Sums(k, ts[0].a + da, ts[0].b + db)] + ts[1..]
    else [ts[0]] + Add(ts[1..], k, da, db)
  }

  lemma {:induction false} AddKeys<K>(ts: seq<Sums<K>>, k: K, da: int, db: int)
    ensures SumKeys(Add(ts, k, da, db)) == if k in SumKeys(ts) then SumKeys(ts) else SumKeys(ts) + [k]
  {
    if ts != [] {
      assert SumKeys(ts[1..]) == SumKeys(ts)[1..];
      if ts[0].key != k {
        AddKeys(ts[1..], k, da, db);
        assert SumKeys(Add(ts, k, da, db)) == [ts[0].key] + SumKeys(Add(ts[1..], k, da, db));
      }
    }
  }

  lemma {:induction false} AddSumsAt<K>(ts: seq<Sums<K>>, k: K, da: int, db: int, x: K)
    ensures SumsAt(Add(ts, k, da, db), x)
            == if x == k then (SumsAt(ts, x).0 + da, SumsAt(ts, x).1 + db) else SumsAt(ts, x)
  {
    if ts != [] && ts[0].key != k {
      AddSumsAt(ts[1..], k, da, db, x);
    }
  }

  /** The rows whose key is `k`, in order: `df[key == k]`. */
  function Having<T, K(==)>(rows: seq<T>, key: T -> K, k: K): (r: seq<T>)
    ensures forall n :: 0 <= n < |r| ==> key(r[n]) == k && r[n] in rows
  {
    if rows == [] then []
    else (if key(rows[0]) == k then [rows[0]] else []) + Having(rows[1..], key, k)
  }

  lemma {:induction false} HavingAppend<T, K>(a: seq<T>, b: seq<T>, key: T -> K, k: K)
    ensures Having(a + b, key, k) == Having(a, key, k) + Having(b, key, k)
  {
    if a == [] {
      assert a + b == b;
    } else {
      assert (a + b)[1..] == a[1..] + b;
      HavingAppend(a[1..], b, key, k);
    }
  }

  lemma {:induction false} HavingNone<T, K>(rows: seq<T>, key: T -> K, k: K)
    requires forall n :: 0 <= n < |rows| ==> key(rows[n]) != k
    ensures Having(rows, key, k) == []
  {
    if rows != [] {
      HavingNone(rows[1..], key, k);
    }
  }

  lemma {:induction false} HavingAll<T, K>(rows: seq<T>, key: T -> K, k: K)
    requires forall n :: 0 <= n < |rows| ==> key(rows[n]) == k
    ensures Having(rows, key, k) == rows
  {
    if rows != [] {
      HavingAll(rows[1..], key, k);
    }
  }

  lemma {:induction false} SumOfConst<T>(rows: seq<T>, f: T -> int, c: int)
    requires forall n :: 0 <= n < |rows| ==> f(rows[n]) == c
    ensures SumOf(rows, f) == c * |rows|
  {
    if rows != [] {
      SumOfConst(rows[1..], f, c);
    }
  }

  /**
   * `ts` is the per-key sum table of `rows`: one entry per distinct key
   * present, its two sums being the sums of `fa` and `fb` over exactly the
   * rows that carry its key.
   */
  predicate IsSumOf<T, K(==)>(ts: seq<Sums<K>>, rows: seq<T>, key: T -> K, fa: T -> int, fb: T -> int) {
    && Distinct(SumKeys(ts))
    && (forall i :: 0 <= i < |ts| ==> SumsOfRows(ts[i], rows, key, fa, fb))
    && (forall n :: 0 <= n < |rows| ==> key(rows[n]) in SumKeys(ts))
  }

  /** One entry of a sum table is right: its key occurs and its sums are those of its rows. */
  predicate SumsOfRows<T, K(==)>(t: Sums<K>, rows: seq<T>, key: T -> K, fa: T -> int, fb: T -> int) {
    && t.a == SumOf(Having(rows, key, t.key), fa)
    && t.b == SumOf(Having(rows, key, t.key), fb)
    && |Having(rows, key, t.key)| > 0
  }

  lemma HavingSnoc<T, K>(rows: seq<T>, x: T, key: T -> K, fa: T -> int, fb: T -> int, k: K)
    ensures Having(rows + [x], key, k) == Having(rows, key, k) + if key(x) == k then [x] else []
    ensures SumOf(Having(rows + [x], key, k), fa) == SumOf(Having(rows, key, k), fa) + if key(x) == k then fa(x) else 0
    ensures SumOf(Having(rows + [x], key, k), fb) == SumOf(Having(rows, key, k), fb) + if key(x) == k then fb(x) else 0
  {
    HavingAppend(rows, [x], key, k);
    assert Having([x], key, k) == if key(x) == k then [x] else [];
    SumOfAppend(Having(rows, key, k), Having([x], key, k), fa);
    SumOfAppend(Having(rows, key, k), Having([x], key, k), fb);
  }

  /** In an exact sum table, looking up any key gives the sums over that key's rows (zero when it has none). */
  lemma SumsAtIsSum<T, K>(ts: seq<Sums<K>>, rows: seq<T>, key: T -> K, fa: T -> int, fb: T -> int, k: K)
    requires IsSumOf(ts, rows, key, fa, fb)
    ensures SumsAt(ts, k) == (SumOf(Having(rows, key, k), fa), SumOf(Having(rows, key, k), fb))
    ensures k in SumKeys(ts) <==> |Having(rows, key, k)| > 0
  {
    if k in SumKeys(ts) {
      var j :| 0 <= j < |ts| && SumKeys(ts)[j] == k;
      SumsAtIndex(ts, j);
      assert SumsOfRows(ts[j], rows, key, fa, fb);
    } else {
      SumsAtAbsent(ts, k);
      forall n | 0 <= n < |rows| ensures key(rows[n]) != k {
        assert key(rows[n]) in SumKeys(ts);
      }
      HavingNone(rows, key, k);
    }
  }

  /** The entry of key `k` after adding row `x` is right, given the table before was. */
  lemma AddSumsEntry<T, K>(ts: seq<Sums<K>>, rows: seq<T>, x: T, key: T -> K, fa: T -> int, fb: T -> int,
                           r: seq<Sums<K>>, i: nat)
    requires IsSumOf(ts, rows, key, fa, fb)
    requires r == Add(ts, key(x), fa(x), fb(x)) && Distinct(SumKeys(r)) && i < |r|
    requires r[i].key == key(x) || r[i].key in SumKeys(ts)
    ensures SumsOfRows(r[i], rows + [x], key, fa, fb)
  {
    var k := r[i].key;
    SumsAtIndex(r, i);
    AddSumsAt(ts, key(x), fa(x), fb(x), k);
    HavingSnoc(rows, x, key, fa, fb, k);
    SumsAtIsSum(ts, rows, key, fa, fb, k);
  }

  /** Adding one more row keeps the sum table exact. */
  lemma AddSums<T, K>(ts: seq<Sums<K>>, rows: seq<T>, x: T, key: T -> K, fa: T -> int, fb: T -> int)
    requires IsSumOf(ts, rows, key, fa, fb)
    ensures IsSumOf(Add(ts, key(x), fa(x), fb(x)), rows + [x], key, fa, fb)
  {
    var r := Add(ts, key(x), fa(x), fb(x));
    AddKeys(ts, key(x), fa(x), fb(x));
    DistinctSnoc(SumKeys(ts), key(x));
    AddSumsEntries(ts, rows, x, key, fa, fb, r);
    AddSumsCover(ts, rows, x, key, fa, fb, r);
  }

  lemma AddSumsEntries<T, K>(ts: seq<Sums<K>>, rows: seq<T>, x: T, key: T -> K, fa: T -> int, fb: T -> int,
                             r: seq<Sums<K>>)
    requires IsSumOf(ts, rows, key, fa, fb)
    requires r == Add(ts, key(x), fa(x), fb(x)) && Distinct(SumKeys(r))
    requires SumKeys(r) == if key(x) in SumKeys(ts) then SumKeys(ts) else SumKeys(ts) + [key(x)]
    ensures forall i :: 0 <= i < |r| ==> SumsOfRows(r[i], rows + [x], key, fa, fb)
  {
    forall i | 0 <= i < |r|
      ensures SumsOfRows(r[i], rows + [x], key, fa, fb)
    {
      assert SumKeys(r)[i] == r[i].key;
      AddSumsEntry(ts, rows, x, key, fa, fb, r, i);
    }
  }

  lemma AddSumsCover<T, K>(ts: seq<Sums<K>>, rows: seq<T>, x: T, key: T -> K, fa: T -> int, fb: T -> int,
                           r: seq<Sums<K>>)
    requires forall n :: 0 <= n < |rows| ==> key(rows[n]) in SumKeys(ts)
    requires SumKeys(r) == if key(x) in SumKeys(ts) then SumKeys(ts) else SumKeys(ts) + [key(x)]
    ensures forall n :: 0 <= n < |rows + [x]| ==> key((rows + [x])[n]) in SumKeys(r)
  {
    forall n | 0 <= n < |rows + [x]|
      ensures key((rows + [x])[n]) in SumKeys(r)
    {
      if n < |rows| {
        assert (rows + [x])[n] == rows[n];
      }
    }
  }

  /** `groupby(key)[[a, b]].sum()`: per distinct key, the sums of the two columns over its rows. */
  function SumBy<T, K(==)>(rows: seq<T>, key: T -> K, fa: T -> int, fb: T -> int): (r: seq<Sums<K>>)
    ensures IsSumOf(r, rows, key, fa, fb)
  {
    if rows == [] then []
    else
      var init := rows[..|rows| - 1];
      var x := rows[|rows| - 1];
      var prev := SumBy(init, key, fa, fb);
      AddSums(prev, init, x, key, fa, fb);
      assert rows == init + [x];
      Add(prev, key(x), fa(x), fb(x))
  }

  /** How many rows a per-row key gives `k` is how many rows carry key `k`. */
  lemma {:induction false} HavingCount<T, K>(rows: seq<T>, key: T -> K, k: K)
    ensures multiset(Map(rows, key))[k] == |Having(rows, key, k)|
  {
    if rows != [] {
      HavingCount(rows[1..], key, k);
      assert Map(rows, key) == [key(rows[0])] + Map(rows[1..], key);
    }
  }

  /** Selecting rows first by a condition that every row of key `k` meets leaves the rows of key `k` alone. */
  lemma {:induction false} HavingFilter<T, K>(rows: seq<T>, p: T -> bool, key: T -> K, k: K)
    requires forall x :: key(x) == k ==> p(x)
    ensures Having(Filter(rows, p), key, k) == Having(rows, key, k)
  {
    if rows != [] {
      HavingFilter(rows[1..], p, key, k);
      assert rows == [rows[0]] + rows[1..];
      HavingAppend(if p(rows[0]) then [rows[0]] else [], Filter(rows[1..], p), key, k);
    }
  }
}
