/** The keyed rule index that both transition tables are looked up through.
    Everything here holds of any table of rules, not only of the shipped ones. */
module RuleIndex {
  import opened Options

  /** The rules of `table` filed under `k`, in table order. */
  function Bucket<K(==), R>(table: seq<R>, key: R -> K, k: K): seq<R> {
    if table == [] then []
    else
      var init, last := table[..|table| - 1], table[|table| - 1];
      Bucket(init, key, k) + if key(last) == k then [last] else []
  }

  /** The first rule of `rules` that satisfies `holds`. */
  function First<R>(rules: seq<R>, holds: R -> bool): Option<R> {
    if rules == [] then None
    else if holds(rules[0]) then Some(rules[0])
    else First(rules[1..], holds)
  }

  /** `index` files every rule of `table`: a key is present exactly when some rule
      carries it, and then holds that key's bucket. */
  ghost predicate Indexes<K(!new), R>(index: map<K, seq<R>>, table: seq<R>, key: R -> K) {
    forall k :: Get(index, k) == Bucket(table, key, k) && (k in index <==> Bucket(table, key, k) != [])
  }

  function Get<K, R>(index: map<K, seq<R>>, k: K): seq<R> {
    if k in index then index[k] else []
  }

  method Build<K(==, !new), R>(table: seq<R>, key: R -> K) returns (index: map<K, seq<R>>)
    ensures Indexes(index, table, key)
  {
    index := map[];
    for i := 0 to |table|
      invariant Indexes(index, table[..i], key)
    {
      var k := key(table[i]);
      var bucket := if k in index then index[k] else [];
      index := index[k := bucket + [table[i]]];
      assert table[..i + 1][..i] == table[..i];
    }
    assert table[..|table|] == table;
  }

  lemma {:induction false} FirstOfConcat<R>(xs: seq<R>, ys: seq<R>, holds: R -> bool)
    ensures First(xs + ys, holds) ==
            if First(xs, holds).Some? then First(xs, holds) else First(ys, holds)
  {
    if xs == [] {
      assert xs + ys == ys;
    } else {
      assert (xs + ys)[1..] == xs[1..] + ys;
      FirstOfConcat(xs[1..], ys, holds);
    }
  }

  /** The condition of a linear scan: the right key, and `holds`. */
  function Keyed<K(==), R>(key: R -> K, k: K, holds: R -> bool): R -> bool {
    r => key(r) == k && holds(r)
  }

  /** A scan of the bucket answers what a scan of the whole table answers. */
  lemma {:induction false} BucketScan<K, R>(table: seq<R>, key: R -> K, k: K, holds: R -> bool)
    ensures First(Bucket(table, key, k), holds) == First(table, Keyed(key, k, holds))
  {
    if table != [] {
      var init, last := table[..|table| - 1], table[|table| - 1];
      BucketScan(init, key, k, holds);
      assert table == init + [last];
      FirstOfConcat(init, [last], Keyed(key, k, holds));
      FirstOfConcat(Bucket(init, key, k), if key(last) == k then [last] else [], holds);
    }
  }

  /** `First` is the first: it answers None exactly when nothing holds, and otherwise
      a rule that holds with none holding before it. */
  lemma {:induction false} FirstIsLeast<R>(rules: seq<R>, holds: R -> bool) returns (i: nat)
    ensures i <= |rules| && forall j :: 0 <= j < i ==> !holds(rules[j])
    ensures First(rules, holds) == if i < |rules| then Some(rules[i]) else None
    ensures i < |rules| ==> holds(rules[i])
  {
    if rules == [] || holds(rules[0]) {
      i := 0;
    } else {
      var j := FirstIsLeast(rules[1..], holds);
      i := j + 1;
      forall h | 0 <= h < i ensures !holds(rules[h]) {
        if h > 0 { assert rules[h] == rules[1..][h - 1]; }
      }
    }
  }

  /** When a single position of the table has the right key and satisfies `holds`, the
      bucket scan finds the rule there; when none does, it finds nothing. */
  lemma BucketScanHits<K, R>(table: seq<R>, key: R -> K, k: K, holds: R -> bool, hit: int)
    requires hit < |table|
    requires forall i | 0 <= i < |table| :: key(table[i]) == k && holds(table[i]) <==> i == hit
    ensures First(Bucket(table, key, k), holds) == if hit < 0 then None else Some(table[hit])
  {
    BucketScan(table, key, k, holds);
    var i := FirstIsLeast(table, Keyed(key, k, holds));
    assert hit >= 0 ==> Keyed(key, k, holds)(table[hit]);
  }

  /** A bucket is empty exactly when no rule carries the key. */
  lemma {:induction false} BucketEmpty<K, R>(table: seq<R>, key: R -> K, k: K)
    ensures Bucket(table, key, k) == [] <==> forall i :: 0 <= i < |table| ==> key(table[i]) != k
  {
    if table != [] {
      BucketEmpty(table[..|table| - 1], key, k);
      assert forall i :: 0 <= i < |table| - 1 ==> table[..|table| - 1][i] == table[i];
    }
  }

  ghost predicate OnlyAt<K(!new), R>(table: seq<R>, key: R -> K, k: K, i: int) {
    0 <= i < |table| && forall j :: 0 <= j < |table| ==> (key(table[j]) == k <==> j == i)
  }

  /** A key carried at one table position only has that position's rule as its bucket. */
  lemma {:induction false} OnlyAtIsBucket<K(!new), R>(table: seq<R>, key: R -> K, k: K, i: int)
    requires OnlyAt(table, key, k, i)
    ensures Bucket(table, key, k) == [table[i]]
  {
    var n := |table| - 1;
    if i == n {
      BucketEmpty(table[..n], key, k);
    } else {
      assert OnlyAt(table[..n], key, k, i) by {
        assert forall j :: 0 <= j < n ==> table[..n][j] == table[j];
      }
      OnlyAtIsBucket(table[..n], key, k, i);
      assert key(table[n]) != k;
    }
  }

  /** And conversely: a bucket of one rule comes from one table position only. */
  lemma {:induction false} BucketIsOnlyAt<K(!new), R>(table: seq<R>, key: R -> K, k: K) returns (i: int)
    requires |Bucket(table, key, k)| == 1
    ensures OnlyAt(table, key, k, i) && Bucket(table, key, k) == [table[i]]
  {
    var n := |table| - 1;
    assert forall j :: 0 <= j < n ==> table[..n][j] == table[j];
    if key(table[n]) == k {
      i := n;
      BucketEmpty(table[..n], key, k);
    } else {
      i := BucketIsOnlyAt(table[..n], key, k);
    }
  }
}
