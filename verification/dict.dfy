/** Python's insertion-ordered `dict`, as a sequence of (key, value) pairs.

    Assigning `d[k] = v` keeps the position of an existing key and appends a new
    one; `a | b` copies `a` and then assigns every entry of `b` in `b`'s order.
    Both facts decide the order in which the engine visits parameters, and so the
    order in which it consumes random draws.
 */
module Dict {
  import opened Common

  function Keys<K(!new), V>(d: seq<(K, V)>): (ks: seq<K>)
    ensures |ks| == |d|
    ensures forall i :: 0 <= i < |d| ==> ks[i] == d[i].0
  {
    seq(|d|, i requires 0 <= i < |d| => d[i].0)
  }

  function Values<K(!new), V>(d: seq<(K, V)>): (vs: seq<V>)
    ensures |vs| == |d|
    ensures forall i :: 0 <= i < |d| ==> vs[i] == d[i].1
  {
    seq(|d|, i requires 0 <= i < |d| => d[i].1)
  }

  /** A Python dict never holds a key twice. */
  predicate Distinct<K(==)>(ks: seq<K>) {
    forall i, j :: 0 <= i < j < |ks| ==> ks[i] != ks[j]
  }

  /** Dropping the first key keeps the rest distinct, and the first key does not recur. */
  lemma DistinctTail<K>(ks: seq<K>)
    requires Distinct(ks) && |ks| > 0
    ensures Distinct(ks[1..]) && ks[0] !in ks[1..]
  {
    forall i, j | 0 <= i < j < |ks[1..]| ensures ks[1..][i] != ks[1..][j] {
      assert ks[1..][i] == ks[i + 1];
    }
  }

  lemma KeysConcat<K(!new), V>(a: seq<(K, V)>, b: seq<(K, V)>)
    ensures Keys(a + b) == Keys(a) + Keys(b)
  {
  }

  lemma ConcatAssoc<T>(a: seq<T>, b: seq<T>, c: seq<T>)
    ensures (a + b) + c == a + (b + c)
  {
  }

  /** A sequence without repeats splits into two without repeats that share nothing, and back. */
  lemma DistinctConcat<K>(a: seq<K>, b: seq<K>)
    ensures Distinct(a + b) <==> Distinct(a) && Distinct(b) && forall x :: x in a ==> x !in b
  {
    var c := a + b;
    if Distinct(c) {
      forall i, j | 0 <= i < j < |a| ensures a[i] != a[j] {
        assert c[i] == a[i] && c[j] == a[j];
      }
      forall i, j | 0 <= i < j < |b| ensures b[i] != b[j] {
        assert c[|a| + i] == b[i] && c[|a| + j] == b[j];
      }
      forall x | x in a ensures x !in b {
        var i :| 0 <= i < |a| && a[i] == x;
        forall j | 0 <= j < |b| ensures b[j] != x {
          assert c[i] == x && c[|a| + j] == b[j];
        }
      }
    }
    if Distinct(a) && Distinct(b) && forall x :: x in a ==> x !in b {
      forall i, j | 0 <= i < j < |c| ensures c[i] != c[j] {
        if j < |a| {
          assert c[i] == a[i] && c[j] == a[j];
        } else if |a| <= i {
          assert c[i] == b[i - |a|] && c[j] == b[j - |a|];
        } else {
          assert c[i] == a[i] && c[j] == b[j - |a|];
          assert a[i] in a && b[j - |a|] in b;
        }
      }
    }
  }

  /** Position of the first entry with key `k`. */
  function Find<K(==,!new), V>(d: seq<(K, V)>, k: K): (r: Option<nat>)
    ensures r.Some? ==> r.value < |d| && d[r.value].0 == k
    ensures r.Some? ==> forall i :: 0 <= i < r.value ==> d[i].0 != k
    ensures r.None? <==> k !in Keys(d)
  {
    if |d| == 0 then None
    else if d[0].0 == k then Some(0)
    else
      match Find(d[1..], k)
      case None => assert Keys(d) == [d[0].0] + Keys(d[1..]); None
      case Some(i) => Some(i + 1)
  }

  /** `d.get(k)` */
  function Get<K(==,!new), V>(d: seq<(K, V)>, k: K): (r: Option<V>)
    ensures r.Some? <==> k in Keys(d)
    ensures r.Some? ==> exists i :: 0 <= i < |d| && d[i] == (k, r.value)
  {
    match Find(d, k)
    case None => None
    case Some(i) => Some(d[i].1)
  }

  /** `d[k] = v` */
  function Put<K(==,!new), V>(d: seq<(K, V)>, k: K, v: V): (r: seq<(K, V)>)
    ensures k in Keys(d) ==> Keys(r) == Keys(d)
    ensures k !in Keys(d) ==> Keys(r) == Keys(d) + [k]
    ensures Get(r, k) == Some(v)
    ensures forall k' :: k' != k ==> Get(r, k') == Get(d, k')
  {
    match Find(d, k)
    case Some(i) =>
      var r := d[i := (k, v)];
      assert Keys(r) == Keys(d);
      assert Find(r, k) == Some(i) by { FindAfterReplace(d, i, k, v); }
      forall k' | k' != k ensures Get(r, k') == Get(d, k') {
        FindOther(d, i, k, v, k');
      }
      r
    case None =>
      var r := d + [(k, v)];
      assert Keys(r) == Keys(d) + [k];
      assert Find(r, k) == Some(|d|) by { FindAppended(d, k, v, k); }
      forall k' | k' != k ensures Get(r, k') == Get(d, k') {
        FindAppended(d, k, v, k');
      }
      r
  }

  /** The first entry holding `k` is the one `Find` reports. */
  lemma FindFirst<K(!new), V>(d: seq<(K, V)>, k: K, i: nat)
    requires i < |d| && d[i].0 == k
    requires forall j :: 0 <= j < i ==> d[j].0 != k
    ensures Find(d, k) == Some(i)
  {
    assert Keys(d)[i] == k;
  }

  /** `Find` looks at keys only. */
  lemma FindKeysOnly<K(!new), V>(d1: seq<(K, V)>, d2: seq<(K, V)>, k: K)
    requires Keys(d1) == Keys(d2)
    ensures Find(d1, k) == Find(d2, k)
  {
    match Find(d1, k)
    case None =>
    case Some(i) =>
      assert forall j :: 0 <= j < |d1| ==> d1[j].0 == Keys(d1)[j] == Keys(d2)[j] == d2[j].0;
      FindFirst(d2, k, i);
  }

  lemma FindAfterReplace<K(!new), V>(d: seq<(K, V)>, i: nat, k: K, v: V)
    requires i < |d| && d[i].0 == k
    requires forall j :: 0 <= j < i ==> d[j].0 != k
    ensures Find(d[i := (k, v)], k) == Some(i)
  {
    FindFirst(d[i := (k, v)], k, i);
  }

  lemma FindOther<K(!new), V>(d: seq<(K, V)>, i: nat, k: K, v: V, k': K)
    requires i < |d| && d[i].0 == k && k' != k
    ensures Find(d[i := (k, v)], k') == Find(d, k')
  {
    assert Keys(d[i := (k, v)]) == Keys(d);
    FindKeysOnly(d[i := (k, v)], d, k');
  }

  lemma FindAppended<K(!new), V>(d: seq<(K, V)>, k: K, v: V, k': K)
    requires k !in Keys(d)
    ensures k' == k ==> Find(d + [(k, v)], k') == Some(|d|)
    ensures k' != k ==> Find(d + [(k, v)], k') == Find(d, k')
  {
    var r := d + [(k, v)];
    assert Keys(r) == Keys(d) + [k];
    assert forall j :: 0 <= j < |d| ==> r[j] == d[j];
    if k' == k {
      forall j | 0 <= j < |d| ensures r[j].0 != k {
        assert Keys(d)[j] == d[j].0;
      }
      FindFirst(r, k, |d|);
    } else {
      match Find(d, k')
      case None =>
        assert k' !in Keys(r);
      case Some(i) =>
        FindFirst(r, k', i);
    }
  }

  lemma PutDistinct<K(!new), V>(d: seq<(K, V)>, k: K, v: V)
    requires Distinct(Keys(d))
    ensures Distinct(Keys(Put(d, k, v)))
  {
  }

  /** Assigning a key the dict does not hold appends it. */
  lemma PutNew<K(!new), V>(d: seq<(K, V)>, k: K, v: V)
    requires k !in Keys(d)
    ensures Put(d, k, v) == d + [(k, v)]
  {
  }

  /** `a | b` over disjoint keys is plain concatenation. */
  lemma {:induction false} UnionFresh<K(!new), V>(a: seq<(K, V)>, b: seq<(K, V)>)
    requires Distinct(Keys(a + b))
    ensures Union(a, b) == a + b
    decreases |b|
  {
    if |b| != 0 {
      assert b[0].0 !in Keys(a) by {
        forall i | 0 <= i < |a| ensures Keys(a)[i] != b[0].0 {
          assert Keys(a + b)[i] == Keys(a)[i] && Keys(a + b)[|a|] == b[0].0;
        }
      }
      PutNew(a, b[0].0, b[0].1);
      assert a + b == (a + [b[0]]) + b[1..];
      UnionFresh(a + [b[0]], b[1..]);
    }
  }

  /** A property every entry of `d` and the new entry have holds of every entry after `d[k] = v`. */
  lemma PutPreserves<K(!new), V>(d: seq<(K, V)>, k: K, v: V, P: ((K, V)) -> bool)
    requires forall i :: 0 <= i < |d| ==> P(d[i])
    requires P((k, v))
    ensures var r := Put(d, k, v); forall i :: 0 <= i < |r| ==> P(r[i])
  {
    match Find(d, k)
    case Some(i) =>
    case None =>
  }

  /** `a = a | b`, as above: entries of both maps with a property give only such entries. */
  lemma {:induction false} UnionPreserves<K(!new), V>(a: seq<(K, V)>, b: seq<(K, V)>, P: ((K, V)) -> bool)
    requires forall i :: 0 <= i < |a| ==> P(a[i])
    requires forall i :: 0 <= i < |b| ==> P(b[i])
    ensures var r := Union(a, b); forall i :: 0 <= i < |r| ==> P(r[i])
    decreases |b|
  {
    if |b| != 0 {
      var a' := Put(a, b[0].0, b[0].1);
      PutPreserves(a, b[0].0, b[0].1, P);
      assert forall i :: 0 <= i < |b[1..]| ==> P(b[1..][i]) by {
        forall i | 0 <= i < |b[1..]| ensures P(b[1..][i]) {
          assert b[1..][i] == b[i + 1];
        }
      }
      UnionPreserves(a', b[1..], P);
      assert Union(a, b) == Union(a', b[1..]);
      var u := Union(a, b);
      assert forall i :: 0 <= i < |u| ==> P(u[i]);
    }
  }

  /** `a | b` */
  function Union<K(==,!new), V>(a: seq<(K, V)>, b: seq<(K, V)>): (r: seq<(K, V)>)
    ensures |Keys(a)| <= |Keys(r)| && Keys(r)[..|a|] == Keys(a)
    decreases |b|
  {
    if |b| == 0 then a
    else
      var a' := Put(a, b[0].0, b[0].1);
      assert Keys(a')[..|a|] == Keys(a);
      var r := Union(a', b[1..]);
      assert Keys(r)[..|a|] == Keys(r)[..|a'|][..|a|];
      r
  }

  /** The keys of `a | b` are those of either map. */
  lemma {:induction false} UnionKeys<K(!new), V>(a: seq<(K, V)>, b: seq<(K, V)>, k: K)
    ensures k in Keys(Union(a, b)) <==> k in Keys(a) || k in Keys(b)
    decreases |b|
  {
    if |b| != 0 {
      var a' := Put(a, b[0].0, b[0].1);
      UnionKeys(a', b[1..], k);
      assert Union(a, b) == Union(a', b[1..]);
      PutKeys(a, b[0].0, b[0].1, k);
      KeysCons(b, k);
    }
  }

  /** The keys after `d[k] = v` are those of `d` and `k`. */
  lemma PutKeys<K(!new), V>(d: seq<(K, V)>, k: K, v: V, k': K)
    ensures k' in Keys(Put(d, k, v)) <==> k' in Keys(d) || k' == k
  {
  }

  /** A key of a non-empty dict is its first key or a key of the rest. */
  lemma KeysCons<K(!new), V>(d: seq<(K, V)>, k: K)
    requires |d| > 0
    ensures k in Keys(d) <==> k == d[0].0 || k in Keys(d[1..])
  {
    assert Keys(d) == [d[0].0] + Keys(d[1..]);
  }

  /** In `a | b` the entry of `b` wins where both maps hold a key; keys only `a` holds survive. */
  lemma {:induction false} UnionGet<K(!new), V>(a: seq<(K, V)>, b: seq<(K, V)>, k: K)
    requires Distinct(Keys(b))
    ensures k in Keys(b) ==> Get(Union(a, b), k) == Get(b, k)
    ensures k !in Keys(b) ==> Get(Union(a, b), k) == Get(a, k)
    decreases |b|
  {
    if |b| != 0 {
      var a' := Put(a, b[0].0, b[0].1);
      var b' := b[1..];
      assert Keys(b') == Keys(b)[1..];
      DistinctTail(Keys(b));
      UnionGet(a', b', k);
      GetCons(b, k);
      assert Union(a, b) == Union(a', b');
    }
  }

  /** Looking up a key in a dict whose first entry is `b[0]`. */
  lemma GetCons<K(!new), V>(b: seq<(K, V)>, k: K)
    requires |b| > 0
    ensures k == b[0].0 ==> Get(b, k) == Some(b[0].1)
    ensures k != b[0].0 ==> Get(b, k) == Get(b[1..], k)
  {
    if k != b[0].0 {
      match Find(b[1..], k)
      case None =>
      case Some(i) => assert b[1..][i] == b[i + 1];
    }
  }

  lemma {:induction false} UnionDistinct<K(!new), V>(a: seq<(K, V)>, b: seq<(K, V)>)
    requires Distinct(Keys(a))
    ensures Distinct(Keys(Union(a, b)))
    decreases |b|
  {
    if |b| != 0 {
      PutDistinct(a, b[0].0, b[0].1);
      UnionDistinct(Put(a, b[0].0, b[0].1), b[1..]);
    }
  }

  /** `d[ks[j]] = vs[j]` for each `j` in turn, over keys `d` already holds. */
  function PutAll<K(==,!new), V>(d: seq<(K, V)>, ks: seq<K>, vs: seq<V>): (r: seq<(K, V)>)
    requires |vs| == |ks| && Distinct(ks)
    requires forall j :: 0 <= j < |ks| ==> ks[j] in Keys(d)
    ensures Keys(r) == Keys(d)
    ensures forall j :: 0 <= j < |ks| ==> Get(r, ks[j]) == Some(vs[j])
    decreases |ks|
  {
    if |ks| == 0 then d
    else
      var n := |ks| - 1;
      DistinctPrefix(ks, n);
      var p := PutAll(d, ks[..n], vs[..n]);
      PutLast(p, ks, vs, n);
      Put(p, ks[n], vs[n])
  }

  /** A prefix of distinct keys is distinct. */
  lemma DistinctPrefix<K>(ks: seq<K>, n: nat)
    requires Distinct(ks) && n <= |ks|
    ensures Distinct(ks[..n])
  {
    forall i, j | 0 <= i < j < n ensures ks[..n][i] != ks[..n][j] {
      assert ks[i] != ks[j];
    }
  }

  /** Storing the last value under the last key, already held, keeps the keys
      and the values stored before under the other keys. */
  lemma PutLast<K(!new), V>(d: seq<(K, V)>, ks: seq<K>, vs: seq<V>, n: nat)
    requires |vs| == |ks| == n + 1 && Distinct(ks)
    requires ks[n] in Keys(d)
    requires forall j :: 0 <= j < n ==> Get(d, ks[..n][j]) == Some(vs[..n][j])
    ensures Keys(Put(d, ks[n], vs[n])) == Keys(d)
    ensures forall j :: 0 <= j < |ks| ==> Get(Put(d, ks[n], vs[n]), ks[j]) == Some(vs[j])
  {
    var r := Put(d, ks[n], vs[n]);
    forall j | 0 <= j < |ks| ensures Get(r, ks[j]) == Some(vs[j]) {
      if j < n {
        assert ks[j] != ks[n];
        assert ks[..n][j] == ks[j] && vs[..n][j] == vs[j];
        assert Get(r, ks[j]) == Get(d, ks[j]);
      } else {
        assert j == n;
        assert Get(r, ks[n]) == Some(vs[n]);
      }
    }
  }
}
