/** Small shared vocabulary: an optional value and facts about finite sets. */
module Util {

  datatype Option<+T> = None | Some(value: T)

  function Max(a: int, b: int): int { if a < b then b else a }

  function Min(a: int, b: int): int { if a < b then a else b }

  predicate NoRepeats<T(==)>(s: seq<T>) { forall i, j :: 0 <= i < j < |s| ==> s[i] != s[j] }

  /** A sequence put after another repeats nothing exactly when neither does and they
      share nothing. */
  lemma AppendedOnce<T>(a: seq<T>, b: seq<T>)
    ensures NoRepeats(a + b) <==> NoRepeats(a) && NoRepeats(b) && forall x <- b :: x !in a
  {
    var ab := a + b;
    assert forall i :: 0 <= i < |a| ==> ab[i] == a[i];
    assert forall i :: 0 <= i < |b| ==> ab[|a| + i] == b[i];
    if NoRepeats(ab) {
      forall i, j | 0 <= i < j < |b| ensures b[i] != b[j] { assert ab[|a| + i] != ab[|a| + j]; }
      forall x <- b ensures x !in a {
        var j :| 0 <= j < |b| && b[j] == x;
        forall i | 0 <= i < |a| ensures a[i] != x { assert ab[i] != ab[|a| + j]; }
      }
    } else if NoRepeats(a) && NoRepeats(b) {
      var i, j :| 0 <= i < j < |ab| && ab[i] == ab[j];
      assert j >= |a| && b[j - |a|] in b;
    }
  }

  /** Ids with pairwise different positions in [0, n) number at most n. */
  lemma {:induction false} DistinctPositions<T>(ids: set<T>, at: map<T, int>, n: nat)
    requires forall t <- ids :: t in at && 0 <= at[t] < n
    requires forall t <- ids, u <- ids :: t != u ==> at[t] != at[u]
    ensures |ids| <= n
    decreases n
  {
    if n == 0 {
      assert forall t <- ids :: false;
      assert ids == {};
    } else if last :| last in ids && at[last] == n - 1 {
      DistinctPositions(ids - {last}, at, n - 1);
    } else {
      DistinctPositions(ids, at, n - 1);
    }
  }

  /** A sequence without repetitions has as many members as positions. */
  lemma {:induction false} DistinctMembers<T>(s: seq<T>)
    requires forall k, l | 0 <= k < l < |s| :: s[k] != s[l]
    ensures |set x | x in s| == |s|
  {
    if s != [] {
      var k := |s| - 1;
      DistinctMembers(s[..k]);
      assert s == s[..k] + [s[k]];
      assert (set x | x in s) == (set x | x in s[..k]) + {s[k]};
    }
  }

  /** A one-to-one image is as large as what it is the image of. */
  lemma {:induction false} ImageSize<T, U>(ids: set<T>, key: map<T, U>, image: set<U>)
    requires ids <= key.Keys
    requires forall t <- ids, u <- ids :: t != u ==> key[t] != key[u]
    requires forall t <- ids :: key[t] in image
    requires forall y <- image :: exists t :: t in ids && key[t] == y
    ensures |image| == |ids|
    decreases ids
  {
    if ids == {} {
      assert image == {};
    } else {
      var t :| t in ids;
      ImageSize(ids - {t}, key, image - {key[t]});
    }
  }

  /** The sum of a map's values. */
  ghost function Total<K(!new)>(m: map<K, nat>): nat {
    if m == map[] then 0 else
      var k :| k in m;
      m[k] + Total(m - {k})
  }

  lemma {:induction false} TotalWithout<K(!new)>(m: map<K, nat>, k: K)
    requires k in m
    ensures Total(m) == m[k] + Total(m - {k})
    decreases m
  {
    var x :| x in m && Total(m) == m[x] + Total(m - {x});
    if x != k {
      TotalWithout(m - {x}, k);
      TotalWithout(m - {k}, x);
      assert m - {x} - {k} == m - {k} - {x};
    }
  }

  lemma TotalUpdate<K(!new)>(m: map<K, nat>, k: K, v: nat)
    ensures Total(m[k := v]) == Total(m) + v - if k in m then m[k] else 0
  {
    TotalWithout(m[k := v], k);
    assert m[k := v] - {k} == m - {k};
    if k in m { TotalWithout(m, k); } else { assert m - {k} == m; }
  }
}
