/** Small types and one summation principle shared by the other modules. */
module Common {

  datatype Option<+T> = None | Some(value: T)

  // The errors the modelled code can return; Other stands for any error of a library call.
  datatype Error =
    | ConnectionClosed | NoPublisher | NoSubscriber | Timeout | PoolClosed | PoolFull
    | ContextDone | EmptySessionID | MessageTooLarge | Other(code: int)

  function Below(n: nat): (r: set<nat>)
    ensures forall k: nat :: k in r <==> k < n
    ensures |r| == n
  {
    if n == 0 then {} else Below(n - 1) + {n - 1}
  }

  lemma SubsetSize<T>(a: set<T>, b: set<T>)
    requires a <= b
    ensures |a| <= |b| && (|a| == |b| ==> a == b)
  {
    assert b == a + (b - a);
  }

  // ---- sums over the values of a finite map ----

  ghost function Pick<V>(m: map<string, V>): (k: string)
    requires m.Keys != {}
    ensures k in m
  {
    var k :| k in m.Keys; k
  }

  ghost function Sum(m: map<string, nat>): nat
    decreases m.Keys
  {
    if m.Keys == {} then 0 else var k := Pick(m); m[k] + Sum(m - {k})
  }

  function At(m: map<string, nat>, k: string): nat {
    if k in m then m[k] else 0
  }

  /** The sum does not depend on the order in which keys are taken. */
  lemma {:induction false} SumTake(m: map<string, nat>, k: string)
    requires k in m
    ensures Sum(m) == m[k] + Sum(m - {k})
    decreases m.Keys
  {
    var j := Pick(m);
    if j != k {
      SumTake(m - {j}, k);
      SumTake(m - {k}, j);
      assert m - {j} - {k} == m - {k} - {j};
    }
  }

  lemma SumPut(m: map<string, nat>, k: string, v: nat)
    ensures Sum(m[k := v]) == Sum(m) - At(m, k) + v
  {
    SumTake(m[k := v], k);
    assert m[k := v] - {k} == m - {k};
    if k in m {
      SumTake(m, k);
    } else {
      assert m - {k} == m;
    }
  }

  /** Pointwise addition, with absent keys counting as zero. */
  lemma {:induction false} SumSplit(a: map<string, nat>, b: map<string, nat>, c: map<string, nat>)
    requires b.Keys <= a.Keys && c.Keys <= a.Keys
    requires forall k :: k in a ==> a[k] == At(b, k) + At(c, k)
    ensures Sum(a) == Sum(b) + Sum(c)
    decreases a.Keys
  {
    if a.Keys == {} {
      assert a == b == c;
    } else {
      var k := Pick(a);
      SumSplit(a - {k}, b - {k}, c - {k});
      SumDrop(b, k);
      SumDrop(c, k);
    }
  }

  lemma SumDrop(m: map<string, nat>, k: string)
    ensures Sum(m) == At(m, k) + Sum(m - {k})
  {
    if k in m {
      SumTake(m, k);
    } else {
      assert m - {k} == m;
    }
  }
}
