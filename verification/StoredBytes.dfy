// The bytes an account has stored: StorageBytes of internals/app/job/repo.go, as a sum over its
// asset rows.
module StoredBytes {
  ghost function Total(m: map<string, nat>): nat {
    if m == map[] then 0
    else
      var k :| k in m;
      m[k] + Total(m - {k})
  }

  /** Any entry can be taken out first. */
  lemma {:induction false} TakeOut(m: map<string, nat>, k: string)
    requires k in m
    ensures Total(m) == m[k] + Total(m - {k})
    decreases |m|
  {
    var j :| j in m && Total(m) == m[j] + Total(m - {j});
    if j != k {
      assert |m - {j}| < |m| by { Smaller(m, j); }
      assert |m - {k}| < |m| by { Smaller(m, k); }
      TakeOut(m - {j}, k);
      TakeOut(m - {k}, j);
      assert m - {j} - {k} == m - {k} - {j};
    }
  }

  lemma Smaller(m: map<string, nat>, k: string)
    requires k in m
    ensures |m - {k}| < |m|
  {
    assert (m - {k}).Keys == m.Keys - {k};
    assert |m.Keys - {k}| < |m.Keys|;
  }

  lemma PutIn(m: map<string, nat>, k: string, n: nat)
    requires k !in m
    ensures Total(m[k := n]) == Total(m) + n
  {
    TakeOut(m[k := n], k);
    assert m[k := n] - {k} == m;
  }
}
