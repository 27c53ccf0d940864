/** Component names: the bucket, a colon and a decimal number. */
module ComponentIds {

  import opened Numerals

  function Id(bucket: string, n: nat): string {
    bucket + ":" + Decimal(n)
  }

  /** Different bucket or number, different name: the last colon splits it. */
  lemma IdIsInjective(a: string, m: nat, b: string, n: nat)
    requires Id(a, m) == Id(b, n)
    ensures a == b && m == n
  {
    var s, d, e := Id(a, m), Decimal(m), Decimal(n);
    assert s[|s| - |d| - 1] == ':' && s[|s| - |e| - 1] == ':';
    assert forall k :: 0 <= k < |d| ==> s[|s| - |d| + k] == d[k];
    assert forall k :: 0 <= k < |e| ==> s[|s| - |e| + k] == e[k];
    assert |d| == |e|;
    assert a == s[..|s| - |d| - 1] == b;
    assert d == s[|s| - |d|..] == e;
    ValueOfDecimal(m);
    ValueOfDecimal(n);
  }
}
