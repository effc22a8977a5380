/** Counting by key, as the admin statistics do with
    `counts[key] = counts.get(key, 0) + 1`, and the sum of such counts. */
module Counting {

  /** The counts of each key, built left to right. */
  function Tally(keys: seq<string>): map<string, nat>
    decreases |keys|
  {
    if |keys| == 0 then map[]
    else
      var n := |keys| - 1;
      Bump(Tally(keys[..n]), keys[n])
  }

  /** `counts[k] = counts.get(k, 0) + 1`. */
  function Bump(m: map<string, nat>, k: string): (r: map<string, nat>)
    ensures r.Keys == m.Keys + {k} && r[k] == Count(m, k) + 1
    ensures forall k' :: k' in m && k' != k ==> r[k'] == m[k']
  {
    m[k := Count(m, k) + 1]
  }

  /** Every key seen maps to the number of its occurrences, and nothing
      else is in the map. */
  lemma {:induction false} TallyCounts(keys: seq<string>)
    ensures forall k :: k in Tally(keys) <==> k in keys
    ensures forall k :: k in Tally(keys) ==> Tally(keys)[k] == multiset(keys)[k]
    decreases |keys|
  {
    if |keys| > 0 {
      var n := |keys| - 1;
      TallyCounts(keys[..n]);
      assert keys == keys[..n] + [keys[n]];
    }
  }

  /** `m.get(k, 0)`. */
  function Count(m: map<string, nat>, k: string): nat {
    if k in m then m[k] else 0
  }

  /** The sum of a map's counts. */
  ghost function SumValues(m: map<string, nat>): nat
    decreases |m|
  {
    if |m| == 0 then 0
    else
      var k :| k in m;
      m[k] + SumValues(m - {k})
  }

  /** The key the definition of the sum takes out first. */
  lemma SumValuesUnfold(m: map<string, nat>, k: string) returns (k': string)
    requires k in m
    ensures k' in m && SumValues(m) == m[k'] + SumValues(m - {k'})
  {
    assert |m| != 0 by {
      assert m.Keys != {} by { assert k in m.Keys; }
    }
    k' :| k' in m && SumValues(m) == m[k'] + SumValues(m - {k'});
  }

  /** Taking two keys out of a map in either order leaves the same map. */
  lemma RemoveTwo(m: map<string, nat>, k: string, k': string)
    requires k in m && k' in m && k != k'
    ensures |m - {k'}| == |m| - 1 && k in m - {k'} && (m - {k'})[k] == m[k]
    ensures |m - {k}| == |m| - 1 && k' in m - {k} && (m - {k})[k'] == m[k']
    ensures m - {k'} - {k} == m - {k} - {k'}
  {
  }

  /** The sum does not depend on which key is taken out first. */
  lemma {:induction false} SumValuesRemove(m: map<string, nat>, k: string)
    requires k in m
    ensures SumValues(m) == m[k] + SumValues(m - {k})
    decreases |m|
  {
    var k' := SumValuesUnfold(m, k);
    if k' != k {
      RemoveTwo(m, k, k');
      SumValuesRemove(m - {k'}, k);
      SumValuesRemove(m - {k}, k');
    }
  }

  /** Raising one count by one raises the sum by one. */
  lemma SumValuesBump(m: map<string, nat>, k: string)
    ensures SumValues(Bump(m, k)) == SumValues(m) + 1
  {
    var m' := Bump(m, k);
    SumValuesRemove(m', k);
    if k in m {
      SumValuesRemove(m, k);
      assert m' - {k} == m - {k};
    } else {
      assert m' - {k} == m;
    }
  }

  /** The counts of a tally add up to the number of keys counted. */
  lemma {:induction false} TallySum(keys: seq<string>)
    ensures SumValues(Tally(keys)) == |keys|
    decreases |keys|
  {
    if |keys| == 0 {
      assert Tally(keys) == map[];
    } else {
      var n := |keys| - 1;
      TallySum(keys[..n]);
      SumValuesBump(Tally(keys[..n]), keys[n]);
    }
  }

  /** Counting one more key is one more step of the tally. */
  lemma TallySnoc(keys: seq<string>, k: string)
    ensures Tally(keys + [k]) == Bump(Tally(keys), k)
  {
    assert (keys + [k])[..|keys|] == keys;
  }
}
