/** How many entries of a finite map satisfy a predicate. */
module Counting {
  ghost function Where<K, V>(m: map<K, V>, p: V -> bool): set<K> {
    set k | k in m && p(m[k])
  }

  ghost function Count<K, V>(m: map<K, V>, p: V -> bool): nat {
    |Where(m, p)|
  }

  function Bit(b: bool): nat {
    if b then 1 else 0
  }

  lemma WhereUpdate<K, V>(m: map<K, V>, k: K, v: V, p: V -> bool)
    requires k in m
    ensures k !in Where(m, p) - {k}
    ensures Where(m, p) == if p(m[k]) then (Where(m, p) - {k}) + {k} else Where(m, p) - {k}
    ensures Where(m[k := v], p) == if p(v) then (Where(m, p) - {k}) + {k} else Where(m, p) - {k}
  {}

  lemma CountUpdate<K, V>(m: map<K, V>, k: K, v: V, p: V -> bool)
    requires k in m
    ensures Count(m[k := v], p) == Count(m, p) - Bit(p(m[k])) + Bit(p(v))
  {
    WhereUpdate(m, k, v, p);
    var others := Where(m, p) - {k};
    assert |others + {k}| == |others| + 1;
  }

  lemma CountZero<K, V>(m: map<K, V>, p: V -> bool)
    requires forall k :: k in m ==> !p(m[k])
    ensures Count(m, p) == 0
  {
    assert Where(m, p) == {};
  }

  lemma CountPositive<K, V>(m: map<K, V>, k: K, p: V -> bool)
    requires k in m && p(m[k])
    ensures Count(m, p) >= 1
  {
    assert k in Where(m, p);
    assert |{k}| <= |Where(m, p)| by { assert Where(m, p) == {k} + (Where(m, p) - {k}); }
  }
}
