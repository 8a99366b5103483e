/** A sum over the goroutines of a machine, for showing that its runs end. */
module Measures {

  /** The sum of the values of the keys below `n`. */
  function Total(m: map<nat, nat>, n: nat): nat {
    if n == 0 then 0 else Total(m, n - 1) + if n - 1 in m then m[n - 1] else 0
  }

  lemma {:induction false} TotalSame(m: map<nat, nat>, t: nat, v: nat, n: nat)
    requires n <= t
    ensures Total(m[t := v], n) == Total(m, n)
  {
    if n == 0 {
    } else {
      TotalSame(m, t, v, n - 1);
    }
  }

  lemma {:induction false} TotalUpdate(m: map<nat, nat>, t: nat, v: nat, n: nat)
    requires t in m && t < n
    ensures Total(m[t := v], n) == Total(m, n) - m[t] + v
  {
    if t == n - 1 {
      TotalSame(m, t, v, n - 1);
    } else {
      TotalUpdate(m, t, v, n - 1);
    }
  }

  /** Some number is above all keys. */
  lemma {:induction false} KeysBounded(keys: set<nat>) returns (n: nat)
    ensures forall t | t in keys :: t < n
    decreases |keys|
  {
    if keys == {} {
      n := 0;
    } else {
      var t :| t in keys;
      var m := KeysBounded(keys - {t});
      n := if t < m then m else t + 1;
      assert forall u | u in keys :: u == t || u in keys - {t};
    }
  }
}
