/** Facts about finite sets and maps that several modules use. */
module Sets {

  lemma {:induction false} SubsetSize<X>(a: set<X>, b: set<X>)
    requires a <= b
    ensures |a| <= |b|
  {
    if a != {} {
      var x :| x in a;
      SubsetSize(a - {x}, b - {x});
    }
  }

  lemma Overwritten<K, V>(m: map<K, V>, k: K, old': V, new': V)
    ensures m[k := old'][k := new'] == m[k := new']
  {
  }
}
