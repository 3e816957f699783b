/** How the sizes of two sets of identifiers compare. */
module Counting {
  lemma SubsetIsSmaller(a: set<nat>, b: set<nat>)
    requires a <= b
    ensures |a| <= |b|
  {
    if a != b {
      assert b == a + (b - a);
      assert |b| == |a| + |b - a|;
    }
  }

  lemma GrowsByOne(a: set<nat>, b: set<nat>, id: nat, grows: bool)
    requires id !in a && (id in b <==> grows)
    requires forall c :: c != id ==> (c in b <==> c in a)
    ensures |b| == |a| + if grows then 1 else 0
  {
    assert b == if grows then a + {id} else a;
  }
}
