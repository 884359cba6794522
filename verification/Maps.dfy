// Facts about maps with integer keys that the proofs share.

module Maps {

  lemma SomeKey<V>(m: map<int, V>) returns (k: int)
    requires m != map[]
    ensures k in m
  {
    if forall k :: k !in m {
      assert false;
    }
    k :| k in m;
  }

  lemma SomeMember(s: set<int>) returns (k: int)
    requires s != {}
    ensures k in s
  {
    if forall k :: k !in s {
      assert false;
    }
    k :| k in s;
  }

  lemma {:induction false} SubsetSize<T>(a: set<T>, b: set<T>)
    requires a <= b
    ensures |a| <= |b|
  {
    assert b == a + (b - a);
  }

  lemma NoKey<V>(m: map<int, V>)
    requires |m| == 0
    ensures m == map[] && forall k :: k !in m
  {
  }

  lemma NoKeys<V>(m: map<int, V>)
    requires m.Keys == {}
    ensures m == map[]
  {
  }

  lemma DropSize<V>(m: map<int, V>, k: int)
    requires k in m
    ensures |m - {k}| == |m| - 1
  {
    assert (m - {k}).Keys == m.Keys - {k};
  }

  lemma SubmapValues<V>(a: map<int, V>, b: map<int, V>)
    requires forall i :: i in a ==> i in b && a[i] == b[i]
    ensures a.Values <= b.Values
  {
    forall v | v in a.Values
      ensures v in b.Values
    {
      if forall i :: i in a ==> a[i] != v {
        assert false;
      }
      var i :| i in a && a[i] == v;
      assert b[i] == v;
    }
  }
}
