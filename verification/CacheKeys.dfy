/** The cache key of a selector, and exactly when two names share one. */
module CacheKeys {

  const PREFIX := "selector:"

  function CacheKey(domain: string, field: string): string {
    PREFIX + domain + ":" + field
  }

  /** `domain2` continues `domain1` over the separator, and `field1` swallows the rest. */
  ghost predicate Shifted(domain1: string, field1: string, domain2: string, field2: string) {
    && |domain1| < |domain2|
    && domain2[..|domain1|] == domain1
    && domain2[|domain1|] == ':'
    && field1 == domain2[|domain1| + 1..] + ":" + field2
  }

  lemma KeyTail(domain: string, field: string)
    ensures |CacheKey(domain, field)| == |PREFIX| + |domain| + 1 + |field|
    ensures CacheKey(domain, field)[|PREFIX|..] == domain + ":" + field
  {
  }

  lemma SplitAtLonger(d1: string, f1: string, d2: string, f2: string)
    requires d1 + ":" + f1 == d2 + ":" + f2
    requires |d1| < |d2|
    ensures Shifted(d1, f1, d2, f2)
  {
    var t1, t2 := d1 + ":" + f1, d2 + ":" + f2;
    assert t1[..|d1|] == d1;
    assert t2[..|d1|] == d2[..|d1|];
    assert t1[|d1|] == ':';
    assert t2[|d1|] == d2[|d1|];
    assert t1[|d1| + 1..] == f1;
    assert t2[|d1| + 1..] == d2[|d1| + 1..] + ":" + f2;
  }

  lemma SplitAtSame(d1: string, f1: string, d2: string, f2: string)
    requires d1 + ":" + f1 == d2 + ":" + f2
    requires |d1| == |d2|
    ensures d1 == d2 && f1 == f2
  {
    var t1, t2 := d1 + ":" + f1, d2 + ":" + f2;
    assert t1[..|d1|] == d1 && t2[..|d2|] == d2;
    assert t1[|d1| + 1..] == f1 && t2[|d2| + 1..] == f2;
  }

  lemma ShiftedCollides(d1: string, f1: string, d2: string, f2: string)
    requires Shifted(d1, f1, d2, f2)
    ensures CacheKey(d1, f1) == CacheKey(d2, f2)
  {
    assert d2 == d1 + ":" + d2[|d1| + 1..];
    assert d1 + ":" + f1 == d2 + ":" + f2;
    calc {
      CacheKey(d1, f1);
      PREFIX + (d1 + ":" + f1);
      PREFIX + (d2 + ":" + f2);
      CacheKey(d2, f2);
    }
  }

  /** Two names share a key exactly when they are the same name, or one domain is the other
      one continued past a ':' that the field of the shorter one contains. */
  lemma KeysCollideExactly(d1: string, f1: string, d2: string, f2: string)
    ensures CacheKey(d1, f1) == CacheKey(d2, f2) <==>
            (d1 == d2 && f1 == f2) || Shifted(d1, f1, d2, f2) || Shifted(d2, f2, d1, f1)
  {
    if CacheKey(d1, f1) == CacheKey(d2, f2) {
      KeyTail(d1, f1);
      KeyTail(d2, f2);
      if |d1| < |d2| { SplitAtLonger(d1, f1, d2, f2); }
      else if |d2| < |d1| { SplitAtLonger(d2, f2, d1, f1); }
      else { SplitAtSame(d1, f1, d2, f2); }
    }
    if Shifted(d1, f1, d2, f2) { ShiftedCollides(d1, f1, d2, f2); }
    if Shifted(d2, f2, d1, f1) { ShiftedCollides(d2, f2, d1, f1); }
  }

  lemma ShiftedFieldHasColon(d1: string, f1: string, d2: string, f2: string)
    requires Shifted(d1, f1, d2, f2)
    ensures ':' in f1
  {
    assert f1[|d2[|d1| + 1..]|] == ':';
  }

  /** Keys identify names when no field contains ':', and always within one domain. */
  lemma KeyInjective(d1: string, f1: string, d2: string, f2: string)
    requires d1 == d2 || (':' !in f1 && ':' !in f2)
    requires CacheKey(d1, f1) == CacheKey(d2, f2)
    ensures d1 == d2 && f1 == f2
  {
    KeysCollideExactly(d1, f1, d2, f2);
    if Shifted(d1, f1, d2, f2) { ShiftedFieldHasColon(d1, f1, d2, f2); }
    if Shifted(d2, f2, d1, f1) { ShiftedFieldHasColon(d2, f2, d1, f1); }
  }

  /** Without the restriction keys do collide. */
  lemma KeysCanCollide()
    ensures ("a", "b:c") != ("a:b", "c")
    ensures CacheKey("a", "b:c") == CacheKey("a:b", "c")
  {
    assert "a:b"[|"a"| + 1..] + ":" + "c" == "b:c";
    assert Shifted("a", "b:c", "a:b", "c");
    ShiftedCollides("a", "b:c", "a:b", "c");
  }
}
