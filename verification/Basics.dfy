/** Small shared vocabulary: optional values, calls that may raise, and the text
    operations of the host language that the extraction rule depends on. */
module Basics {

  datatype Option<+T> = None | Some(value: T)

  /** What a call into a service or a store gives back: a value, or an exception. */
  datatype Answer<+T> = Returned(value: T) | Raised

  function Max(a: int, b: int): int {
    if a < b then b else a
  }

  /** Of two changes to one key only the second is seen. */
  lemma Overwritten<K, V>(m: map<K, V>, k: K, first: V, second: V)
    ensures m[k := first][k := second] == m[k := second]
    ensures m[k := first] - {k} == m - {k}
    ensures k !in m ==> m[k := first] - {k} == m
  {
  }

  /** A number beyond all of them. */
  lemma {:induction false} FreshNumber(used: set<nat>) returns (n: nat)
    ensures forall u :: u in used ==> u < n
  {
    if used == {} {
      n := 0;
    } else {
      var u :| u in used;
      var n1 := FreshNumber(used - {u});
      n := Max(u + 1, n1);
      forall v | v in used ensures v < n {
        if v != u { assert v in used - {u}; }
      }
    }
  }
}

/** `str.strip()` without arguments, over Unicode scalar values. */
module Text {

  /** The characters `str.strip()` removes. */
  predicate IsSpace(c: char) {
    var n := c as int;
    || 0x09 <= n <= 0x0D
    || 0x1C <= n <= 0x20
    || n == 0x85 || n == 0xA0 || n == 0x1680
    || 0x2000 <= n <= 0x200A
    || n == 0x2028 || n == 0x2029 || n == 0x202F || n == 0x205F || n == 0x3000
  }

  function StripLeft(s: string): string {
    if s != [] && IsSpace(s[0]) then StripLeft(s[1..]) else s
  }

  function StripRight(s: string): string {
    if s != [] && IsSpace(s[|s| - 1]) then StripRight(s[..|s| - 1]) else s
  }

  function Strip(s: string): string {
    StripRight(StripLeft(s))
  }

  predicate Blank(s: string) {
    forall i :: 0 <= i < |s| ==> IsSpace(s[i])
  }

  lemma {:induction false} StripLeftFacts(s: string)
    ensures StripLeft(s) == [] <==> Blank(s)
    ensures StripLeft(s) != [] ==> !IsSpace(StripLeft(s)[0])
  {
    if s != [] && IsSpace(s[0]) {
      StripLeftFacts(s[1..]);
      assert Blank(s[1..]) ==> Blank(s) by {
        assert forall i :: 1 <= i < |s| ==> s[i] == s[1..][i - 1];
      }
    }
  }

  lemma {:induction false} StripRightFacts(s: string)
    ensures StripRight(s) == [] <==> Blank(s)
    ensures StripRight(s) != [] ==> !IsSpace(StripRight(s)[|StripRight(s)| - 1])
  {
    if s != [] && IsSpace(s[|s| - 1]) {
      StripRightFacts(s[..|s| - 1]);
      assert Blank(s[..|s| - 1]) ==> Blank(s);
    }
  }

  lemma {:induction false} StripRightIsPrefix(s: string)
    ensures StripRight(s) <= s
  {
    if s != [] && IsSpace(s[|s| - 1]) { StripRightIsPrefix(s[..|s| - 1]); }
  }

  /** Stripping leaves nothing exactly when there was nothing but white space, and
      stripping what is stripped changes nothing. */
  lemma StripFacts(s: string)
    ensures Strip(s) == [] <==> Blank(s)
    ensures Strip(Strip(s)) == Strip(s)
    ensures Blank(Strip(s)) <==> Blank(s)
  {
    var l := StripLeft(s);
    StripLeftFacts(s);
    StripRightFacts(l);
    StripRightIsPrefix(l);
    var r := StripRight(l);
    if r != [] {
      assert r[0] == l[0];
      assert StripLeft(r) == r;
    }
  }

  /** `kept` is the text without the white space at its two ends. */
  ghost predicate Trims(s: string, kept: string) {
    && (kept != [] ==> !IsSpace(kept[0]) && !IsSpace(kept[|kept| - 1]))
    && exists l, r :: Blank(l) && Blank(r) && s == l + kept + r
  }

  lemma {:induction false} StripLeftSplits(s: string) returns (l: string)
    ensures Blank(l) && s == l + StripLeft(s)
  {
    l := [];
    if s != [] && IsSpace(s[0]) {
      var rest := StripLeftSplits(s[1..]);
      l := [s[0]] + rest;
    }
  }

  lemma {:induction false} StripRightSplits(s: string) returns (r: string)
    ensures Blank(r) && s == StripRight(s) + r
  {
    r := [];
    if s != [] && IsSpace(s[|s| - 1]) {
      var rest := StripRightSplits(s[..|s| - 1]);
      r := rest + [s[|s| - 1]];
    }
  }

  /** What is kept starts and ends where the first and the last character that is not white
      space stand. */
  lemma TrimsAt(s: string, l: string, kept: string, r: string)
    requires Blank(l) && Blank(r) && s == l + kept + r
    requires kept != [] ==> !IsSpace(kept[0]) && !IsSpace(kept[|kept| - 1])
    ensures kept == [] <==> Blank(s)
    ensures kept == s[|l|..|l| + |kept|]
    ensures forall i :: 0 <= i < |s| && !IsSpace(s[i]) ==> |l| <= i < |l| + |kept|
    ensures kept != [] ==> !IsSpace(s[|l|]) && !IsSpace(s[|l| + |kept| - 1])
  {
    forall i | 0 <= i < |s| && !(|l| <= i < |l| + |kept|) ensures IsSpace(s[i]) {
      assert s[i] == if i < |l| then l[i] else r[i - |l| - |kept|];
    }
    if kept != [] { assert s[|l|] == kept[0] && s[|l| + |kept| - 1] == kept[|kept| - 1]; }
  }

  lemma TrimsOnce(s: string, a: string, b: string)
    requires Trims(s, a) && Trims(s, b)
    ensures a == b
  {
    var l1, r1 :| Blank(l1) && Blank(r1) && s == l1 + a + r1;
    var l2, r2 :| Blank(l2) && Blank(r2) && s == l2 + b + r2;
    TrimsAt(s, l1, a, r1);
    TrimsAt(s, l2, b, r2);
  }

  lemma TrimsInTurn(l: string, mid: string, kept: string, r: string)
    requires Blank(l) && Blank(r) && mid == kept + r
    requires kept != [] ==> !IsSpace(mid[0]) && !IsSpace(kept[|kept| - 1])
    ensures Trims(l + mid, kept)
  {
    assert l + mid == l + kept + r;
  }

  lemma StripTrims(s: string)
    ensures Trims(s, Strip(s))
  {
    var l := StripLeftSplits(s);
    var r := StripRightSplits(StripLeft(s));
    StripLeftFacts(s);
    StripRightFacts(StripLeft(s));
    TrimsInTurn(l, StripLeft(s), Strip(s), r);
  }

  /** Stripping is the only way to take exactly the white space off the two ends. */
  lemma StripExactly(s: string, kept: string)
    ensures Trims(s, kept) <==> kept == Strip(s)
  {
    StripTrims(s);
    if Trims(s, kept) { TrimsOnce(s, kept, Strip(s)); }
  }
}

/** An insertion-ordered dictionary from strings to strings: a list of items with
    distinct keys.  The order is the order a loop over `items()` follows. */
module Dicts {
  import opened Basics

  ghost predicate DistinctKeys(items: seq<(string, string)>) {
    forall i, j :: 0 <= i < j < |items| ==> items[i].0 != items[j].0
  }

  type Dict = d: seq<(string, string)> | DistinctKeys(d) witness []

  /** The lookup view of a list of items (the last of equal keys wins). */
  function AsMap(items: seq<(string, string)>): map<string, string> {
    if items == [] then map[]
    else AsMap(items[..|items| - 1])[items[|items| - 1].0 := items[|items| - 1].1]
  }

  lemma {:induction false} AsMapKeys(items: seq<(string, string)>)
    ensures forall k :: k in AsMap(items) <==> exists i :: 0 <= i < |items| && items[i].0 == k
  {
    if items != [] {
      var front := items[..|items| - 1];
      AsMapKeys(front);
      forall k ensures k in AsMap(items) <==> exists i :: 0 <= i < |items| && items[i].0 == k {
        if k in AsMap(front) {
          var i :| 0 <= i < |front| && front[i].0 == k;
          assert items[i].0 == k;
        }
        if i :| 0 <= i < |items| && items[i].0 == k {
          if i < |front| { assert front[i].0 == k; }
        }
      }
    }
  }

  lemma {:induction false} AsMapAt(items: Dict, i: nat)
    requires i < |items|
    ensures items[i].0 in AsMap(items) && AsMap(items)[items[i].0] == items[i].1
  {
    if i < |items| - 1 {
      var front := items[..|items| - 1];
      assert front[i] == items[i];
      AsMapAt(front, i);
    }
  }

  /** `d[key] = value`: overwrite in place, or append. */
  function Put(items: Dict, key: string, value: string): (r: Dict)
    ensures forall i :: 0 <= i < |items| ==> i < |r| && r[i].0 == items[i].0
  {
    PutRaw(items, key, value)
  }

  function PutRaw(items: Dict, key: string, value: string): (r: seq<(string, string)>)
    ensures DistinctKeys(r)
    ensures |items| <= |r| <= |items| + 1
    ensures forall i :: 0 <= i < |items| ==> r[i].0 == items[i].0
    ensures |r| == |items| + 1 ==> r[|items|].0 == key && forall i :: 0 <= i < |items| ==> items[i].0 != key
  {
    if items == [] then [(key, value)]
    else
      var n := |items| - 1;
      if items[n].0 == key then items[n := (key, value)]
      else
        var front := PutRaw(items[..n], key, value);
        if |front| == n then front + [items[n]]
        else items + [(key, value)]
  }

  lemma AsMapSnoc(items: seq<(string, string)>, item: (string, string))
    ensures AsMap(items + [item]) == AsMap(items)[item.0 := item.1]
  {
    assert (items + [item])[..|items|] == items;
  }

  /** `Put`, one item at a time. */
  lemma PutSnoc(items: Dict, key: string, value: string)
    requires items != []
    ensures
      var front, last := items[..|items| - 1], items[|items| - 1];
      Put(items, key, value) ==
      if last.0 == key then front + [(key, value)]
      else if |Put(front, key, value)| == |front| then Put(front, key, value) + [last]
      else items + [(key, value)]
  {
    var n := |items| - 1;
    assert items[n := (key, value)] == items[..n] + [(key, value)];
  }

  /** Updates of different keys commute. */
  lemma UpdatesCommute(m: map<string, string>, k1: string, v1: string, k2: string, v2: string)
    requires k1 != k2
    ensures m[k1 := v1][k2 := v2] == m[k2 := v2][k1 := v1]
  {
  }

  lemma {:induction false} PutIsMapUpdate(items: Dict, key: string, value: string)
    ensures AsMap(Put(items, key, value)) == AsMap(items)[key := value]
  {
    if items != [] {
      var n := |items| - 1;
      var front, last := items[..n], items[n];
      assert items == front + [last];
      AsMapSnoc(front, last);
      PutSnoc(items, key, value);
      if last.0 == key {
        AsMapSnoc(front, (key, value));
        Overwritten(AsMap(front), key, last.1, value);
      } else if |Put(front, key, value)| == |front| {
        PutIsMapUpdate(front, key, value);
        AsMapSnoc(Put(front, key, value), last);
        UpdatesCommute(AsMap(front), key, value, last.0, last.1);
      } else {
        AsMapSnoc(items, (key, value));
      }
    }
  }
}
