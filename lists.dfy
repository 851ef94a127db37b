/** `Array.prototype.filter` and `Array.prototype.find`, with the facts about
    them that the two components rely on. */
module Lists {
  import opened Wrappers

  /** `a` is an order-preserving sublist of `b`: `a` is `b` with some
      elements dropped. */
  ghost predicate IsSublist<T>(a: seq<T>, b: seq<T>)
    decreases |b|
  {
    if a == [] then true
    else if b == [] then false
    else (a[0] == b[0] && IsSublist(a[1..], b[1..])) || IsSublist(a, b[1..])
  }

  /** `s.filter(p)`. */
  function Filter<T>(p: T -> bool, s: seq<T>): (r: seq<T>)
    ensures |r| <= |s|
    ensures forall k :: 0 <= k < |r| ==> p(r[k])
  {
    if s == [] then []
    else (if p(s[0]) then [s[0]] else []) + Filter(p, s[1..])
  }

  /** An element survives the filter exactly when it was there and passes. */
  lemma {:induction false} FilterMembers<T>(p: T -> bool, s: seq<T>, x: T)
    ensures x in Filter(p, s) <==> x in s && p(x)
  {
    if s != [] {
      FilterMembers(p, s[1..], x);
      assert s == [s[0]] + s[1..];
    }
  }

  /** The filter keeps the order of what it keeps. */
  lemma {:induction false} FilterIsSublist<T>(p: T -> bool, s: seq<T>)
    ensures IsSublist(Filter(p, s), s)
  {
    if s != [] {
      FilterIsSublist(p, s[1..]);
      var r := Filter(p, s);
      if p(s[0]) {
        assert r[0] == s[0] && r[1..] == Filter(p, s[1..]);
      } else {
        assert r == Filter(p, s[1..]);
        if r != [] {
          assert IsSublist(r, s[1..]);
        }
      }
    }
  }

  /** When everything passes, the filter changes nothing. */
  lemma {:induction false} FilterKeepsAll<T>(p: T -> bool, s: seq<T>)
    requires forall k :: 0 <= k < |s| ==> p(s[k])
    ensures Filter(p, s) == s
  {
    if s != [] {
      FilterKeepsAll(p, s[1..]);
      assert s == [s[0]] + s[1..];
    }
  }

  /** When nothing passes, the filter is empty. */
  lemma {:induction false} FilterDropsAll<T>(p: T -> bool, s: seq<T>)
    requires forall k :: 0 <= k < |s| ==> !p(s[k])
    ensures Filter(p, s) == []
  {
    if s != [] {
      FilterDropsAll(p, s[1..]);
    }
  }

  /** Filters by two predicates that never hold together pick disjoint parts
      of the input, so their lengths add up to at most the input's, and to
      exactly the input's when every element passes one of them. */
  lemma {:induction false} DisjointFiltersLength<T>(p: T -> bool, q: T -> bool, s: seq<T>)
    requires forall k :: 0 <= k < |s| ==> !(p(s[k]) && q(s[k]))
    ensures |Filter(p, s)| + |Filter(q, s)| <= |s|
    ensures (forall k :: 0 <= k < |s| ==> p(s[k]) || q(s[k])) ==> |Filter(p, s)| + |Filter(q, s)| == |s|
  {
    if s != [] {
      DisjointFiltersLength(p, q, s[1..]);
    }
  }

  /** `s.find(p)`: the first element that passes, or undefined. */
  function Find<T>(p: T -> bool, s: seq<T>): (r: Option<T>)
    ensures r.None? <==> forall k :: 0 <= k < |s| ==> !p(s[k])
    ensures r.Some? ==> exists j :: 0 <= j < |s| && s[j] == r.value && p(s[j]) &&
                                    forall k :: 0 <= k < j ==> !p(s[k])
  {
    if s == [] then None
    else if p(s[0]) then Some(s[0])
    else
      var r := Find(p, s[1..]);
      assert r.Some? ==> exists j :: 0 <= j < |s[1..]| && s[1..][j] == r.value && p(s[1..][j]) &&
                                    forall k :: 0 <= k < j ==> !p(s[1..][k]);
      assert r.Some? ==> exists j :: 1 <= j < |s| && s[j] == r.value && p(s[j]) &&
                                    forall k :: 0 <= k < j ==> !p(s[k]);
      r
  }
}
