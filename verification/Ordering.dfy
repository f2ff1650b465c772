/**
  Go's string order, and sorting by a key.  `SortBy` stands for the library sort;
  the lemmas say what any sort of these keys returns.
 */
module Ordering {
  import opened Common

  predicate Less(a: string, b: string) {
    if b == [] then false
    else if a == [] then true
    else a[0] < b[0] || (a[0] == b[0] && Less(a[1..], b[1..]))
  }

  lemma {:induction false} LessTotal(a: string, b: string)
    ensures Less(a, b) || Less(b, a) || a == b
    ensures !(Less(a, b) && Less(b, a)) && !Less(a, a)
  {
    if a != [] && b != [] {
      LessTotal(a[1..], b[1..]);
      assert a == [a[0]] + a[1..] && b == [b[0]] + b[1..];
    }
    if a != [] { LessTotal(a[1..], a[1..]); }
  }

  lemma {:induction false} LessTransitive(a: string, b: string, c: string)
    requires Less(a, b) && Less(b, c)
    ensures Less(a, c)
  {
    if a != [] && a[0] == b[0] == c[0] {
      LessTransitive(a[1..], b[1..], c[1..]);
    }
  }

  /** Strictly increasing. */
  predicate Ascending(s: seq<string>) {
    forall i, j | 0 <= i < j < |s| :: Less(s[i], s[j])
  }

  lemma AscendingDistinct(s: seq<string>)
    requires Ascending(s)
    ensures Distinct(s)
  {
    forall i, j | 0 <= i < j < |s| ensures s[i] != s[j] {
      LessTotal(s[i], s[j]);
    }
  }

  /** Consecutive order is enough. */
  lemma {:induction false} AscendingFromSteps(s: seq<string>)
    requires forall i | 0 < i < |s| :: Less(s[i - 1], s[i])
    ensures Ascending(s)
  {
    if |s| > 1 {
      var init, last := s[..|s| - 1], s[|s| - 1];
      assert forall i | 0 < i < |init| :: Less(init[i - 1], init[i]);
      AscendingFromSteps(init);
      forall i | 0 <= i < |init| ensures Less(s[i], last) {
        if i < |init| - 1 {
          assert Less(init[i], init[|init| - 1]);
          assert Less(s[|s| - 2], s[|s| - 1]);
          LessTransitive(s[i], s[|s| - 2], last);
        }
      }
    }
  }

  lemma EmptyTogether(s: seq<string>, t: seq<string>)
    requires s != [] && forall x | x in s :: x in t
    ensures t != []
  {
    assert s[0] in s;
  }

  /** Two ascending lists of the same strings are the same list. */
  lemma {:induction false} AscendingUnique(s: seq<string>, t: seq<string>)
    requires Ascending(s) && Ascending(t)
    requires forall x :: x in s <==> x in t
    ensures s == t
    decreases |s|
  {
    if s == [] {
      if t != [] { EmptyTogether(t, s); assert false; }
    } else {
      assert s[0] in s;
      assert s[0] in t;
      assert t != [];
      var i :| 0 <= i < |t| && t[i] == s[0];
      assert t[0] in t;
      assert t[0] in s;
      var j :| 0 <= j < |s| && s[j] == t[0];
      LessTotal(s[0], t[0]);
      assert s[0] == t[0];
      forall x ensures x in s[1..] <==> x in t[1..] {
        TailMembers(s, x);
        TailMembers(t, x);
      }
      AscendingUnique(s[1..], t[1..]);
      assert s == [s[0]] + s[1..] && t == [t[0]] + t[1..];
    }
  }

  lemma TailMembers(s: seq<string>, x: string)
    requires Ascending(s) && s != []
    ensures x in s[1..] <==> x in s && x != s[0]
  {
    AscendingDistinct(s);
    if x in s && x != s[0] {
      var i :| 0 <= i < |s| && s[i] == x;
      assert s[1..][i - 1] == x;
    }
  }

  // ---- sorting ----

  function Keys<T>(key: T -> string, s: seq<T>): (k: seq<string>)
    ensures |k| == |s|
    ensures forall i | 0 <= i < |s| :: k[i] == key(s[i])
  {
    seq(|s|, i requires 0 <= i < |s| => key(s[i]))
  }

  /** The key of a plain string. */
  function Itself(x: string): string { x }

  function Insert<T>(key: T -> string, x: T, s: seq<T>): seq<T> {
    if s == [] || !Less(key(s[0]), key(x)) then [x] + s else [s[0]] + Insert(key, x, s[1..])
  }

  function SortBy<T>(key: T -> string, s: seq<T>): seq<T> {
    if s == [] then [] else Insert(key, s[0], SortBy(key, s[1..]))
  }

  lemma {:induction false} InsertMembers<T>(key: T -> string, x: T, s: seq<T>)
    ensures multiset(Insert(key, x, s)) == multiset(s) + multiset{x}
    ensures |Insert(key, x, s)| == |s| + 1
  {
    if s != [] && Less(key(s[0]), key(x)) {
      InsertMembers(key, x, s[1..]);
      assert s == [s[0]] + s[1..];
    }
  }

  lemma {:induction false} SortMembers<T>(key: T -> string, s: seq<T>)
    ensures multiset(SortBy(key, s)) == multiset(s)
    ensures |SortBy(key, s)| == |s|
  {
    if s != [] {
      SortMembers(key, s[1..]);
      InsertMembers(key, s[0], SortBy(key, s[1..]));
      assert s == [s[0]] + s[1..];
    }
  }

  lemma SortElements<T>(key: T -> string, s: seq<T>, x: T)
    ensures x in SortBy(key, s) <==> x in s
  {
    SortMembers(key, s);
    assert x in SortBy(key, s) <==> x in multiset(SortBy(key, s));
    assert x in s <==> x in multiset(s);
  }

  /** No later key below an earlier one. */
  ghost predicate Ordered<T>(key: T -> string, s: seq<T>) {
    forall i, j | 0 <= i < j < |s| :: !Less(key(s[j]), key(s[i]))
  }

  lemma NotLessTransitive(a: string, b: string, c: string)
    requires !Less(b, a) && !Less(c, b)
    ensures !Less(c, a)
  {
    LessTotal(a, b); LessTotal(b, c); LessTotal(a, c);
    if Less(c, a) {
      if Less(a, b) { LessTransitive(c, a, b); }
    }
  }

  lemma {:induction false} InsertOrdered<T>(key: T -> string, x: T, s: seq<T>)
    requires Ordered(key, s)
    ensures Ordered(key, Insert(key, x, s))
  {
    if s == [] {
    } else if !Less(key(s[0]), key(x)) {
      var r := [x] + s;
      forall i, j | 0 <= i < j < |r| ensures !Less(key(r[j]), key(r[i])) {
        if i == 0 && j > 1 { NotLessTransitive(key(x), key(s[0]), key(s[j - 1])); }
      }
    } else {
      InsertOrdered(key, x, s[1..]);
      var rest := Insert(key, x, s[1..]);
      InsertMembers(key, x, s[1..]);
      forall j | 0 <= j < |rest| ensures !Less(key(rest[j]), key(s[0])) {
        assert rest[j] in multiset(rest);
        if rest[j] == x {
          LessTotal(key(s[0]), key(x));
        } else {
          assert rest[j] in multiset(s[1..]);
          assert rest[j] in s[1..];
          var k :| 0 <= k < |s[1..]| && s[1..][k] == rest[j];
          assert s[k + 1] == rest[j];
        }
      }
      var r := [s[0]] + rest;
      forall i, j | 0 <= i < j < |r| ensures !Less(key(r[j]), key(r[i])) {
        if i > 0 { assert r[i] == rest[i - 1] && r[j] == rest[j - 1]; }
      }
    }
  }

  lemma {:induction false} SortOrdered<T>(key: T -> string, s: seq<T>)
    ensures Ordered(key, SortBy(key, s))
  {
    if s != [] {
      SortOrdered(key, s[1..]);
      InsertOrdered(key, s[0], SortBy(key, s[1..]));
    }
  }

  lemma InsertInFront<T>(key: T -> string, x: T, s: seq<T>)
    requires s != [] ==> Less(key(x), key(s[0]))
    ensures Insert(key, x, s) == [x] + s
  {
    if s != [] { LessTotal(key(x), key(s[0])); }
  }

  lemma AscendingTail<T>(key: T -> string, s: seq<T>)
    requires s != [] && Ascending(Keys(key, s))
    ensures Ascending(Keys(key, s[1..]))
    ensures |s| > 1 ==> Less(key(s[0]), key(s[1..][0]))
  {
    assert Keys(key, s[1..]) == Keys(key, s)[1..];
    if |s| > 1 { assert Less(Keys(key, s)[0], Keys(key, s)[1]); }
  }

  /** Sorting a list whose keys already ascend leaves it alone. */
  lemma {:induction false} SortOfAscending<T>(key: T -> string, s: seq<T>)
    requires Ascending(Keys(key, s))
    ensures SortBy(key, s) == s
  {
    if s != [] {
      AscendingTail(key, s);
      SortOfAscending(key, s[1..]);
      InsertInFront(key, s[0], s[1..]);
      assert s == [s[0]] + s[1..];
    }
  }

  lemma OrderedDistinctAscends<T>(key: T -> string, s: seq<T>)
    requires Ordered(key, s) && Distinct(Keys(key, s))
    ensures Ascending(Keys(key, s))
  {
    var k := Keys(key, s);
    forall i, j | 0 <= i < j < |k| ensures Less(k[i], k[j]) {
      LessTotal(k[i], k[j]);
    }
  }

  /** With distinct keys, the sorted order does not depend on the order of the input. */
  lemma SortIgnoresOrder<T>(key: T -> string, s: seq<T>, t: seq<T>)
    requires multiset(s) == multiset(t) && Distinct(Keys(key, s))
    ensures SortBy(key, s) == SortBy(key, t)
  {
    SortMembers(key, s); SortMembers(key, t);
    SortOrdered(key, s); SortOrdered(key, t);
    OrderedSameElements(key, SortBy(key, s), SortBy(key, t), s);
  }

  lemma SameKeySameElement<T>(key: T -> string, s: seq<T>, u: T, v: T)
    requires Distinct(Keys(key, s)) && u in s && v in s && key(u) == key(v)
    ensures u == v
  {
    var x :| 0 <= x < |s| && s[x] == u;
    var y :| 0 <= y < |s| && s[y] == v;
    assert Keys(key, s)[x] == Keys(key, s)[y];
  }

  lemma HeadIsLeast<T>(key: T -> string, a: seq<T>, v: T)
    requires Ordered(key, a) && v in a
    ensures !Less(key(v), key(a[0]))
  {
    var j :| 0 <= j < |a| && a[j] == v;
    LessTotal(key(v), key(v));
  }

  lemma HeadsAgree<T>(key: T -> string, a: seq<T>, b: seq<T>, s: seq<T>)
    requires Ordered(key, a) && Ordered(key, b) && a != [] && b != []
    requires a[0] in b && b[0] in a && a[0] in s && b[0] in s && Distinct(Keys(key, s))
    ensures a[0] == b[0]
  {
    HeadIsLeast(key, a, b[0]);
    HeadIsLeast(key, b, a[0]);
    LessTotal(key(a[0]), key(b[0]));
    SameKeySameElement(key, s, a[0], b[0]);
  }

  lemma OrderedTail<T>(key: T -> string, a: seq<T>)
    requires a != [] && Ordered(key, a)
    ensures Ordered(key, a[1..]) && multiset(a[1..]) == multiset(a) - multiset{a[0]}
  {
    assert a == [a[0]] + a[1..];
  }

  lemma HeadsShared<T>(key: T -> string, a: seq<T>, b: seq<T>, s: seq<T>)
    requires a != [] && multiset(a) == multiset(b) && multiset(a) <= multiset(s)
    ensures b != [] && a[0] in b && b[0] in a && a[0] in s && b[0] in s
  {
    assert |a| == |multiset(a)| == |multiset(b)| == |b|;
    assert a[0] in multiset(b) && b[0] in multiset(a);
    assert a[0] in multiset(s) && b[0] in multiset(s);
  }

  lemma TailsShared<T>(a: seq<T>, b: seq<T>, s: seq<T>)
    requires a != [] && b != [] && a[0] == b[0]
    requires multiset(a) == multiset(b) && multiset(a) <= multiset(s)
    ensures multiset(a[1..]) == multiset(b[1..]) && multiset(a[1..]) <= multiset(s)
  {
    assert a == [a[0]] + a[1..] && b == [b[0]] + b[1..];
    assert multiset(a[1..]) == multiset(a) - multiset{a[0]};
    assert multiset(b[1..]) == multiset(b) - multiset{b[0]};
  }

  lemma {:induction false} OrderedSameElements<T>(key: T -> string, a: seq<T>, b: seq<T>, s: seq<T>)
    requires Ordered(key, a) && Ordered(key, b) && multiset(a) == multiset(b)
    requires multiset(a) <= multiset(s) && Distinct(Keys(key, s))
    ensures a == b
    decreases |a|
  {
    hide Ordered, Distinct, Keys, Less;
    if a != [] {
      HeadsShared(key, a, b, s);
      HeadsAgree(key, a, b, s);
      TailsShared(a, b, s);
      OrderedTail(key, a);
      OrderedTail(key, b);
      OrderedSameElements(key, a[1..], b[1..], s);
      assert a == [a[0]] + a[1..] && b == [b[0]] + b[1..];
    } else {
      assert |b| == |multiset(b)| == 0;
    }
  }

  // ---- searching ----

  /** The library's string search: the first index whose element is not below `x`, when the list is sorted. */
  method SearchStrings(a: seq<string>, x: string) returns (i: nat)
    ensures i <= |a|
    ensures Ascending(a) ==> (forall j | 0 <= j < i :: Less(a[j], x)) && (forall j | i <= j < |a| :: !Less(a[j], x))
  {
    var lo, hi := 0, |a|;
    while lo < hi
      invariant 0 <= lo <= hi <= |a|
      invariant Ascending(a) ==> forall j | 0 <= j < lo :: Less(a[j], x)
      invariant Ascending(a) ==> forall j | hi <= j < |a| :: !Less(a[j], x)
    {
      var h := (lo + hi) / 2;
      if Less(a[h], x) {
        forall j | 0 <= j < h && Ascending(a) ensures Less(a[j], x) { LessTransitive(a[j], a[h], x); }
        lo := h + 1;
      } else {
        forall j | h < j < |a| && Ascending(a) ensures !Less(a[j], x) {
          if Less(a[j], x) { LessTransitive(a[h], a[j], x); }
        }
        hi := h;
      }
    }
    return lo;
  }
}
