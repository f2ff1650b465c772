/**
  Shared vocabulary: failure datatypes, JSON values, and the symbolic SHA-256
  digest every component compares.
 */
module Common {

  datatype Option<+T> = None | Some(value: T)

  datatype Result<+T, +E> = Ok(value: T) | Err(error: E)

  datatype Outcome<+E> = Pass | Fail(error: E)

  /**
    A string found where a SHA-256 hex digest is expected.  `Sha256(m)` is the
    hash of the canonical JSON of `m`; hashing is therefore injective and never
    yields the empty string.  The other constructors are what an untrusted
    document may carry instead: nothing, text that is not 64 hex digits, or hex
    that is the hash of nothing in the model.
   */
  datatype Digest<+M> = Empty | NotHex(text: string) | ForeignHex(text: string) | Sha256(material: M) {
    predicate IsHex() {
      Sha256? || ForeignHex?
    }
  }

  /** A decoded JSON value; numbers are exact reals. */
  datatype Json = Null | Bool(flag: bool) | Num(num: real) | Str(str: string) | Arr(items: seq<Json>)
    | Obj(fields: map<string, Json>)

  /** A Go `map[string]any` that may be nil. */
  type Object = map<string, Json>

  predicate Distinct<T(==)>(s: seq<T>) {
    forall i, j | 0 <= i < j < |s| :: s[i] != s[j]
  }

  /** Pigeonhole: n distinct values drawn from n places hit every place's value, and those are distinct too. */
  lemma DistinctCard<T>(s: seq<T>)
    requires Distinct(s)
    ensures |set x | x in s| == |s|
  {
    if s != [] {
      var init, last := s[..|s| - 1], s[|s| - 1];
      DistinctCard(init);
      assert (set x | x in s) == (set x | x in init) + {last};
      assert last !in init;
    }
  }

  lemma CardAtMostLength<T>(s: seq<T>)
    ensures |set x | x in s| <= |s|
  {
    if s != [] {
      var init, last := s[..|s| - 1], s[|s| - 1];
      CardAtMostLength(init);
      assert (set x | x in s) == (set x | x in init) + {last};
    }
  }

  lemma FullCardDistinct<T>(s: seq<T>)
    requires |set x | x in s| == |s|
    ensures Distinct(s)
  {
    if s != [] {
      var init, last := s[..|s| - 1], s[|s| - 1];
      CardAtMostLength(init);
      assert (set x | x in s) == (set x | x in init) + {last};
      assert last !in init;
      FullCardDistinct(init);
      forall i, j | 0 <= i < j < |s| ensures s[i] != s[j] {
        assert s[i] == init[i];
        if j < |s| - 1 { assert s[j] == init[j]; }
      }
    }
  }

  lemma SubsetSameCard<T>(a: set<T>, b: set<T>)
    requires a <= b && |a| >= |b|
    ensures a == b
  {
    if x :| x in b && x !in a {
      SubsetCard(a, b - {x});
      assert false;
    }
  }

  lemma SubsetCard<T>(a: set<T>, b: set<T>)
    requires a <= b
    ensures |a| <= |b|
  {
    assert b == a + (b - a);
    assert |b| == |a| + |b - a|;
  }

  /** The first n values are distinct, and `seen` holds just them. */
  ghost predicate Collected<T>(s: seq<T>, n: nat, seen: set<T>) {
    n <= |s| && Distinct(s[..n]) && seen == set x | x in s[..n]
  }

  lemma NoneCollected<T>(s: seq<T>)
    ensures Collected(s, 0, {})
  {
  }

  lemma CollectNext<T>(s: seq<T>, n: nat, seen: set<T>)
    requires Collected(s, n, seen) && n < |s|
    ensures s[n] in seen ==> !Distinct(s)
    ensures s[n] !in seen ==> Collected(s, n + 1, seen + {s[n]})
  {
    assert s[..n + 1] == s[..n] + [s[n]];
    if s[n] in seen {
      var j :| 0 <= j < n && s[..n][j] == s[n];
      assert s[j] == s[n];
    }
  }

  lemma CollectedAll<T>(s: seq<T>, seen: set<T>)
    requires Collected(s, |s|, seen)
    ensures Distinct(s)
  {
    assert s[..|s|] == s;
  }

  /** Strings never run out. */
  lemma FreshName(names: set<string>) returns (name: string)
    ensures name !in names
  {
    var n := LengthBound(names);
    name := seq(n, _ => 'x');
    assert |name| == n;
  }

  lemma LengthBound(names: set<string>) returns (n: nat)
    ensures forall x | x in names :: |x| < n
  {
    if names == {} {
      n := 0;
    } else {
      var x :| x in names;
      var m := LengthBound(names - {x});
      n := if |x| < m then m else |x| + 1;
      forall y | y in names ensures |y| < n {
        if y != x { assert y in names - {x}; }
      }
    }
  }
}
