/** Sorting by falling score, equal scores by rising name, as both decision-plane sorts do. */
module Ranking {
  import opened Ordering

  predicate Before<T>(score: T -> real, name: T -> string, a: T, b: T) {
    score(a) > score(b) || (score(a) == score(b) && Less(name(a), name(b)))
  }

  /** Nothing stands before something that should precede it. */
  ghost predicate Ranked<T>(score: T -> real, name: T -> string, s: seq<T>) {
    forall i, j | 0 <= i < j < |s| :: !Before(score, name, s[j], s[i])
  }

  function Place<T>(score: T -> real, name: T -> string, x: T, s: seq<T>): seq<T> {
    if s == [] || !Before(score, name, s[0], x) then [x] + s else [s[0]] + Place(score, name, x, s[1..])
  }

  function Rank<T>(score: T -> real, name: T -> string, s: seq<T>): seq<T> {
    if s == [] then [] else Place(score, name, s[0], Rank(score, name, s[1..]))
  }

  lemma {:induction false} PlaceMembers<T>(score: T -> real, name: T -> string, x: T, s: seq<T>)
    ensures multiset(Place(score, name, x, s)) == multiset(s) + multiset{x} && |Place(score, name, x, s)| == |s| + 1
  {
    if s != [] && Before(score, name, s[0], x) {
      PlaceMembers(score, name, x, s[1..]);
      assert s == [s[0]] + s[1..];
    }
  }

  lemma {:induction false} RankMembers<T>(score: T -> real, name: T -> string, s: seq<T>)
    ensures multiset(Rank(score, name, s)) == multiset(s) && |Rank(score, name, s)| == |s|
  {
    if s != [] {
      RankMembers(score, name, s[1..]);
      PlaceMembers(score, name, s[0], Rank(score, name, s[1..]));
      assert s == [s[0]] + s[1..];
    }
  }

  lemma NotBeforeTransitive<T>(score: T -> real, name: T -> string, a: T, b: T, c: T)
    requires !Before(score, name, b, a) && !Before(score, name, c, b)
    ensures !Before(score, name, c, a)
  {
    if score(a) == score(b) == score(c) { NotLessTransitive(name(a), name(b), name(c)); }
  }

  lemma {:induction false} PlaceRanked<T>(score: T -> real, name: T -> string, x: T, s: seq<T>)
    requires Ranked(score, name, s)
    ensures Ranked(score, name, Place(score, name, x, s))
  {
    var r := Place(score, name, x, s);
    if s == [] {
    } else if !Before(score, name, s[0], x) {
      forall i, j | 0 <= i < j < |r| ensures !Before(score, name, r[j], r[i]) {
        if i == 0 && j > 1 { NotBeforeTransitive(score, name, x, s[0], s[j - 1]); }
      }
    } else {
      PlaceRanked(score, name, x, s[1..]);
      PlaceMembers(score, name, x, s[1..]);
      var rest := Place(score, name, x, s[1..]);
      forall j | 0 <= j < |rest| ensures !Before(score, name, rest[j], s[0]) {
        assert rest[j] in multiset(rest);
        if rest[j] == x {
          LessTotal(name(s[0]), name(x));
        } else {
          assert rest[j] in multiset(s[1..]);
          var k :| 0 <= k < |s[1..]| && s[1..][k] == rest[j];
          assert s[k + 1] == rest[j];
        }
      }
      forall i, j | 0 <= i < j < |r| ensures !Before(score, name, r[j], r[i]) {
        if i > 0 { assert r[i] == rest[i - 1] && r[j] == rest[j - 1]; }
      }
    }
  }

  lemma {:induction false} RankRanked<T>(score: T -> real, name: T -> string, s: seq<T>)
    ensures Ranked(score, name, Rank(score, name, s))
  {
    if s != [] {
      RankRanked(score, name, s[1..]);
      PlaceRanked(score, name, s[0], Rank(score, name, s[1..]));
    }
  }

  /** The first of the ranking is a member, and no member scores higher. */
  lemma RankTop<T>(score: T -> real, name: T -> string, s: seq<T>, x: T)
    requires x in s
    ensures Rank(score, name, s) != [] && Rank(score, name, s)[0] in s && score(x) <= score(Rank(score, name, s)[0])
  {
    var r := Rank(score, name, s);
    RankMembers(score, name, s);
    RankRanked(score, name, s);
    assert x in multiset(s) && x in multiset(r);
    var i :| 0 <= i < |r| && r[i] == x;
    assert r[0] in multiset(r) && r[0] in multiset(s);
  }
}
