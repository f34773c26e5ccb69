/** Facts about duplicate-free sequences and the multisets of their images. */
module Sequences {
  ghost predicate NoDup<T>(s: seq<T>) {
    forall i, j :: 0 <= i < j < |s| ==> s[i] != s[j]
  }

  ghost function Elements<T>(s: seq<T>): set<T> {
    set x | x in s
  }

  lemma ElementsSnoc<T>(s: seq<T>)
    requires s != []
    ensures Elements(s) == Elements(s[..|s| - 1]) + {s[|s| - 1]}
    ensures NoDup(s) ==> s[|s| - 1] !in Elements(s[..|s| - 1])
  {
    assert s == s[..|s| - 1] + [s[|s| - 1]];
  }

  function MapSeq<S, T>(f: S -> T, s: seq<S>): (r: seq<T>)
    ensures |r| == |s|
    ensures forall i :: 0 <= i < |s| ==> r[i] == f(s[i])
  {
    if s == [] then [] else MapSeq(f, s[..|s| - 1]) + [f(s[|s| - 1])]
  }

  lemma {:induction false} NoDupCount<T>(s: seq<T>, x: T)
    requires NoDup(s)
    ensures multiset(s)[x] == if x in s then 1 else 0
  {
    if s != [] {
      assert s == s[..|s| - 1] + [s[|s| - 1]];
      NoDupCount(s[..|s| - 1], x);
    }
  }

  /** Two duplicate-free listings of one set are permutations of each other. */
  lemma NoDupSameSet<T>(s: seq<T>, t: seq<T>)
    requires NoDup(s) && NoDup(t)
    requires forall x :: x in s <==> x in t
    ensures multiset(s) == multiset(t)
  {
    forall x ensures multiset(s)[x] == multiset(t)[x] {
      NoDupCount(s, x);
      NoDupCount(t, x);
    }
  }

  lemma MapConcat<S, T>(f: S -> T, s: seq<S>, t: seq<S>)
    ensures MapSeq(f, s + t) == MapSeq(f, s) + MapSeq(f, t)
  {
  }

  lemma MapAround<S, T>(f: S -> T, a: seq<S>, x: S, b: seq<S>)
    ensures MapSeq(f, a + [x] + b) == MapSeq(f, a) + [f(x)] + MapSeq(f, b)
    ensures MapSeq(f, a + b) == MapSeq(f, a) + MapSeq(f, b)
  {
    MapConcat(f, a + [x], b);
    MapConcat(f, a, [x]);
    MapConcat(f, a, b);
    assert MapSeq(f, [x]) == [f(x)];
  }

  lemma MapWithout<S, T>(f: S -> T, t: seq<S>, i: nat) returns (rest: seq<S>)
    requires i < |t|
    ensures |rest| == |t| - 1
    ensures multiset(t) == multiset(rest) + multiset{t[i]}
    ensures multiset(MapSeq(f, t)) == multiset(MapSeq(f, rest)) + multiset{f(t[i])}
  {
    rest := t[..i] + t[i + 1..];
    assert t == t[..i] + [t[i]] + t[i + 1..];
    MapAround(f, t[..i], t[i], t[i + 1..]);
  }

  lemma SameRest<T>(whole: multiset<T>, a: multiset<T>, b: multiset<T>, x: T)
    requires whole == a + multiset{x} && whole == b + multiset{x}
    ensures a == b
  {
    assert a == whole - multiset{x} && b == whole - multiset{x};
  }

  /** Permuting a sequence permutes its image. */
  lemma {:induction false} MapPermutes<S, T>(f: S -> T, s: seq<S>, t: seq<S>)
    requires multiset(s) == multiset(t)
    ensures multiset(MapSeq(f, s)) == multiset(MapSeq(f, t))
    decreases |s|
  {
    if s == [] {
      assert |multiset(t)| == |t|;
    } else {
      assert s[0] in multiset(s);
      var i :| 0 <= i < |t| && t[i] == s[0];
      var sRest := MapWithout(f, s, 0);
      var tRest := MapWithout(f, t, i);
      SameRest(multiset(s), multiset(sRest), multiset(tRest), s[0]);
      MapPermutes(f, sRest, tRest);
    }
  }
}
