/** Sorting by descending score, and what the first two places say about the whole list:
    the element that beats all others does not depend on the order of the list. */
module Ranking {

  ghost predicate Descending<T>(s: seq<T>, score: T -> real) {
    forall i, j :: 0 <= i < j < |s| ==> score(s[i]) >= score(s[j])
  }

  /** x goes behind the elements that score at least as much. */
  function InsertDesc<T>(x: T, s: seq<T>, score: T -> real): (r: seq<T>) {
    if s == [] || score(s[0]) < score(x) then [x] + s else [s[0]] + InsertDesc(x, s[1..], score)
  }

  function SortDesc<T>(s: seq<T>, score: T -> real): (r: seq<T>) {
    if s == [] then [] else InsertDesc(s[|s| - 1], SortDesc(s[..|s| - 1], score), score)
  }

  lemma {:induction false} InsertFacts<T>(x: T, s: seq<T>, score: T -> real)
    requires Descending(s, score)
    ensures var r := InsertDesc(x, s, score); multiset(r) == multiset(s) + multiset{x} && Descending(r, score)
  {
    hide Descending;
    if s == [] || score(s[0]) < score(x) {
      InFront(x, s, score);
    } else {
      assert s == [s[0]] + s[1..];
      TailDescends(s, score);
      InsertFacts(x, s[1..], score);
      InsertBehind(x, s, InsertDesc(x, s[1..], score), score);
    }
  }

  lemma InFront<T>(x: T, s: seq<T>, score: T -> real)
    requires Descending(s, score) && (s == [] || score(s[0]) < score(x))
    ensures Descending([x] + s, score)
  {
  }

  lemma TailDescends<T>(s: seq<T>, score: T -> real)
    requires Descending(s, score) && s != []
    ensures Descending(s[1..], score)
  {
  }

  lemma InsertBehind<T>(x: T, s: seq<T>, r: seq<T>, score: T -> real)
    requires s != [] && score(s[0]) >= score(x) && Descending(s, score)
    requires Descending(r, score) && multiset(r) == multiset(s[1..]) + multiset{x}
    ensures Descending([s[0]] + r, score)
  {
    forall j | 0 <= j < |r|
      ensures score(s[0]) >= score(r[j])
    {
      assert r[j] in multiset(r);
      if r[j] != x {
        assert r[j] in multiset(s[1..]);
        var k :| 0 <= k < |s[1..]| && s[1..][k] == r[j];
        assert s[k + 1] == r[j];
      }
    }
  }

  lemma {:induction false} SortFacts<T>(s: seq<T>, score: T -> real)
    ensures var r := SortDesc(s, score); multiset(r) == multiset(s) && Descending(r, score)
  {
    if s != [] {
      SortFacts(s[..|s| - 1], score);
      InsertFacts(s[|s| - 1], SortDesc(s[..|s| - 1], score), score);
      assert s == s[..|s| - 1] + [s[|s| - 1]];
    }
  }

  /** x occurs once and outscores every other element. */
  ghost predicate SoleTop<T(!new)>(items: multiset<T>, score: T -> real, x: T) {
    items[x] == 1 && forall y :: y in items && y != x ==> score(y) < score(x)
  }

  /** The first place of the sorted list, when strictly ahead of the second, is the sole top
      of the unsorted list; and a sole top is always found there. */
  lemma HeadIsSoleTop<T(!new)>(s: seq<T>, score: T -> real, x: T)
    ensures var r := SortDesc(s, score);
            SoleTop(multiset(s), score, x) <==>
            r != [] && r[0] == x && (|r| == 1 || score(r[1]) < score(r[0]))
  {
    SortFacts(s, score);
    SortedTop(SortDesc(s, score), score, x);
  }

  lemma SortedTop<T(!new)>(r: seq<T>, score: T -> real, x: T)
    requires Descending(r, score)
    ensures SoleTop(multiset(r), score, x) <==>
            r != [] && r[0] == x && (|r| == 1 || score(r[1]) < score(r[0]))
  {
    hide SoleTop;
    TopAtIsSoleTop(r, score, x);
    if i :| TopAt(r, score, i) && r[i] == x {
      assert i == 0;
    }
    if r != [] && r[0] == x && (|r| == 1 || score(r[1]) < score(r[0])) {
      assert TopAt(r, score, 0);
    }
  }

  /** By position: the element at i outscores those at all other positions. */
  ghost predicate TopAt<T>(s: seq<T>, score: T -> real, i: int) {
    0 <= i < |s| && forall j :: 0 <= j < |s| && j != i ==> score(s[j]) < score(s[i])
  }

  lemma TopAtIsSoleTop<T(!new)>(s: seq<T>, score: T -> real, x: T)
    ensures SoleTop(multiset(s), score, x) <==> exists i :: TopAt(s, score, i) && s[i] == x
  {
    hide SoleTop;
    if SoleTop(multiset(s), score, x) {
      var i := SoleTopPosition(s, score, x);
    }
    if i :| TopAt(s, score, i) && s[i] == x {
      TopAtIsSole(s, score, i);
    }
  }

  lemma SoleTopPosition<T(!new)>(s: seq<T>, score: T -> real, x: T) returns (i: nat)
    requires SoleTop(multiset(s), score, x)
    ensures TopAt(s, score, i) && s[i] == x
  {
    assert x in multiset(s);
    i :| 0 <= i < |s| && s[i] == x;
    AllButOne(s, i);
    forall j | 0 <= j < |s| && j != i
      ensures score(s[j]) < score(s[i])
    {
      OtherPosition(s, i, j);
    }
  }

  lemma OtherPosition<T>(s: seq<T>, i: nat, j: nat)
    requires i < |s| && j < |s| && j != i
    ensures s[j] in multiset(s) && s[j] in multiset(s[..i] + s[i + 1..])
  {
    if j < i {
      assert (s[..i] + s[i + 1..])[j] == s[j];
    } else {
      assert (s[..i] + s[i + 1..])[j - 1] == s[j];
    }
  }

  lemma TopAtIsSole<T(!new)>(s: seq<T>, score: T -> real, i: nat)
    requires TopAt(s, score, i)
    ensures SoleTop(multiset(s), score, s[i])
  {
    AllButOne(s, i);
    forall y | y in s[..i] + s[i + 1..]
      ensures score(y) < score(s[i])
    {
    }
  }

  lemma AllButOne<T>(s: seq<T>, i: nat)
    requires i < |s|
    ensures multiset(s) == multiset(s[..i] + s[i + 1..]) + multiset{s[i]}
  {
    assert s == s[..i] + [s[i]] + s[i + 1..];
  }
}
