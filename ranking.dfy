/**
 The ranked result list: (component, score) pairs sorted by score in either
 direction, the sort that orders it, and the two score comparators of the
 strategy class.
 */
module Ranking {
  import opened Sums
  import opened Topology

  datatype Direction = Descending | Ascending

  /** A component id paired with its ETP score. */
  datatype Ranked = Ranked(id: Id, score: real)

  /** Score `a` may be listed before score `b` in direction `dir`. */
  predicate InOrder(dir: Direction, a: real, b: real)
  {
    match dir
    case Descending => a >= b
    case Ascending => a <= b
  }

  predicate Sorted(s: seq<Ranked>, dir: Direction)
  {
    forall i, j :: 0 <= i < j < |s| ==> InOrder(dir, s[i].score, s[j].score)
  }

  /** Inserts `x` before the first element it may precede (stable for ties already placed). */
  function Insert(x: Ranked, s: seq<Ranked>, dir: Direction): (r: seq<Ranked>)
    requires Sorted(s, dir)
    ensures Sorted(r, dir)
    ensures multiset(r) == multiset(s) + multiset{x}
    ensures |r| == |s| + 1 && (r[0] == x || (s != [] && r[0] == s[0]))
  {
    if s == [] || InOrder(dir, x.score, s[0].score) then [x] + s
    else
      var tail := Insert(x, s[1..], dir);
      assert s == [s[0]] + s[1..];
      assert InOrder(dir, s[0].score, tail[0].score);
      [s[0]] + tail
  }

  /**
   The list sort applied to the result list (a stable sort by score): the
   result is sorted in direction `dir` and is a permutation of `s`.
   */
  function SortByScore(s: seq<Ranked>, dir: Direction): (r: seq<Ranked>)
    ensures Sorted(r, dir)
    ensures multiset(r) == multiset(s)
  {
    if s == [] then []
    else
      assert s == [s[0]] + s[1..];
      Insert(s[0], SortByScore(s[1..], dir), dir)
  }

  /** The pairs of a score map, one per component. */
  ghost function Entries(scores: map<Id, real>): set<Ranked>
  {
    set c | c in scores :: Ranked(c, scores[c])
  }

  /** `r` lists every entry of `scores` exactly once, sorted in direction `dir`. */
  ghost predicate IsRanking(r: seq<Ranked>, scores: map<Id, real>, dir: Direction)
  {
    Sorted(r, dir) && multiset(r) == multiset(Entries(scores))
  }

  lemma {:induction false} EntriesSize(scores: map<Id, real>)
    ensures |Entries(scores)| == |scores|
    decreases |scores|
  {
    if scores != map[] {
      var k := Pick(scores.Keys);
      var rest := scores - {k};
      EntriesSize(rest);
      var e := Ranked(k, scores[k]);
      forall f | f in Entries(scores)
        ensures f in Entries(rest) + {e}
      {
        var c :| c in scores && f == Ranked(c, scores[c]);
        if c != k {
          assert c in rest;
        }
      }
      forall f | f in Entries(rest)
        ensures f in Entries(scores) && f != e
      {
        var c :| c in rest && f == Ranked(c, rest[c]);
        assert c in scores;
      }
      assert Entries(scores) == Entries(rest) + {e};
    }
  }

  /** Taking one more key out of `rest` adds its pair to the entries of the processed keys. */
  lemma EntriesStep(m: map<Id, real>, rest: set<Id>, c: Id)
    requires rest <= m.Keys && c in rest
    ensures multiset(Entries(m - (rest - {c}))) == multiset(Entries(m - rest)) + multiset{Ranked(c, m[c])}
  {
    var e := Ranked(c, m[c]);
    var before, after := m - rest, m - (rest - {c});
    forall f | f in Entries(after)
      ensures f in Entries(before) + {e}
    {
      var k :| k in after && f == Ranked(k, after[k]);
      if k != c {
        assert k in before;
      }
    }
    forall f | f in Entries(before)
      ensures f in Entries(after) && f != e
    {
      var k :| k in before && f == Ranked(k, before[k]);
      assert k in after;
    }
    assert c in after && after[c] == m[c];
    assert e in Entries(after);
    assert Entries(after) == Entries(before) + {e};
  }

  /** An element found at two positions occurs at least twice. */
  lemma TwiceInMultiset(s: seq<Ranked>, i: int, j: int)
    requires 0 <= i < j < |s| && s[i] == s[j]
    ensures multiset(s)[s[i]] >= 2
  {
    assert s == s[..j] + [s[j]] + s[j + 1..];
    assert s[i] in multiset(s[..j]);
  }

  /**
   A ranking pairs each component with its own score exactly once: it is as
   long as the score map, each pair carries the score of its component, and
   no component appears twice.
   */
  lemma RankingPairsEachOnce(r: seq<Ranked>, scores: map<Id, real>, dir: Direction)
    requires IsRanking(r, scores, dir)
    ensures |r| == |scores|
    ensures forall i :: 0 <= i < |r| ==> r[i].id in scores && r[i].score == scores[r[i].id]
    ensures forall c :: c in scores ==> multiset(r)[Ranked(c, scores[c])] == 1
    ensures forall i, j :: 0 <= i < j < |r| ==> r[i].id != r[j].id
  {
    EntriesSize(scores);
    assert |r| == |multiset(r)|;
    forall i | 0 <= i < |r|
      ensures r[i] in Entries(scores)
    {
      assert r[i] in multiset(r);
    }
    forall i, j | 0 <= i < j < |r|
      ensures r[i].id != r[j].id
    {
      if r[i].id == r[j].id {
        TwiceInMultiset(r, i, j);
      }
    }
  }

  // ---------------------------------------------------------------- both directions

  function ScoresOf(s: seq<Ranked>): seq<real>
  {
    seq(|s|, i requires 0 <= i < |s| => s[i].score)
  }

  function Reverse<T>(s: seq<T>): seq<T>
  {
    seq(|s|, i requires 0 <= i < |s| => s[|s| - 1 - i])
  }

  /**
   `Sorted` on bare score sequences. The sort's proofs use `Sorted` on the
   pairs directly, which keeps them cheap; uniqueness of the sorted order is
   a fact about scores alone. `SortedScores` shows the two agree.
   */
  predicate SortedReals(s: seq<real>, dir: Direction)
  {
    forall i, j :: 0 <= i < j < |s| ==> InOrder(dir, s[i], s[j])
  }

  /** A list is sorted exactly when its score sequence is. */
  lemma SortedScores(s: seq<Ranked>, dir: Direction)
    ensures Sorted(s, dir) <==> SortedReals(ScoresOf(s), dir)
  {
    var t := ScoresOf(s);
    if SortedReals(t, dir) {
      forall i, j | 0 <= i < j < |s|
        ensures InOrder(dir, s[i].score, s[j].score)
      {
        assert t[i] == s[i].score && t[j] == s[j].score;
      }
    }
  }

  lemma ScoresOfConcat(u: seq<Ranked>, v: seq<Ranked>)
    ensures ScoresOf(u + v) == ScoresOf(u) + ScoresOf(v)
  {
  }

  lemma ScoresOfCons(s: seq<Ranked>)
    requires s != []
    ensures ScoresOf(s) == [s[0].score] + ScoresOf(s[1..])
  {
  }

  /** Dropping position j drops one copy of t[j] and one copy of its score. */
  lemma RemoveAt(t: seq<Ranked>, j: int)
    requires 0 <= j < |t|
    ensures multiset(t[..j] + t[j + 1..]) == multiset(t) - multiset{t[j]}
    ensures multiset(ScoresOf(t[..j] + t[j + 1..])) == multiset(ScoresOf(t)) - multiset{t[j].score}
  {
    var a, b := t[..j], t[j + 1..];
    assert t == a + [t[j]] + b;
    RemoveMiddle(a, t[j], b);
    ScoresOfConcat(a + [t[j]], b);
    ScoresOfConcat(a, [t[j]]);
    ScoresOfConcat(a, b);
    RemoveMiddle(ScoresOf(a), t[j].score, ScoresOf(b));
  }

  lemma RemoveMiddle<T>(a: seq<T>, x: T, b: seq<T>)
    ensures multiset(a + b) == multiset(a + [x] + b) - multiset{x}
  {
  }

  /** Permuting a list permutes its scores. */
  lemma {:induction false} ScoresMultiset(s: seq<Ranked>, t: seq<Ranked>)
    requires multiset(s) == multiset(t)
    ensures multiset(ScoresOf(s)) == multiset(ScoresOf(t))
    decreases |s|
  {
    assert |s| == |multiset(s)| == |multiset(t)| == |t|;
    if s != [] {
      var x := s[0];
      assert x in multiset(t);
      assert x in t;
      var j :| 0 <= j < |t| && t[j] == x;
      var rest := t[..j] + t[j + 1..];
      RemoveAt(t, j);
      assert s == [x] + s[1..];
      assert multiset(s[1..]) == multiset(s) - multiset{x};
      ScoresMultiset(s[1..], rest);
      ScoresOfCons(s);
      assert ScoresOf(t)[j] == x.score;
      AddBack(multiset(ScoresOf(t)), x.score);
    }
  }

  lemma AddBack(ms: multiset<real>, v: real)
    requires v in ms
    ensures multiset{v} + (ms - multiset{v}) == ms
  {
  }

  lemma {:induction false} ReverseMultiset(s: seq<real>)
    ensures multiset(Reverse(s)) == multiset(s)
    decreases |s|
  {
    if s != [] {
      ReverseMultiset(s[1..]);
      assert Reverse(s) == Reverse(s[1..]) + [s[0]];
      assert s == [s[0]] + s[1..];
    }
  }

  /** Two sorted sequences with the same elements are equal. */
  lemma {:induction false} SortedUnique(a: seq<real>, b: seq<real>, dir: Direction)
    requires SortedReals(a, dir) && SortedReals(b, dir)
    requires multiset(a) == multiset(b)
    ensures a == b
    decreases |a|
  {
    assert |a| == |multiset(a)| == |multiset(b)| == |b|;
    if a != [] {
      assert b[0] in multiset(a);
      var i :| 0 <= i < |a| && a[i] == b[0];
      assert InOrder(dir, a[0], b[0]);
      assert a[0] in multiset(b);
      var j :| 0 <= j < |b| && b[j] == a[0];
      assert InOrder(dir, b[0], a[0]);
      assert a[0] == b[0];
      assert a == [a[0]] + a[1..];
      assert b == [b[0]] + b[1..];
      assert multiset(a[1..]) == multiset(a) - multiset{a[0]};
      assert multiset(b[1..]) == multiset(b) - multiset{b[0]};
      SortedUnique(a[1..], b[1..], dir);
    }
  }

  /**
   Ranking one score map both ways gives score sequences that are reverses
   of each other: position k of the descending list holds the score at
   position n−1−k of the ascending one.
   */
  lemma DirectionsMirror(d: seq<Ranked>, a: seq<Ranked>, scores: map<Id, real>)
    requires IsRanking(d, scores, Descending) && IsRanking(a, scores, Ascending)
    ensures ScoresOf(d) == Reverse(ScoresOf(a))
  {
    ScoresMultiset(d, a);
    ReverseMultiset(ScoresOf(a));
    SortedUnique(ScoresOf(d), Reverse(ScoresOf(a)), Descending);
  }

  // ---------------------------------------------------------------- comparators

  /** The descending comparator: −1 when `a` scores at least as high as `b`, else 1. */
  function CompareDesc(base: map<Id, real>, a: Id, b: Id): (r: int)
    requires a in base && b in base
    ensures r == -1 || r == 1
  {
    if base[a] >= base[b] then -1 else 1
  }

  /** The ascending comparator: −1 when `b` scores at least as high as `a`, else 1. */
  function CompareAsc(base: map<Id, real>, a: Id, b: Id): (r: int)
    requires a in base && b in base
    ensures r == -1 || r == 1
  {
    if base[b] >= base[a] then -1 else 1
  }

  /**
   Each comparator puts `a` first exactly when the ranking order of its
   direction allows `a` before `b`, and the ascending one is the descending
   one with its arguments swapped.
   */
  lemma ComparatorsFollowRankingOrder(base: map<Id, real>, a: Id, b: Id)
    requires a in base && b in base
    ensures CompareDesc(base, a, b) == -1 <==> InOrder(Descending, base[a], base[b])
    ensures CompareAsc(base, a, b) == -1 <==> InOrder(Ascending, base[a], base[b])
    ensures CompareAsc(base, a, b) == CompareDesc(base, b, a)
  {
  }

  /**
   The comparators never report equality: a component compares as less than
   itself, and two components with equal scores each compare as less than the
   other. Only for unequal scores are the answers opposite.
   */
  lemma ComparatorsNeverEqual(base: map<Id, real>, a: Id, b: Id)
    requires a in base && b in base
    ensures CompareDesc(base, a, a) == -1 && CompareAsc(base, a, a) == -1
    ensures base[a] == base[b] ==> CompareDesc(base, a, b) == CompareDesc(base, b, a) == -1
    ensures base[a] == base[b] ==> CompareAsc(base, a, b) == CompareAsc(base, b, a) == -1
    ensures base[a] != base[b] ==> CompareDesc(base, a, b) == -CompareDesc(base, b, a)
    ensures base[a] != base[b] ==> CompareAsc(base, a, b) == -CompareAsc(base, b, a)
  {
  }
}
