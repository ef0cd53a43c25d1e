/** The ranking and threshold step of retrieval (`search_jobs`). How similar the query
    is to a posting is the abstract function `score` (cosine similarity of embeddings
    in the system); what is modelled is what happens to those numbers: every posting is
    scored, the scored list is sorted by descending score with a stable sort, and the
    postings scoring at least the threshold are kept in that order.

    Rankings are stated on corpus positions, so that postings that happen to be equal
    are still told apart. */
module Search {
  import opened Jobs

  /** The similarity cutoff `search_jobs` applies unless told otherwise. */
  const DefaultThreshold: real := 0.3

  /** Similarity of a query to a posting. */
  type Scorer = (string, Job) -> real

  /** The score of each corpus position. */
  function Scores(corpus: seq<Job>, query: string, score: Scorer): seq<real> {
    seq(|corpus|, i requires 0 <= i < |corpus| => score(query, corpus[i]))
  }

  /** Position `i` ranks ahead of position `j`: a higher score, or the same score and
      an earlier place in the corpus (the stable sort keeps corpus order among ties). */
  predicate Ahead(s: seq<real>, i: nat, j: nat) {
    i < |s| && j < |s| && (s[i] > s[j] || (s[i] == s[j] && i < j))
  }

  /** Every position of `r` ranks ahead of every later one. */
  predicate Ranked(s: seq<real>, r: seq<nat>) {
    forall k, l :: 0 <= k < l < |r| ==> Ahead(s, r[k], r[l])
  }

  function Elems(r: seq<nat>): set<nat> {
    set x | x in r
  }

  /** The corpus positions `0 .. n-1`. */
  function Positions(n: nat): (p: set<nat>)
    ensures forall x: nat :: x in p <==> x < n
  {
    if n == 0 then {} else Positions(n - 1) + {n - 1}
  }

  /** Reference ranking: insert position `i` before the first position it ranks ahead of. */
  function Insert(s: seq<real>, r: seq<nat>, i: nat): seq<nat> {
    if r == [] then [i]
    else if Ahead(s, i, r[0]) then [i] + r
    else [r[0]] + Insert(s, r[1..], i)
  }

  function RankUpTo(s: seq<real>, n: nat): seq<nat>
    requires n <= |s|
  {
    if n == 0 then [] else Insert(s, RankUpTo(s, n - 1), n - 1)
  }

  /** All corpus positions in ranking order. */
  function Rank(s: seq<real>): seq<nat> {
    RankUpTo(s, |s|)
  }

  /** The positions of `r` that reach the threshold, in the order of `r`. */
  function Filter(s: seq<real>, r: seq<nat>, t: real): (f: seq<nat>)
    ensures forall x :: x in f ==> x in r && x < |s| && s[x] >= t
  {
    if r == [] then []
    else (if r[0] < |s| && s[r[0]] >= t then [r[0]] else []) + Filter(s, r[1..], t)
  }

  /** The positions `search_jobs` returns, best first. */
  function SearchIndices(s: seq<real>, t: real): seq<nat> {
    Filter(s, Rank(s), t)
  }

  /** The postings at the given positions. */
  function JobsAt(corpus: seq<Job>, r: seq<nat>): seq<Job>
    requires forall x :: x in r ==> x < |corpus|
  {
    seq(|r|, k requires 0 <= k < |r| => assert r[k] in r; corpus[r[k]])
  }

  /** `search_jobs(query, threshold)` as a value. */
  function Search(corpus: seq<Job>, query: string, score: Scorer, t: real): seq<Job> {
    JobsAt(corpus, SearchIndices(Scores(corpus, query, score), t))
  }

  // ---------------------------------------------------------------------------
  // The ranking order

  lemma AheadTransitive(s: seq<real>, i: nat, j: nat, k: nat)
    requires Ahead(s, i, j) && Ahead(s, j, k)
    ensures Ahead(s, i, k)
  {
  }

  /** Ranked sequences hold each position once. */
  lemma RankedDistinct(s: seq<real>, r: seq<nat>, k: int, l: int)
    requires Ranked(s, r) && 0 <= k < |r| && 0 <= l < |r| && k != l
    ensures r[k] != r[l]
  {
    if k < l { assert Ahead(s, r[k], r[l]); } else { assert Ahead(s, r[l], r[k]); }
  }

  lemma RankedCons(s: seq<real>, x: nat, r: seq<nat>)
    requires Ranked(s, r)
    requires forall y :: y in r ==> Ahead(s, x, y)
    ensures Ranked(s, [x] + r)
  {
    var xr := [x] + r;
    forall k, l | 0 <= k < l < |xr| ensures Ahead(s, xr[k], xr[l]) {
      if k == 0 {
        assert xr[l] == r[l - 1] && r[l - 1] in r;
      } else {
        assert xr[k] == r[k - 1] && xr[l] == r[l - 1];
      }
    }
  }

  lemma {:induction false} InsertRanked(s: seq<real>, r: seq<nat>, i: nat)
    requires Ranked(s, r) && i < |s| && i !in r
    requires forall x :: x in r ==> x < |s|
    ensures Ranked(s, Insert(s, r, i))
    ensures Elems(Insert(s, r, i)) == Elems(r) + {i}
  {
    if r == [] {
    } else if Ahead(s, i, r[0]) {
      forall y | y in r ensures Ahead(s, i, y) {
        var l :| 0 <= l < |r| && r[l] == y;
        if l > 0 { AheadTransitive(s, i, r[0], y); }
      }
      RankedCons(s, i, r);
      assert Elems([i] + r) == Elems(r) + {i};
    } else {
      var tail := r[1..];
      assert r == [r[0]] + tail;
      assert Ranked(s, tail) by {
        forall k, l | 0 <= k < l < |tail| ensures Ahead(s, tail[k], tail[l]) {
          assert tail[k] == r[k + 1] && tail[l] == r[l + 1];
        }
      }
      InsertRanked(s, tail, i);
      var ins := Insert(s, tail, i);
      forall y | y in ins ensures Ahead(s, r[0], y) {
        assert y in Elems(ins);
        if y == i {
          assert r[0] in r && r[0] != i;
        } else {
          assert y in tail;
          var l :| 0 <= l < |tail| && tail[l] == y;
          assert r[l + 1] == y;
        }
      }
      RankedCons(s, r[0], ins);
      assert Elems([r[0]] + ins) == {r[0]} + Elems(ins);
      assert Elems(r) == {r[0]} + Elems(tail);
    }
  }

  lemma {:induction false} RankUpToRanked(s: seq<real>, n: nat)
    requires n <= |s|
    ensures Ranked(s, RankUpTo(s, n))
    ensures Elems(RankUpTo(s, n)) == Positions(n)
  {
    if n > 0 {
      RankUpToRanked(s, n - 1);
      var r := RankUpTo(s, n - 1);
      assert forall x :: x in r ==> x in Elems(r);
      InsertRanked(s, r, n - 1);
    }
  }

  /** The reference ranking orders every corpus position, best first. */
  lemma RankRanked(s: seq<real>)
    ensures Ranked(s, Rank(s))
    ensures Elems(Rank(s)) == Positions(|s|)
  {
    RankUpToRanked(s, |s|);
  }

  /** There is only one way to rank a set of positions. */
  lemma {:induction false} RankedUnique(s: seq<real>, r1: seq<nat>, r2: seq<nat>)
    requires Ranked(s, r1) && Ranked(s, r2) && Elems(r1) == Elems(r2)
    ensures r1 == r2
  {
    ElemsEmpty(r1);
    ElemsEmpty(r2);
    if r1 != [] {
      assert r1[0] in Elems(r1);
      assert r2 != [];
      if r1[0] != r2[0] {
        assert r2[0] in Elems(r1) && r1[0] in Elems(r2);
        RankedHead(s, r1, r2[0]);
        RankedHead(s, r2, r1[0]);
        assert false;
      }
      var t1, t2 := r1[1..], r2[1..];
      assert Ranked(s, t1) by {
        forall k, l | 0 <= k < l < |t1| ensures Ahead(s, t1[k], t1[l]) {
          assert t1[k] == r1[k + 1] && t1[l] == r1[l + 1];
        }
      }
      assert Ranked(s, t2) by {
        forall k, l | 0 <= k < l < |t2| ensures Ahead(s, t2[k], t2[l]) {
          assert t2[k] == r2[k + 1] && t2[l] == r2[l + 1];
        }
      }
      HeadNotInTail(s, r1);
      HeadNotInTail(s, r2);
      assert r1 == [r1[0]] + t1 && r2 == [r2[0]] + t2;
      assert Elems(t1) == Elems(r1) - {r1[0]};
      assert Elems(t2) == Elems(r2) - {r2[0]};
      RankedUnique(s, t1, t2);
    }
  }

  lemma ElemsEmpty(r: seq<nat>)
    ensures Elems(r) == {} <==> r == []
  {
    if r != [] { assert r[0] in Elems(r); }
  }

  /** The head of a ranked sequence ranks ahead of every other entry. */
  lemma RankedHead(s: seq<real>, r: seq<nat>, x: nat)
    requires Ranked(s, r) && x in r && x != r[0]
    ensures Ahead(s, r[0], x)
  {
    var l :| 0 <= l < |r| && r[l] == x;
  }

  lemma HeadNotInTail(s: seq<real>, r: seq<nat>)
    requires Ranked(s, r) && r != []
    ensures r[0] !in r[1..]
  {
    if r[0] in r[1..] {
      var l :| 0 <= l < |r[1..]| && r[1..][l] == r[0];
      RankedDistinct(s, r, 0, l + 1);
    }
  }

  // ---------------------------------------------------------------------------
  // The threshold

  lemma {:induction false} FilterRanked(s: seq<real>, r: seq<nat>, t: real)
    requires Ranked(s, r)
    ensures Ranked(s, Filter(s, r, t))
  {
    if r != [] {
      var tail := r[1..];
      assert Ranked(s, tail) by {
        forall k, l | 0 <= k < l < |tail| ensures Ahead(s, tail[k], tail[l]) {
          assert tail[k] == r[k + 1] && tail[l] == r[l + 1];
        }
      }
      FilterRanked(s, tail, t);
      var f := Filter(s, tail, t);
      if r[0] < |s| && s[r[0]] >= t {
        forall y | y in f ensures Ahead(s, r[0], y) {
          var l :| 0 <= l < |tail| && tail[l] == y;
          assert r[l + 1] == y;
        }
        RankedCons(s, r[0], f);
        assert Filter(s, r, t) == [r[0]] + f;
      }
    }
  }

  /** Filtering keeps exactly the entries that reach the threshold. */
  lemma {:induction false} FilterElems(s: seq<real>, r: seq<nat>, t: real)
    ensures Elems(Filter(s, r, t)) == set x | x in r && x < |s| && s[x] >= t
  {
    if r != [] {
      var tail := r[1..];
      FilterElems(s, tail, t);
      var f := Filter(s, tail, t);
      if r[0] < |s| && s[r[0]] >= t {
        assert Filter(s, r, t) == [r[0]] + f;
        assert forall x :: x in Filter(s, r, t) <==> x == r[0] || x in f;
      } else {
        assert Filter(s, r, t) == f;
      }
      assert r == [r[0]] + tail;
      forall x ensures x in Elems(Filter(s, r, t)) <==> x in r && x < |s| && s[x] >= t {
        assert x in Elems(f) <==> x in tail && x < |s| && s[x] >= t;
        assert x in r <==> x == r[0] || x in tail;
      }
    }
  }

  /** No position of `r` reaches the threshold: nothing is kept. */
  lemma {:induction false} FilterNone(s: seq<real>, r: seq<nat>, t: real)
    requires forall x :: x in r ==> x >= |s| || s[x] < t
    ensures Filter(s, r, t) == []
  {
    if r != [] {
      assert r[0] in r;
      assert forall x :: x in r[1..] ==> x in r;
      FilterNone(s, r[1..], t);
    }
  }

  /** On a ranked sequence a higher threshold keeps a prefix of what a lower one keeps. */
  lemma {:induction false} FilterPrefix(s: seq<real>, r: seq<nat>, t1: real, t2: real)
    requires Ranked(s, r) && t1 <= t2
    ensures Filter(s, r, t2) <= Filter(s, r, t1)
  {
    if r != [] {
      var tail := r[1..];
      assert Ranked(s, tail) by {
        forall k, l | 0 <= k < l < |tail| ensures Ahead(s, tail[k], tail[l]) {
          assert tail[k] == r[k + 1] && tail[l] == r[l + 1];
        }
      }
      if r[0] < |s| && s[r[0]] >= t2 {
        FilterPrefix(s, tail, t1, t2);
      } else if r[0] < |s| && s[r[0]] >= t1 {
        forall x | x in tail ensures x >= |s| || s[x] < t2 {
          var l :| 0 <= l < |tail| && tail[l] == x;
          assert Ahead(s, r[0], r[l + 1]);
        }
        FilterNone(s, tail, t2);
      } else {
        FilterPrefix(s, tail, t1, t2);
      }
    }
  }

  lemma {:induction false} FilterSnoc(s: seq<real>, r: seq<nat>, x: nat, t: real)
    ensures Filter(s, r + [x], t) == Filter(s, r, t) + (if x < |s| && s[x] >= t then [x] else [])
  {
    if r != [] {
      assert (r + [x])[1..] == r[1..] + [x];
      FilterSnoc(s, r[1..], x, t);
    } else {
      assert [] + [x] == [x];
    }
  }

  // ---------------------------------------------------------------------------
  // What `search_jobs` returns

  /** The positions returned are exactly the positions scoring at least the threshold,
      each once, ranked: descending score, and among equal scores in corpus order. */
  lemma SearchIndicesExact(s: seq<real>, t: real)
    ensures Elems(SearchIndices(s, t)) == set i: nat | i < |s| && s[i] >= t
    ensures Ranked(s, SearchIndices(s, t))
  {
    RankRanked(s);
    FilterRanked(s, Rank(s), t);
    FilterElems(s, Rank(s), t);
    var r := SearchIndices(s, t);
    assert forall x :: x in Rank(s) <==> x in Positions(|s|);
  }

  /** Raising the threshold cuts the result down to a prefix of itself. */
  lemma SearchIndicesMonotone(s: seq<real>, t1: real, t2: real)
    requires t1 <= t2
    ensures SearchIndices(s, t2) <= SearchIndices(s, t1)
  {
    RankRanked(s);
    FilterPrefix(s, Rank(s), t1, t2);
  }

  /** The result read on postings: every returned posting clears the threshold, every
      corpus posting that clears it is returned, and the result is in descending score
      order. */
  lemma SearchResult(corpus: seq<Job>, query: string, score: Scorer, t: real)
    ensures var r := Search(corpus, query, score, t);
      && (forall k :: 0 <= k < |r| ==> score(query, r[k]) >= t)
      && (forall i :: 0 <= i < |corpus| && score(query, corpus[i]) >= t ==> corpus[i] in r)
      && (forall k, l :: 0 <= k < l < |r| ==> score(query, r[k]) >= score(query, r[l]))
      && |r| == |SearchIndices(Scores(corpus, query, score), t)|
  {
    var s := Scores(corpus, query, score);
    var idx := SearchIndices(s, t);
    SearchIndicesExact(s, t);
    var r := Search(corpus, query, score, t);
    forall i | 0 <= i < |corpus| && score(query, corpus[i]) >= t
      ensures corpus[i] in r
    {
      assert i in Elems(idx);
      var k :| 0 <= k < |idx| && idx[k] == i;
      assert r[k] == corpus[i];
    }
  }

  /** Raising the threshold keeps a prefix of the postings returned. */
  lemma SearchMonotone(corpus: seq<Job>, query: string, score: Scorer, t1: real, t2: real)
    requires t1 <= t2
    ensures Search(corpus, query, score, t2) <= Search(corpus, query, score, t1)
  {
    var s := Scores(corpus, query, score);
    SearchIndicesMonotone(s, t1, t2);
    var a, b := SearchIndices(s, t2), SearchIndices(s, t1);
    assert forall k :: 0 <= k < |a| ==> a[k] == b[k];
  }

  // ---------------------------------------------------------------------------
  // A permutation of the qualifying postings

  /** The postings among the first `n` that reach the threshold, in corpus order: what
      the list comprehension would return without the sort. */
  function InCorpusOrder(corpus: seq<Job>, query: string, score: Scorer, t: real, n: nat): seq<Job>
    requires n <= |corpus|
  {
    if n == 0 then []
    else InCorpusOrder(corpus, query, score, t, n - 1)
         + (if score(query, corpus[n - 1]) >= t then [corpus[n - 1]] else [])
  }

  /** The positions `0 .. n-1` in order. */
  function UpTo(n: nat): seq<nat> {
    seq(n, i requires 0 <= i < n => i)
  }

  predicate Distinct(r: seq<nat>) {
    forall k, l :: 0 <= k < l < |r| ==> r[k] != r[l]
  }

  lemma {:induction false} InCorpusOrderByIndex(corpus: seq<Job>, query: string, score: Scorer, t: real, n: nat)
    requires n <= |corpus|
    ensures forall x :: x in Filter(Scores(corpus, query, score), UpTo(n), t) ==> x < |corpus|
    ensures InCorpusOrder(corpus, query, score, t, n)
         == JobsAt(corpus, Filter(Scores(corpus, query, score), UpTo(n), t))
  {
    var s := Scores(corpus, query, score);
    if n > 0 {
      InCorpusOrderByIndex(corpus, query, score, t, n - 1);
      assert UpTo(n) == UpTo(n - 1) + [n - 1];
      FilterSnoc(s, UpTo(n - 1), n - 1, t);
      var step: seq<nat> := if s[n - 1] >= t then [n - 1] else [];
      var pre := Filter(s, UpTo(n - 1), t);
      assert Filter(s, UpTo(n), t) == pre + step;
      JobsAtConcat(corpus, pre, step);
      assert s[n - 1] == score(query, corpus[n - 1]);
      assert JobsAt(corpus, step) == if s[n - 1] >= t then [corpus[n - 1]] else [];
    }
  }

  lemma {:induction false} FilterDistinct(s: seq<real>, r: seq<nat>, t: real)
    requires Distinct(r)
    ensures Distinct(Filter(s, r, t))
  {
    if r != [] {
      var tail := r[1..];
      assert Distinct(tail) by {
        forall k, l | 0 <= k < l < |tail| ensures tail[k] != tail[l] {
          assert tail[k] == r[k + 1] && tail[l] == r[l + 1];
        }
      }
      FilterDistinct(s, tail, t);
      var f := Filter(s, tail, t);
      if r[0] < |s| && s[r[0]] >= t {
        assert r[0] !in tail;
        var rf := [r[0]] + f;
        forall k, l | 0 <= k < l < |rf| ensures rf[k] != rf[l] {
          if k == 0 { assert rf[l] in f; }
        }
        assert Filter(s, r, t) == rf;
      }
    }
  }

  /** A list without repeats is a permutation of any other with the same entries. */
  lemma {:induction false} DistinctMultiset(r: seq<nat>)
    requires Distinct(r)
    ensures multiset(r) == multiset(Elems(r))
  {
    if r != [] {
      var tail := r[1..];
      assert Distinct(tail) by {
        forall k, l | 0 <= k < l < |tail| ensures tail[k] != tail[l] {
          assert tail[k] == r[k + 1] && tail[l] == r[l + 1];
        }
      }
      DistinctMultiset(tail);
      assert r == [r[0]] + tail;
      assert r[0] !in Elems(tail);
      assert Elems(r) == {r[0]} + Elems(tail);
      assert multiset(Elems(r)) == multiset{r[0]} + multiset(Elems(tail));
    }
  }

  lemma JobsAtConcat(corpus: seq<Job>, r1: seq<nat>, r2: seq<nat>)
    requires forall x :: x in r1 + r2 ==> x < |corpus|
    ensures forall x :: x in r1 ==> x < |corpus|
    ensures forall x :: x in r2 ==> x < |corpus|
    ensures JobsAt(corpus, r1 + r2) == JobsAt(corpus, r1) + JobsAt(corpus, r2)
  {
    assert forall x :: x in r1 ==> x in r1 + r2;
    assert forall x :: x in r2 ==> x in r1 + r2;
  }

  /** Permuting the positions permutes the postings. */
  lemma {:induction false} JobsAtPermutation(corpus: seq<Job>, r1: seq<nat>, r2: seq<nat>)
    requires forall x :: x in r1 ==> x < |corpus|
    requires multiset(r1) == multiset(r2)
    ensures forall x :: x in r2 ==> x < |corpus|
    ensures multiset(JobsAt(corpus, r1)) == multiset(JobsAt(corpus, r2))
    decreases |r1|
  {
    forall y | y in r2 ensures y in r1 {
      assert y in multiset(r2);
    }
    if r1 != [] {
      var x := r1[0];
      assert x in multiset(r2);
      var m :| 0 <= m < |r2| && r2[m] == x;
      var front, back := r2[..m], r2[m + 1..];
      assert r2 == front + [x] + back;
      assert forall y :: y in front ==> y in r2;
      assert forall y :: y in back ==> y in r2;
      MultisetRemove(r1, front, x, back);
      assert forall y :: y in r1[1..] ==> y in r1;
      assert x in r1;
      JobsAtPermutation(corpus, r1[1..], front + back);
      JobsAtRemove(corpus, front, x, back);
      calc {
        multiset(JobsAt(corpus, r1));
        { JobsAtCons(corpus, r1); }
        multiset{corpus[x]} + multiset(JobsAt(corpus, r1[1..]));
        multiset{corpus[x]} + multiset(JobsAt(corpus, front + back));
        multiset(JobsAt(corpus, r2));
      }
    }
  }

  lemma JobsAtCons(corpus: seq<Job>, r: seq<nat>)
    requires r != [] && forall x :: x in r ==> x < |corpus|
    ensures r[0] < |corpus| && forall x :: x in r[1..] ==> x < |corpus|
    ensures JobsAt(corpus, r) == [corpus[r[0]]] + JobsAt(corpus, r[1..])
  {
    assert r[0] in r;
    assert forall x :: x in r[1..] ==> x in r;
  }

  lemma MultisetRemove(r: seq<nat>, front: seq<nat>, x: nat, back: seq<nat>)
    requires r != [] && r[0] == x && multiset(r) == multiset(front + [x] + back)
    ensures multiset(r[1..]) == multiset(front + back)
  {
    assert r == [x] + r[1..];
    assert multiset(r) == multiset([x]) + multiset(r[1..]);
    assert multiset(front + [x] + back) == multiset(front) + multiset([x]) + multiset(back);
    assert multiset(front + back) == multiset(front) + multiset(back);
    forall y ensures multiset(r[1..])[y] == multiset(front + back)[y] {
      assert multiset(r)[y] == multiset([x])[y] + multiset(r[1..])[y];
      assert multiset(r)[y] == multiset(front)[y] + multiset([x])[y] + multiset(back)[y];
    }
  }

  /** Taking one position out of a list takes its posting out of the postings. */
  lemma JobsAtRemove(corpus: seq<Job>, front: seq<nat>, x: nat, back: seq<nat>)
    requires forall y :: y in front ==> y < |corpus|
    requires forall y :: y in back ==> y < |corpus|
    requires x < |corpus|
    ensures forall y :: y in front + [x] + back ==> y < |corpus|
    ensures forall y :: y in front + back ==> y < |corpus|
    ensures multiset(JobsAt(corpus, front + [x] + back))
         == multiset{corpus[x]} + multiset(JobsAt(corpus, front + back))
  {
    JobsAtConcat(corpus, front + [x], back);
    JobsAtConcat(corpus, front, [x]);
    JobsAtConcat(corpus, front, back);
  }

  /** The result is a permutation of the qualifying postings taken in corpus order:
      every posting that reaches the threshold appears as often as it does in the
      corpus, and nothing else appears. */
  lemma SearchPermutation(corpus: seq<Job>, query: string, score: Scorer, t: real)
    ensures multiset(Search(corpus, query, score, t))
         == multiset(InCorpusOrder(corpus, query, score, t, |corpus|))
  {
    var s := Scores(corpus, query, score);
    var ranked := SearchIndices(s, t);
    var ordered := Filter(s, UpTo(|s|), t);
    RankRanked(s);
    FilterRanked(s, Rank(s), t);
    FilterElems(s, Rank(s), t);
    FilterElems(s, UpTo(|s|), t);
    forall x: nat ensures x in Rank(s) <==> x in UpTo(|s|) {
      assert x in Elems(Rank(s)) <==> x in Rank(s);
      if x < |s| { assert UpTo(|s|)[x] == x; }
    }
    assert Elems(ranked) == Elems(ordered);
    assert Distinct(ranked) by {
      forall k, l | 0 <= k < l < |ranked| ensures ranked[k] != ranked[l] {
        RankedDistinct(s, ranked, k, l);
      }
    }
    FilterDistinct(s, UpTo(|s|), t);
    DistinctMultiset(ranked);
    DistinctMultiset(ordered);
    InCorpusOrderByIndex(corpus, query, score, t, |corpus|);
    JobsAtPermutation(corpus, ranked, ordered);
  }

  // ---------------------------------------------------------------------------
  // The imperative `search_jobs`

  /** Slot `k` of `v` holds the score and the posting of corpus position `origin[k]`. */
  predicate Tracks(v: seq<(real, Job)>, s: seq<real>, corpus: seq<Job>, origin: seq<nat>) {
    |origin| == |v| &&
    forall k :: 0 <= k < |v| ==>
      origin[k] < |s| && origin[k] < |corpus| && v[k] == (s[origin[k]], corpus[origin[k]])
  }

  /** Swapping two neighbouring slots swaps the positions they track. */
  lemma TracksSwap(v: seq<(real, Job)>, s: seq<real>, corpus: seq<Job>, origin: seq<nat>, j: int)
    requires Tracks(v, s, corpus, origin) && 0 < j < |v|
    ensures Tracks(v[j - 1 := v[j]][j := v[j - 1]], s, corpus, origin[j - 1 := origin[j]][j := origin[j - 1]])
  {
  }

  lemma RankedSlice(s: seq<real>, r: seq<nat>, lo: int, hi: int)
    requires Ranked(s, r) && 0 <= lo <= hi <= |r|
    ensures Ranked(s, r[lo..hi])
  {
    forall k, l | 0 <= k < l < hi - lo ensures Ahead(s, r[lo..hi][k], r[lo..hi][l]) {
      assert r[lo..hi][k] == r[lo + k] && r[lo..hi][l] == r[lo + l];
    }
  }

  lemma RankedAppend(s: seq<real>, u: seq<nat>, w: seq<nat>)
    requires Ranked(s, u) && Ranked(s, w)
    requires forall x, y :: x in u && y in w ==> Ahead(s, x, y)
    ensures Ranked(s, u + w)
  {
    var uw := u + w;
    forall k, l | 0 <= k < l < |uw| ensures Ahead(s, uw[k], uw[l]) {
      if l < |u| {
        assert uw[k] == u[k] && uw[l] == u[l];
      } else if k >= |u| {
        assert uw[k] == w[k - |u|] && uw[l] == w[l - |u|];
      } else {
        assert uw[k] == u[k] && uw[l] == w[l - |u|];
        assert u[k] in u && w[l - |u|] in w;
      }
    }
  }

  /** Closing the inner loop: the new position sits behind the entries ahead of it and
      ahead of the entries it moved past. */
  lemma InsertedRanked(s: seq<real>, done: seq<nat>, j: int, i: nat)
    requires Ranked(s, done) && Elems(done) == Positions(i) && i < |s| && 0 <= j <= |done|
    requires forall k :: j <= k < |done| ==> Ahead(s, i, done[k])
    requires j > 0 ==> done[j - 1] < |s| && s[done[j - 1]] >= s[i]
    ensures Ranked(s, done[..j] + [i] + done[j..])
  {
    var u, w := done[..j], done[j..];
    RankedSlice(s, done, 0, j);
    RankedSlice(s, done, j, |done|);
    forall y | y in w ensures Ahead(s, i, y) {
      var l :| 0 <= l < |w| && w[l] == y;
      assert done[j + l] == y;
    }
    RankedCons(s, i, w);
    if j > 0 {
      assert done[j - 1] in Elems(done);
      assert Ahead(s, done[j - 1], i);
    }
    forall x, y | x in u && y in [i] + w ensures Ahead(s, x, y) {
      var k :| 0 <= k < j && u[k] == x;
      if y == i {
        if k < j - 1 {
          assert Ahead(s, done[k], done[j - 1]);
          AheadTransitive(s, done[k], done[j - 1], i);
        }
      } else {
        var l :| 0 <= l < |w| && w[l] == y;
        assert Ahead(s, done[k], done[j + l]);
      }
    }
    RankedAppend(s, u, [i] + w);
    assert u + ([i] + w) == done[..j] + [i] + done[j..];
  }

  lemma InsertedElems(done: seq<nat>, j: int, i: nat)
    requires Elems(done) == Positions(i) && 0 <= j <= |done|
    ensures Elems(done[..j] + [i] + done[j..]) == Positions(i + 1)
  {
    var r := done[..j] + [i] + done[j..];
    assert done == done[..j] + done[j..];
    assert forall x :: x in r <==> x in done || x == i;
    assert Elems(r) == Elems(done) + {i};
    assert Positions(i + 1) == Positions(i) + {i};
  }

  /** Where the positions sit while the entry from slot `i` travels left: it is at slot
      `p`, the entries it has passed are one slot right of where they were, and
      everything else is unmoved. */
  function Placed(before: seq<nat>, i: nat, p: nat): seq<nat>
    requires p <= i < |before|
  {
    before[..p] + [i] + before[p..i] + before[i + 1..]
  }

  lemma PlacedStart(before: seq<nat>, i: nat)
    requires i < |before| && before[i] == i
    ensures Placed(before, i, i) == before
  {
    assert before == before[..i] + [before[i]] + before[i + 1..];
  }

  /** One swap moves the travelling entry one slot further left. */
  lemma PlacedStep(before: seq<nat>, i: nat, p: nat)
    requires 0 < p <= i < |before|
    ensures var o := Placed(before, i, p);
      |o| == |before| && o[p] == i && o[p - 1] == before[p - 1] &&
      o[p - 1 := o[p]][p := o[p - 1]] == Placed(before, i, p - 1)
  {
    var o := Placed(before, i, p);
    var o' := Placed(before, i, p - 1);
    var swapped := o[p - 1 := o[p]][p := o[p - 1]];
    assert |o| == |before| == |o'|;
    forall k | 0 <= k < |before| ensures swapped[k] == o'[k] {
      if k < p - 1 {
        assert o[k] == before[k] == o'[k];
      } else if k > p && k <= i {
        assert o[k] == before[k - 1] == o'[k];
      } else if k > i {
        assert o[k] == before[k] == o'[k];
      }
    }
  }

  /** The swap loop of one insertion pass: the entry in slot `i` moves left past the
      entries with a strictly lower score and stops at slot `j`, behind the first one
      scoring at least as high. */
  method ShiftLeft(a: array<(real, Job)>, i: int, ghost s: seq<real>, ghost corpus: seq<Job>,
                   ghost before: seq<nat>)
    returns (ghost origin: seq<nat>, ghost j: int)
    requires 0 <= i < a.Length && Tracks(a[..], s, corpus, before) && before[i] == i
    modifies a
    ensures 0 <= j <= i && origin == Placed(before, i, j)
    ensures Tracks(a[..], s, corpus, origin)
    ensures forall k :: j <= k < i ==> before[k] < |s| && s[before[k]] < s[i]
    ensures j > 0 ==> before[j - 1] < |s| && s[before[j - 1]] >= s[i]
  {
    PlacedStart(before, i);
    origin := before;
    var p := i;
    while p > 0 && a[p - 1].0 < a[p].0
      invariant 0 <= p <= i && origin == Placed(before, i, p)
      invariant Tracks(a[..], s, corpus, origin)
      invariant forall k :: p <= k < i ==> before[k] < |s| && s[before[k]] < s[i]
    {
      PlacedStep(before, i, p);
      ghost var v := a[..];
      assert a[p - 1] == v[p - 1] && a[p] == v[p];
      assert v[p - 1].0 == s[before[p - 1]] && v[p].0 == s[i];
      TracksSwap(v, s, corpus, origin, p);
      a[p - 1], a[p] := a[p], a[p - 1];
      assert a[..] == v[p - 1 := v[p]][p := v[p - 1]];
      origin := origin[p - 1 := origin[p]][p := origin[p - 1]];
      p := p - 1;
    }
    j := p;
    if p > 0 {
      PlacedStep(before, i, p);
      assert a[p - 1] == a[..][p - 1] && a[p] == a[..][p];
      assert a[p - 1].0 == s[before[p - 1]] && a[p].0 == s[i];
    }
  }

  /** One pass of the insertion sort: afterwards one more slot is in ranking order. */
  method SiftLeft(a: array<(real, Job)>, i: int, ghost s: seq<real>, ghost corpus: seq<Job>,
                  ghost before: seq<nat>)
    returns (ghost origin: seq<nat>)
    requires 0 <= i < a.Length && Tracks(a[..], s, corpus, before) && SortedPrefix(s, before, i)
    modifies a
    ensures Tracks(a[..], s, corpus, origin) && SortedPrefix(s, origin, i + 1)
  {
    assert before[i] == i;
    ghost var j;
    origin, j := ShiftLeft(a, i, s, corpus, before);
    SiftStep(s, before, origin, i, j);
  }

  /** The first `i` slots are ranked and hold the positions below `i`; the slots from
      `i` on have not been touched yet. */
  predicate SortedPrefix(s: seq<real>, origin: seq<nat>, i: int) {
    0 <= i <= |origin| && Ranked(s, origin[..i]) && Elems(origin[..i]) == Positions(i) &&
    forall k :: i <= k < |origin| ==> origin[k] == k
  }

  /** After a pass the first `i + 1` slots are ranked and hold the positions up to `i`. */
  lemma SiftStep(s: seq<real>, before: seq<nat>, origin: seq<nat>, i: nat, j: int)
    requires 0 <= j <= i < |before| && i < |s| && |origin| == |before|
    requires SortedPrefix(s, before, i) && origin == Placed(before, i, j)
    requires forall k :: j <= k < i ==> before[k] < |s| && s[before[k]] < s[i]
    requires j > 0 ==> before[j - 1] < |s| && s[before[j - 1]] >= s[i]
    ensures SortedPrefix(s, origin, i + 1)
  {
    var done := before[..i];
    assert origin[..i + 1] == before[..j] + [i] + before[j..i];
    forall k | i + 1 <= k < |origin| ensures origin[k] == k {
      assert origin[k] == before[k];
    }
    assert done[..j] == before[..j] && done[j..] == before[j..i];
    forall k | j <= k < |done| ensures Ahead(s, i, done[k]) {
      assert done[k] == before[k];
    }
    if j > 0 { assert done[j - 1] == before[j - 1]; }
    InsertedRanked(s, done, j, i);
    InsertedElems(done, j, i);
  }

  /** `scored_jobs.sort(key=score, reverse=True)`. Python's sort is stable, also in
      reverse, so equal scores keep their corpus order. Insertion sort: each entry moves
      left past the entries with a strictly lower score. `origin` records which corpus
      position each slot ends up holding. */
  method SortByScore(a: array<(real, Job)>, ghost s: seq<real>, ghost corpus: seq<Job>)
    returns (ghost origin: seq<nat>)
    requires Tracks(a[..], s, corpus, seq(a.Length, i requires 0 <= i < a.Length => i))
    modifies a
    ensures Tracks(a[..], s, corpus, origin)
    ensures Ranked(s, origin) && Elems(origin) == Positions(a.Length)
  {
    var n := a.Length;
    origin := seq(n, i requires 0 <= i < n => i);
    var i := 0;
    assert origin[..0] == [];
    while i < n
      invariant 0 <= i <= n
      invariant Tracks(a[..], s, corpus, origin) && SortedPrefix(s, origin, i)
    {
      origin := SiftLeft(a, i, s, corpus, origin);
      i := i + 1;
    }
    assert origin[..n] == origin;
  }

  /** `[job for score, job in scored_jobs if score >= similarity_threshold]`. */
  method KeepAtLeast(scored: seq<(real, Job)>, ghost s: seq<real>, ghost corpus: seq<Job>,
                     ghost origin: seq<nat>, threshold: real)
    returns (matches: seq<Job>)
    requires Tracks(scored, s, corpus, origin) && |s| == |corpus|
    ensures forall x :: x in origin ==> x < |corpus|
    ensures matches == JobsAt(corpus, Filter(s, origin, threshold))
  {
    matches := [];
    for k := 0 to |scored|
      invariant matches == JobsAt(corpus, Filter(s, origin[..k], threshold))
    {
      var x := origin[k];
      assert origin[..k + 1] == origin[..k] + [x];
      FilterSnoc(s, origin[..k], x, threshold);
      var step: seq<nat> := if s[x] >= threshold then [x] else [];
      JobsAtConcat(corpus, Filter(s, origin[..k], threshold), step);
      assert scored[k] == (s[x], corpus[x]);
      if scored[k].0 >= threshold {
        matches := matches + [scored[k].1];
      }
    }
    assert origin[..|scored|] == origin;
  }

  /** `search_jobs(query, threshold)`: score every posting, sort by descending score
      (stable), keep those scoring at least the threshold. */
  method SearchJobs(corpus: seq<Job>, query: string, score: Scorer, threshold: real)
    returns (matches: seq<Job>)
    ensures matches == Search(corpus, query, score, threshold)
  {
    var n := |corpus|;
    ghost var s := Scores(corpus, query, score);
    var scored := new (real, Job)[n];
    for i := 0 to n
      invariant forall k :: 0 <= k < i ==> scored[k] == (s[k], corpus[k])
    {
      scored[i] := (score(query, corpus[i]), corpus[i]);
    }
    ghost var origin := SortByScore(scored, s, corpus);
    matches := KeepAtLeast(scored[..], s, corpus, origin, threshold);
    RankRanked(s);
    RankedUnique(s, origin, Rank(s));
  }
}
