/** The bounded arcade result list of the search endpoint (handlers/search/search.go). */
module ArcadeSearch {
  import opened Common

  /** A candidate after text matching: its rank if it matches, and its distance if it has a location. */
  datatype Candidate = Candidate(id: string, rank: Option<nat>, distance: Option<real>)

  datatype Result = Result(score: real, order: nat, id: string)

  predicate Before(left: Result, right: Result) {
    if left.score == right.score then left.order < right.order else left.score < right.score
  }

  // ---------------------------------------------------------------------------------------------
  // The list that is meant
  // ---------------------------------------------------------------------------------------------

  predicate Matches(c: Candidate, hasLocation: bool) {
    c.rank.Some? && (hasLocation ==> c.distance.Some?)
  }

  function Scored(c: Candidate, order: nat, hasLocation: bool): Result
    requires Matches(c, hasLocation)
  {
    Result(c.rank.value as real * 1_000_000_000.0 + (if hasLocation then c.distance.value else 0.0), order, c.id)
  }

  /** All matching candidates, scored, in their original order. */
  function Matching(candidates: seq<Candidate>, hasLocation: bool): (m: seq<Result>)
    ensures forall r <- m :: r.order < |candidates|
    ensures forall i, j :: 0 <= i < j < |m| ==> m[i].order < m[j].order
  {
    if candidates == [] then []
    else
      var n := |candidates| - 1;
      Matching(candidates[..n], hasLocation)
      + if Matches(candidates[n], hasLocation) then [Scored(candidates[n], n, hasLocation)] else []
  }

  ghost predicate Sorted(s: seq<Result>) {
    forall i, j :: 0 <= i < j < |s| ==> Before(s[i], s[j])
  }

  /** Where a new result belongs, looking from the end of the list. */
  function Position(x: Result, s: seq<Result>): (k: nat)
    ensures k <= |s|
    ensures forall i :: k <= i < |s| ==> Before(x, s[i])
    ensures k > 0 ==> !Before(x, s[k - 1])
  {
    if s == [] || !Before(x, s[|s| - 1]) then |s| else Position(x, s[..|s| - 1])
  }

  function Insert(x: Result, s: seq<Result>): seq<Result> {
    var k := Position(x, s);
    s[..k] + [x] + s[k..]
  }

  /** All results in order of score, then of original position. */
  function Ranked(m: seq<Result>): seq<Result> {
    if m == [] then [] else Insert(m[|m| - 1], Ranked(m[..|m| - 1]))
  }

  function Take(s: seq<Result>, limit: nat): seq<Result> {
    if |s| <= limit then s else s[..limit]
  }

  /** `Ranked` is the sorted arrangement of the matches. */
  lemma {:induction false} RankedIsSorted(m: seq<Result>)
    requires forall i, j :: 0 <= i < j < |m| ==> m[i].order < m[j].order
    ensures Sorted(Ranked(m)) && multiset(Ranked(m)) == multiset(m)
    ensures forall r <- Ranked(m) :: r in m
  {
    if m != [] {
      var rest, x := m[..|m| - 1], m[|m| - 1];
      assert m == rest + [x];
      RankedIsSorted(rest);
      InsertSorted(x, Ranked(rest));
    }
  }

  lemma InsertSorted(x: Result, s: seq<Result>)
    requires Sorted(s) && forall r <- s :: r.order != x.order
    ensures Sorted(Insert(x, s)) && multiset(Insert(x, s)) == multiset(s) + multiset{x}
    ensures forall r <- Insert(x, s) :: r == x || r in s
  {
    BeforePosition(x, s);
    hide Sorted, Before;
    SplicedSorted(x, s, Position(x, s));
    SplicedContents(x, s, Position(x, s));
  }

  lemma BeforePosition(x: Result, s: seq<Result>)
    requires Sorted(s) && forall r <- s :: r.order != x.order
    ensures forall i :: 0 <= i < Position(x, s) ==> Before(s[i], x)
  {
    var k := Position(x, s);
    hide Before;
    forall i | 0 <= i < k ensures Before(s[i], x) {
      assert s[k - 1] in s;
      Total(s[k - 1], x);
      if i < k - 1 {
        Transitive(s[i], s[k - 1], x);
      }
    }
  }

  lemma SplicedSorted(x: Result, s: seq<Result>, k: nat)
    requires Sorted(s) && k <= |s|
    requires forall i :: 0 <= i < k ==> Before(s[i], x)
    requires forall i :: k <= i < |s| ==> Before(x, s[i])
    ensures Sorted(s[..k] + [x] + s[k..])
  {
    hide Before;
    var r := s[..k] + [x] + s[k..];
    forall i, j | 0 <= i < j < |r| ensures Before(r[i], r[j]) {
      assert r[i] == if i < k then s[i] else if i == k then x else s[i - 1];
      assert r[j] == if j < k then s[j] else if j == k then x else s[j - 1];
    }
  }

  lemma SplicedContents(x: Result, s: seq<Result>, k: nat)
    requires k <= |s|
    ensures multiset(s[..k] + [x] + s[k..]) == multiset(s) + multiset{x}
    ensures forall r <- s[..k] + [x] + s[k..] :: r == x || r in s
  {
    assert s == s[..k] + s[k..];
  }

  lemma Total(a: Result, b: Result)
    requires a.order != b.order && !Before(b, a)
    ensures Before(a, b)
  {
  }

  lemma Transitive(a: Result, b: Result, c: Result)
    requires Before(a, b) && Before(b, c)
    ensures Before(a, c) && a != c
  {
  }

  /** There is only one such arrangement. */
  lemma {:induction false} SortedUnique(a: seq<Result>, b: seq<Result>)
    requires Sorted(a) && Sorted(b) && multiset(a) == multiset(b)
    ensures a == b
  {
    assert |a| == |multiset(a)| && |b| == |multiset(b)|;
    if a != [] {
      SameHead(a, b);
      SortedTail(a);
      SortedTail(b);
      hide Sorted;
      SameTail(a, b);
      SortedUnique(a[1..], b[1..]);
    }
  }

  lemma SortedTail(s: seq<Result>)
    requires Sorted(s) && s != []
    ensures Sorted(s[1..])
  {
  }

  lemma SameTail(a: seq<Result>, b: seq<Result>)
    requires a != [] && b != [] && a[0] == b[0] && multiset(a) == multiset(b)
    ensures multiset(a[1..]) == multiset(b[1..])
    ensures a == [a[0]] + a[1..] && b == [b[0]] + b[1..]
  {
    assert a == [a[0]] + a[1..] && b == [b[0]] + b[1..];
    assert multiset(a) == multiset([a[0]]) + multiset(a[1..]) && multiset(b) == multiset([b[0]]) + multiset(b[1..]);
    assert multiset(a[1..]) == multiset(a) - multiset([a[0]]);
    assert multiset(b[1..]) == multiset(b) - multiset([b[0]]);
  }

  lemma SameHead(a: seq<Result>, b: seq<Result>)
    requires a != [] && b != [] && Sorted(a) && Sorted(b) && multiset(a) == multiset(b)
    ensures a[0] == b[0]
  {
    assert a[0] in multiset(b) && b[0] in multiset(a);
    var i :| 0 <= i < |b| && b[i] == a[0];
    var j :| 0 <= j < |a| && a[j] == b[0];
    if i > 0 && j > 0 {
      Transitive(a[0], b[0], a[0]);
    }
  }

  // ---------------------------------------------------------------------------------------------
  // Keeping only the first `limit`
  // ---------------------------------------------------------------------------------------------

  /** Truncating after every insertion loses nothing that belongs to the answer. */
  lemma InsertThenTake(x: Result, s: seq<Result>, limit: nat)
    requires Sorted(s)
    ensures Take(Insert(x, s), limit) == Take(Insert(x, Take(s, limit)), limit)
  {
    if |s| > limit {
      PositionInPrefix(x, s, limit);
      hide Position, Sorted;
      TakeSplice(x, s, Position(x, s), Position(x, s[..limit]), limit);
    }
  }

  lemma PositionInPrefix(x: Result, s: seq<Result>, n: nat)
    requires Sorted(s) && n <= |s|
    ensures Position(x, s[..n]) == if Position(x, s) <= n then Position(x, s) else n
  {
    var k := Position(x, s);
    if k > n > 0 {
      NotEarlier(x, s[n - 1], s[k - 1]);
    }
    hide *;
    PositionUnique(x, s[..n], if k <= n then k else n);
  }

  lemma NotEarlier(x: Result, a: Result, b: Result)
    requires Before(a, b) && !Before(x, b)
    ensures !Before(x, a)
  {
  }

  lemma TakeSplice(x: Result, s: seq<Result>, k: nat, j: nat, limit: nat)
    requires j <= limit < |s| && k <= |s| && j == if k <= limit then k else limit
    ensures (s[..k] + [x] + s[k..])[..limit] == (s[..limit][..j] + [x] + s[..limit][j..])[..limit]
  {
    if k <= limit {
      assert s[..k] == s[..limit][..k];
    }
  }

  lemma {:induction false} PositionUnique(x: Result, s: seq<Result>, k: nat)
    requires k <= |s| && (forall i :: k <= i < |s| ==> Before(x, s[i])) && (k > 0 ==> !Before(x, s[k - 1]))
    ensures Position(x, s) == k
  {
    if k < |s| {
      PositionUnique(x, s[..|s| - 1], k);
    }
  }

  /** A result that comes after a full list is not among the first `limit`. */
  lemma SkippedIsLate(x: Result, s: seq<Result>, limit: nat)
    requires |s| == limit && limit > 0 && !Before(x, s[limit - 1])
    ensures Take(Insert(x, s), limit) == s
  {
    assert Position(x, s) == limit;
  }

  // ---------------------------------------------------------------------------------------------
  // The loop
  // ---------------------------------------------------------------------------------------------

  /** The single pass with its list of at most `limit` results, shifted and truncated in place. */
  method BuildArcadeResults(candidates: seq<Candidate>, limit: nat, hasLocation: bool) returns (out: seq<Result>)
    requires limit >= 1
    ensures out == Take(Ranked(Matching(candidates, hasLocation)), limit)
  {
    hide Before, Ranked, Insert, Take;
    var results := new Result[limit + 1](_ => Result(0.0, 0, ""));
    var size: nat := 0;
    assert results[..0] == Take(Ranked([]), limit) by { EmptyList(limit); }
    for n := 0 to |candidates|
      invariant size <= limit && results.Length == limit + 1
      invariant results[..size] == Take(Ranked(Matching(candidates[..n], hasLocation)), limit)
    {
      var c := candidates[n];
      ghost var before := Matching(candidates[..n], hasLocation);
      assert candidates[..n + 1][..n] == candidates[..n];
      if c.rank.None? || (hasLocation && c.distance.None?) {
        assert Matching(candidates[..n + 1], hasLocation) == before;
        continue;
      }
      var score := c.rank.value as real * 1_000_000_000.0;
      if hasLocation {
        score := score + c.distance.value;
      }
      var result := Result(score, n, c.id);
      NextMatch(before, result, limit);
      assert result == Scored(c, n, hasLocation);
      assert Matching(candidates[..n + 1], hasLocation) == before + [result];
      if size == limit && !Before(result, results[size - 1]) {
        SkippedIsLate(result, results[..size], limit);
        assert results[..size] == Take(Ranked(before + [result]), limit);
        continue;
      }
      size := InsertInPlace(results, size, limit, result);
      assert results[..size] == Take(Ranked(before + [result]), limit);
    }
    assert candidates[..|candidates|] == candidates;
    return results[..size];
  }

  lemma EmptyList(limit: nat)
    ensures Take(Ranked([]), limit) == []
  {
  }

  lemma NextMatch(m: seq<Result>, x: Result, limit: nat)
    requires forall i, j :: 0 <= i < j < |m| ==> m[i].order < m[j].order
    ensures Take(Ranked(m + [x]), limit) == Take(Insert(x, Take(Ranked(m), limit)), limit)
  {
    assert (m + [x])[..|m|] == m;
    RankedIsSorted(m);
    InsertThenTake(x, Ranked(m), limit);
  }

  method InsertInPlace(results: array<Result>, size: nat, limit: nat, result: Result) returns (newSize: nat)
    requires size <= limit && results.Length == limit + 1
    modifies results
    ensures newSize <= limit
    ensures results[..newSize] == Take(Insert(result, old(results[..size])), limit)
  {
    hide Before, Position, Sorted;
    ghost var s := results[..size];
    var insertAt := size;
    while insertAt > 0 && Before(result, results[insertAt - 1])
      invariant insertAt <= size
      invariant forall i :: insertAt <= i < size ==> Before(result, s[i])
    {
      insertAt := insertAt - 1;
    }
    assert Position(result, s) == insertAt by { PositionUnique(result, s, insertAt); }
    ghost var later := results[insertAt..size];
    assert s[insertAt..] == later && s[..insertAt] == results[..insertAt];
    Shift(results, size, insertAt);
    results[insertAt] := result;
    assert results[..size + 1][..insertAt] == results[..insertAt] == s[..insertAt];
    assert results[..size + 1][insertAt + 1..] == results[insertAt + 1..size + 1] == later;
    Assembled(results[..size + 1], s, insertAt, result);
    newSize := if size + 1 > limit then limit else size + 1;
  }

  lemma Assembled(t: seq<Result>, s: seq<Result>, k: nat, x: Result)
    requires k <= |s| && |t| == |s| + 1 && t[..k] == s[..k] && t[k] == x && t[k + 1..] == s[k..]
    ensures t == s[..k] + [x] + s[k..]
  {
    assert t == t[..k] + [t[k]] + t[k + 1..];
  }

  /** `copy(results[insertAt+1:], results[insertAt:])`. */
  method Shift(results: array<Result>, size: nat, insertAt: nat)
    requires insertAt <= size < results.Length
    modifies results
    ensures results[..insertAt] == old(results[..insertAt])
    ensures results[insertAt + 1..size + 1] == old(results[insertAt..size])
  {
    var i := size;
    while i > insertAt
      invariant insertAt <= i <= size
      invariant forall k :: 0 <= k < i ==> results[k] == old(results[k])
      invariant forall k :: i < k <= size ==> results[k] == old(results[k - 1])
    {
      results[i] := results[i - 1];
      i := i - 1;
    }
  }

  // ---------------------------------------------------------------------------------------------
  // What the score order means
  // ---------------------------------------------------------------------------------------------

  predicate Closer(a: Candidate, i: nat, b: Candidate, j: nat, hasLocation: bool)
    requires Matches(a, hasLocation) && Matches(b, hasLocation)
  {
    var da, db := if hasLocation then a.distance.value else 0.0, if hasLocation then b.distance.value else 0.0;
    || a.rank.value < b.rank.value
    || (a.rank.value == b.rank.value && da < db)
    || (a.rank.value == b.rank.value && da == db && i < j)
  }

  /** Distances stay below the factor between two ranks, so the order is lexicographic in rank, distance and
      original position. */
  lemma ScoreIsLexicographic(a: Candidate, i: nat, b: Candidate, j: nat, hasLocation: bool)
    requires Matches(a, hasLocation) && Matches(b, hasLocation)
    requires hasLocation ==> 0.0 <= a.distance.value < 1_000_000_000.0 && 0.0 <= b.distance.value < 1_000_000_000.0
    ensures Before(Scored(a, i, hasLocation), Scored(b, j, hasLocation)) <==> Closer(a, i, b, j, hasLocation)
  {
    RankGap(a.rank.value, b.rank.value);
    RankGap(b.rank.value, a.rank.value);
  }

  lemma RankGap(r: nat, s: nat)
    ensures r < s ==> s as real * 1_000_000_000.0 >= r as real * 1_000_000_000.0 + 1_000_000_000.0
  {
    if r < s {
      assert s as real >= r as real + 1.0;
    }
  }

  // ---------------------------------------------------------------------------------------------
  // What a user gets
  // ---------------------------------------------------------------------------------------------

  /** The result of candidate `r.order`: it matches the text, has a location if one is asked for, and scores by rank
      and then by distance. */
  ghost predicate ResultOf(candidates: seq<Candidate>, r: Result, hasLocation: bool) {
    && r.order < |candidates|
    && var c := candidates[r.order];
       && c.rank.Some? && (hasLocation ==> c.distance.Some?) && r.id == c.id
       && r.score == c.rank.value as real * 1_000_000_000.0 + if hasLocation then c.distance.value else 0.0
  }

  ghost predicate Earlier(a: Result, b: Result) {
    a.score < b.score || (a.score == b.score && a.order < b.order)
  }

  lemma {:induction false} MatchingIs(candidates: seq<Candidate>, hasLocation: bool, r: Result)
    ensures r in Matching(candidates, hasLocation) <==> ResultOf(candidates, r, hasLocation)
  {
    if candidates != [] {
      var rest, last := candidates[..|candidates| - 1], candidates[|candidates| - 1];
      MatchingIs(rest, hasLocation, r);
      hide *;
      MatchingLast(candidates, hasLocation, r);
      ResultLast(candidates, hasLocation, r);
    } else {
      NoResult(hasLocation, r);
    }
  }

  lemma NoResult(hasLocation: bool, r: Result)
    ensures r !in Matching([], hasLocation) && !ResultOf([], r, hasLocation)
  {
  }

  lemma MatchingLast(candidates: seq<Candidate>, hasLocation: bool, r: Result)
    requires candidates != []
    ensures var n := |candidates| - 1;
            r in Matching(candidates, hasLocation) <==>
            || r in Matching(candidates[..n], hasLocation)
            || (Matches(candidates[n], hasLocation) && r == Scored(candidates[n], n, hasLocation))
  {
    hide Matches, Scored;
  }

  lemma ResultLast(candidates: seq<Candidate>, hasLocation: bool, r: Result)
    requires candidates != []
    ensures var n := |candidates| - 1;
            ResultOf(candidates, r, hasLocation) <==>
            || ResultOf(candidates[..n], r, hasLocation)
            || (Matches(candidates[n], hasLocation) && r == Scored(candidates[n], n, hasLocation))
  {
  }

  lemma SortedEarlier(s: seq<Result>)
    requires Sorted(s)
    ensures forall i, j :: 0 <= i < j < |s| ==> Earlier(s[i], s[j])
  {
  }

  /** The results are those of matching candidates, from the best on, and no other match is left out unless the list is
      full and everything in it is better. */
  lemma TopResults(candidates: seq<Candidate>, limit: nat, hasLocation: bool)
    ensures var out := Take(Ranked(Matching(candidates, hasLocation)), limit);
            && |out| <= limit
            && (forall r <- out :: ResultOf(candidates, r, hasLocation))
            && (forall i, j :: 0 <= i < j < |out| ==> Earlier(out[i], out[j]))
            && forall r :: ResultOf(candidates, r, hasLocation) && r !in out ==>
                 |out| == limit && forall q <- out :: Earlier(q, r)
  {
    var m := Matching(candidates, hasLocation);
    var all := Ranked(m);
    RankedIsSorted(m);
    SortedEarlier(all);
    assert forall r :: r in all <==> r in multiset(all);
    forall r ensures r in all <==> ResultOf(candidates, r, hasLocation) {
      MatchingIs(candidates, hasLocation, r);
      assert r in m <==> r in multiset(m);
    }
    hide Ranked, Matching, ResultOf, Earlier, Sorted;
    TakeFirst(all, limit);
  }

  lemma TakeFirst(all: seq<Result>, limit: nat)
    requires forall i, j :: 0 <= i < j < |all| ==> Earlier(all[i], all[j])
    ensures var out := Take(all, limit);
            && |out| <= limit && (forall r <- out :: r in all)
            && (forall i, j :: 0 <= i < j < |out| ==> Earlier(out[i], out[j]))
            && forall r <- all :: r !in out ==> |out| == limit && forall q <- out :: Earlier(q, r)
  {
    hide Earlier;
    var out := Take(all, limit);
    forall r <- all, q <- out ensures r !in out ==> Earlier(q, r) {
      var j :| 0 <= j < |all| && all[j] == r;
      var i :| 0 <= i < |out| && out[i] == q;
      assert j < |out| ==> out[j] == r;
      assert all[i] == q;
    }
    forall r <- all ensures r !in out ==> |out| == limit {
      if |all| <= limit {
        assert out == all;
      }
    }
  }
}
