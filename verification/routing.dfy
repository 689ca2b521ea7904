/** What the router computes, stated without the walk's cut-off: a route is the least number of
    steps, in the first direction (forward before backward) whose links reach the target. The
    walk is cut off after as many items as there are models; the lemmas here show that the
    cut-off never hides a position the unbounded `MigrationIter` would have found. */
module Routing {
  import opened Wrappers
  import opened Extension

  /** One step of the walk: a registered key followed by the walk from its neighbour. */
  lemma WalkUnfold(models: Registry, key: string, d: Direction, fuel: nat, n: string)
    requires key in models && fuel > 0 && Next(models, key, d) == Some(n)
    ensures Walk(models, key, d, fuel) == [key] + Walk(models, n, d, fuel - 1)
  {
  }

  /** The walk lists exactly the keys reachable in 0, 1, 2, ... steps, up to its cut-off. */
  lemma {:induction false} WalkIsSteps(models: Registry, key: string, d: Direction, fuel: nat, i: nat)
    ensures i < |Walk(models, key, d, fuel)| ==> Steps(models, key, d, i) == Some(Walk(models, key, d, fuel)[i])
    ensures i < fuel && Steps(models, key, d, i).Some? ==> i < |Walk(models, key, d, fuel)|
    decreases i
  {
    if key in models && fuel > 0 && i > 0 {
      match Next(models, key, d)
      case None =>
        assert Steps(models, key, d, i) == None;
      case Some(n) =>
        WalkUnfold(models, key, d, fuel, n);
        var w, rest := Walk(models, key, d, fuel), Walk(models, n, d, fuel - 1);
        assert |w| == 1 + |rest|;
        assert i < |w| ==> w[i] == rest[i - 1];
        assert Steps(models, key, d, i) == Steps(models, n, d, i - 1);
        WalkIsSteps(models, n, d, fuel - 1, i - 1);
    }
  }

  /** Taking `m + j` steps is taking `m` steps and then `j` more. */
  lemma {:induction false} StepsCompose(models: Registry, key: string, d: Direction, m: nat, j: nat)
    ensures Steps(models, key, d, m + j) ==
      match Steps(models, key, d, m)
      case None => None
      case Some(k) => Steps(models, k, d, j)
    decreases m
  {
    if key in models && m > 0 {
      match Next(models, key, d)
      case None =>
      case Some(n) =>
        StepsCompose(models, n, d, m - 1, j);
    }
  }

  /** A sequence of distinct elements of `s` is no longer than `s` is large. */
  lemma {:induction false} DistinctBound(xs: seq<string>, s: set<string>)
    requires forall i, j :: 0 <= i < j < |xs| ==> xs[i] != xs[j]
    requires forall i :: 0 <= i < |xs| ==> xs[i] in s
    ensures |xs| <= |s|
    decreases |xs|
  {
    if |xs| > 0 {
      var rest := s - {xs[0]};
      forall i | 0 <= i < |xs[1..]| ensures xs[1..][i] in rest {
        assert xs[1..][i] == xs[i + 1];
      }
      DistinctBound(xs[1..], rest);
    }
  }

  /** Pigeonhole: the least number of steps that reaches the target is below the number of
      models, because a longer walk revisits a key and would have reached the target sooner. */
  lemma FirstHitBelowSize(models: Registry, start: string, d: Direction, target: string, n: nat)
    requires FirstHit(models, start, d, target, n)
    ensures n < |models|
  {
    if n >= |models| {
      var w := Walk(models, start, d, n + 1);
      WalkIsSteps(models, start, d, n + 1, n);
      assert |w| == n + 1;
      if forall a, b :: 0 <= a < b < |w| ==> w[a] != w[b] {
        DistinctBound(w, models.Keys);
        assert false;
      }
      var a, b :| 0 <= a < b < |w| && w[a] == w[b];
      WalkIsSteps(models, start, d, n + 1, a);
      WalkIsSteps(models, start, d, n + 1, b);
      StepsCompose(models, start, d, a, n - b);
      StepsCompose(models, start, d, b, n - b);
      assert Steps(models, start, d, a + (n - b)) == Steps(models, start, d, n);
      assert HitsAt(models, start, d, target, a + (n - b));
      assert false;
    }
  }

  /** A position the cut-off search finds is the least number of steps that reaches the target. */
  lemma SearchFindsFirstHit(models: Registry, start: string, target: string, d: Direction, n: nat)
    requires Search(models, start, target, d) == Some(n)
    ensures FirstHit(models, start, d, target, n)
  {
    WalkIsSteps(models, start, d, |models|, n);
    forall m: nat | m < n ensures !HitsAt(models, start, d, target, m) {
      WalkIsSteps(models, start, d, |models|, m);
    }
  }

  /** The least number of steps that reaches the target is the position the cut-off search finds. */
  lemma FirstHitIsFound(models: Registry, start: string, target: string, d: Direction, n: nat)
    requires FirstHit(models, start, d, target, n)
    ensures Search(models, start, target, d) == Some(n)
  {
    var w := Walk(models, start, d, |models|);
    FirstHitBelowSize(models, start, d, target, n);
    WalkIsSteps(models, start, d, |models|, n);
    assert Hit(models, w[n], target);
    forall j | 0 <= j < n ensures !Hit(models, w[j], target) {
      WalkIsSteps(models, start, d, |models|, j);
      assert !HitsAt(models, start, d, target, j);
    }
    var r := FirstIndexOf(models, w, target);
    assert r.Some?;
    assert !(r.value < n);
    assert !(r.value > n);
  }

  /** The cut-off search finds position `n` exactly when `n` is the least number of steps that
      reaches the target. */
  lemma SearchIsFirstHit(models: Registry, start: string, target: string, d: Direction, n: nat)
    ensures Search(models, start, target, d) == Some(n) <==> FirstHit(models, start, d, target, n)
  {
    if Search(models, start, target, d) == Some(n) {
      SearchFindsFirstHit(models, start, target, d, n);
    }
    if FirstHit(models, start, d, target, n) {
      FirstHitIsFound(models, start, target, d, n);
    }
  }

  /** Any number of steps that reaches the target is at least the least one. */
  lemma {:induction false} LeastHit(models: Registry, start: string, d: Direction, target: string, m: nat)
    returns (n: nat)
    requires HitsAt(models, start, d, target, m)
    ensures n <= m && FirstHit(models, start, d, target, n)
    decreases m
  {
    if forall k: nat :: k < m ==> !HitsAt(models, start, d, target, k) {
      n := m;
    } else {
      var k: nat :| k < m && HitsAt(models, start, d, target, k);
      n := LeastHit(models, start, d, target, k);
    }
  }

  /** The cut-off search finds nothing exactly when no number of steps reaches the target, which
      is when the source's unbounded search finds nothing or never returns. */
  lemma SearchMissesIffNoHit(models: Registry, start: string, target: string, d: Direction)
    ensures Search(models, start, target, d).None? <==> forall m: nat :: !HitsAt(models, start, d, target, m)
  {
    match Search(models, start, target, d)
    case Some(n) =>
      SearchIsFirstHit(models, start, target, d, n);
    case None =>
      forall m: nat ensures !HitsAt(models, start, d, target, m) {
        if HitsAt(models, start, d, target, m) {
          var n := LeastHit(models, start, d, target, m);
          SearchIsFirstHit(models, start, target, d, n);
          assert false;
        }
      }
  }

  /** When the forward links reach the target, the route is that many forward steps. */
  lemma ForwardRoute(models: Registry, start: string, target: string, n: nat)
    requires FirstHit(models, start, Forward, target, n)
    ensures FindRoute(models, start, target) == Some(Repeat(Forward, n))
  {
    SearchIsFirstHit(models, start, target, Forward, n);
  }

  /** Only when the forward links never reach the target is the route backward. */
  lemma BackwardRoute(models: Registry, start: string, target: string, n: nat)
    requires forall m: nat :: !HitsAt(models, start, Forward, target, m)
    requires FirstHit(models, start, Backward, target, n)
    ensures FindRoute(models, start, target) == Some(Repeat(Backward, n))
  {
    SearchMissesIffNoHit(models, start, target, Forward);
    SearchIsFirstHit(models, start, target, Backward, n);
  }

  /** There is no route exactly when neither direction's links ever reach the target. */
  lemma NoRouteIffUnreachable(models: Registry, start: string, target: string)
    ensures FindRoute(models, start, target).None? <==>
      forall m: nat :: !HitsAt(models, start, Forward, target, m) && !HitsAt(models, start, Backward, target, m)
  {
    SearchMissesIffNoHit(models, start, target, Forward);
    SearchMissesIffNoHit(models, start, target, Backward);
  }

  /** Following `n` steps of one direction is taking `n` steps along its links. */
  lemma {:induction false} FollowRepeat(models: Registry, key: string, d: Direction, n: nat)
    ensures Follow(models, key, Repeat(d, n)) == Steps(models, key, d, n)
    decreases n
  {
    if key in models && n > 0 {
      assert Repeat(d, n)[0] == d;
      assert Repeat(d, n)[1..] == Repeat(d, n - 1);
      match Next(models, key, d)
      case None =>
      case Some(k) =>
        FollowRepeat(models, k, d, n - 1);
    }
  }

  /** The direction of a returned route: forward when the route is empty. */
  function RouteDirection(r: seq<Direction>): Direction {
    if r == [] then Forward else r[0]
  }

  /** A returned route is `|r|` copies of one direction, `|r|` is the least number of steps in
      that direction that reaches the target, and the direction is backward only if the forward
      links never reach the target. */
  lemma RouteIsFirstHit(models: Registry, start: string, target: string, r: seq<Direction>)
    requires FindRoute(models, start, target) == Some(r)
    ensures r == Repeat(RouteDirection(r), |r|)
    ensures FirstHit(models, start, RouteDirection(r), target, |r|)
    ensures RouteDirection(r) == Backward ==> forall m: nat :: !HitsAt(models, start, Forward, target, m)
  {
    match Search(models, start, target, Forward)
    case Some(n) =>
      assert r == Repeat(Forward, n);
      SearchFindsFirstHit(models, start, target, Forward, n);
    case None =>
      var n := Search(models, start, target, Backward).value;
      assert r == Repeat(Backward, n);
      SearchMissesIffNoHit(models, start, target, Forward);
      SearchFindsFirstHit(models, start, target, Backward, n);
      if n == 0 {
        assert HitsAt(models, start, Forward, target, 0);
        assert false;
      }
  }

  /** Following a returned route step by step ends at a model of the target version. */
  lemma RouteReachesTarget(models: Registry, start: string, target: string, r: seq<Direction>)
    requires FindRoute(models, start, target) == Some(r)
    ensures Follow(models, start, r).Some? && Hit(models, Follow(models, start, r).value, target)
  {
    RouteIsFirstHit(models, start, target, r);
    FollowRepeat(models, start, RouteDirection(r), |r|);
  }

  /** With every key naming its own version, the route from a registered version to itself is
      empty: the target is the first item of the forward walk. */
  lemma RouteToSelf(models: Registry, v: string)
    requires WellKeyed(models) && v in models
    ensures FindRoute(models, v, v) == Some([])
  {
    assert HitsAt(models, v, Forward, v, 0);
    ForwardRoute(models, v, v, 0);
  }

  /** There is no route from an unregistered version: both walks are empty. */
  lemma RouteFromUnregistered(models: Registry, start: string, target: string)
    requires start !in models
    ensures FindRoute(models, start, target).None?
  {
  }
}
