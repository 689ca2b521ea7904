/** The settings extension: the registry of type-erased models keyed by version, the walk along
    migration links (`MigrationIter`), the router (`find_migration_route`) and the executor
    (`perform_migration`). */
module Extension {
  import opened Wrappers
  import opened JsonValue
  import opened Models

  datatype Direction = Forward | Backward

  /** The `models` map of a `SettingsExtension`. */
  type Registry = map<string, Model>

  /** Every key names a model of that version. */
  ghost predicate WellKeyed(models: Registry) {
    forall k :: k in models ==> models[k].version == k
  }

  /** No entry after position `i` has the same version as the entry at `i`. */
  ghost predicate LastOfVersion(ms: seq<Model>, i: int)
    requires 0 <= i < |ms|
  {
    forall j :: i < j < |ms| ==> ms[j].version != ms[i].version
  }

  /** `SettingsExtension::with_models`: keys the models by their versions, inserting them in
      list order (see `WithModelsLastWins` for which entry a repeated version keeps). */
  function WithModels(ms: seq<Model>): (r: Registry)
    ensures r.Keys == set i | 0 <= i < |ms| :: ms[i].version
    ensures WellKeyed(r)
    decreases |ms|
  {
    if |ms| == 0 then map[]
    else
      var init := ms[..|ms| - 1];
      var last := ms[|ms| - 1];
      var r := WithModels(init)[last.version := last];
      assert r.Keys == set i | 0 <= i < |ms| :: ms[i].version by {
        forall k | k in r.Keys ensures exists i :: 0 <= i < |ms| && ms[i].version == k {
          if k != last.version {
            var i :| 0 <= i < |init| && init[i].version == k;
            assert ms[i] == init[i];
          } else {
            assert ms[|ms| - 1].version == k;
          }
        }
      }
      r
  }

  /** Collecting into the map lets a later entry replace an earlier one with the same version:
      the registry keeps, for each version, the last model of the list with that version. */
  lemma {:induction false} WithModelsLastWins(ms: seq<Model>, i: nat)
    requires i < |ms| && LastOfVersion(ms, i)
    ensures WithModels(ms)[ms[i].version] == ms[i]
    decreases |ms|
  {
    if i < |ms| - 1 {
      var init := ms[..|ms| - 1];
      assert ms[i] == init[i];
      assert ms[i].version != ms[|ms| - 1].version;
      forall j | i < j < |init| ensures init[j].version != init[i].version {
        assert init[j] == ms[j];
      }
      WithModelsLastWins(init, i);
    }
  }

  /** `SettingsExtension::model`: the model registered for `version`, if any. */
  function Lookup(models: Registry, version: string): (r: Option<Model>)
    ensures r.Some? <==> version in models
    ensures r.Some? ==> r.value == models[version]
    ensures WellKeyed(models) && r.Some? ==> r.value.version == version
  {
    if version in models then Some(models[version]) else None
  }

  /** The link a model declares in direction `d`. */
  function Link(m: Model, d: Direction): Option<string> {
    match d
    case Forward => m.forwardTo
    case Backward => m.backwardTo
  }

  /** The registered neighbour of `key` in direction `d`: the declared link, when that names a
      registered version (the update `MigrationIter::next` makes to its cursor). */
  function Next(models: Registry, key: string, d: Direction): (r: Option<string>)
    requires key in models
    ensures r.Some? <==> Link(models[key], d).Some? && Link(models[key], d).value in models
    ensures r.Some? ==> r == Link(models[key], d) && r.value in models
  {
    match Link(models[key], d)
    case Some(n) => if n in models then Some(n) else None
    case None => None
  }

  /** The keys of the models `MigrationIter` yields from `key` in direction `d`, cut off after
      `fuel` items. */
  function Walk(models: Registry, key: string, d: Direction, fuel: nat): (w: seq<string>)
    ensures |w| <= fuel
    ensures w == [] <==> key !in models || fuel == 0
    ensures |w| > 0 ==> w[0] == key
    ensures forall i :: 0 <= i < |w| ==> w[i] in models
    ensures forall i :: 0 <= i < |w| - 1 ==> Next(models, w[i], d) == Some(w[i + 1])
    ensures 0 < |w| < fuel ==> Next(models, w[|w| - 1], d) == None
    decreases fuel
  {
    if fuel == 0 || key !in models then []
    else
      match Next(models, key, d)
      case None => [key]
      case Some(n) => [key] + Walk(models, n, d, fuel - 1)
  }

  /** The key `n` registered steps from `key` in direction `d`, if every step exists. */
  function Steps(models: Registry, key: string, d: Direction, n: nat): (r: Option<string>)
    ensures r.Some? ==> r.value in models
    ensures key !in models ==> r.None?
    decreases n
  {
    if key !in models then None
    else if n == 0 then Some(key)
    else
      match Next(models, key, d)
      case None => None
      case Some(k) => Steps(models, k, d, n - 1)
  }

  /** The model at key `k` has version `target`. */
  ghost predicate Hit(models: Registry, k: string, target: string) {
    k in models && models[k].version == target
  }

  /** Walking `n` steps from `start` in direction `d` reaches a model of version `target`. */
  ghost predicate HitsAt(models: Registry, start: string, d: Direction, target: string, n: nat) {
    var k := Steps(models, start, d, n);
    k.Some? && Hit(models, k.value, target)
  }

  /** `n` is the least number of steps that reaches `target`. */
  ghost predicate FirstHit(models: Registry, start: string, d: Direction, target: string, n: nat) {
    HitsAt(models, start, d, target, n) && forall m: nat :: m < n ==> !HitsAt(models, start, d, target, m)
  }

  /** `enumerate().find(..)`: the position of the first key whose model has version `target`. */
  function FirstIndexOf(models: Registry, ks: seq<string>, target: string): (r: Option<nat>)
    ensures r.Some? ==> r.value < |ks| && Hit(models, ks[r.value], target)
    ensures r.Some? ==> forall j :: 0 <= j < r.value ==> !Hit(models, ks[j], target)
    ensures r.None? ==> forall j :: 0 <= j < |ks| ==> !Hit(models, ks[j], target)
  {
    if ks == [] then None
    else if ks[0] in models && models[ks[0]].version == target then Some(0)
    else
      match FirstIndexOf(models, ks[1..], target)
      case None => None
      case Some(i) => Some(i + 1)
  }

  /** `search_in_direction`: where `target` first appears on the walk from `start`. The walk is
      cut off after as many items as there are models. */
  function Search(models: Registry, start: string, target: string, d: Direction): (r: Option<nat>)
    ensures r.Some? ==> r.value < |Walk(models, start, d, |models|)| <= |models| && start in models
    ensures r.Some? ==> Hit(models, Walk(models, start, d, |models|)[r.value], target)
    ensures r.Some? ==> forall j :: 0 <= j < r.value ==> !Hit(models, Walk(models, start, d, |models|)[j], target)
    ensures r.None? ==> forall j :: 0 <= j < |Walk(models, start, d, |models|)| ==>
      !Hit(models, Walk(models, start, d, |models|)[j], target)
  {
    FirstIndexOf(models, Walk(models, start, d, |models|), target)
  }

  /** `std::iter::repeat(d).take(n)`. */
  function Repeat(d: Direction, n: nat): (r: seq<Direction>)
    ensures |r| == n && forall i :: 0 <= i < n ==> r[i] == d
  {
    seq(n, _ => d)
  }

  /** `find_migration_route`: `n` steps in the first direction whose walk reaches `target` after
      `n` steps, trying forward before backward. */
  function FindRoute(models: Registry, start: string, target: string): (r: Option<seq<Direction>>)
    ensures r.None? <==> Search(models, start, target, Forward).None? && Search(models, start, target, Backward).None?
    ensures r.Some? ==> forall i :: 0 <= i < |r.value| ==> r.value[i] == r.value[0]
    ensures r.Some? && |r.value| > 0 && r.value[0] == Backward ==> Search(models, start, target, Forward).None?
  {
    match Search(models, start, target, Forward)
    case Some(n) => Some(Repeat(Forward, n))
    case None =>
      match Search(models, start, target, Backward)
      case Some(n) => Some(Repeat(Backward, n))
      case None => None
  }

  /** The key reached by taking the steps of `route` from `key`, if each step exists. */
  function Follow(models: Registry, key: string, route: seq<Direction>): (r: Option<string>)
    ensures r.Some? ==> r.value in models
    decreases |route|
  {
    if key !in models then None
    else if route == [] then Some(key)
    else
      match Next(models, key, route[0])
      case None => None
      case Some(k) => Follow(models, k, route[1..])
  }

  /** The `try_fold` of `perform_migration`: for each step, look up the current model's neighbour,
      migrate the value with the current model and move on to the neighbour. */
  function Fold(models: Registry, route: seq<Direction>, value: Json, cur: Model,
                start: string, target: string): (r: Result<(Json, Model)>)
    ensures route == [] ==> r == Success((value, cur))
    ensures r.Failure? ==> r.error.MissingForward? || r.error.MissingBackward? || r.error.StepFail?
    decreases |route|
  {
    if route == [] then Success((value, cur))
    else
      var step := route[0];
      var link := Link(cur, step);
      if link.None? || link.value !in models then
        Failure(if step == Forward then MissingForward else MissingBackward)
      else
        var next := models[link.value];
        var migrated := if step == Forward then cur.migrateForward(value) else cur.migrateBackward(value);
        match migrated
        case Failure(e) => Failure(StepFail(cur.version, next.version, start, target, e))
        case Success(v) => Fold(models, route[1..], v, next, start, target)
  }

  /** `perform_migration`: resolves the start model, routes, then folds the value along the route. */
  function PerformMigration(models: Registry, value: Json, start: string, target: string): (r: Result<Json>)
    ensures start !in models ==> r == Failure(UnknownStart(start))
    ensures start in models && FindRoute(models, start, target).None? ==> r == Failure(NoRoute(start, target))
    ensures start in models && FindRoute(models, start, target) == Some([]) ==> r == Success(value)
  {
    if start !in models then Failure(UnknownStart(start))
    else
      match FindRoute(models, start, target)
      case None => Failure(NoRoute(start, target))
      case Some(route) =>
        match Fold(models, route, value, models[start], start, target)
        case Failure(e) => Failure(e)
        case Success(final) => Success(final.0)
  }
}
