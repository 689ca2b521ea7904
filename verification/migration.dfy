/** What the executor guarantees on the routes the router returns: every neighbour lookup of the
    fold succeeds, so a migration fails only for an unknown start, a missing route or a failed
    hop, and a successful fold ends at the model of the target version. */
module Migration {
  import opened Wrappers
  import opened JsonValue
  import opened Extension
  import opened Routing

  /** Folding along a route whose links all exist never misses a neighbour: it ends at the model
      the route leads to, or fails in one of its hops. */
  lemma {:induction false} FoldAlongFollow(models: Registry, key: string, route: seq<Direction>,
                                           value: Json, start: string, target: string)
    requires key in models && Follow(models, key, route).Some?
    ensures var r := Fold(models, route, value, models[key], start, target);
      && (r.Success? ==> r.value.1 == models[Follow(models, key, route).value])
      && (r.Failure? ==> r.error.StepFail?)
    decreases |route|
  {
    if route != [] {
      var k := Next(models, key, route[0]).value;
      assert Link(models[key], route[0]) == Some(k);
      var migrated := if route[0] == Forward then models[key].migrateForward(value)
                      else models[key].migrateBackward(value);
      if migrated.Success? {
        FoldAlongFollow(models, k, route[1..], migrated.value, start, target);
      }
    }
  }

  /** On a route the router returns, a successful fold ends at a model of the target version. */
  lemma FoldEndsAtTarget(models: Registry, value: Json, start: string, target: string, route: seq<Direction>)
    requires start in models && FindRoute(models, start, target) == Some(route)
    ensures var r := Fold(models, route, value, models[start], start, target);
      (r.Success? ==> r.value.1.version == target) && (r.Failure? ==> r.error.StepFail?)
  {
    RouteReachesTarget(models, start, target, route);
    FoldAlongFollow(models, start, route, value, start, target);
  }

  /** A migration fails only for an unknown start, a missing route or a failed hop; the fold's
      neighbour lookups, which could report a missing neighbour, always succeed. */
  lemma MigrationFailures(models: Registry, value: Json, start: string, target: string)
    ensures var r := PerformMigration(models, value, start, target);
      r.Failure? ==> r.error.UnknownStart? || r.error.NoRoute? || r.error.StepFail?
  {
    if start in models {
      match FindRoute(models, start, target)
      case None =>
      case Some(route) =>
        FoldEndsAtTarget(models, value, start, target, route);
    }
  }

  /** Migrating a registered version to itself returns the value untouched, without reading it. */
  lemma MigrateToSelf(models: Registry, value: Json, v: string)
    requires WellKeyed(models) && v in models
    ensures PerformMigration(models, value, v, v) == Success(value)
  {
    RouteToSelf(models, v);
  }
}
