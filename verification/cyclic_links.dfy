/** Registries whose links form a cycle. `MigrationIter` has no bound, so when the target is not
    on the cycle the source's search never returns. The cut-off search in the cycling direction
    finds nothing; the route may then come from the other direction, or there is none. */
module CyclicLinks {
  import opened Wrappers
  import opened JsonValue
  import opened Models
  import opened Extension

  /** A model of version "a" whose forward link names itself; its operations are placeholders. */
  function SelfLinked(): (m: Model)
    ensures m.version == "a" && m.forwardTo == Some("a")
  {
    Model("a", Some("a"), None,
          (c, t) => Success(t), j => Success(j), j => Success(j),
          (p, d) => Success(Complete(None)), (v, d) => Success(true))
  }

  function CyclicRegistry(): (r: Registry)
    ensures r.Keys == {"a"} && WellKeyed(r)
  {
    map["a" := SelfLinked()]
  }

  /** As written: for every cut-off, the forward walk from "a" is as long as the cut-off allows
      and never meets "b", so the unbounded iterator yields "a" forever and `find` never ends. */
  lemma {:induction false} UnboundedWalkNeverEnds(fuel: nat)
    ensures var w := Walk(CyclicRegistry(), "a", Forward, fuel);
      |w| == fuel && forall i :: 0 <= i < |w| ==> !Hit(CyclicRegistry(), w[i], "b")
    decreases fuel
  {
    if fuel > 0 {
      assert Next(CyclicRegistry(), "a", Forward) == Some("a");
      UnboundedWalkNeverEnds(fuel - 1);
    }
  }

  /** Corrected: with the walk cut off after as many items as there are models, the route
      search from "a" to "b" ends, with no route. */
  lemma CutOffSearchEnds()
    ensures FindRoute(CyclicRegistry(), "a", "b").None?
    ensures PerformMigration(CyclicRegistry(), JNull, "a", "b") == Failure(NoRoute("a", "b"))
  {
    UnboundedWalkNeverEnds(1);
    assert Walk(CyclicRegistry(), "a", Backward, 1) == ["a"];
  }

  /** A model "a" whose forward link names itself and whose backward link names "b"; "b" links
      forward to "a". */
  function BackLinked(): (r: Registry)
    ensures r.Keys == {"a", "b"} && WellKeyed(r)
    ensures r["a"].forwardTo == Some("a") && r["a"].backwardTo == Some("b")
  {
    var a := SelfLinked().(backwardTo := Some("b"));
    var b := SelfLinked().(version := "b", backwardTo := None);
    map["a" := a, "b" := b]
  }

  /** Only the forward walk cycles: the source's forward search never returns, so its backward
      search is never tried, while the cut-off forward search ends and the backward search then
      finds "b" one step away. */
  lemma ForwardCycleFallsBack()
    ensures Walk(BackLinked(), "a", Forward, 2) == ["a", "a"]
    ensures FindRoute(BackLinked(), "a", "b") == Some([Backward])
  {
    var r := BackLinked();
    assert Next(r, "a", Forward) == Some("a");
    assert Next(r, "a", Backward) == Some("b");
    assert Walk(r, "a", Forward, 2) == ["a", "a"];
    assert Search(r, "a", "b", Forward).None?;
    assert Walk(r, "a", Backward, 2)[1] == "b";
    assert Search(r, "a", "b", Backward) == Some(1);
    assert Repeat(Backward, 1) == [Backward];
  }
}
