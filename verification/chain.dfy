/** Routes on a well-formed extension: versions linked as one simple linear chain
    `vs[0] <-> vs[1] <-> ... <-> vs[|vs|-1]`, the shape extension authors are expected to supply.
    Other models may be registered beside the chain. */
module Chains {
  import opened Wrappers
  import opened Extension
  import opened Routing

  ghost predicate Distinct(vs: seq<string>) {
    forall i, j :: 0 <= i < j < |vs| ==> vs[i] != vs[j]
  }

  /** `vs` is a chain of registered versions: each forward link names the next version, each
      backward link the previous one, and the ends link to nothing registered. */
  ghost predicate LinearChain(models: Registry, vs: seq<string>) {
    && |vs| > 0
    && Distinct(vs)
    && (forall i :: 0 <= i < |vs| ==> vs[i] in models && models[vs[i]].version == vs[i])
    && (forall i :: 0 <= i < |vs| - 1 ==> Next(models, vs[i], Forward) == Some(vs[i + 1]))
    && (forall i :: 0 <= i < |vs| - 1 ==> Next(models, vs[i + 1], Backward) == Some(vs[i]))
    && Next(models, vs[|vs| - 1], Forward) == None
    && Next(models, vs[0], Backward) == None
  }

  /** `n` forward steps from `vs[i]` reach `vs[i + n]`, or nothing past the end of the chain. */
  lemma {:induction false} ChainStepsForward(models: Registry, vs: seq<string>, i: nat, n: nat)
    requires LinearChain(models, vs) && i < |vs|
    ensures Steps(models, vs[i], Forward, n) == if i + n < |vs| then Some(vs[i + n]) else None
    decreases n
  {
    if n > 0 && i < |vs| - 1 {
      ChainStepsForward(models, vs, i + 1, n - 1);
    }
  }

  /** `n` backward steps from `vs[i]` reach `vs[i - n]`, or nothing past the start of the chain. */
  lemma {:induction false} ChainStepsBackward(models: Registry, vs: seq<string>, i: nat, n: nat)
    requires LinearChain(models, vs) && i < |vs|
    ensures Steps(models, vs[i], Backward, n) == if n <= i then Some(vs[i - n]) else None
    decreases n
  {
    if n > 0 && i > 0 {
      ChainStepsBackward(models, vs, i - 1, n - 1);
    }
  }

  /** On a chain, the route from `vs[i]` to `vs[j]` is `j - i` forward steps when `i <= j` and
      `i - j` backward steps otherwise. */
  lemma ChainRoute(models: Registry, vs: seq<string>, i: nat, j: nat)
    requires LinearChain(models, vs) && i < |vs| && j < |vs|
    ensures FindRoute(models, vs[i], vs[j]) ==
      Some(if i <= j then Repeat(Forward, j - i) else Repeat(Backward, i - j))
  {
    if i <= j {
      ChainStepsForward(models, vs, i, j - i);
      forall m: nat | m < j - i ensures !HitsAt(models, vs[i], Forward, vs[j], m) {
        ChainStepsForward(models, vs, i, m);
      }
      ForwardRoute(models, vs[i], vs[j], j - i);
    } else {
      forall m: nat ensures !HitsAt(models, vs[i], Forward, vs[j], m) {
        ChainStepsForward(models, vs, i, m);
      }
      ChainStepsBackward(models, vs, i, i - j);
      forall m: nat | m < i - j ensures !HitsAt(models, vs[i], Backward, vs[j], m) {
        ChainStepsBackward(models, vs, i, m);
      }
      BackwardRoute(models, vs[i], vs[j], i - j);
    }
  }

  /** On a chain, there is no route from a chain version to a version outside the chain. */
  lemma ChainNoRoute(models: Registry, vs: seq<string>, i: nat, target: string)
    requires LinearChain(models, vs) && i < |vs|
    requires forall k :: 0 <= k < |vs| ==> vs[k] != target
    ensures FindRoute(models, vs[i], target).None?
  {
    forall m: nat
      ensures !HitsAt(models, vs[i], Forward, target, m) && !HitsAt(models, vs[i], Backward, target, m)
    {
      ChainStepsForward(models, vs, i, m);
      ChainStepsBackward(models, vs, i, m);
    }
    NoRouteIffUnreachable(models, vs[i], target);
  }
}
