/** The cluster and the cloud as one object, with the record of every change made to them. */
module AwsCloud {
  import opened AwsWorld

  ghost predicate Extends(earlier: seq<World>, later: seq<World>) {
    |earlier| <= |later| && forall i :: 0 <= i < |earlier| ==> later[i] == earlier[i]
  }

  class Cloud {
    var world: World
    ghost var trace: seq<World>
    /** Whether calls never fail; every safety claim is made for false as well. */
    const reliable: bool

    /** The run so far ends in the present state and kept to the rules throughout. */
    ghost predicate Valid()
      reads this
    {
      GoodTrace(trace) && trace != [] && trace[|trace| - 1] == world
    }

    lemma IsSafe()
      requires Valid()
      ensures Safe(world)
    {
      assert SafeAt(trace, |trace| - 1);
    }

    constructor (w: World, reliable: bool)
      requires Safe(w)
      ensures Valid() && world == w && trace == [w] && this.reliable == reliable
    {
      assert Safe([w][0]);
      world, trace, this.reliable := w, [w], reliable;
    }

    /** A change made by another party. */
    method Happen(w: World)
      requires Valid() && Safe(w) && GoodStep(world, w)
      modifies this
      ensures Valid() && world == w && trace == old(trace) + [w]
    {
      GoodTraceGrows(trace, w);
      world, trace := w, trace + [w];
    }

    /** An API call of the operator: it takes effect, or fails and changes nothing. */
    method Call(w: World) returns (ok: bool)
      requires Valid() && Safe(w) && GoodStep(world, w)
      modifies this
      ensures Valid() && Extends(old(trace), trace)
      ensures world == if ok then w else old(world)
      ensures reliable ==> ok
    {
      ok := Answers();
      if ok {
        Happen(w);
      }
    }

    /** Whether a call goes through. */
    method Answers() returns (ok: bool)
      ensures reliable ==> ok
    {
      ok := *;
      if reliable {
        ok := true;
      }
    }
  }
}
