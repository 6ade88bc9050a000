/** Counting the builds of a state map that are in given states. */
module Counting {
  import opened BuildGraph
  import opened Sequences

  /** The builds of `keep` whose state is one of `ss`. */
  ghost function In<S>(states: seq<S>, keep: set<BuildId>, ss: set<S>): (r: set<BuildId>)
    ensures forall b :: b in r <==> b in keep && b < |states| && states[b] in ss
  {
    set b | b in keep && b < |states| && states[b] in ss
  }

  ghost function Bit(b: bool): nat {
    if b then 1 else 0
  }

  /** One state change moves one build from one count to another. */
  lemma Moved<S>(states: seq<S>, keep: set<BuildId>, ss: set<S>, id: BuildId, s: S)
    requires id < |states|
    ensures |In(states[id := s], keep, ss)| + Bit(id in keep && states[id] in ss)
         == |In(states, keep, ss)| + Bit(id in keep && s in ss)
  {
    var rest := In(states, keep, ss) - {id};
    var now := In(states[id := s], keep, ss);
    assert now == if id in keep && s in ss then rest + {id} else rest;
    assert In(states, keep, ss) == if id in keep && states[id] in ss then rest + {id} else rest;
  }

  lemma NoneIn<S>(states: seq<S>, keep: set<BuildId>, ss: set<S>)
    ensures |In(states, keep, ss)| == 0 <==> forall b | b in keep && b < |states| :: states[b] !in ss
  {
    if |In(states, keep, ss)| == 0 {
      assert In(states, keep, ss) == {};
    } else {
      assert In(states, keep, ss) != {};
    }
  }

  lemma FewerIn<S>(states: seq<S>, states': seq<S>, keep: set<BuildId>, ss: set<S>)
    requires In(states', keep, ss) <= In(states, keep, ss)
    ensures |In(states', keep, ss)| <= |In(states, keep, ss)|
    ensures In(states', keep, ss) != In(states, keep, ss) ==>
              |In(states', keep, ss)| < |In(states, keep, ss)|
  {
    SubsetCardinality(In(states', keep, ss), In(states, keep, ss));
  }
}
