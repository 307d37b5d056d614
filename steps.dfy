/** A series of steps over a state, each giving one output, such as the
    attempts of scaffolding: running them in order, what is kept from step
    to step, and what a step that writes at most one entry of a store leaves
    in that store. */
module Steps {
  import opened Basics

  /** The state after `step` on each input, in order. */
  function Final<S, X, O>(s: S, xs: seq<X>, step: (S, X) -> (S, O)): S
    decreases |xs|
  {
    if xs == [] then s
    else step(Final(s, xs[..|xs| - 1], step), xs[|xs| - 1]).0
  }

  /** The outputs of those steps, in order; each step sees the state the
      earlier ones left. */
  function Outputs<S, X, O>(s: S, xs: seq<X>, step: (S, X) -> (S, O)): seq<O>
    decreases |xs|
  {
    if xs == [] then []
    else Outputs(s, xs[..|xs| - 1], step) + [step(Final(s, xs[..|xs| - 1], step), xs[|xs| - 1]).1]
  }

  /** One more step at the end. */
  lemma Snoc<S, X, O>(s: S, xs: seq<X>, x: X, step: (S, X) -> (S, O))
    ensures Final(s, xs + [x], step) == step(Final(s, xs, step), x).0
    ensures Outputs(s, xs + [x], step) == Outputs(s, xs, step) + [step(Final(s, xs, step), x).1]
  {
    assert (xs + [x])[..|xs|] == xs;
  }

  /** A view of the state that every step keeps is kept by all of them. */
  lemma {:induction false} FinalKeeps<S, X, O, K>(s: S, xs: seq<X>, step: (S, X) -> (S, O), key: S -> K)
    requires forall t, x :: key(step(t, x).0) == key(t)
    ensures key(Final(s, xs, step)) == key(s)
    decreases |xs|
  {
    if xs != [] {
      FinalKeeps(s, xs[..|xs| - 1], step, key);
    }
  }

  /** When every step keeps `key` and its output depends on nothing else of
      the state, there is one output per input and output `k` is what step
      `k` alone gives on the starting state. */
  lemma {:induction false} OutputsIsolated<S, X, O, K>(s: S, xs: seq<X>, step: (S, X) -> (S, O), key: S -> K)
    requires forall t, x :: key(step(t, x).0) == key(t)
    requires forall t, x :: key(t) == key(s) ==> step(t, x).1 == step(s, x).1
    ensures |Outputs(s, xs, step)| == |xs|
    ensures forall k :: 0 <= k < |xs| ==> Outputs(s, xs, step)[k] == step(s, xs[k]).1
    decreases |xs|
  {
    if xs != [] {
      var n := |xs| - 1;
      var front := xs[..n];
      OutputsIsolated(s, front, step, key);
      FinalKeeps(s, front, step, key);
      assert forall k :: 0 <= k < n ==> front[k] == xs[k];
    }
  }

  /** Every step leaves the store as it was, except that when its output
      names an entry, that entry is set to the content of the input. */
  ghost predicate WritesOne<S(!new), X(!new), O, P, C>(step: (S, X) -> (S, O), store: S -> map<P, C>,
                                     wrote: O -> Option<P>, content: X -> C)
  {
    forall t, x :: store(step(t, x).0) ==
      match wrote(step(t, x).1)
      case Some(p) => store(t)[p := content(x)]
      case None => store(t)
  }

  /** The entries named by the outputs. */
  function Written<O, P(!new)>(os: seq<O>, wrote: O -> Option<P>): (r: set<P>)
    ensures forall p :: p in r <==> exists k :: 0 <= k < |os| && wrote(os[k]) == Some(p)
  {
    set k | 0 <= k < |os| && wrote(os[k]).Some? :: wrote(os[k]).value
  }

  lemma WrittenSnoc<O, P(!new)>(os: seq<O>, o: O, wrote: O -> Option<P>)
    ensures Written(os + [o], wrote) == Written(os, wrote) + (if wrote(o).Some? then {wrote(o).value} else {})
  {
    var r := os + [o];
    forall p ensures p in Written(r, wrote) <==> p in Written(os, wrote) || wrote(o) == Some(p) {
      if p in Written(r, wrote) {
        var k :| 0 <= k < |r| && wrote(r[k]) == Some(p);
        if k < |os| {
          assert r[k] == os[k];
        }
      }
      if p in Written(os, wrote) {
        var k :| 0 <= k < |os| && wrote(os[k]) == Some(p);
        assert r[k] == os[k];
      }
      if wrote(o) == Some(p) {
        assert r[|os|] == o;
      }
    }
  }

  /** The entries of the final store are those of the first one and the
      written ones. */
  lemma {:induction false} FinalKeys<S(!new), X(!new), O, P(!new), C>(s: S, xs: seq<X>, step: (S, X) -> (S, O), store: S -> map<P, C>,
                                                   wrote: O -> Option<P>, content: X -> C)
    requires WritesOne(step, store, wrote, content)
    ensures store(Final(s, xs, step)).Keys == store(s).Keys + Written(Outputs(s, xs, step), wrote)
    decreases |xs|
  {
    if xs != [] {
      var n := |xs| - 1;
      var front := xs[..n];
      FinalKeys(s, front, step, store, wrote, content);
      var t := Final(s, front, step);
      WrittenSnoc(Outputs(s, front, step), step(t, xs[n]).1, wrote);
    }
  }

  /** The positions of the outputs that name an entry. */
  function Writers<O, P>(os: seq<O>, wrote: O -> Option<P>): (r: set<int>)
    ensures forall k :: k in r <==> 0 <= k < |os| && wrote(os[k]).Some?
  {
    set k | 0 <= k < |os| && wrote(os[k]).Some?
  }

  lemma WritersSnoc<O, P>(os: seq<O>, wrote: O -> Option<P>)
    requires os != []
    ensures Writers(os, wrote) ==
              Writers(os[..|os| - 1], wrote) + (if wrote(os[|os| - 1]).Some? then {|os| - 1} else {})
  {
    var n := |os| - 1;
    var front := os[..n];
    forall k ensures k in Writers(os, wrote) <==> k in Writers(front, wrote) || (k == n && wrote(os[n]).Some?) {
      if 0 <= k < n {
        assert os[k] == front[k];
      }
    }
  }

  /** No two of the outputs name the same entry. */
  predicate DistinctWrites<O, P(==)>(os: seq<O>, wrote: O -> Option<P>)
  {
    forall k, l :: 0 <= k < l < |os| && wrote(os[k]).Some? ==> wrote(os[l]) != wrote(os[k])
  }

  /** Distinct writes stay distinct in a prefix, and the last write names an
      entry no earlier output names. */
  lemma DistinctWritesFront<O, P(!new)>(os: seq<O>, wrote: O -> Option<P>)
    requires os != [] && DistinctWrites(os, wrote)
    ensures DistinctWrites(os[..|os| - 1], wrote)
    ensures wrote(os[|os| - 1]).Some? ==> wrote(os[|os| - 1]).value !in Written(os[..|os| - 1], wrote)
  {
    var n := |os| - 1;
    var front := os[..n];
    forall k, l | 0 <= k < l < |front| && wrote(front[k]).Some? ensures wrote(front[l]) != wrote(front[k]) {
      assert front[k] == os[k] && front[l] == os[l];
    }
    forall k | 0 <= k < |front| ensures wrote(front[k]) != wrote(os[n]) || wrote(os[n]).None? {
      assert front[k] == os[k];
    }
  }

  /** When no two outputs name the same entry, there are as many written
      entries as outputs that name one. */
  lemma {:induction false} WrittenCount<O, P(!new)>(os: seq<O>, wrote: O -> Option<P>)
    requires DistinctWrites(os, wrote)
    ensures |Written(os, wrote)| == |Writers(os, wrote)|
    decreases |os|
  {
    if os != [] {
      var n := |os| - 1;
      var front, o := os[..n], os[n];
      assert os == front + [o];
      DistinctWritesFront(os, wrote);
      WrittenCount(front, wrote);
      WrittenSnoc(front, o, wrote);
      WritersSnoc(os, wrote);
      assert n !in Writers(front, wrote);
    }
  }

  /** When no two outputs name the same entry and no named entry was there at
      the start, the store grows by one entry per output that names one. */
  lemma FinalCount<S(!new), X(!new), O, P(!new), C>(s: S, xs: seq<X>, step: (S, X) -> (S, O), store: S -> map<P, C>,
                                                  wrote: O -> Option<P>, content: X -> C)
    requires WritesOne(step, store, wrote, content)
    requires DistinctWrites(Outputs(s, xs, step), wrote)
    requires var os := Outputs(s, xs, step);
             forall k :: 0 <= k < |os| && wrote(os[k]).Some? ==> wrote(os[k]).value !in store(s)
    ensures |store(Final(s, xs, step)).Keys| == |store(s).Keys| + |Writers(Outputs(s, xs, step), wrote)|
  {
    var os := Outputs(s, xs, step);
    FinalKeys(s, xs, step, store, wrote, content);
    WrittenCount(os, wrote);
    assert store(s).Keys * Written(os, wrote) == {};
  }

  /** An entry that no step writes is as it was. */
  lemma {:induction false} FinalUntouched<S(!new), X(!new), O, P(!new), C>(s: S, xs: seq<X>, step: (S, X) -> (S, O), store: S -> map<P, C>,
                                                        wrote: O -> Option<P>, content: X -> C, p: P)
    requires WritesOne(step, store, wrote, content)
    requires p in store(s) && p !in Written(Outputs(s, xs, step), wrote)
    ensures p in store(Final(s, xs, step)) && store(Final(s, xs, step))[p] == store(s)[p]
    decreases |xs|
  {
    if xs != [] {
      var n := |xs| - 1;
      var front := xs[..n];
      var t := Final(s, front, step);
      WrittenSnoc(Outputs(s, front, step), step(t, xs[n]).1, wrote);
      FinalUntouched(s, front, step, store, wrote, content, p);
    }
  }

  /** An entry written by step `k` and by no later step holds the content
      of input `k`. */
  lemma {:induction false} FinalLastWrite<S(!new), X(!new), O, P(!new), C>(s: S, xs: seq<X>, step: (S, X) -> (S, O), store: S -> map<P, C>,
                                                        wrote: O -> Option<P>, content: X -> C, k: nat)
    requires WritesOne(step, store, wrote, content)
    requires k < |Outputs(s, xs, step)| && wrote(Outputs(s, xs, step)[k]).Some?
    requires forall l :: k < l < |Outputs(s, xs, step)| ==>
               wrote(Outputs(s, xs, step)[l]) != wrote(Outputs(s, xs, step)[k])
    ensures k < |xs|
    ensures wrote(Outputs(s, xs, step)[k]).value in store(Final(s, xs, step))
    ensures store(Final(s, xs, step))[wrote(Outputs(s, xs, step)[k]).value] == content(xs[k])
    decreases |xs|
  {
    var n := |xs| - 1;
    var front := xs[..n];
    OutputsLength(s, xs, step);
    OutputsLength(s, front, step);
    var os, os0 := Outputs(s, xs, step), Outputs(s, front, step);
    assert os == os0 + [step(Final(s, front, step), xs[n]).1];
    if k < n {
      assert os[k] == os0[k] && front[k] == xs[k];
      forall l | k < l < |os0| ensures wrote(os0[l]) != wrote(os0[k]) {
        assert os[l] == os0[l];
      }
      FinalLastWrite(s, front, step, store, wrote, content, k);
      var t, p := Final(s, front, step), wrote(os[k]).value;
      assert Final(s, xs, step) == step(t, xs[n]).0;
      assert wrote(step(t, xs[n]).1) != Some(p) by {
        assert os[n] == step(t, xs[n]).1;
      }
      assert store(step(t, xs[n]).0)[p] == store(t)[p];
    }
  }

  /** One output per input. */
  lemma {:induction false} OutputsLength<S, X, O>(s: S, xs: seq<X>, step: (S, X) -> (S, O))
    ensures |Outputs(s, xs, step)| == |xs|
    decreases |xs|
  {
    if xs != [] {
      OutputsLength(s, xs[..|xs| - 1], step);
    }
  }
}
