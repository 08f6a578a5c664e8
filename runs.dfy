/**
 * Ordered runs of steps against one piece of state: each step reads the
 * current state and yields the next state and an outcome. The update table
 * is such a run; the lemmas here hold whatever the step does.
 */
module Runs {

  /** Run the steps `ps` from state `s`: the final state and one outcome per step, in order. */
  function Run<S, P, O>(step: (S, P) -> (S, O), s: S, ps: seq<P>): (r: (S, seq<O>))
    ensures |r.1| == |ps|
    decreases |ps|
  {
    if ps == [] then (s, [])
    else
      var prefix := Run(step, s, ps[..|ps| - 1]);
      var last := step(prefix.0, ps[|ps| - 1]);
      (last.0, prefix.1 + [last.1])
  }

  /** Running one more step extends the run by that step. */
  lemma RunSnoc<S, P, O>(step: (S, P) -> (S, O), s: S, ps: seq<P>, p: P)
    ensures Run(step, s, ps + [p]) ==
      (step(Run(step, s, ps).0, p).0, Run(step, s, ps).1 + [step(Run(step, s, ps).0, p).1])
  {
  }

  /** A single step is a run of its own. */
  lemma RunOne<S, P, O>(step: (S, P) -> (S, O), s: S, p: P)
    ensures Run(step, s, [p]) == (step(s, p).0, [step(s, p).1])
  {
    assert [p][..0] == [];
    assert Run(step, s, []) == (s, []);
    assert [] + [step(s, p).1] == [step(s, p).1];
  }

  /** Splitting the last element off a non-empty second operand of a concatenation. */
  lemma SnocSplit<T>(ps: seq<T>, qs: seq<T>)
    requires qs != []
    ensures qs == qs[..|qs| - 1] + [qs[|qs| - 1]]
    ensures ps + qs == (ps + qs[..|qs| - 1]) + [qs[|qs| - 1]]
  {
  }

  /** Running two tables in a row is running their concatenation. */
  lemma {:induction false} RunAppend<S, P, O>(step: (S, P) -> (S, O), s: S, ps: seq<P>, qs: seq<P>)
    ensures Run(step, s, ps + qs) ==
      (Run(step, Run(step, s, ps).0, qs).0, Run(step, s, ps).1 + Run(step, Run(step, s, ps).0, qs).1)
    decreases |qs|
  {
    var first := Run(step, s, ps);
    if qs == [] {
      assert ps + qs == ps;
      assert Run(step, first.0, qs) == (first.0, []);
      assert first.1 + [] == first.1;
    } else {
      var front, q := qs[..|qs| - 1], qs[|qs| - 1];
      var mid := Run(step, first.0, front);
      var last := step(mid.0, q);
      SnocSplit(ps, qs);
      assert Run(step, s, ps + front) == (mid.0, first.1 + mid.1) by {
        RunAppend(step, s, ps, front);
      }
      assert Run(step, s, ps + qs) == (last.0, (first.1 + mid.1) + [last.1]) by {
        RunSnoc(step, s, ps + front, q);
      }
      assert Run(step, first.0, qs) == (last.0, mid.1 + [last.1]) by {
        RunSnoc(step, first.0, front, q);
      }
      assert (first.1 + mid.1) + [last.1] == first.1 + (mid.1 + [last.1]);
    }
  }

  /**
   * A run is determined step by step: if step i takes state ss[i] to
   * ss[i + 1] with outcome os[i], the run ends in the last state with
   * those outcomes.
   */
  lemma {:induction false} RunEntries<S, P, O>(step: (S, P) -> (S, O), s: S, ps: seq<P>, os: seq<O>, ss: seq<S>)
    requires |os| == |ps| && |ss| == |ps| + 1 && ss[0] == s
    requires forall i :: 0 <= i < |ps| ==> step(ss[i], ps[i]) == (ss[i + 1], os[i])
    ensures Run(step, s, ps) == (ss[|ps|], os)
    decreases |ps|
  {
    if ps != [] {
      var n := |ps| - 1;
      var front, frontOutcomes, frontStates := ps[..n], os[..n], ss[..n + 1];
      forall i | 0 <= i < n
        ensures step(frontStates[i], front[i]) == (frontStates[i + 1], frontOutcomes[i])
      {
        assert frontStates[i] == ss[i] && frontStates[i + 1] == ss[i + 1];
        assert front[i] == ps[i] && frontOutcomes[i] == os[i];
      }
      RunEntries(step, s, front, frontOutcomes, frontStates);
      assert step(ss[n], ps[n]) == (ss[n + 1], os[n]);
      assert frontOutcomes + [os[n]] == os;
    }
  }

  /** Four steps in a row, each known on its own. */
  lemma RunFour<S, P, O>(step: (S, P) -> (S, O), s0: S, p0: P, p1: P, p2: P, p3: P,
                         s1: S, s2: S, s3: S, s4: S, o0: O, o1: O, o2: O, o3: O)
    requires step(s0, p0) == (s1, o0) && step(s1, p1) == (s2, o1)
    requires step(s2, p2) == (s3, o2) && step(s3, p3) == (s4, o3)
    ensures Run(step, s0, [p0, p1, p2, p3]) == (s4, [o0, o1, o2, o3])
  {
    RunEntries(step, s0, [p0, p1, p2, p3], [o0, o1, o2, o3], [s0, s1, s2, s3, s4]);
  }
}
