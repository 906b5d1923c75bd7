/** Deterministic step systems and their runs.  A system is a partial function from a state and a
    move to the next state; whatever the code leaves open is part of the move. */
module Transitions {
  import opened Tally

  /** The moves of `run`, one after another, lead from s to s'. */
  ghost predicate Runs<S, M>(next: (S, M) -> Option<S>, s: S, run: seq<M>, s': S)
    decreases |run|
  {
    if run == [] then s == s'
    else next(s, run[0]).Some? && Runs(next, next(s, run[0]).value, run[1..], s')
  }

  ghost predicate Leads<S, M(!new)>(next: (S, M) -> Option<S>, s: S, s': S) {
    exists run :: Runs(next, s, run, s')
  }

  lemma {:induction false} RunsConcat<S, M>(next: (S, M) -> Option<S>, s: S, run: seq<M>, t: S, run': seq<M>, u: S)
    requires Runs(next, s, run, t) && Runs(next, t, run', u)
    ensures Runs(next, s, run + run', u)
    decreases |run|
  {
    if run == [] {
      assert run + run' == run';
    } else {
      RunsConcat(next, next(s, run[0]).value, run[1..], t, run', u);
      assert (run + run')[1..] == run[1..] + run';
    }
  }

  lemma LeadsRefl<S, M(!new)>(next: (S, M) -> Option<S>, s: S)
    ensures Leads(next, s, s)
  {
    assert Runs(next, s, [], s);
  }

  lemma LeadsTrans<S, M(!new)>(next: (S, M) -> Option<S>, s: S, t: S, u: S)
    requires Leads(next, s, t) && Leads(next, t, u)
    ensures Leads(next, s, u)
  {
    var run :| Runs(next, s, run, t);
    var run' :| Runs(next, t, run', u);
    RunsConcat(next, s, run, t, run', u);
  }

  lemma LeadsStep<S, M(!new)>(next: (S, M) -> Option<S>, s: S, t: S, m: M)
    requires Leads(next, s, t) && next(t, m).Some?
    ensures Leads(next, s, next(t, m).value)
  {
    var u := next(t, m).value;
    assert [m][1..] == [];
    assert Runs(next, u, [], u);
    assert Runs(next, t, [m], u);
    LeadsTrans(next, s, t, u);
  }

  /** An inductive invariant holds at the end of every run. */
  lemma {:induction false} InvariantAlongRun<S(!new), M(!new)>(
      next: (S, M) -> Option<S>, inv: S -> bool, s: S, run: seq<M>, s': S)
    requires Runs(next, s, run, s') && inv(s)
    requires forall t, m :: inv(t) && next(t, m).Some? ==> inv(next(t, m).value)
    ensures inv(s')
    decreases |run|
  {
    if run != [] {
      InvariantAlongRun(next, inv, next(s, run[0]).value, run[1..], s');
    }
  }

  /** If every step takes something off a rank then no run is longer than the rank. */
  lemma {:induction false} RankAlongRun<S(!new), M(!new)>(
      next: (S, M) -> Option<S>, inv: S -> bool, rank: S -> nat, s: S, run: seq<M>, s': S)
    requires Runs(next, s, run, s') && inv(s)
    requires forall t, m :: inv(t) && next(t, m).Some? ==> inv(next(t, m).value) && rank(next(t, m).value) < rank(t)
    ensures inv(s') && |run| + rank(s') <= rank(s)
    decreases |run|
  {
    if run != [] {
      RankAlongRun(next, inv, rank, next(s, run[0]).value, run[1..], s');
    }
  }

  lemma InvariantHolds<S(!new), M(!new)>(next: (S, M) -> Option<S>, inv: S -> bool, s: S, s': S)
    requires Leads(next, s, s') && inv(s)
    requires forall t, m :: inv(t) && next(t, m).Some? ==> inv(next(t, m).value)
    ensures inv(s')
  {
    var run :| Runs(next, s, run, s');
    InvariantAlongRun(next, inv, s, run, s');
  }
}
