/** Continuing a run of the system of `Protocol`. */
module Runs {
  import opened Protocol

  /** Some steps lead from one state to the other. */
  ghost predicate Leads(env: Env, s: State, t: State) {
    exists ss, acts :: Path(env, ss, acts, s, t)
  }

  ghost predicate Path(env: Env, ss: seq<State>, acts: seq<Action>, s: State, t: State) {
    Segment(env, ss, acts) && ss[0] == s && ss[|acts|] == t
  }

  lemma LeadsToItself(env: Env, s: State)
    ensures Leads(env, s, s)
  {
    assert Path(env, [s], [], s, s);
  }

  lemma Joined(env: Env, ss: seq<State>, acts: seq<Action>, tt: seq<State>, more: seq<Action>)
    requires Segment(env, ss, acts) && Segment(env, tt, more) && ss[|acts|] == tt[0]
    ensures Segment(env, ss + tt[1..], acts + more)
    ensures (ss + tt[1..])[|acts| + |more|] == tt[|more|] && (ss + tt[1..])[0] == ss[0]
  {
    var all, every := ss + tt[1..], acts + more;
    forall i | 0 <= i < |every|
      ensures StepsAt(env, all, every, i)
    {
      if i < |acts| {
        assert StepsAt(env, ss, acts, i);
        assert all[i] == ss[i] && all[i + 1] == ss[i + 1];
      } else {
        var j := i - |acts|;
        assert StepsAt(env, tt, more, j);
        assert all[i] == tt[j] && all[i + 1] == tt[j + 1];
      }
    }
  }

  lemma LeadsOn(env: Env, s: State, t: State, u: State)
    requires Leads(env, s, t) && Leads(env, t, u)
    ensures Leads(env, s, u)
  {
    var ss, acts :| Path(env, ss, acts, s, t);
    var tt, more :| Path(env, tt, more, t, u);
    Joined(env, ss, acts, tt, more);
    assert Path(env, ss + tt[1..], acts + more, s, u);
  }

  lemma LeadsByStep(env: Env, s: State, t: State, a: Action)
    requires Leads(env, s, t) && Enabled(env, t, a)
    ensures Leads(env, s, Next(env, t, a))
  {
    var u := Next(env, t, a);
    assert StepsAt(env, [t, u], [a], 0);
    assert Path(env, [t, u], [a], t, u);
    LeadsOn(env, s, t, u);
  }

  /** The run goes on to this state. */
  ghost predicate GoesOnTo(env: Env, ss: seq<State>, acts: seq<Action>, t: State) {
    exists ss', acts' :: Continues(env, ss, acts, ss', acts') && ss'[|acts'|] == t
  }

  ghost predicate Continues(env: Env, ss: seq<State>, acts: seq<Action>, ss': seq<State>, acts': seq<Action>) {
    ss <= ss' && acts <= acts' && Execution(env, ss', acts')
  }

  lemma RunGoesOn(env: Env, ss: seq<State>, acts: seq<Action>, t: State)
    requires Execution(env, ss, acts) && Leads(env, ss[|acts|], t)
    ensures GoesOnTo(env, ss, acts, t)
  {
    var tt, more :| Path(env, tt, more, ss[|acts|], t);
    Joined(env, ss, acts, tt, more);
    assert Continues(env, ss, acts, ss + tt[1..], acts + more);
  }
}
