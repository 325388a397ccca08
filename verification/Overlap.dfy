/**
 CreateEnv calls on one provider that overlap: a session and those attached to it have handlers of
 their own, and no mutex guards the provider. Each call is taken apart into its accesses to the
 shared members: the test of `mEnv`, the assignment, and the binding of the handle.
*/
module OverlappingCalls {
  import opened Wrappers
  import opened Sessions

  /** Where one call of CreateEnv stands. */
  datatype Phase =
    | Ready                      // about to test mEnv
    | Passed                     // has found no environment, about to construct one
    | Assigned(completes: bool)  // has assigned its own; about to bind the handle, or to throw
    | Ended

  /** The members of the provider, and all calls made on it. */
  datatype Shared = Shared(env: Option<Obj>, bound: Option<Obj>, calls: seq<Phase>)

  datatype Access = Test(c: nat) | Assign(c: nat, made: Construction) | Bind(c: nat)

  predicate Enabled(st: Shared, a: Access) {
    && a.c < |st.calls|
    && match a
       case Test(c) => st.calls[c].Ready?
       case Assign(c, _) => st.calls[c].Passed?
       case Bind(c) => st.calls[c].Assigned?
  }

  function Goto(st: Shared, c: nat, p: Phase): Shared
    requires c < |st.calls|
  {
    st.(calls := st.calls[c := p])
  }

  /** The handle is bound to the environment that is assigned by then, be it another call's. */
  function Step(st: Shared, a: Access): Shared
    requires Enabled(st, a)
  {
    match a
    case Test(c) => Goto(st, c, if st.env.Some? then Ended else Passed)
    case Assign(c, NotAllocated(_)) => Goto(st, c, Ended)
    case Assign(c, made) => Goto(st, c, Assigned(made.Built?)).(env := Some(made.env))
    case Bind(c) =>
      Goto(st, c, Ended).(bound := if st.calls[c].completes && st.bound.None? then st.env else st.bound)
  }

  predicate Runs(st: Shared, es: seq<Access>)
    decreases |es|
  {
    es == [] || (Enabled(st, es[0]) && Runs(Step(st, es[0]), es[1..]))
  }

  /** A state the accesses can lead to, with no environment replaced so far. */
  ghost predicate Sound(st: Shared) {
    && (st.bound.Some? ==> st.bound == st.env)
    && (st.env.None? ==> forall c | 0 <= c < |st.calls| :: !st.calls[c].Assigned?)
  }

  /** The environment is what it was, and the handle, if bound, denotes it. */
  predicate Single(st: Shared, st': Shared) {
    && (st.env.Some? ==> st'.env == st.env)
    && (st'.bound.Some? ==> st'.bound == st'.env)
  }

  /**
   No call is between its test and its assignment once there is an environment, and as long as
   there is none at most one call has yet to assign one.
  */
  ghost predicate Guarded(st: Shared) {
    && (st.env.Some? ==> forall c | 0 <= c < |st.calls| :: !st.calls[c].Passed?)
    && (st.env.None? ==> forall c, d | 0 <= c < d < |st.calls| ::
          !((st.calls[c].Ready? || st.calls[c].Passed?) && (st.calls[d].Ready? || st.calls[d].Passed?)))
  }

  /** All along a run. */
  ghost predicate Lasting(st: Shared, es: seq<Access>)
    requires Runs(st, es)
    decreases |es|
  {
    es == [] || (Single(st, Step(st, es[0])) && Lasting(Step(st, es[0]), es[1..]))
  }

  lemma {:induction false} GuardedRun(st: Shared, es: seq<Access>)
    requires Sound(st) && Guarded(st) && Runs(st, es)
    ensures Lasting(st, es)
    decreases |es|
  {
    if es != [] {
      GuardedRun(Step(st, es[0]), es[1..]);
    }
  }

  lemma Longer(st: Shared, a: Access, es: seq<Access>)
    requires Enabled(st, a) && Runs(Step(st, a), es) && !(Single(st, Step(st, a)) && Lasting(Step(st, a), es))
    ensures Runs(st, [a] + es) && !Lasting(st, [a] + es)
  {
    assert ([a] + es)[1..] == es;
  }

  /** A call that has passed its test replaces the environment there is by now. */
  lemma Replaces(st: Shared, c: nat) returns (es: seq<Access>)
    requires c < |st.calls| && st.calls[c].Passed? && st.env.Some?
    ensures Runs(st, es) && !Lasting(st, es)
  {
    var a := Assign(c, Built(st.env.value + 1));
    Longer(st, a, []);
    es := [a] + [];
  }

  /** Two calls that have yet to assign can both pass their tests and both assign. */
  lemma {:induction false} BothAssign(st: Shared, c: nat, d: nat) returns (es: seq<Access>)
    requires st.env.None? && c < |st.calls| && d < |st.calls| && c != d
    requires st.calls[c].Ready? || st.calls[c].Passed?
    requires st.calls[d].Ready? || st.calls[d].Passed?
    ensures Runs(st, es) && !Lasting(st, es)
    decreases (if st.calls[c].Ready? then 1 else 0) + (if st.calls[d].Ready? then 1 else 0)
  {
    var a: Access;
    if st.calls[c].Ready? {
      a := Test(c);
      es := BothAssign(Step(st, a), c, d);
    } else if st.calls[d].Ready? {
      a := Test(d);
      es := BothAssign(Step(st, a), c, d);
    } else {
      a := Assign(c, Built(0));
      es := Replaces(Step(st, a), d);
    }
    Longer(st, a, es);
    es := [a] + es;
  }

  /**
   However the accesses interleave, the environment is assigned once and a bound handle denotes it -
   exactly when the calls are guarded. One call at a time is; two that overlap are not.
  */
  lemma SingleEnvironmentIff(st: Shared)
    requires Sound(st)
    ensures (forall es | Runs(st, es) :: Lasting(st, es)) <==> Guarded(st)
  {
    if Guarded(st) {
      forall es | Runs(st, es) ensures Lasting(st, es) {
        GuardedRun(st, es);
      }
    } else if st.env.Some? {
      var c :| 0 <= c < |st.calls| && st.calls[c].Passed?;
      var es := Replaces(st, c);
      assert Runs(st, es) && !Lasting(st, es);
    } else {
      var c, d :| 0 <= c < d < |st.calls|
        && (st.calls[c].Ready? || st.calls[c].Passed?) && (st.calls[d].Ready? || st.calls[d].Passed?);
      var es := BothAssign(st, c, d);
      assert Runs(st, es) && !Lasting(st, es);
    }
  }

  // ---- a call by itself

  /** The members as module Sessions has them. */
  ghost predicate Shows(st: Shared, s: Session) {
    && st.env == s.env
    && (st.bound.Some? <==> ENVIRONMENT in s.ctx)
    && (ENVIRONMENT in s.ctx ==> s.ctx[ENVIRONMENT] == Model(st.bound.value))
  }

  /** The accesses of a call that no other interrupts. */
  function Uninterrupted(st: Shared, c: nat, made: Construction): seq<Access> {
    if st.env.Some? then [Test(c)]
    else if made.NotAllocated? then [Test(c), Assign(c, made)]
    else [Test(c), Assign(c, made), Bind(c)]
  }

  function After(st: Shared, es: seq<Access>): (st': Shared)
    requires Runs(st, es)
    ensures |st'.calls| == |st.calls|
    decreases |es|
  {
    if es == [] then st else After(Step(st, es[0]), es[1..])
  }

  /** Whatever the overlap, a handle once bound keeps its meaning. */
  lemma {:induction false} BoundOnce(st: Shared, es: seq<Access>)
    requires Runs(st, es) && st.bound.Some?
    ensures After(st, es).bound == st.bound
    decreases |es|
  {
    if es != [] {
      BoundOnce(Step(st, es[0]), es[1..]);
    }
  }

  lemma Steps(st: Shared, a: Access, es: seq<Access>)
    requires Enabled(st, a) && Runs(Step(st, a), es)
    ensures Runs(st, [a] + es) && After(st, [a] + es) == After(Step(st, a), es)
  {
    assert ([a] + es)[1..] == es;
  }

  /** In a row they do what `Sessions.CreateEnv` does. */
  lemma UninterruptedIsCreateEnv(st: Shared, c: nat, ss: seq<Session>, t: nat, chromo: string, lib: Library)
    requires t < |ss| && PointersOk(ss, []) && ss[t].id.Some? && Shows(st, ss[t]) && Sound(st)
    requires c < |st.calls| && st.calls[c].Ready?
    ensures var es, called := Uninterrupted(st, c, lib.construct(chromo, lib.show(ss[t].id.value))),
      CreateEnv(ss, t, chromo, lib);
      Runs(st, es) && !called.Garbage? && Shows(After(st, es), called.ss[t]) && After(st, es).calls[c].Ended?
  {
    var made := lib.construct(chromo, lib.show(ss[t].id.value));
    var st1 := Step(st, Test(c));
    if st.env.Some? {
      Steps(st, Test(c), []);
      assert [Test(c)] + [] == [Test(c)];
    } else {
      var st2 := Step(st1, Assign(c, made));
      if made.NotAllocated? {
        Steps(st1, Assign(c, made), []);
        Steps(st, Test(c), [Assign(c, made)] + []);
        assert [Test(c)] + ([Assign(c, made)] + []) == [Test(c), Assign(c, made)];
      } else {
        Steps(st2, Bind(c), []);
        Steps(st1, Assign(c, made), [Bind(c)] + []);
        Steps(st, Test(c), [Assign(c, made)] + ([Bind(c)] + []));
        assert [Test(c)] + ([Assign(c, made)] + ([Bind(c)] + [])) == [Test(c), Assign(c, made), Bind(c)];
      }
    }
  }
}
