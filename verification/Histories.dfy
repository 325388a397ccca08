/** What stays, what changes and what is answered over the runs of the server. */
module ServerHistories {
  import opened Wrappers
  import opened Wire
  import opened Sessions
  import opened Server
  import opened ServerRuns

  // ---- bindings are write-once

  ghost predicate SessionGrows(s: Session, s': Session) {
    && (s.id.Some? ==> s'.id == s.id)
    && (s.env.Some? ==> s'.env == s.env)
    && (s.attached.Some? ==> s'.attached.Some?)
    && (forall h | h in s.ctx :: h in s'.ctx && s'.ctx[h] == s.ctx[h])
  }

  ghost predicate Grows(ss: seq<Session>, ss': seq<Session>) {
    |ss| <= |ss'| && forall t | 0 <= t < |ss| :: SessionGrows(ss[t], ss'[t])
  }

  lemma FrameGrows(uid: Obj -> string, ss: seq<Session>, ss': seq<Session>, registry: seq<nat>, t: nat, e: nat)
    requires t < |ss| && e < |ss| && MessageFrame(uid, ss, ss', registry, t, e)
    ensures Grows(ss, ss')
  {
  }

  lemma StepGrows(uid: Obj -> string, st: State, e: Event)
    requires UidsOk(uid) && Fits(st) && TablesOk(uid, st.sessions) && IdInv(st) && Enabled(st, e)
    ensures Grows(st.sessions, Step(uid, st, e).sessions)
  {
    StepSessions(uid, st, e);
    if e.Inside? {
      assert ThreadIdInv(st, e.t);
    }
    SessionsStepGrows(uid, st.sessions, Step(uid, st, e).sessions, st.registry, e, st.accepting);
  }

  lemma SessionsStepGrows(uid: Obj -> string, ss: seq<Session>, ss': seq<Session>, registry: seq<nat>, e: Event,
                          accepting: Option<nat>)
    requires SessionsStep(uid, ss, ss', registry, e, accepting)
    requires e.Inside? ==> ss' == ss || ss[e.t].id.None?
    ensures Grows(ss, ss')
  {
    if e.Receive? {
      FrameGrows(uid, ss, ss', registry, e.t, Effective(ss, e.t));
    }
  }

  lemma ReachedTables(uid: Obj -> string, es: seq<Event>, j: nat)
    requires UidsOk(uid) && Runs(uid, INITIAL, es) && j <= |es|
    ensures var st := Trace(uid, INITIAL, es)[j]; Fits(st) && TablesOk(uid, st.sessions)
  {
    if j < |es| {
      TraceFacts(uid, es, j);
    } else {
      ReachableInv(uid, es);
    }
  }

  /** Ids, environments and handles, once bound, keep their meaning whatever the threads do. */
  lemma {:induction false} RunGrows(uid: Obj -> string, es: seq<Event>, i: nat, j: nat)
    requires UidsOk(uid) && Runs(uid, INITIAL, es) && i <= j <= |es|
    ensures var tr := Trace(uid, INITIAL, es); Grows(tr[i].sessions, tr[j].sessions)
  {
    if i < j {
      var tr := Trace(uid, INITIAL, es);
      RunGrows(uid, es, i, j - 1);
      TraceFacts(uid, es, j - 1);
      StepGrows(uid, tr[j - 1], es[j - 1]);
      GrowsTransitive(tr[i].sessions, tr[j - 1].sessions, tr[j].sessions);
    }
  }

  lemma GrowsTransitive(ss: seq<Session>, ss': seq<Session>, ss'': seq<Session>)
    requires Grows(ss, ss') && Grows(ss', ss'')
    ensures Grows(ss, ss'')
  {
  }

  ghost predicate UidsDistinct(uid: Obj -> string) {
    forall x, y :: uid(x) == uid(y) ==> x == y
  }

  /**
   A handle given out for `y` means `y` in every later state while the session looks in its own
   table; attached elsewhere, it means something exactly when the other table has it, and then `y`.
  */
  lemma HandlePersists(uid: Obj -> string, es: seq<Event>, i: nat, j: nat, t: nat, y: Obj)
    requires UidsOk(uid) && Runs(uid, INITIAL, es) && i < j <= |es|
    ensures var tr := Trace(uid, INITIAL, es);
      t < |tr[i].sessions| && Registers(uid, tr[i].sessions, tr[i + 1].sessions, t, y) ==>
        Persists(uid, tr[j].sessions, t, y)
  {
    var tr := Trace(uid, INITIAL, es);
    if t < |tr[i].sessions| && Registers(uid, tr[i].sessions, tr[i + 1].sessions, t, y) {
      RunGrows(uid, es, i + 1, j);
      ReachedTables(uid, es, j);
      StillPersists(uid, tr[i + 1].sessions, tr[j].sessions, t, y);
    }
  }

  ghost predicate Persists(uid: Obj -> string, ss: seq<Session>, t: nat, y: Obj) {
    && t < |ss| && PointersOk(ss, []) && var u := Effective(ss, t);
    && (u == t ==> Lookup(ss, t, uid(y)) == Some(Model(y)))
    && (UidsDistinct(uid) ==> Lookup(ss, t, uid(y)) == if uid(y) in ss[u].ctx then Some(Model(y)) else None)
  }

  lemma StillPersists(uid: Obj -> string, before: seq<Session>, ss: seq<Session>, t: nat, y: Obj)
    requires UidsOk(uid) && TablesOk(uid, ss) && PointersOk(ss, []) && Grows(before, ss)
    requires t < |before| && uid(y) in before[t].ctx && before[t].ctx[uid(y)] == Model(y)
    ensures Persists(uid, ss, t, y)
  {
    var u := Effective(ss, t);
    assert SessionGrows(before[t], ss[t]);
    assert TableOk(uid, ss[u], u);
    assert uid(y) in ss[u].ctx ==> EntryOk(uid, ss[u], u, uid(y));
  }

  /** Some message of session `u` before state `j` was returned an interface with the uid `h`. */
  ghost predicate WasGiven(uid: Obj -> string, es: seq<Event>, j: nat, u: nat, h: string)
    requires Runs(uid, INITIAL, es) && j <= |es|
  {
    exists k, y :: 0 <= k < j && GivenAt(uid, es, k, u, y) && uid(y) == h
  }

  ghost predicate GivenAt(uid: Obj -> string, es: seq<Event>, k: nat, u: nat, y: Obj)
    requires Runs(uid, INITIAL, es) && k < |es|
  {
    var tr := Trace(uid, INITIAL, es);
    es[k].Receive? && es[k].t == u < |tr[k].sessions| && Registers(uid, tr[k].sessions, tr[k + 1].sessions, u, y)
  }

  lemma NewHandle(uid: Obj -> string, ss: seq<Session>, ss': seq<Session>, registry: seq<nat>, e: Event,
                  accepting: Option<nat>, u: nat, h: string) returns (y: Obj)
    requires SessionsStep(uid, ss, ss', registry, e, accepting) && u < |ss'| && h in ss'[u].ctx
    requires h != PROVIDER && h != ENVIRONMENT && (u < |ss| ==> h !in ss[u].ctx)
    ensures e.Receive? && e.t == u < |ss| && Registers(uid, ss, ss', u, y) && uid(y) == h
  {
    y :| Registers(uid, ss, ss', u, y);
  }

  /** Every handle of a table, but for the two fixed ones, was given to the table's own session. */
  lemma {:induction false} HandleOrigin(uid: Obj -> string, es: seq<Event>, j: nat, u: nat, h: string)
      returns (k: nat, y: Obj)
    requires UidsOk(uid) && Runs(uid, INITIAL, es) && j <= |es| && h != PROVIDER && h != ENVIRONMENT
    requires var tr := Trace(uid, INITIAL, es); u < |tr[j].sessions| && h in tr[j].sessions[u].ctx
    ensures k < j && GivenAt(uid, es, k, u, y) && uid(y) == h
    decreases j
  {
    var tr := Trace(uid, INITIAL, es);
    TraceFacts(uid, es, j - 1);
    var st := tr[j - 1];
    if u < |st.sessions| && h in st.sessions[u].ctx {
      k, y := HandleOrigin(uid, es, j - 1, u, h);
    } else {
      StepSessions(uid, st, es[j - 1]);
      k := j - 1;
      y := NewHandle(uid, st.sessions, tr[j].sessions, st.registry, es[k], st.accepting, u, h);
    }
  }

  lemma GivenStays(uid: Obj -> string, es: seq<Event>, k: nat, j: nat, u: nat, y: Obj)
    requires UidsOk(uid) && Runs(uid, INITIAL, es) && k < j <= |es| && GivenAt(uid, es, k, u, y)
    ensures var ss := Trace(uid, INITIAL, es)[j].sessions;
      u < |ss| && uid(y) in ss[u].ctx && ss[u].ctx[uid(y)] == Model(y)
  {
    var tr := Trace(uid, INITIAL, es);
    RunGrows(uid, es, k + 1, j);
    assert SessionGrows(tr[k + 1].sessions[u], tr[j].sessions[u]);
  }

  /**
   In every state of every run a uid used as handle denotes its interface exactly when the session that
   is looked in, attached to or the own, was once returned that interface itself.
  */
  lemma HandleResolvesIff(uid: Obj -> string, es: seq<Event>, j: nat, t: nat, y: Obj)
    requires UidsOk(uid) && UidsDistinct(uid) && Runs(uid, INITIAL, es) && j <= |es|
    requires t < |Trace(uid, INITIAL, es)[j].sessions|
    ensures var ss := Trace(uid, INITIAL, es)[j].sessions;
      && PointersOk(ss, [])
      && Lookup(ss, t, uid(y)) == if WasGiven(uid, es, j, Effective(ss, t), uid(y)) then Some(Model(y)) else None
  {
    var ss := Trace(uid, INITIAL, es)[j].sessions;
    ReachedTables(uid, es, j);
    var u := Effective(ss, t);
    if uid(y) in ss[u].ctx {
      var k, x := HandleOrigin(uid, es, j, u, uid(y));
      GivenStays(uid, es, k, j, u, x);
    }
    if WasGiven(uid, es, j, u, uid(y)) {
      var k, x :| 0 <= k < j && GivenAt(uid, es, k, u, x) && uid(x) == uid(y);
      GivenStays(uid, es, k, j, u, x);
    }
  }

  /**
   A session's environment is set once, whichever connection asked for it, and a bound
   environment handle denotes it.
  */
  lemma SingleEnvironment(uid: Obj -> string, es: seq<Event>, i: nat, j: nat, t: nat)
    requires UidsOk(uid) && Runs(uid, INITIAL, es) && i <= j <= |es|
    ensures var tr := Trace(uid, INITIAL, es);
      t < |tr[i].sessions| ==> t < |tr[j].sessions| && var s, s' := tr[i].sessions[t], tr[j].sessions[t];
      && (s.env.Some? ==> s'.env == s.env)
      && (ENVIRONMENT in s'.ctx ==> s'.env.Some? && s'.ctx[ENVIRONMENT] == Model(s'.env.value))
  {
    var tr := Trace(uid, INITIAL, es);
    RunGrows(uid, es, i, j);
    ReachedTables(uid, es, j);
    if t < |tr[i].sessions| {
      assert SessionGrows(tr[i].sessions[t], tr[j].sessions[t]);
      assert TableOk(uid, tr[j].sessions[t], t);
      assert ENVIRONMENT in tr[j].sessions[t].ctx ==> EntryOk(uid, tr[j].sessions[t], t, ENVIRONMENT);
    }
  }

  ghost predicate Unbound(s: Session) {
    s.env.Some? && ENVIRONMENT !in s.ctx
  }

  /** An environment whose construction failed is never bound: the handle stays unknown for good. */
  lemma {:induction false} FailedEnvironmentStaysUnbound(uid: Obj -> string, es: seq<Event>, i: nat, j: nat, t: nat)
    requires UidsOk(uid) && Runs(uid, INITIAL, es) && i <= j <= |es|
    requires var tr := Trace(uid, INITIAL, es); t < |tr[i].sessions| && Unbound(tr[i].sessions[t])
    ensures var tr := Trace(uid, INITIAL, es); t < |tr[j].sessions| && Unbound(tr[j].sessions[t])
  {
    if i < j {
      FailedEnvironmentStaysUnbound(uid, es, i, j - 1, t);
      NextLeavesUnbound(uid, es, j - 1, t);
    }
  }

  lemma NextLeavesUnbound(uid: Obj -> string, es: seq<Event>, j: nat, t: nat)
    requires UidsOk(uid) && Runs(uid, INITIAL, es) && j < |es|
    requires var tr := Trace(uid, INITIAL, es); t < |tr[j].sessions| && Unbound(tr[j].sessions[t])
    ensures var tr := Trace(uid, INITIAL, es); t < |tr[j + 1].sessions| && Unbound(tr[j + 1].sessions[t])
  {
    TraceFacts(uid, es, j);
    StepLeavesUnbound(uid, Trace(uid, INITIAL, es)[j], es[j], t);
  }

  lemma StepLeavesUnbound(uid: Obj -> string, st: State, e: Event, t: nat)
    requires UidsOk(uid) && Fits(st) && TablesOk(uid, st.sessions) && IdInv(st) && Enabled(st, e)
    requires t < |st.sessions| && Unbound(st.sessions[t])
    ensures Unbound(Step(uid, st, e).sessions[t])
  {
    StepSessions(uid, st, e);
    SessionsStepLeavesUnbound(uid, st.sessions, Step(uid, st, e).sessions, st.registry, e, st.accepting, t);
  }

  lemma SessionsStepLeavesUnbound(uid: Obj -> string, ss: seq<Session>, ss': seq<Session>, registry: seq<nat>, e: Event,
                                  accepting: Option<nat>, t: nat)
    requires UidsOk(uid) && SessionsStep(uid, ss, ss', registry, e, accepting) && t < |ss| && Unbound(ss[t])
    ensures Unbound(ss'[t])
  {
  }

  // ---- where an environment comes from, and when its handle is bound

  /** The construction that message `msg` of session `t` asks for, when it gets that far. */
  function Constructs(ss: seq<Session>, t: nat, msg: string, lib: Library): Option<Construction>
    requires t < |ss| && Effective(ss, t) < |ss|
  {
    var s := ss[Effective(ss, t)];
    match Parse(msg)
    case Request(ctx, Some(args)) =>
      if ctx != PROVIDER || PROVIDER !in s.ctx then None
      else (match lib.parse(args)
        case Ok(CallSpec(name, args)) =>
          if name != "CreateEnv" || |args| != 1 || s.env.Some? then None
          else Some(lib.construct(args[0], lib.show(IdOf(s))))
        case Fail(_) => None)
    case _ => None
  }

  ghost predicate EnvsLeft(ss: seq<Session>, ss': seq<Session>, but: Option<nat>) {
    && |ss'| == |ss|
    && forall u | 0 <= u < |ss| && but != Some(u) ::
         ss'[u].env == ss[u].env && (ENVIRONMENT in ss'[u].ctx <==> ENVIRONMENT in ss[u].ctx)
  }

  /** A construction: the environment is assigned when it is allocated, the handle bound when it completes. */
  lemma ConstructionBinds(uid: Obj -> string, ss: seq<Session>, registry: seq<nat>, t: nat, msg: string, lib: Library)
    requires t < |ss| && PointersOk(ss, registry) && TablesOk(uid, ss) && ss[Effective(ss, t)].id.Some?
    requires Constructs(ss, t, msg, lib).Some?
    ensures var o, e, made := Handle(uid, ss, registry, t, msg, lib), Effective(ss, t),
      Constructs(ss, t, msg, lib).value;
      && o.Replied? && (o.reply.ok <==> made.Built?)
      && o.ss[e].env == (if made.NotAllocated? then None else Some(made.env))
      && (ENVIRONMENT in o.ss[e].ctx <==> made.Built?)
      && EnvsLeft(ss, o.ss, Some(e))
  {
    var e := Effective(ss, t);
    assert TableOk(uid, ss[e], e);
    assert EntryOk(uid, ss[e], e, PROVIDER);
    assert ENVIRONMENT in ss[e].ctx ==> EntryOk(uid, ss[e], e, ENVIRONMENT);
  }

  lemma ProviderLeavesEnvs(ss: seq<Session>, registry: seq<nat>, e: nat, spec: string, lib: Library)
    requires e < |ss| && PointersOk(ss, registry)
    requires match lib.parse(spec)
      case Ok(CallSpec(name, args)) => name == "CreateEnv" && |args| == 1 ==> ss[e].env.Some?
      case Fail(_) => true
    ensures var c := ProviderCall(ss, registry, e, spec, lib);
      c.Garbage? || (EnvsLeft(ss, c.ss, None) && (c.Done? ==> c.obj.None?))
  {
  }

  lemma PerformLeavesEnvs(uid: Obj -> string, ss: seq<Session>, registry: seq<nat>, t: nat, x: Obj, spec: string,
                          lib: Library)
    requires UidsOk(uid) && t < |ss| && PointersOk(ss, registry)
    ensures EnvsLeft(ss, Perform(uid, ss, registry, t, Model(x), spec, lib).ss, None)
  {
  }

  /** Any other message leaves all environments and their handles alone. */
  lemma NoConstruction(uid: Obj -> string, ss: seq<Session>, registry: seq<nat>, t: nat, msg: string, lib: Library)
    requires UidsOk(uid) && t < |ss| && PointersOk(ss, registry) && TablesOk(uid, ss)
    requires Constructs(ss, t, msg, lib).None?
    ensures var o := Handle(uid, ss, registry, t, msg, lib); o.Undefined? || EnvsLeft(ss, o.ss, None)
  {
    match Parse(msg)
    case MissingContext =>
    case Request(ctx, spec) =>
      var e := Effective(ss, t);
      assert TableOk(uid, ss[e], e);
      var target := Lookup(ss, t, ctx);
      if target.Some? && spec.Some? {
        assert EntryOk(uid, ss[e], e, ctx);
        if ctx == PROVIDER {
          ProviderLeavesEnvs(ss, registry, e, spec.value, lib);
        } else {
          PerformLeavesEnvs(uid, ss, registry, t, target.value.obj, spec.value, lib);
        }
      }
  }

  /** Event `ev` has an environment constructed for session `e`, which had none. */
  ghost predicate Constructed(st: State, ev: Event, e: nat, made: Construction)
    requires Fits(st)
  {
    && ev.Receive? && ev.t < |st.sessions| && Effective(st.sessions, ev.t) == e && st.sessions[e].env.None?
    && Constructs(st.sessions, ev.t, ev.msg, ev.lib) == Some(made) && !made.NotAllocated?
  }

  /** A session has this construction's environment, and the handle for it exactly when it was completed. */
  ghost predicate EnvFrom(s: Session, made: Construction) {
    !made.NotAllocated? && s.env == Some(made.env) && (ENVIRONMENT in s.ctx <==> made.Built?)
  }

  lemma StepEnvironment(uid: Obj -> string, st: State, ev: Event, e: nat) returns (made: Construction)
    requires UidsOk(uid) && Fits(st) && TablesOk(uid, st.sessions) && IdInv(st) && Enabled(st, ev)
    requires e < |Step(uid, st, ev).sessions| && Step(uid, st, ev).sessions[e].env.Some?
    requires e >= |st.sessions| || st.sessions[e].env.None?
    ensures Constructed(st, ev, e, made) && EnvFrom(Step(uid, st, ev).sessions[e], made)
  {
    assert ev.Receive?;
    var t := ev.t;
    assert ThreadIdInv(st, t);
    var c := Constructs(st.sessions, t, ev.msg, ev.lib);
    MessageReadsNumber(uid, st, t, ev.msg, ev.lib);
    if c.None? {
      NoConstruction(uid, st.sessions, st.registry, t, ev.msg, ev.lib);
      assert false;
    } else {
      ConstructionBinds(uid, st.sessions, st.registry, t, ev.msg, ev.lib);
      made := c.value;
    }
  }

  /**
   Whatever the run: each environment was given by one message's construction, and its handle is
   bound, from then on, exactly when that construction was completed. Without one it is not bound.
  */
  lemma {:induction false} EnvironmentOrigin(uid: Obj -> string, es: seq<Event>, j: nat, e: nat)
      returns (i: nat, made: Construction)
    requires UidsOk(uid) && Runs(uid, INITIAL, es) && j <= |es|
    requires var tr := Trace(uid, INITIAL, es); e < |tr[j].sessions| && tr[j].sessions[e].env.Some?
    ensures var tr := Trace(uid, INITIAL, es);
      i < j && Fits(tr[i]) && Constructed(tr[i], es[i], e, made) && EnvFrom(tr[j].sessions[e], made)
    decreases j
  {
    var tr := Trace(uid, INITIAL, es);
    TraceFacts(uid, es, j - 1);
    var st := tr[j - 1];
    if e < |st.sessions| && st.sessions[e].env.Some? {
      i, made := EnvironmentOrigin(uid, es, j - 1, e);
      StepGrows(uid, st, es[j - 1]);
      assert SessionGrows(st.sessions[e], tr[j].sessions[e]);
      if !made.Built? {
        StepLeavesUnbound(uid, st, es[j - 1], e);
      }
    } else {
      i := j - 1;
      made := StepEnvironment(uid, st, es[j - 1], e);
    }
  }

  // ---- the frame of a message

  /** One message touches its own session's table or the session it looks in, and nothing else. */
  lemma MessageTouches(uid: Obj -> string, st: State, e: Event)
    requires UidsOk(uid) && Inv(uid, st) && Enabled(st, e) && e.Receive?
    ensures MessageFrame(uid, st.sessions, Step(uid, st, e).sessions, st.registry, e.t, Effective(st.sessions, e.t))
  {
    MessageReadsNumber(uid, st, e.t, e.msg, e.lib);
    HandleFrame(uid, st.sessions, st.registry, e.t, e.msg, e.lib);
  }

  /** Event `e` is about session `t`: its construction, its numbering, or a message from or to it. */
  ghost predicate Concerns(st: State, e: Event, t: nat) {
    match e
    case Install => st.accepting == Some(t)
    case Inside(u) => u == t && u < |st.threads| && st.threads[u].pc.RegLocked?
    case Receive(u, _, _) => u < |st.sessions| && (u == t || Effective(st.sessions, u) == t)
    case _ => false
  }

  /** A session nobody talks to or through keeps its whole state, whatever the others do. */
  lemma {:induction false} UnconcernedUnchanged(uid: Obj -> string, es: seq<Event>, i: nat, j: nat, t: nat)
    requires UidsOk(uid) && Runs(uid, INITIAL, es) && i <= j <= |es|
    requires var tr := Trace(uid, INITIAL, es);
      t < |tr[i].sessions| && forall k | i <= k < j :: !Concerns(tr[k], es[k], t)
    ensures var tr := Trace(uid, INITIAL, es); t < |tr[j].sessions| && tr[j].sessions[t] == tr[i].sessions[t]
  {
    if i < j {
      UnconcernedUnchanged(uid, es, i, j - 1, t);
      TraceFacts(uid, es, j - 1);
      StepLeavesUnconcerned(uid, Trace(uid, INITIAL, es)[j - 1], es[j - 1], t);
    }
  }

  lemma StepLeavesUnconcerned(uid: Obj -> string, st: State, e: Event, t: nat)
    requires UidsOk(uid) && Fits(st) && TablesOk(uid, st.sessions) && Enabled(st, e) && t < |st.sessions|
    requires !Concerns(st, e, t)
    ensures Step(uid, st, e).sessions[t] == st.sessions[t]
  {
    StepSessions(uid, st, e);
  }

  /** An AttachEnv sent by a session attached elsewhere rewires that other session, not its own. */
  lemma AttachThroughAttachment(uid: Obj -> string, ss: seq<Session>, registry: seq<nat>, t: nat, args: string,
                                lib: Library, id: string)
    requires t < |ss| && PointersOk(ss, registry) && TablesOk(uid, ss)
    requires ss[t].attached.Some? && PROVIDER in ss[ss[t].attached.value].ctx
    requires lib.parse(args) == Ok(CallSpec("AttachEnv", [id]))
    ensures var o := Handle(uid, ss, registry, t, Framed(PROVIDER, args), lib);
      var e := ss[t].attached.value; var i := FindById(ss, registry, lib.read(id));
      && o.Replied?
      && o.reply.ok == (i < |registry|)
      && o.ss == (if i < |registry| then ss[e := ss[e].(attached := Some(registry[i]))] else ss)
      && (e != t ==> o.ss[t] == ss[t])
  {
    var e := ss[t].attached.value;
    HandleFramed(uid, ss, registry, t, PROVIDER, args, lib);
    assert TableOk(uid, ss[e], e) && EntryOk(uid, ss[e], e, PROVIDER);
    assert Lookup(ss, t, PROVIDER) == Some(Provider(e));
    assert ProviderCall(ss, registry, e, args, lib) == AttachEnv(ss, registry, e, lib.read(id), lib);
  }

  // ---- replies and halting

  /** The message makes a model call return an interface that the session has already registered. */
  ghost predicate ReturnsRegistered(uid: Obj -> string, ss: seq<Session>, t: nat, msg: string, lib: Library)
    requires t < |ss| && PointersOk(ss, [])
  {
    match Parse(msg)
    case Request(ctx, Some(spec)) =>
      (match Lookup(ss, t, ctx)
       case Some(Model(x)) => var c := lib.call(x, spec); c.Returned? && uid(c.obj) in ss[t].ctx
       case _ => false)
    case _ => false
  }

  /** The server dies in no other way than by such a message. */
  lemma KilledIff(uid: Obj -> string, st: State, e: Event)
    requires UidsOk(uid) && Inv(uid, st) && Enabled(st, e)
    ensures Step(uid, st, e).status.Killed? <==>
      e.Receive? && ReturnsRegistered(uid, st.sessions, e.t, e.msg, e.lib)
    ensures e.Receive? && !ReturnsRegistered(uid, st.sessions, e.t, e.msg, e.lib) ==>
      Step(uid, st, e).threads[e.t].pc.Answering?
  {
    match e
    case Install => assert st.sessions[st.accepting.value].ctx == map[];
    case Inside(t) =>
      if st.threads[t].pc.EraseLocked? {
        LeaverFindsEntry(st, t);
      }
      IdKeptInside(st, t);
    case Receive(t, msg, lib) =>
      MessageReadsNumber(uid, st, t, msg, lib);
      HandleTerminatesIff(uid, st.sessions, st.registry, t, msg, lib);
    case _ =>
  }

  lemma HandleTerminatesIff(uid: Obj -> string, ss: seq<Session>, registry: seq<nat>, t: nat, msg: string, lib: Library)
    requires t < |ss| && PointersOk(ss, registry)
    ensures Handle(uid, ss, registry, t, msg, lib).Terminated? <==> ReturnsRegistered(uid, ss, t, msg, lib)
  {
  }

  /** Answer `k` of thread `th`, of session `t`, is what its message `k` gave when `e` handled it in `st`. */
  ghost predicate Answers(uid: Obj -> string, st: State, e: Event, t: nat, th: Thread, k: nat)
    requires Fits(st)
  {
    && t < |st.threads| && k < |th.answers| && k < |th.asked|
    && e.Receive? && e.t == t && e.msg == th.asked[k]
    && st.threads[t].asked == th.asked[..k]
    && var o := Handle(uid, st.sessions, st.registry, t, e.msg, e.lib);
       o.Replied? && o.reply == th.answers[k]
  }

  /** Every answer of a session comes from the event that handled the message with the same number. */
  lemma {:induction false} AnswerOrigin(uid: Obj -> string, es: seq<Event>, n: nat, t: nat, k: nat) returns (j: nat)
    requires UidsOk(uid) && Runs(uid, INITIAL, es) && n <= |es|
    requires var tr := Trace(uid, INITIAL, es); t < |tr[n].threads| && k < |tr[n].threads[t].answers|
    ensures var tr := Trace(uid, INITIAL, es);
      j < n && Fits(tr[j]) && Answers(uid, tr[j], es[j], t, tr[n].threads[t], k)
  {
    var tr := Trace(uid, INITIAL, es);
    TraceReplies(uid, es, n - 1);
    var before, after := tr[n - 1], tr[n];
    StepAnswers(uid, before, es[n - 1], t);
    if t < |before.threads| && k < |before.threads[t].answers| {
      j := AnswerOrigin(uid, es, n - 1, t, k);
      AnswersStill(uid, tr[j], es[j], t, before.threads[t], after.threads[t], k);
    } else {
      j := n - 1;
    }
  }

  lemma TraceReplies(uid: Obj -> string, es: seq<Event>, j: nat)
    requires UidsOk(uid) && Runs(uid, INITIAL, es) && j < |es|
    ensures var tr := Trace(uid, INITIAL, es);
      && Fits(tr[j]) && Enabled(tr[j], es[j]) && tr[j + 1] == Step(uid, tr[j], es[j])
      && forall u | 0 <= u < |tr[j].threads| :: ReplyInv(tr[j].threads[u])
  {
    TraceStep(uid, INITIAL, es, j);
  }

  lemma AnswersStill(uid: Obj -> string, st: State, e: Event, t: nat, th: Thread, th': Thread, k: nat)
    requires Fits(st) && Answers(uid, st, e, t, th, k) && th.asked <= th'.asked && th.answers <= th'.answers
    ensures Answers(uid, st, e, t, th', k)
  {
  }

  lemma StepAnswers(uid: Obj -> string, st: State, e: Event, t: nat)
    requires Fits(st) && Enabled(st, e) && t < |Step(uid, st, e).threads|
    requires forall u | 0 <= u < |st.threads| :: ReplyInv(st.threads[u])
    ensures t >= |st.threads| ==> Step(uid, st, e).threads[t].answers == []
    ensures t < |st.threads| ==>
      var th, th' := st.threads[t], Step(uid, st, e).threads[t];
      && th.asked <= th'.asked && th.answers <= th'.answers
      && (th'.answers != th.answers ==>
            && e.Receive? && e.t == t && |th.asked| == |th.answers| && th'.asked == th.asked + [e.msg]
            && var o := Handle(uid, st.sessions, st.registry, t, e.msg, e.lib);
               o.Replied? && th'.answers == th.answers + [o.reply])
  {
  }

  /**
   Reply conservation: what a session has been sent is the answers to its messages, one each and in
   order, but for the one under way; `AnswerOrigin` says where each comes from.
  */
  lemma RepliesConserved(uid: Obj -> string, es: seq<Event>, t: nat)
    requires UidsOk(uid) && Runs(uid, INITIAL, es) && t < |After(uid, INITIAL, es).threads|
    ensures var th := After(uid, INITIAL, es).threads[t];
      && th.sent <= th.answers
      && |th.asked| == |th.sent| + (if th.pc.Answering? || th.pc.SendLocked? || th.pc.Dying? then 1 else 0)
      && (th.pc.Dying? ==> After(uid, INITIAL, es).status.Killed?)
  {
    ReachableInv(uid, es);
    assert ReplyInv(After(uid, INITIAL, es).threads[t]);
  }
}
