/**
 The server with CreateEnv taken apart: a handler inside it has tested `mEnv`, or has assigned it, while
 the other threads go on. Everything else is stepped as in module Server.
*/
module InterleavedCalls {
  import opened Wrappers
  import opened Wire
  import opened Sessions
  import opened Server
  import opened ServerHistories

  /** A call of CreateEnv on the provider of session `e` under way; `given` once it has assigned the environment. */
  datatype Call = Call(e: nat, msg: string, made: Construction, given: bool)

  /** The server, and the calls under way by the session whose handler is inside. */
  datatype Fine = Fine(st: State, calls: map<nat, Call>)

  datatype FineEvent =
    | Other(ev: Event)                              // of a handler not inside CreateEnv, or no handler
    | Test(t: nat, msg: string, lib: Library)       // a message for CreateEnv comes, and mEnv is tested
    | Assign(t: nat)                                // the environment is allocated and assigned
    | Bind(t: nat)                                  // the handle is bound and the reply made, or it throws

  /** The construction that a message of session `t` asks for, whether or not there is an environment already. */
  function AsksEnv(ss: seq<Session>, t: nat, msg: string, lib: Library): Option<Construction>
    requires t < |ss| && Effective(ss, t) < |ss|
  {
    var s := ss[Effective(ss, t)];
    match Parse(msg)
    case Request(ctx, Some(args)) =>
      if ctx != PROVIDER || PROVIDER !in s.ctx then None
      else (match lib.parse(args)
        case Ok(CallSpec(name, args)) =>
          if name == "CreateEnv" && |args| == 1 then Some(lib.construct(args[0], lib.show(IdOf(s)))) else None
        case Fail(_) => None)
    case _ => None
  }

  ghost predicate FineFits(f: Fine) {
    Fits(f.st) && forall t | t in f.calls :: t < |f.st.threads| && f.calls[t].e < |f.st.sessions|
  }

  ghost predicate FineEnabled(f: Fine, x: FineEvent)
    requires FineFits(f)
  {
    match x
    case Other(ev) =>
      && Enabled(f.st, ev) && (Actor(ev).Some? ==> Actor(ev).value !in f.calls)
      && (ev.Receive? ==> AsksEnv(f.st.sessions, ev.t, ev.msg, ev.lib).None?)
    case Test(t, msg, lib) =>
      Enabled(f.st, Receive(t, msg, lib)) && t !in f.calls && AsksEnv(f.st.sessions, t, msg, lib).Some?
    case Assign(t) => f.st.status.Running? && t in f.calls && !f.calls[t].given
    case Bind(t) => f.st.status.Running? && t in f.calls && f.calls[t].given
  }

  /** The call of session `t` is over, with this reply to its message. */
  function Replying(f: Fine, t: nat, msg: string, reply: Reply): Fine
    requires t < |f.st.threads|
  {
    Fine(Answered(f.st, t, msg, reply), f.calls - {t})
  }

  function Answered(st: State, t: nat, msg: string, reply: Reply): State
    requires t < |st.threads|
  {
    var th := st.threads[t];
    var th' := th.(pc := Answering(reply), asked := th.asked + [msg], answers := th.answers + [reply]);
    st.(threads := st.threads[t := th'])
  }

  function WithSession(st: State, e: nat, s: Session): State
    requires e < |st.sessions|
  {
    st.(sessions := st.sessions[e := s])
  }

  function Updated(f: Fine, e: nat, s: Session): Fine
    requires e < |f.st.sessions|
  {
    f.(st := WithSession(f.st, e, s))
  }

  ghost function FineStep(uid: Obj -> string, f: Fine, x: FineEvent): (f': Fine)
    requires FineFits(f) && FineEnabled(f, x)
    ensures FineFits(f')
  {
    match x
    case Other(ev) => f.(st := Step(uid, f.st, ev))
    case Test(t, msg, lib) =>
      var e := Effective(f.st.sessions, t);
      if f.st.sessions[e].env.Some? then Replying(f, t, msg, Reply(false, "Env already created"))
      else f.(calls := f.calls[t := Call(e, msg, AsksEnv(f.st.sessions, t, msg, lib).value, false)])
    case Assign(t) =>
      var c := f.calls[t];
      if c.made.NotAllocated? then Replying(f, t, c.msg, Reply(false, c.made.what))
      else Updated(f.(calls := f.calls[t := c.(given := true)]), c.e, f.st.sessions[c.e].(env := Some(c.made.env)))
    case Bind(t) =>
      var c := f.calls[t];
      var s := f.st.sessions[c.e];
      if c.made.NotConstructed? then Replying(f, t, c.msg, Reply(false, c.made.what))
      else if s.env.None? then f  // not reached: the call has assigned it
      else match AddContext(s, ENVIRONMENT, Model(s.env.value))
        case None => Replying(f, t, c.msg, Reply(false, "Context already exists"))
        case Some(s') => Replying(Updated(f, c.e, s'), t, c.msg, Reply(true, ENVIRONMENT))
  }

  // ---- calls that do not overlap

  /** A call under way is the only one on its provider, and stands as its phase says. */
  ghost predicate CallOk(f: Fine, t: nat)
    requires FineFits(f) && t in f.calls
  {
    var c := f.calls[t];
    var s := f.st.sessions[c.e];
    && f.st.threads[t].pc.Serving? && PROVIDER in s.ctx && ENVIRONMENT !in s.ctx
    && (!c.given ==> s.env.None?)
    && (c.given ==> !c.made.NotAllocated? && s.env == Some(c.made.env))
    && forall u | u in f.calls && u != t :: f.calls[u].e != c.e
  }

  ghost predicate CallsOk(f: Fine) {
    FineFits(f) && forall t | t in f.calls :: CallOk(f, t)
  }

  ghost predicate FineInv(uid: Obj -> string, f: Fine) {
    Inv(uid, f.st) && CallsOk(f)
  }

  /** No call starts on a provider while another one is inside CreateEnv on it. */
  ghost predicate Apart(f: Fine, x: FineEvent)
    requires FineFits(f) && FineEnabled(f, x)
  {
    x.Test? ==> forall u | u in f.calls :: f.calls[u].e != Effective(f.st.sessions, x.t)
  }

  /** What a handler inside CreateEnv may change: the provider's environment and handle, and its own state. */
  ghost predicate BooksKept(st: State, st': State) {
    && |st'.sessions| == |st.sessions| && |st'.threads| == |st.threads|
    && st'.registry == st.registry && st'.lock == st.lock && st'.accepting == st.accepting
    && st'.peak == st.peak && st'.status == st.status
    && (forall u | 0 <= u < |st.sessions| ::
          && st'.sessions[u].id == st.sessions[u].id && st'.sessions[u].attached == st.sessions[u].attached
          && (st'.sessions[u].ctx == map[] <==> st.sessions[u].ctx == map[]))
    && (forall u | 0 <= u < |st.threads| ::
          || st'.threads[u] == st.threads[u]
          || (st.threads[u].pc.Serving? && st'.threads[u].pc.Answering? && ReplyInv(st'.threads[u])))
  }

  lemma BooksKeepIds(st: State, st': State)
    requires Fits(st) && Fits(st') && IdInv(st) && BooksKept(st, st')
    ensures IdInv(st')
  {
    forall t | 0 <= t < |st'.threads| ensures ThreadIdInv(st', t) {
      assert ThreadIdInv(st, t);
    }
  }

  lemma BooksKeepCounts(st: State, st': State)
    requires Fits(st) && Fits(st') && CountInv(st) && HoleInv(st) && BooksKept(st, st')
    ensures CountInv(st') && HoleInv(st')
  {
    CountSame(st, st');
    HoleSame(st, st');
  }

  lemma BooksKeepThreads(st: State, st': State)
    requires Fits(st) && Fits(st') && BooksKept(st, st') && st.status.Running?
    requires AcceptInv(st) && LockInv(st) && StatusInv(st)
      && forall t | 0 <= t < |st.threads| :: ReplyInv(st.threads[t])
    ensures AcceptInv(st') && LockInv(st') && StatusInv(st')
      && forall t | 0 <= t < |st'.threads| :: ReplyInv(st'.threads[t])
  {
    assert forall t | 0 <= t < |st.threads| :: !st.threads[t].pc.Dying?;
  }

  lemma BooksKeepInv(uid: Obj -> string, st: State, st': State)
    requires Inv(uid, st) && st.status.Running? && BooksKept(st, st') && Fits(st') && TablesOk(uid, st'.sessions)
    ensures Inv(uid, st')
  {
    BooksKeepIds(st, st');
    BooksKeepCounts(st, st');
    BooksKeepThreads(st, st');
  }

  // ---- each step keeps the invariant and what is bound

  /** Without a construction a step leaves the environments and their handles alone. */
  lemma StepLeavesEnvs(uid: Obj -> string, st: State, ev: Event)
    requires UidsOk(uid) && Fits(st) && TablesOk(uid, st.sessions) && IdInv(st) && Enabled(st, ev)
    requires ev.Receive? ==> AsksEnv(st.sessions, ev.t, ev.msg, ev.lib).None?
    ensures EnvsKept(st.sessions, Step(uid, st, ev).sessions)
  {
    if ev.Receive? {
      MessageReadsNumber(uid, st, ev.t, ev.msg, ev.lib);
      NoConstruction(uid, st.sessions, st.registry, ev.t, ev.msg, ev.lib);
    } else {
      SilentLeavesEnvs(uid, st, ev);
    }
  }

  lemma SilentLeavesEnvs(uid: Obj -> string, st: State, ev: Event)
    requires Fits(st) && Enabled(st, ev) && !ev.Receive?
    ensures EnvsKept(st.sessions, Step(uid, st, ev).sessions)
  {
  }

  ghost predicate EnvsKept(ss: seq<Session>, ss': seq<Session>) {
    |ss| <= |ss'| && forall u | 0 <= u < |ss| ::
      ss'[u].env == ss[u].env && (ENVIRONMENT in ss'[u].ctx <==> ENVIRONMENT in ss[u].ctx)
  }

  lemma CallsKept(f: Fine, f': Fine)
    requires FineFits(f) && FineFits(f') && f'.calls == f.calls && forall t | t in f.calls :: CallOk(f, t)
    requires EnvsKept(f.st.sessions, f'.st.sessions) && Grows(f.st.sessions, f'.st.sessions)
    requires forall t | t in f.calls :: f'.st.threads[t] == f.st.threads[t]
    ensures forall t | t in f'.calls :: CallOk(f', t)
  {
    forall t | t in f'.calls ensures CallOk(f', t) {
      assert CallOk(f, t);
      assert SessionGrows(f.st.sessions[f.calls[t].e], f'.st.sessions[f.calls[t].e]);
    }
  }

  lemma OtherKept(uid: Obj -> string, f: Fine, ev: Event)
    requires UidsOk(uid) && FineInv(uid, f) && FineEnabled(f, Other(ev))
    ensures FineInv(uid, FineStep(uid, f, Other(ev)))
    ensures Grows(f.st.sessions, FineStep(uid, f, Other(ev)).st.sessions)
  {
    OtherGrows(uid, f.st, ev);
    StepKeepsInv(uid, f.st, ev);
    OtherCalls(uid, f, ev);
  }

  lemma OtherCalls(uid: Obj -> string, f: Fine, ev: Event)
    requires CallsOk(f) && FineEnabled(f, Other(ev))
    requires var ss' := Step(uid, f.st, ev).sessions; EnvsKept(f.st.sessions, ss') && Grows(f.st.sessions, ss')
    ensures CallsOk(FineStep(uid, f, Other(ev)))
  {
    StepFrame(uid, f.st, ev);
    CallsKept(f, FineStep(uid, f, Other(ev)));
  }

  lemma OtherGrows(uid: Obj -> string, st: State, ev: Event)
    requires UidsOk(uid) && Fits(st) && TablesOk(uid, st.sessions) && IdInv(st) && Enabled(st, ev)
    requires ev.Receive? ==> AsksEnv(st.sessions, ev.t, ev.msg, ev.lib).None?
    ensures var ss' := Step(uid, st, ev).sessions; EnvsKept(st.sessions, ss') && Grows(st.sessions, ss')
  {
    StepGrows(uid, st, ev);
    StepLeavesEnvs(uid, st, ev);
  }

  lemma AnsweredInv(uid: Obj -> string, st: State, t: nat, msg: string, reply: Reply)
    requires Inv(uid, st) && st.status.Running? && t < |st.threads| && st.threads[t].pc.Serving?
    ensures Inv(uid, Answered(st, t, msg, reply))
  {
    assert ReplyInv(st.threads[t]);
    AnsweredBooks(st, t, msg, reply);
    BooksKeepInv(uid, st, Answered(st, t, msg, reply));
  }

  lemma AnsweredBooks(st: State, t: nat, msg: string, reply: Reply)
    requires |st.threads| == |st.sessions| && t < |st.threads| && st.threads[t].pc.Serving? && ReplyInv(st.threads[t])
    ensures BooksKept(st, Answered(st, t, msg, reply))
  {
  }

  lemma ReplyingCalls(f: Fine, t: nat, msg: string, reply: Reply)
    requires CallsOk(f) && t < |f.st.threads|
    ensures CallsOk(Replying(f, t, msg, reply))
  {
    var f' := Replying(f, t, msg, reply);
    forall u | u in f'.calls ensures CallOk(f', u) {
      assert CallOk(f, u);
    }
  }

  /** The message has been answered, and the session's call is over if there was one. */
  lemma ReplyingKept(uid: Obj -> string, f: Fine, t: nat, msg: string, reply: Reply)
    requires FineInv(uid, f) && f.st.status.Running? && t < |f.st.threads| && f.st.threads[t].pc.Serving?
    ensures FineInv(uid, Replying(f, t, msg, reply)) && Grows(f.st.sessions, Replying(f, t, msg, reply).st.sessions)
  {
    AnsweredInv(uid, f.st, t, msg, reply);
    ReplyingCalls(f, t, msg, reply);
  }

  lemma TestKept(uid: Obj -> string, f: Fine, t: nat, msg: string, lib: Library)
    requires FineInv(uid, f) && FineEnabled(f, Test(t, msg, lib)) && Apart(f, Test(t, msg, lib))
    ensures var f' := FineStep(uid, f, Test(t, msg, lib)); FineInv(uid, f') && Grows(f.st.sessions, f'.st.sessions)
  {
    if f.st.sessions[Effective(f.st.sessions, t)].env.Some? {
      ReplyingKept(uid, f, t, msg, Reply(false, "Env already created"));
    } else {
      TestCalls(uid, f, t, msg, lib);
    }
  }

  lemma TestCalls(uid: Obj -> string, f: Fine, t: nat, msg: string, lib: Library)
    requires CallsOk(f) && TablesOk(uid, f.st.sessions)
    requires FineEnabled(f, Test(t, msg, lib)) && Apart(f, Test(t, msg, lib))
    requires f.st.sessions[Effective(f.st.sessions, t)].env.None?
    ensures CallsOk(FineStep(uid, f, Test(t, msg, lib)))
  {
    var e, f' := Effective(f.st.sessions, t), FineStep(uid, f, Test(t, msg, lib));
    assert TableOk(uid, f.st.sessions[e], e);
    assert ENVIRONMENT in f.st.sessions[e].ctx ==> EntryOk(uid, f.st.sessions[e], e, ENVIRONMENT);
    forall u | u in f'.calls ensures CallOk(f', u) {
      assert u in f.calls ==> CallOk(f, u);
    }
  }

  /** The environment of a provider is assigned, or its handle bound. */
  ghost predicate Provides(s: Session, s': Session) {
    && PROVIDER in s.ctx && ENVIRONMENT !in s.ctx && s'.env.Some?
    && (s.env.Some? ==> s'.env == s.env) && s'.id == s.id && s'.attached == s.attached
    && (s'.ctx == s.ctx || s'.ctx == s.ctx[ENVIRONMENT := Model(s'.env.value)])
  }

  lemma ProvidedTables(uid: Obj -> string, ss: seq<Session>, e: nat, s: Session)
    requires TablesOk(uid, ss) && e < |ss| && Provides(ss[e], s)
    ensures TablesOk(uid, ss[e := s])
  {
    var ss' := ss[e := s];
    forall t | 0 <= t < |ss'| ensures TableOk(uid, ss'[t], t) {
      assert TableOk(uid, ss[t], t);
      assert forall h | h in ss[t].ctx :: EntryOk(uid, ss[t], t, h);
    }
  }

  lemma ProvidedBooks(st: State, e: nat, s: Session)
    requires Fits(st) && e < |st.sessions| && Provides(st.sessions[e], s)
    ensures BooksKept(st, WithSession(st, e, s)) && Fits(WithSession(st, e, s))
    ensures Grows(st.sessions, WithSession(st, e, s).sessions)
  {
  }

  lemma ProvidedInv(uid: Obj -> string, st: State, e: nat, s: Session)
    requires Inv(uid, st) && st.status.Running? && e < |st.sessions| && Provides(st.sessions[e], s)
    ensures Inv(uid, WithSession(st, e, s)) && Grows(st.sessions, WithSession(st, e, s).sessions)
  {
    ProvidedTables(uid, st.sessions, e, s);
    ProvidedBooks(st, e, s);
    BooksKeepInv(uid, st, WithSession(st, e, s));
  }

  lemma AssignCalls(uid: Obj -> string, f: Fine, t: nat)
    requires CallsOk(f) && FineEnabled(f, Assign(t)) && !f.calls[t].made.NotAllocated?
    ensures CallsOk(FineStep(uid, f, Assign(t)))
    ensures Provides(f.st.sessions[f.calls[t].e], f.st.sessions[f.calls[t].e].(env := Some(f.calls[t].made.env)))
  {
    var c, f' := f.calls[t], FineStep(uid, f, Assign(t));
    assert CallOk(f, t);
    forall u | u in f'.calls ensures CallOk(f', u) {
      assert u in f.calls && CallOk(f, u);
      assert u != t ==> f.calls[u].e != c.e;
    }
  }

  lemma AssignKept(uid: Obj -> string, f: Fine, t: nat)
    requires FineInv(uid, f) && FineEnabled(f, Assign(t))
    ensures var f' := FineStep(uid, f, Assign(t)); FineInv(uid, f') && Grows(f.st.sessions, f'.st.sessions)
  {
    var c := f.calls[t];
    if c.made.NotAllocated? {
      assert CallOk(f, t);
      ReplyingKept(uid, f, t, c.msg, Reply(false, c.made.what));
    } else {
      AssignCalls(uid, f, t);
      ProvidedInv(uid, f.st, c.e, f.st.sessions[c.e].(env := Some(c.made.env)));
    }
  }

  lemma BindCalls(uid: Obj -> string, f: Fine, t: nat)
    requires CallsOk(f) && FineEnabled(f, Bind(t)) && f.calls[t].made.Built?
    ensures CallsOk(FineStep(uid, f, Bind(t)))
    ensures var c := f.calls[t]; var s := f.st.sessions[c.e];
      && f.st.threads[t].pc.Serving? && s.env == Some(c.made.env)
      && var s' := s.(ctx := s.ctx[ENVIRONMENT := Model(c.made.env)]);
         Provides(s, s')
           && FineStep(uid, f, Bind(t)) == Replying(Updated(f, c.e, s'), t, c.msg, Reply(true, ENVIRONMENT))
  {
    var c, f' := f.calls[t], FineStep(uid, f, Bind(t));
    assert CallOk(f, t);
    forall u | u in f'.calls ensures CallOk(f', u) {
      assert u in f.calls && CallOk(f, u);
      assert f.calls[u].e != c.e;
    }
  }

  lemma BindKept(uid: Obj -> string, f: Fine, t: nat)
    requires FineInv(uid, f) && FineEnabled(f, Bind(t))
    ensures var f' := FineStep(uid, f, Bind(t)); FineInv(uid, f') && Grows(f.st.sessions, f'.st.sessions)
  {
    var c := f.calls[t];
    assert CallOk(f, t);
    if c.made.NotConstructed? {
      ReplyingKept(uid, f, t, c.msg, Reply(false, c.made.what));
    } else {
      var s := f.st.sessions[c.e];
      var s' := s.(ctx := s.ctx[ENVIRONMENT := Model(c.made.env)]);
      BindCalls(uid, f, t);
      ProvidedInv(uid, f.st, c.e, s');
      AnsweredInv(uid, WithSession(f.st, c.e, s'), t, c.msg, Reply(true, ENVIRONMENT));
    }
  }

  lemma FineStepKept(uid: Obj -> string, f: Fine, x: FineEvent)
    requires UidsOk(uid) && FineInv(uid, f) && FineEnabled(f, x) && Apart(f, x)
    ensures var f' := FineStep(uid, f, x); FineInv(uid, f') && Grows(f.st.sessions, f'.st.sessions)
  {
    match x
    case Other(ev) => OtherKept(uid, f, ev);
    case Test(t, msg, lib) => TestKept(uid, f, t, msg, lib);
    case Assign(t) => AssignKept(uid, f, t);
    case Bind(t) => BindKept(uid, f, t);
  }

  // ---- runs

  ghost predicate FineRuns(uid: Obj -> string, f: Fine, xs: seq<FineEvent>)
    requires FineFits(f)
    decreases |xs|
  {
    xs == [] || (FineEnabled(f, xs[0]) && FineRuns(uid, FineStep(uid, f, xs[0]), xs[1..]))
  }

  ghost function FineAfter(uid: Obj -> string, f: Fine, xs: seq<FineEvent>): (f': Fine)
    requires FineFits(f) && FineRuns(uid, f, xs)
    ensures FineFits(f')
    decreases |xs|
  {
    if xs == [] then f else FineAfter(uid, FineStep(uid, f, xs[0]), xs[1..])
  }

  /** All along a run no call starts on a provider on which another one is under way. */
  ghost predicate AllApart(uid: Obj -> string, f: Fine, xs: seq<FineEvent>)
    requires FineFits(f) && FineRuns(uid, f, xs)
    decreases |xs|
  {
    xs == [] || (Apart(f, xs[0]) && AllApart(uid, FineStep(uid, f, xs[0]), xs[1..]))
  }

  /**
   As long as CreateEnv calls on one provider do not overlap, whatever else does, each environment is
   set once and a bound handle denotes it - and the whole invariant of the server holds.
  */
  lemma {:induction false} ApartSingle(uid: Obj -> string, f: Fine, xs: seq<FineEvent>)
    requires UidsOk(uid) && FineInv(uid, f) && FineRuns(uid, f, xs) && AllApart(uid, f, xs)
    ensures FineInv(uid, FineAfter(uid, f, xs)) && Grows(f.st.sessions, FineAfter(uid, f, xs).st.sessions)
    decreases |xs|
  {
    if xs != [] {
      FineStepKept(uid, f, xs[0]);
      ApartSingle(uid, FineStep(uid, f, xs[0]), xs[1..]);
      GrowsTransitive(f.st.sessions, FineStep(uid, f, xs[0]).st.sessions, FineAfter(uid, f, xs).st.sessions);
    }
  }

  /** So it is in every run of the server from its start. */
  lemma ApartFromStart(uid: Obj -> string, xs: seq<FineEvent>)
    requires UidsOk(uid) && FineRuns(uid, Fine(INITIAL, map[]), xs) && AllApart(uid, Fine(INITIAL, map[]), xs)
    ensures FineInv(uid, FineAfter(uid, Fine(INITIAL, map[]), xs))
    ensures var ss := FineAfter(uid, Fine(INITIAL, map[]), xs).st.sessions;
      forall e | 0 <= e < |ss| && ENVIRONMENT in ss[e].ctx ::
        ss[e].env.Some? && ss[e].ctx[ENVIRONMENT] == Model(ss[e].env.value)
  {
    ApartSingle(uid, Fine(INITIAL, map[]), xs);
    var ss := FineAfter(uid, Fine(INITIAL, map[]), xs).st.sessions;
    forall e | 0 <= e < |ss| && ENVIRONMENT in ss[e].ctx
      ensures ss[e].env.Some? && ss[e].ctx[ENVIRONMENT] == Model(ss[e].env.value)
    {
      assert TableOk(uid, ss[e], e) && EntryOk(uid, ss[e], e, ENVIRONMENT);
    }
  }

  // ---- calls that do overlap

  /** Two sessions wait for a message, and both look in a provider `e` that has no environment. */
  ghost predicate Rivals(f: Fine, t: nat, u: nat, e: nat)
    requires FineFits(f)
  {
    && t < |f.st.threads| && u < |f.st.threads| && t != u && t !in f.calls && u !in f.calls
    && f.st.status.Running? && f.st.threads[t].pc.Serving? && f.st.threads[u].pc.Serving?
    && Effective(f.st.sessions, t) == e == Effective(f.st.sessions, u)
    && PROVIDER in f.st.sessions[e].ctx && f.st.sessions[e].env.None?
  }

  predicate HasEnv(f: Fine, e: nat, env: Obj) {
    e < |f.st.sessions| && f.st.sessions[e].env == Some(env)
  }

  /** Whenever there are such, two overlapping calls of theirs can replace the environment. */
  lemma RivalsReplace(uid: Obj -> string, f: Fine, t: nat, u: nat, e: nat, msg: string, lib: Library, lib': Library,
                      env: Obj, env': Obj)
    requires FineFits(f) && Rivals(f, t, u, e)
    requires AsksEnv(f.st.sessions, t, msg, lib) == Some(Built(env))
    requires AsksEnv(f.st.sessions, u, msg, lib') == Some(Built(env'))
    ensures var xs := [Test(t, msg, lib), Test(u, msg, lib'), Assign(t)];
      && FineRuns(uid, f, xs) && HasEnv(FineAfter(uid, f, xs), e, env)
      && FineRuns(uid, FineAfter(uid, f, xs), [Assign(u)])
      && HasEnv(FineAfter(uid, FineAfter(uid, f, xs), [Assign(u)]), e, env')
  {
    var f1 := FineStep(uid, f, Test(t, msg, lib));
    var f2 := FineStep(uid, f1, Test(u, msg, lib'));
    var f3 := FineStep(uid, f2, Assign(t));
    OneFine(uid, f2, Assign(t), []);
    OneFine(uid, f1, Test(u, msg, lib'), [Assign(t)]);
    OneFine(uid, f, Test(t, msg, lib), [Test(u, msg, lib'), Assign(t)]);
    OneFine(uid, f3, Assign(u), []);
  }

  /** Or the handle of one call can be bound to the environment of the other. */
  lemma RivalsMisbind(uid: Obj -> string, f: Fine, t: nat, u: nat, e: nat, msg: string, lib: Library, lib': Library,
                      env: Obj, env': Obj)
    requires FineFits(f) && Rivals(f, t, u, e) && ENVIRONMENT !in f.st.sessions[e].ctx
    requires AsksEnv(f.st.sessions, t, msg, lib) == Some(Built(env))
    requires AsksEnv(f.st.sessions, u, msg, lib') == Some(Built(env'))
    ensures var xs := [Test(t, msg, lib), Test(u, msg, lib'), Assign(t), Assign(u), Bind(t)];
      && FineRuns(uid, f, xs)
      && var ss := FineAfter(uid, f, xs).st.sessions;
         e < |ss| && ENVIRONMENT in ss[e].ctx && ss[e].ctx[ENVIRONMENT] == Model(env')
  {
    var f1 := FineStep(uid, f, Test(t, msg, lib));
    var f2 := FineStep(uid, f1, Test(u, msg, lib'));
    var f3 := FineStep(uid, f2, Assign(t));
    var f4 := FineStep(uid, f3, Assign(u));
    OneFine(uid, f4, Bind(t), []);
    OneFine(uid, f3, Assign(u), [Bind(t)]);
    OneFine(uid, f2, Assign(t), [Assign(u), Bind(t)]);
    OneFine(uid, f1, Test(u, msg, lib'), [Assign(t), Assign(u), Bind(t)]);
    OneFine(uid, f, Test(t, msg, lib), [Test(u, msg, lib'), Assign(t), Assign(u), Bind(t)]);
  }

  /** Even so no access of CreateEnv changes what a handle means. */
  lemma AccessKeepsHandles(uid: Obj -> string, f: Fine, x: FineEvent)
    requires FineFits(f) && FineEnabled(f, x) && !x.Other?
    ensures var ss, ss' := f.st.sessions, FineStep(uid, f, x).st.sessions;
      |ss'| == |ss| && forall e, h | 0 <= e < |ss| && h in ss[e].ctx :: h in ss'[e].ctx && ss'[e].ctx[h] == ss[e].ctx[h]
  {
  }

  lemma OneFine(uid: Obj -> string, f: Fine, x: FineEvent, xs: seq<FineEvent>)
    requires FineFits(f) && FineEnabled(f, x) && FineRuns(uid, FineStep(uid, f, x), xs)
    ensures FineRuns(uid, f, [x] + xs) && FineAfter(uid, f, [x] + xs) == FineAfter(uid, FineStep(uid, f, x), xs)
  {
    assert ([x] + xs)[1..] == xs;
  }

  // ---- a call by itself

  /** The events of a CreateEnv message that no other call on the provider interrupts. */
  ghost function WholeCall(f: Fine, t: nat, msg: string, lib: Library): seq<FineEvent>
    requires FineFits(f) && FineEnabled(f, Test(t, msg, lib))
  {
    if f.st.sessions[Effective(f.st.sessions, t)].env.Some? then [Test(t, msg, lib)]
    else if AsksEnv(f.st.sessions, t, msg, lib).value.NotAllocated? then [Test(t, msg, lib), Assign(t)]
    else [Test(t, msg, lib), Assign(t), Bind(t)]
  }

  /** What the message comes to when it is handled in one step. */
  function InOneStep(st: State, t: nat, e: nat, msg: string, made: Construction): State
    requires t < |st.threads| && e < |st.sessions|
  {
    var s := st.sessions[e];
    if s.env.Some? then Answered(st, t, msg, Reply(false, "Env already created"))
    else match made
      case NotAllocated(what) => Answered(st, t, msg, Reply(false, what))
      case NotConstructed(env, what) => Answered(WithSession(st, e, s.(env := Some(env))), t, msg, Reply(false, what))
      case Built(env) =>
        var s' := s.(env := Some(env), ctx := s.ctx[ENVIRONMENT := Model(env)]);
        Answered(WithSession(st, e, s'), t, msg, Reply(true, ENVIRONMENT))
  }

  lemma StepIsInOneStep(uid: Obj -> string, st: State, t: nat, msg: string, lib: Library)
    requires Fits(st) && Enabled(st, Receive(t, msg, lib)) && TablesOk(uid, st.sessions) && IdInv(st)
    requires AsksEnv(st.sessions, t, msg, lib).Some?
    ensures Step(uid, st, Receive(t, msg, lib))
      == InOneStep(st, t, Effective(st.sessions, t), msg, AsksEnv(st.sessions, t, msg, lib).value)
  {
    var e := Effective(st.sessions, t);
    assert ThreadIdInv(st, t);
    assert TableOk(uid, st.sessions[e], e) && EntryOk(uid, st.sessions[e], e, PROVIDER);
    assert ENVIRONMENT in st.sessions[e].ctx ==> EntryOk(uid, st.sessions[e], e, ENVIRONMENT);
  }

  ghost predicate EndsInOneStep(uid: Obj -> string, f: Fine, t: nat, msg: string, lib: Library)
    requires FineFits(f) && FineEnabled(f, Test(t, msg, lib))
  {
    var xs, e := WholeCall(f, t, msg, lib), Effective(f.st.sessions, t);
    && FineRuns(uid, f, xs)
    && FineAfter(uid, f, xs) == Fine(InOneStep(f.st, t, e, msg, AsksEnv(f.st.sessions, t, msg, lib).value), f.calls)
  }

  lemma AllocatedInOneStep(uid: Obj -> string, f: Fine, t: nat, msg: string, lib: Library)
    requires FineFits(f) && FineEnabled(f, Test(t, msg, lib))
    requires !AsksEnv(f.st.sessions, t, msg, lib).value.NotAllocated?
    requires var s := f.st.sessions[Effective(f.st.sessions, t)]; s.env.None? && ENVIRONMENT !in s.ctx
    ensures EndsInOneStep(uid, f, t, msg, lib)
  {
    var f1 := FineStep(uid, f, Test(t, msg, lib));
    var f2 := FineStep(uid, f1, Assign(t));
    assert f2.calls - {t} == f.calls;
    OneFine(uid, f2, Bind(t), []);
    OneFine(uid, f1, Assign(t), [Bind(t)]);
    OneFine(uid, f, Test(t, msg, lib), [Assign(t), Bind(t)]);
  }

  lemma UnallocatedInOneStep(uid: Obj -> string, f: Fine, t: nat, msg: string, lib: Library)
    requires FineFits(f) && FineEnabled(f, Test(t, msg, lib))
    requires AsksEnv(f.st.sessions, t, msg, lib).value.NotAllocated?
      || f.st.sessions[Effective(f.st.sessions, t)].env.Some?
    ensures EndsInOneStep(uid, f, t, msg, lib)
  {
    var f1 := FineStep(uid, f, Test(t, msg, lib));
    assert f.calls - {t} == f.calls;
    if f.st.sessions[Effective(f.st.sessions, t)].env.Some? {
      OneFine(uid, f, Test(t, msg, lib), []);
    } else {
      assert f1.calls - {t} == f.calls;
      OneFine(uid, f1, Assign(t), []);
      OneFine(uid, f, Test(t, msg, lib), [Assign(t)]);
    }
  }

  /** In a row they are the one step that module Server makes of the message. */
  lemma WholeCallIsStep(uid: Obj -> string, f: Fine, t: nat, msg: string, lib: Library)
    requires FineInv(uid, f) && FineEnabled(f, Test(t, msg, lib))
    ensures var xs := WholeCall(f, t, msg, lib);
      FineRuns(uid, f, xs) && FineAfter(uid, f, xs) == Fine(Step(uid, f.st, Receive(t, msg, lib)), f.calls)
  {
    var e := Effective(f.st.sessions, t);
    assert TableOk(uid, f.st.sessions[e], e);
    assert ENVIRONMENT in f.st.sessions[e].ctx ==> EntryOk(uid, f.st.sessions[e], e, ENVIRONMENT);
    StepIsInOneStep(uid, f.st, t, msg, lib);
    if f.st.sessions[e].env.Some? || AsksEnv(f.st.sessions, t, msg, lib).value.NotAllocated? {
      UnallocatedInOneStep(uid, f, t, msg, lib);
    } else {
      AllocatedInOneStep(uid, f, t, msg, lib);
    }
  }
}
