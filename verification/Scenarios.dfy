/**
 Concrete runs of the server that show what can go wrong: ids that repeat, an environment that is not
 bound, and the death of the server.
*/
module ServerScenarios {
  import opened Wrappers
  import opened Wire
  import opened Sessions
  import opened Ids
  import opened Server

  /** The events of one client connecting as session `n`. */
  function Connect(n: nat): seq<Event> {
    [Accept, Install, Lock(n), Inside(n), Inside(n), Unlock(n)]
  }

  /** The events of session `t` leaving. */
  function Leave(t: nat): seq<Event> {
    [Disconnect(t), Lock(t), Inside(t), Inside(t), Unlock(t)]
  }

  ghost predicate Idle(st: State) {
    Fits(st) && st.status.Running? && st.lock.None? && st.accepting.None?
  }

  ghost predicate Leads(uid: Obj -> string, st: State, es: seq<Event>, st': State) {
    Fits(st) && Runs(uid, st, es) && After(uid, st, es) == st'
  }

  lemma LeadsStep(uid: Obj -> string, st: State, es: seq<Event>, e: Event, st': State)
    requires Leads(uid, st, es, st') && Enabled(st', e)
    ensures Leads(uid, st, es + [e], Step(uid, st', e))
  {
    assert [e][1..] == [];
    assert Runs(uid, Step(uid, st', e), []);
    assert Runs(uid, st', [e]);
    assert After(uid, st', [e]) == Step(uid, st', e);
    RunsConcat(uid, st, es, [e]);
  }

  function Connected(st: State): State {
    var n := |st.sessions|;
    var r := |st.registry|;
    st.(sessions := st.sessions + [Session(Some(r), None, map[PROVIDER := Provider(n)], None)],
        threads := st.threads + [Thread(Serving, [], [], [])],
        registry := st.registry + [n],
        peak := if r + 1 > st.peak then r + 1 else st.peak)
  }

  /** A constructed session whose handler has the mutex. */
  function Admitted(st: State): State {
    var n := |st.sessions|;
    st.(sessions := st.sessions + [Session(None, None, map[PROVIDER := Provider(n)], None)],
        threads := st.threads + [Thread(RegLocked, [], [], [])],
        lock := Some(n))
  }

  lemma ConnectAdmits(uid: Obj -> string, st: State)
    requires Idle(st)
    ensures Leads(uid, st, [Accept, Install, Lock(|st.sessions|)], Admitted(st))
  {
    var n := |st.sessions|;
    var s1 := Step(uid, st, Accept);
    var s2 := Step(uid, s1, Install);
    assert Leads(uid, st, [], st);
    LeadsStep(uid, st, [], Accept, st);
    LeadsStep(uid, st, [] + [Accept], Install, s1);
    LeadsStep(uid, st, [] + [Accept] + [Install], Lock(n), s2);
    assert [Accept, Install, Lock(n)] == [] + [Accept] + [Install] + [Lock(n)];
    var last := Step(uid, s2, Lock(n));
    assert last.sessions == Admitted(st).sessions;
    assert last.threads == Admitted(st).threads;
  }

  lemma ConnectLeads(uid: Obj -> string, st: State)
    requires Idle(st)
    ensures Leads(uid, st, Connect(|st.sessions|), Connected(st))
  {
    var n := |st.sessions|;
    var s3 := Admitted(st);
    var s4 := Step(uid, s3, Inside(n));
    var s5 := Step(uid, s4, Inside(n));
    var es := [Accept, Install, Lock(n)];
    ConnectAdmits(uid, st);
    LeadsStep(uid, st, es, Inside(n), s3);
    LeadsStep(uid, st, es + [Inside(n)], Inside(n), s4);
    LeadsStep(uid, st, es + [Inside(n)] + [Inside(n)], Unlock(n), s5);
    assert Connect(n) == es + [Inside(n)] + [Inside(n)] + [Unlock(n)];
    var last := Step(uid, s5, Unlock(n));
    assert last.sessions == Connected(st).sessions;
    assert last.threads == Connected(st).threads;
  }

  function Left(st: State, t: nat, i: nat): State
    requires t < |st.threads| && i < |st.registry|
  {
    Goto(st, t, Finished).(registry := Without(st.registry, i))
  }

  lemma LeaveLooksUp(uid: Obj -> string, st: State, t: nat)
    requires Idle(st) && t < |st.threads| && st.threads[t].pc.Serving? && LookupSucceeds(st, t)
    ensures var i := FindById(st.sessions, st.registry, st.sessions[t].id.value);
      Leads(uid, st, [Disconnect(t), Lock(t), Inside(t)], Goto(st, t, EraseFound(i)).(lock := Some(t)))
  {
    var s1 := Step(uid, st, Disconnect(t));
    var s2 := Step(uid, s1, Lock(t));
    assert s2 == Goto(st, t, EraseLocked).(lock := Some(t));
    assert Leads(uid, st, [], st);
    LeadsStep(uid, st, [], Disconnect(t), st);
    LeadsStep(uid, st, [] + [Disconnect(t)], Lock(t), s1);
    LeadsStep(uid, st, [] + [Disconnect(t)] + [Lock(t)], Inside(t), s2);
    assert [Disconnect(t), Lock(t), Inside(t)] == [] + [Disconnect(t)] + [Lock(t)] + [Inside(t)];
  }

  lemma LeaveErases(uid: Obj -> string, st: State, t: nat, i: nat)
    requires Idle(st) && t < |st.threads| && i < |st.registry|
    ensures Leads(uid, Goto(st, t, EraseFound(i)).(lock := Some(t)), [Inside(t), Unlock(t)], Left(st, t, i))
  {
    var s3 := Goto(st, t, EraseFound(i)).(lock := Some(t));
    var s4 := Step(uid, s3, Inside(t));
    assert Leads(uid, s3, [], s3);
    LeadsStep(uid, s3, [], Inside(t), s3);
    LeadsStep(uid, s3, [] + [Inside(t)], Unlock(t), s4);
    assert [Inside(t), Unlock(t)] == [] + [Inside(t)] + [Unlock(t)];
    assert Step(uid, s4, Unlock(t)).threads == Left(st, t, i).threads;
  }

  lemma LeaveLeads(uid: Obj -> string, st: State, t: nat)
    requires Idle(st) && t < |st.threads| && st.threads[t].pc.Serving? && LookupSucceeds(st, t)
    ensures Leads(uid, st, Leave(t), Left(st, t, FindById(st.sessions, st.registry, st.sessions[t].id.value)))
  {
    var i := FindById(st.sessions, st.registry, st.sessions[t].id.value);
    var s3 := Goto(st, t, EraseFound(i)).(lock := Some(t));
    LeaveLooksUp(uid, st, t);
    LeaveErases(uid, st, t, i);
    LeadsOn(uid, st, [Disconnect(t), Lock(t), Inside(t)], s3, [Inside(t), Unlock(t)], Left(st, t, i));
    assert Leave(t) == [Disconnect(t), Lock(t), Inside(t)] + [Inside(t), Unlock(t)];
  }

  lemma LeadsOn(uid: Obj -> string, st: State, es: seq<Event>, st': State, fs: seq<Event>, st'': State)
    requires Leads(uid, st, es, st') && Leads(uid, st', fs, st'')
    ensures Leads(uid, st, es + fs, st'')
  {
    RunsConcat(uid, st, es, fs);
  }

  /** Session `t` is served under the number `id`. */
  ghost predicate Serves(st: State, t: nat, id: nat) {
    t < |st.threads| == |st.sessions| && st.threads[t].pc.Serving? && st.sessions[t].id == Some(id)
  }

  /** Two clients connect, the first leaves and a third connects. */
  function Doubled(): seq<Event> {
    Connect(0) + Connect(1) + Leave(0) + Connect(2)
  }

  lemma OneConnects(uid: Obj -> string) returns (st: State)
    ensures Leads(uid, INITIAL, Connect(0), st) && Idle(st)
    ensures |st.sessions| == 1 && st.registry == [0] && Serves(st, 0, 0)
  {
    ConnectLeads(uid, INITIAL);
    st := Connected(INITIAL);
  }

  lemma TwoConnect(uid: Obj -> string) returns (st: State)
    ensures Leads(uid, INITIAL, Connect(0) + Connect(1), st) && Idle(st)
    ensures |st.sessions| == 2 && st.registry == [0, 1] && Serves(st, 0, 0) && Serves(st, 1, 1)
  {
    var s1 := OneConnects(uid);
    ConnectLeads(uid, s1);
    st := Connected(s1);
    LeadsOn(uid, INITIAL, Connect(0), s1, Connect(1), st);
  }

  lemma FirstLeaves(uid: Obj -> string) returns (st: State)
    ensures Leads(uid, INITIAL, Connect(0) + Connect(1) + Leave(0), st) && Idle(st)
    ensures |st.sessions| == 2 && st.registry == [1] && Serves(st, 1, 1)
  {
    var s2 := TwoConnect(uid);
    assert s2.sessions[s2.registry[0]].id == Some(0);
    assert FindById(s2.sessions, s2.registry, 0) == 0;
    LeaveLeads(uid, s2, 0);
    st := Left(s2, 0, 0);
    LeadsOn(uid, INITIAL, Connect(0) + Connect(1), s2, Leave(0), st);
  }

  /** A reachable state in which two served sessions have the same id. */
  lemma IdsRepeat(uid: Obj -> string) returns (st: State)
    ensures Leads(uid, INITIAL, Doubled(), st) && Idle(st)
    ensures st.registry == [1, 2] && Serves(st, 1, 1) && Serves(st, 2, 1)
  {
    var s3 := FirstLeaves(uid);
    ConnectLeads(uid, s3);
    st := Connected(s3);
    LeadsOn(uid, INITIAL, Connect(0) + Connect(1) + Leave(0), s3, Connect(2), st);
  }

  /** The next leaver then erases the entry of the session with the same id. */
  lemma LeaverErasesAnother(uid: Obj -> string, st: State) returns (st': State)
    requires Idle(st) && st.registry == [1, 2] && Serves(st, 1, 1) && Serves(st, 2, 1)
    ensures Leads(uid, st, Leave(2), st')
    ensures st'.registry == [2] && st'.threads[2].pc.Finished? && Serves(st', 1, 1)
  {
    assert st.sessions[st.registry[0]].id == Some(1);
    assert FindById(st.sessions, st.registry, 1) == 0;
    LeaveLeads(uid, st, 2);
    st' := Left(st, 2, 0);
  }

  // ---- messages

  /** The answer to a message has been sent. */
  function Sent(st: State, t: nat): State
    requires t < |st.threads| && st.threads[t].pc.Answering?
  {
    var th := st.threads[t];
    st.(threads := st.threads[t := th.(pc := Serving, sent := th.sent + [th.pc.reply])])
  }

  lemma AnswerLeads(uid: Obj -> string, st: State, t: nat)
    requires Idle(st) && t < |st.threads| && st.threads[t].pc.Answering?
    ensures Leads(uid, st, [Lock(t), Inside(t), Unlock(t)], Sent(st, t))
  {
    var s1 := Step(uid, st, Lock(t));
    var s2 := Step(uid, s1, Inside(t));
    assert Leads(uid, st, [], st);
    LeadsStep(uid, st, [], Lock(t), st);
    LeadsStep(uid, st, [] + [Lock(t)], Inside(t), s1);
    LeadsStep(uid, st, [] + [Lock(t)] + [Inside(t)], Unlock(t), s2);
    assert [Lock(t), Inside(t), Unlock(t)] == [] + [Lock(t)] + [Inside(t)] + [Unlock(t)];
    assert Step(uid, s2, Unlock(t)).threads == Sent(st, t).threads;
  }

  /** A message of session `t` is handled and answered. */
  lemma MessageLeads(uid: Obj -> string, st: State, t: nat, msg: string, lib: Library)
      returns (es: seq<Event>, st': State)
    requires Idle(st) && t < |st.threads| && st.threads[t].pc.Serving?
    requires Handle(uid, st.sessions, st.registry, t, msg, lib).Replied?
    ensures Leads(uid, st, es, st') && Idle(st') && |st'.threads| == |st.threads| && st'.threads[t].pc.Serving?
    ensures st'.sessions == Handle(uid, st.sessions, st.registry, t, msg, lib).ss && st'.registry == st.registry
  {
    var e := Receive(t, msg, lib);
    var s1 := Step(uid, st, e);
    assert Leads(uid, st, [], st);
    LeadsStep(uid, st, [], e, st);
    AnswerLeads(uid, s1, t);
    LeadsOn(uid, st, [] + [e], s1, [Lock(t), Inside(t), Unlock(t)], Sent(s1, t));
    es, st' := [] + [e] + [Lock(t), Inside(t), Unlock(t)], Sent(s1, t);
  }

  /** Libraries that take every specification for a CreateEnv, which ends as `made`; models answer with one object. */
  function Creating(made: Construction): Library {
    Library(_ => Ok(CallSpec("CreateEnv", [""])), (_, _) => Returned(1), (_, _) => made, _ => "", _ => 0)
  }

  /** The one session of a server that one client has connected to, given an environment. */
  lemma EnvironmentMade(uid: Obj -> string, made: Construction) returns (es: seq<Event>, st: State)
    requires !made.NotAllocated?
    ensures Leads(uid, INITIAL, es, st) && Idle(st) && |st.sessions| == 1 && st.threads[0].pc.Serving?
    ensures st.sessions[0] == Session(Some(0), Some(made.env),
      if made.Built? then map[PROVIDER := Provider(0), ENVIRONMENT := Model(made.env)]
      else map[PROVIDER := Provider(0)], None)
  {
    ConnectLeads(uid, INITIAL);
    var st0 := Connected(INITIAL);
    CreateEnvMade(uid, st0.sessions, st0.registry, made);
    var fs;
    fs, st := MessageLeads(uid, st0, 0, Framed(PROVIDER, ""), Creating(made));
    LeadsOn(uid, INITIAL, Connect(0), st0, fs, st);
    es := Connect(0) + fs;
  }

  lemma CreateEnvMade(uid: Obj -> string, ss: seq<Session>, registry: seq<nat>, made: Construction)
    requires ss == [Session(Some(0), None, map[PROVIDER := Provider(0)], None)] && PointersOk(ss, registry)
    requires !made.NotAllocated?
    ensures var o := Handle(uid, ss, registry, 0, Framed(PROVIDER, ""), Creating(made));
      && o.Replied? && |o.ss| == 1
      && o.ss[0] == Session(Some(0), Some(made.env),
        if made.Built? then map[PROVIDER := Provider(0), ENVIRONMENT := Model(made.env)]
          else map[PROVIDER := Provider(0)], None)
  {
    HandleFramed(uid, ss, registry, 0, PROVIDER, "", Creating(made));
    assert Lookup(ss, 0, PROVIDER) == Some(Provider(0));
    assert ProviderCall(ss, registry, 0, "", Creating(made)) == CreateEnv(ss, 0, "", Creating(made));
  }

  /** A reachable state in which a session has an environment without a handle. */
  lemma UnboundReached(uid: Obj -> string) returns (es: seq<Event>, st: State)
    ensures Leads(uid, INITIAL, es, st) && Idle(st)
    ensures |st.sessions| == 1 && st.sessions[0].env.Some? && ENVIRONMENT !in st.sessions[0].ctx
  {
    es, st := EnvironmentMade(uid, NotConstructed(0, ""));
  }

  /** A client whose request on its environment gives the same interface twice kills the server; "Root" is one. */
  lemma SecondRootKills(uid: Obj -> string, args: string) returns (es: seq<Event>, st: State)
    requires UidsOk(uid)
    ensures Leads(uid, INITIAL, es, st) && st.status.Killed?
  {
    var s1, s2, fs;
    var lib := Creating(Built(0));
    es, s1 := EnvironmentMade(uid, Built(0));
    RootAsked(uid, s1.sessions, s1.registry, args, lib);
    fs, s2 := MessageLeads(uid, s1, 0, Framed(ENVIRONMENT, args), lib);
    LeadsOn(uid, INITIAL, es, s1, fs, s2);
    RootAsked(uid, s2.sessions, s2.registry, args, lib);
    var e := Receive(0, Framed(ENVIRONMENT, args), lib);
    LeadsStep(uid, INITIAL, es + fs, e, s2);
    es, st := es + fs + [e], Step(uid, s2, e);
  }

  lemma RootAsked(uid: Obj -> string, ss: seq<Session>, registry: seq<nat>, args: string, lib: Library)
    requires UidsOk(uid) && |ss| == 1 && PointersOk(ss, registry) && ss[0].attached.None?
    requires ENVIRONMENT in ss[0].ctx && ss[0].ctx[ENVIRONMENT].Model?
    requires lib.call(ss[0].ctx[ENVIRONMENT].obj, args) == Returned(1)
    ensures var o := Handle(uid, ss, registry, 0, Framed(ENVIRONMENT, args), lib);
      if uid(1) in ss[0].ctx then o == Terminated(ss)
      else o.Replied? && o.ss == [ss[0].(ctx := ss[0].ctx[uid(1) := Model(1)])]
  {
    HandleFramed(uid, ss, registry, 0, ENVIRONMENT, args, lib);
  }
}
