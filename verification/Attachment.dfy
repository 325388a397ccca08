/** Sharing an environment: one client asks for its id, another attaches by it. */
module Attachment {
  import opened Wrappers
  import opened Wire
  import opened Sessions
  import opened Ids
  import opened Server
  import opened ServerRuns
  import opened ServerHistories
  import opened ServerOwnership
  import opened Remote

  /** The libraries read an id as they show it, and parse the two calls. */
  ghost predicate IdLibrary(lib: Library, id: nat) {
    && lib.read(lib.show(id)) == id
    && NUL !in lib.show(id) && 0 < |lib.show(id)| <= 20
    && lib.parse("GetId") == Ok(CallSpec("GetId", []))
    && lib.parse("AttachEnv,1," + lib.show(id)) == Ok(CallSpec("AttachEnv", [lib.show(id)]))
  }

  /** Session `t` is registered, on its own, and its constructor has returned. */
  ghost predicate Alone(st: State, t: nat)
    requires Fits(st)
  {
    t < |st.threads| && Listed(st.threads[t].pc) && st.sessions[t].attached.None? && st.accepting != Some(t)
  }

  lemma ProviderFound(uid: Obj -> string, st: State, t: nat)
    requires Inv(uid, st) && Alone(st, t)
    ensures Lookup(st.sessions, t, PROVIDER) == Some(Provider(t)) && st.sessions[t].id.Some?
  {
    assert TableOk(uid, st.sessions[t], t);
    assert EntryOk(uid, st.sessions[t], t, PROVIDER);
    assert ThreadIdInv(st, t);
  }

  /** A session is told its id. */
  lemma GivenId(uid: Obj -> string, st: State, u: nat, lib: Library)
    requires Inv(uid, st) && Alone(st, u) && IdLibrary(lib, IdOf(st.sessions[u]))
    ensures st.sessions[u].id.Some?
    ensures RemoteCall(uid, st.sessions, st.registry, u, PROVIDER, "GetId", lib)
      == Answered(st.sessions, Reply(true, lib.show(st.sessions[u].id.value)))
  {
    ProviderFound(uid, st, u);
    CallTransparent(uid, st.sessions, st.registry, u, PROVIDER, "GetId", lib);
    var text := lib.show(st.sessions[u].id.value);
    assert ReplyFits(text) && text != "";
  }

  /**
   Attaching by the id of session `u` reaches the session of the first registry entry that has it, or
   fails when none has; it is `u`, which need not be on its own, exactly when `u` has an entry and none
   before has the same id.
  */
  lemma AttachByGivenId(uid: Obj -> string, st: State, u: nat, t: nat, lib: Library)
    requires Inv(uid, st) && u < |st.sessions| && st.sessions[u].id.Some? && Alone(st, t)
    requires IdLibrary(lib, st.sessions[u].id.value)
    ensures Listed(st.threads[u].pc) ==> LookupSucceeds(st, u)
    ensures var id := st.sessions[u].id.value;
      var r := RemoteCall(uid, st.sessions, st.registry, t, PROVIDER, "AttachEnv,1," + lib.show(id), lib);
      var i := FindById(st.sessions, st.registry, id);
      && (i < |st.registry| ==> r == Answered(Attached(st, t, st.registry[i]), Reply(true, "OK")))
      && (i == |st.registry| ==> r.Answered? && r.ss == st.sessions && !r.reply.ok)
      && (i < |st.registry| && st.registry[i] == u <==> FirstWithItsId(st, u))
  {
    ProviderFound(uid, st, t);
    AttachCall(uid, st, t, lib, st.sessions[u].id.value);
    FoundIsFirst(st, u);
    if Listed(st.threads[u].pc) {
      LeaverFindsEntry(st, u);
    }
  }

  lemma FoundIsFirst(st: State, u: nat)
    requires Fits(st) && u < |st.sessions| && st.sessions[u].id.Some?
    ensures var i := FindById(st.sessions, st.registry, st.sessions[u].id.value);
      i < |st.registry| && st.registry[i] == u <==> FirstWithItsId(st, u)
  {
  }

  lemma AttachCall(uid: Obj -> string, st: State, t: nat, lib: Library, id: nat)
    requires Fits(st) && t < |st.sessions| && Lookup(st.sessions, t, PROVIDER) == Some(Provider(t))
    requires IdLibrary(lib, id)
    ensures var r := RemoteCall(uid, st.sessions, st.registry, t, PROVIDER, "AttachEnv,1," + lib.show(id), lib);
      var i := FindById(st.sessions, st.registry, id);
      && (i < |st.registry| ==> r == Answered(Attached(st, t, st.registry[i]), Reply(true, "OK")))
      && (i == |st.registry| ==> r.Answered? && r.ss == st.sessions && !r.reply.ok)
  {
    CallTransparent(uid, st.sessions, st.registry, t, PROVIDER, "AttachEnv,1," + lib.show(id), lib);
    assert ReplyFits("OK");
  }

  ghost predicate AloneIn(st: State, t: nat) {
    Fits(st) && Alone(st, t)
  }

  /**
   Over a run: session `u` is told its id, and later, whatever has happened since, `t` attaches by
   what `u` was told.
  */
  lemma ToldThenAttached(uid: Obj -> string, es: seq<Event>, i: nat, j: nat, u: nat, t: nat, lib: Library)
    requires UidsOk(uid) && Runs(uid, INITIAL, es) && i <= j <= |es|
    requires AloneIn(Trace(uid, INITIAL, es)[i], u) && AloneIn(Trace(uid, INITIAL, es)[j], t)
    requires IdLibrary(lib, IdOf(Trace(uid, INITIAL, es)[i].sessions[u]))
    ensures var st, st' := Trace(uid, INITIAL, es)[i], Trace(uid, INITIAL, es)[j];
      var told := RemoteCall(uid, st.sessions, st.registry, u, PROVIDER, "GetId", lib);
      && told.Answered? && told.reply.ok
      && u < |st'.sessions| && st'.sessions[u].id == st.sessions[u].id && st'.sessions[u].id.Some?
      && var r := RemoteCall(uid, st'.sessions, st'.registry, t, PROVIDER, "AttachEnv,1," + told.reply.text, lib);
      var k := FindById(st'.sessions, st'.registry, st'.sessions[u].id.value);
      && (k < |st'.registry| ==> r == Answered(Attached(st', t, st'.registry[k]), Reply(true, "OK")))
      && (k == |st'.registry| ==> r.Answered? && r.ss == st'.sessions && !r.reply.ok)
      && (k < |st'.registry| && st'.registry[k] == u <==> FirstWithItsId(st', u))
  {
    var st, st' := Trace(uid, INITIAL, es)[i], Trace(uid, INITIAL, es)[j];
    TraceInv(uid, INITIAL, es, i);
    TraceInv(uid, INITIAL, es, j);
    GivenId(uid, st, u, lib);
    RunGrows(uid, es, i, j);
    assert SessionGrows(st.sessions[u], st'.sessions[u]);
    AttachByGivenId(uid, st', u, t, lib);
  }

  function Attached(st: State, t: nat, u: nat): seq<Session>
    requires t < |st.sessions|
  {
    st.sessions[t := st.sessions[t].(attached := Some(u))]
  }

  /** While the ids cover 0..n-1 that is the very session with the id, when it is registered. */
  lemma CoveredIdsAttachOwner(uid: Obj -> string, st: State, u: nat, t: nat, lib: Library)
    requires Inv(uid, st) && Covers(RegistryIds(st.sessions, st.registry))
    requires u < |st.threads| && Listed(st.threads[u].pc) && Alone(st, t) && IdLibrary(lib, IdOf(st.sessions[u]))
    ensures st.sessions[u].id.Some?
    ensures var args := "AttachEnv,1," + lib.show(st.sessions[u].id.value);
      RemoteCall(uid, st.sessions, st.registry, t, PROVIDER, args, lib)
        == Answered(Attached(st, t, u), Reply(true, "OK"))
  {
    assert ThreadIdInv(st, u);
    CoveredIdsFindOwner(uid, st, u);
    AttachByGivenId(uid, st, u, t, lib);
  }

  /**
   The attached session reaches the other's environment, but the root it gets is registered in its
   own table, where it does not look: it can use the handle exactly when the other has it too.
  */
  lemma RootThroughAttachment(uid: Obj -> string, ss: seq<Session>, registry: seq<nat>, t: nat, u: nat, lib: Library,
                              r: Obj)
    requires PointersOk(ss, registry) && t < |ss| && u < |ss| && t != u && UidsTravel(uid)
    requires ss[t].attached == Some(u) && ss[u].env.Some? && ENVIRONMENT in ss[u].ctx
    requires ss[u].ctx[ENVIRONMENT] == Model(ss[u].env.value)
    requires lib.call(ss[u].env.value, "Root") == Returned(r) && uid(r) !in ss[t].ctx
    ensures var ss' := ss[t := ss[t].(ctx := ss[t].ctx[uid(r) := Model(r)])];
      && RemoteCall(uid, ss, registry, t, ENVIRONMENT, "Root", lib) == Answered(ss', Reply(true, uid(r)))
      && (Lookup(ss', t, uid(r)).Some? <==> uid(r) in ss[u].ctx)
  {
    ModelCallTransparent(uid, ss, registry, t, ENVIRONMENT, ss[u].env.value, "Root", lib);
  }
}
