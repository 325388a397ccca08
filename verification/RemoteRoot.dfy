/**
 Node mutations of `ARenv` in a run of the server: each asks for an environment and its root; at most
 one gets them.
*/
module RemoteRoot {
  import opened Wrappers
  import opened Wire
  import opened Sessions
  import opened Server
  import opened ServerRuns
  import opened ServerHistories
  import opened Remote
  import opened Proxies
  import opened ProxyObjects
  import opened Connection
  import Mutations

  // ---- what a node mutation relies on

  /** The first word of `text` names nothing. */
  ghost predicate NamesNothing(uid: Obj -> string, text: string) {
    var w := FirstWord(text);
    w != PROVIDER && w != ENVIRONMENT && forall x: Obj :: uid(x) != w
  }

  /** So it is with the error text `what`, as it arrives. */
  ghost predicate NoHandle(uid: Obj -> string, what: string) {
    NamesNothing(uid, Arrives(what))
  }

  /** The error texts of CreateEnv itself. */
  const PROVIDER_ERRORS := ["Env already created", "Wrong arguments number"]

  /** How the libraries behave towards node mutations. */
  ghost predicate LibraryOk(uid: Obj -> string, lib: Library) {
    && (forall s :: var p := lib.parse("CreateEnv,1," + s);
          match p
          case Ok(call) => call.name == "CreateEnv"
          case Fail(what) => NoHandle(uid, what))
    && (forall chromo, id ::
          match lib.construct(chromo, id)
          case NotAllocated(what) => NoHandle(uid, what)
          case NotConstructed(_, what) => NoHandle(uid, what)
          case Built(_) => true)
    && (forall env :: !lib.call(env, "Root").Text?)
    && (forall i | 0 <= i < |PROVIDER_ERRORS| :: NoHandle(uid, PROVIDER_ERRORS[i]))
  }

  ghost predicate IsHandle(uid: Obj -> string, h: string) {
    h == PROVIDER || h == ENVIRONMENT || exists x :: uid(x) == h
  }

  /** Session `t` as its own node mutations leave it. */
  ghost predicate Plain(uid: Obj -> string, s: Session, t: nat) {
    && s.attached.None? && s.id.Some?
    && PROVIDER in s.ctx && s.ctx[PROVIDER] == Provider(t)
    && (forall h | h in s.ctx :: IsHandle(uid, h))
    && (s.env.None? ==> s.ctx.Keys == {PROVIDER})
  }

  /**
   Proxy `p`, new and managed by the connection, has the handle of what the environment returns as its
   root, and it denotes that.
  */
  ghost predicate IsRootOf(uid: Obj -> string, s: Session, f: seq<Proxy>, p: nat, lib: Library) {
    && p < |f| && s.env.Some?
    && var out := lib.call(s.env.value, "Root");
       out.Returned? && f[p] == Proxy(uid(out.obj), None, "", map[])
       && uid(out.obj) in s.ctx && s.ctx[uid(out.obj)] == Model(out.obj)
  }

  /** What constructing comes to for call specification `args` of a session with number `id`, if it gets that far. */
  function ConstructionOf(lib: Library, id: nat, args: string): Option<Construction> {
    match lib.parse(args)
    case Ok(CallSpec(name, cargs)) =>
      if name == "CreateEnv" && |cargs| == 1 then Some(lib.construct(cargs[0], lib.show(id))) else None
    case Fail(_) => None
  }

  /** What it comes to for a node mutation with this text, of which the server reads what arrives. */
  function MadeOf(lib: Library, id: nat, text: string): Option<Construction> {
    match Received(Framed(PROVIDER, "CreateEnv,1," + text))
    case None => None
    case Some(msg) => if |msg| <= |PROVIDER| then None else ConstructionOf(lib, id, msg[|PROVIDER| + 1..])
  }

  /** A text that fits is read as it is. */
  lemma MadeOfText(lib: Library, id: nat, text: string, chromo: string)
    requires NUL !in text && |text| <= 206 && lib.parse("CreateEnv,1," + text) == Ok(CallSpec("CreateEnv", [chromo]))
    ensures MadeOf(lib, id, text) == Some(lib.construct(chromo, lib.show(id)))
  {
    var args := "CreateEnv,1," + text;
    var msg := Framed(PROVIDER, args);
    assert |PROVIDER| == 11 && |args| == 12 + |text|;
    assert NUL !in PROVIDER && NUL !in "CreateEnv,1,";
    assert NUL !in msg;
    ReceivedWhole(msg);
    assert msg[|PROVIDER| + 1..] == args;
  }

  /** The construction that has given a session its environment, after one more. */
  function FirstOf(first: Option<Construction>, made: Option<Construction>): Option<Construction> {
    if first.Some? then first else if made.Some? && !made.value.NotAllocated? then made else None
  }

  /** What the first node mutation among `calls` that `make` allocates an environment for comes to. */
  function FirstAllocated(make: string -> Option<Construction>, calls: seq<Mutations.Action>): Option<Construction> {
    if calls == [] then None
    else
      var last, before := calls[|calls| - 1], FirstAllocated(make, calls[..|calls| - 1]);
      if last.AddElemRmt? then FirstOf(before, make(last.m.text)) else before
  }

  predicate Allocates(make: string -> Option<Construction>, a: Mutations.Action) {
    a.AddElemRmt? && make(a.m.text).Some? && !make(a.m.text).value.NotAllocated?
  }

  lemma {:induction false} NoneAllocated(make: string -> Option<Construction>, calls: seq<Mutations.Action>)
    requires forall j | 0 <= j < |calls| :: !Allocates(make, calls[j])
    ensures FirstAllocated(make, calls) == None
  {
    if calls != [] {
      assert !Allocates(make, calls[|calls| - 1]);
      NoneAllocated(make, calls[..|calls| - 1]);
    }
  }

  /** It is the call `k` for which it does, when it does for none before. */
  lemma {:induction false} FirstAllocatedIs(make: string -> Option<Construction>, calls: seq<Mutations.Action>, k: nat)
    requires k < |calls| && Allocates(make, calls[k])
    requires forall j | 0 <= j < k :: !Allocates(make, calls[j])
    ensures FirstAllocated(make, calls) == make(calls[k].m.text)
  {
    var n := |calls| - 1;
    if k < n {
      FirstAllocatedIs(make, calls[..n], k);
    } else {
      NoneAllocated(make, calls[..n]);
    }
  }

  function Maker(lib: Library, id: nat): string -> Option<Construction> {
    text => MadeOf(lib, id, text)
  }

  /** The construction that gives a session with number `id` its environment, when `calls` are made on it. */
  function FirstMade(lib: Library, id: nat, calls: seq<Mutations.Action>): Option<Construction> {
    FirstAllocated(Maker(lib, id), calls)
  }

  /**
   The environment of the session is the one that construction `first` has made, bound if and only if
   that was completed. A proxy beyond the first `made` has been made if and only if, besides, the
   environment returns a root; it is the remote root.
  */
  ghost predicate HasItsRoot(uid: Obj -> string, s: Session, f: seq<Proxy>, root: Option<nat>, lib: Library, made: nat,
                             first: Option<Construction>)
  {
    && (first.Some? ==> !first.value.NotAllocated?)
    && s.env == (if first.Some? then Some(first.value.env) else None)
    && (ENVIRONMENT in s.ctx <==> first.Some? && first.value.Built?)
    && (root.Some? <==> first.Some? && first.value.Built? && lib.call(first.value.env, "Root").Returned?)
    && match root
       case None => |f| == made
       case Some(p) => p == made && |f| == made + 1 && IsRootOf(uid, s, f, p, lib)
  }

  /** So session `t` with number `id` stands after the node mutations so far. */
  ghost predicate Progress(uid: Obj -> string, s: Session, t: nat, f: seq<Proxy>, root: Option<nat>, lib: Library,
                           made: nat, id: nat, first: Option<Construction>)
  {
    Plain(uid, s, t) && s.id == Some(id) && HasItsRoot(uid, s, f, root, lib, made, first)
  }

  ghost predicate EnvSet(s: Session, s': Session, env: Obj) {
    s' == s.(env := Some(env))
  }

  ghost predicate EnvBound(s: Session, s': Session, env: Obj) {
    s' == s.(env := Some(env), ctx := s.ctx[ENVIRONMENT := Model(env)])
  }

  // ---- the requests of a node mutation

  lemma ErrorTextHandled(uid: Obj -> string, ss: seq<Session>, registry: seq<nat>, t: nat, lib: Library, text: string)
    requires t < |ss| && PointersOk(ss, registry) && Plain(uid, ss[t], t) && NamesNothing(uid, text)
    ensures var o := Handle(uid, ss, registry, t, Framed(text, "Root"), lib); o.Replied? && !o.reply.ok && o.ss == ss
  {
    ParseFramedText(text, "Root");
    assert FirstWord(text) !in ss[t].ctx;
  }

  lemma ArrivesWhole(text: string)
    requires NUL !in text
    ensures var msg := Framed(text, "Root"); Received(msg).Some? ==> Received(msg) == Some(msg)
  {
    ReceivedWhole(Framed(text, "Root"));
  }

  /** An error text, used as a context, resolves to nothing and changes nothing. */
  lemma ErrorTextResolvesToNothing(uid: Obj -> string, ss: seq<Session>, registry: seq<nat>, t: nat, lib: Library,
                                   text: string)
    requires t < |ss| && PointersOk(ss, registry) && Plain(uid, ss[t], t) && NUL !in text && NamesNothing(uid, text)
    ensures var r := RemoteCall(uid, ss, registry, t, text, "Root", lib);
      r.Unspecified? || (r.Answered? && r.ss == ss && !r.reply.ok)
  {
    ErrorTextHandled(uid, ss, registry, t, lib, text);
    ReplyTransparent(Handle(uid, ss, registry, t, Framed(text, "Root"), lib).reply);
    ArrivesWhole(text);
    if Received(Framed(text, "Root")).Some? {
      RemoteCallIs(uid, ss, registry, t, text, "Root", Framed(text, "Root"), lib);
    }
  }

  /** A NUL further back cuts the request, but leaves its head. */
  lemma HeadArrives(head: string, tail: string) returns (cut: string)
    requires NUL !in head && |head| < REQUEST_BUFFER
    ensures Received(head + tail).Some? ==> Received(head + tail) == Some(head + cut)
  {
    var sent := head + tail;
    cut := "";
    if Received(sent).Some? {
      var whole := if |sent| <= REQUEST_BUFFER then sent else sent[..REQUEST_BUFFER];
      assert forall i | 0 <= i < |head| :: whole[i] == head[i];
      assert Find(whole, NUL) >= |head|;
      cut := whole[|head|..Find(whole, NUL)];
      assert whole[..|head|] == head;
      assert CString(whole) == head + cut;
    }
  }

  /** A NUL in the specification cuts the request, which remains a CreateEnv. */
  lemma CreateEnvArrives(spec: string) returns (cut: string)
    ensures var got := Received(Framed(PROVIDER, "CreateEnv,1," + spec));
      got.Some? ==> got == Some(Framed(PROVIDER, "CreateEnv,1," + cut))
  {
    var head := Framed(PROVIDER, "CreateEnv,1,");
    assert |head| == 24;
    cut := HeadArrives(head, spec);
    assert head + spec == Framed(PROVIDER, "CreateEnv,1," + spec);
    assert head + cut == Framed(PROVIDER, "CreateEnv,1," + cut);
  }

  /** What a construction does to the session. */
  ghost predicate Given(s: Session, s': Session, made: Option<Construction>) {
    if s.env.Some? || made.None? then s' == s
    else match made.value
      case NotAllocated(_) => s' == s
      case NotConstructed(env, _) => EnvSet(s, s', env)
      case Built(env) => EnvBound(s, s', env)
  }

  /** CreateEnv succeeds. */
  predicate Succeeds(s: Session, made: Option<Construction>) {
    s.env.None? && made.Some? && made.value.Built?
  }

  /** What CreateEnv does to its session, and what it answers: the handle, or a text that names nothing. */
  ghost predicate Created(uid: Obj -> string, s: Session, s': Session, reply: Reply, made: Option<Construction>) {
    && Given(s, s', made) && (reply.ok <==> Succeeds(s, made))
    && if reply.ok then reply.text == ENVIRONMENT else NoHandle(uid, reply.text)
  }

  ghost predicate CalledCreated(uid: Obj -> string, ss: seq<Session>, t: nat, c: Called, made: Option<Construction>)
    requires t < |ss|
  {
    match c
    case Garbage => false
    case Done(ss', obj, text) => obj.None? && t < |ss'| && Created(uid, ss[t], ss'[t], Reply(true, text), made)
    case Raised(ss', what) => t < |ss'| && Created(uid, ss[t], ss'[t], Reply(false, what), made)
  }

  /** Creating the environment of a session that has none. */
  lemma FirstCreateEnv(uid: Obj -> string, ss: seq<Session>, t: nat, chromo: string, lib: Library)
    requires LibraryOk(uid, lib) && t < |ss| && PointersOk(ss, [])
    requires ss[t].env.None? && ss[t].id.Some? && ENVIRONMENT !in ss[t].ctx
    ensures CalledCreated(uid, ss, t, CreateEnv(ss, t, chromo, lib), Some(lib.construct(chromo, lib.show(IdOf(ss[t])))))
  {
    var r := CreateEnv(ss, t, chromo, lib);
    match lib.construct(chromo, lib.show(ss[t].id.value))
    case NotAllocated(what) => assert NoHandle(uid, what);
    case NotConstructed(env, what) =>
      assert NoHandle(uid, what);
      assert EnvSet(ss[t], r.ss[t], env);
    case Built(env) => assert EnvBound(ss[t], r.ss[t], env);
  }

  lemma CreateEnvEffect(uid: Obj -> string, ss: seq<Session>, registry: seq<nat>, t: nat, lib: Library, cut: string)
    requires UidsOk(uid) && LibraryOk(uid, lib) && t < |ss| && PointersOk(ss, registry) && Plain(uid, ss[t], t)
    ensures var args := "CreateEnv,1," + cut;
      CalledCreated(uid, ss, t, ProviderCall(ss, registry, t, args, lib), ConstructionOf(lib, IdOf(ss[t]), args))
  {
    var args := "CreateEnv,1," + cut;
    assert NoHandle(uid, PROVIDER_ERRORS[0]) && NoHandle(uid, PROVIDER_ERRORS[1]);
    match lib.parse(args)
    case Fail(what) => assert NoHandle(uid, what);
    case Ok(call) =>
      assert call.name == "CreateEnv";
      if |call.args| == 1 && ss[t].env.None? {
        FirstCreateEnv(uid, ss, t, call.args[0], lib);
      }
  }

  lemma CreateEnvAnswered(uid: Obj -> string, ss: seq<Session>, registry: seq<nat>, t: nat, lib: Library, cut: string)
    requires UidsOk(uid) && LibraryOk(uid, lib) && t < |ss| && PointersOk(ss, registry) && Plain(uid, ss[t], t)
    ensures var o := Dispatch(uid, ss, registry, t, PROVIDER, Some("CreateEnv,1," + cut), lib);
      o.Replied? && Created(uid, ss[t], o.ss[t], o.reply, ConstructionOf(lib, IdOf(ss[t]), "CreateEnv,1," + cut))
  {
    CreateEnvEffect(uid, ss, registry, t, lib, cut);
    assert Lookup(ss, t, PROVIDER) == Some(Provider(t));
  }

  /** What the client makes of it; an error text comes as `Arrives` says. */
  ghost predicate CreatedHeard(uid: Obj -> string, s: Session, s': Session, heard: Reply, made: Option<Construction>) {
    && Given(s, s', made) && (heard.ok <==> Succeeds(s, made))
    && if heard.ok then heard.text == ENVIRONMENT else NUL !in heard.text && NamesNothing(uid, heard.text)
  }

  lemma ArrivesNulFree(text: string)
    ensures NUL !in Arrives(text)
  {
    assert NUL !in Encoded(Reply(false, text));
  }

  lemma CreatedTravels(uid: Obj -> string, s: Session, s': Session, reply: Reply, made: Option<Construction>)
    requires Created(uid, s, s', reply, made)
    ensures CreatedHeard(uid, s, s', Decoded(Encoded(reply)).value, made)
  {
    ReplyTransparent(reply);
    ArrivesNulFree(reply.text);
    assert !reply.ok ==> reply == Reply(false, reply.text);
  }

  /** The first of the two requests of a node mutation. */
  lemma CreateEnvCall(uid: Obj -> string, ss: seq<Session>, registry: seq<nat>, t: nat, lib: Library, spec: string)
    requires UidsOk(uid) && LibraryOk(uid, lib) && t < |ss| && PointersOk(ss, registry) && Plain(uid, ss[t], t)
    ensures var r := RemoteCall(uid, ss, registry, t, PROVIDER, "CreateEnv,1," + spec, lib);
      r.Unspecified?
      || (r.Answered? && CreatedHeard(uid, ss[t], r.ss[t], r.reply, MadeOf(lib, IdOf(ss[t]), spec)))
  {
    var cut := CreateEnvArrives(spec);
    HandleFramed(uid, ss, registry, t, PROVIDER, "CreateEnv,1," + cut, lib);
    CreateEnvAnswered(uid, ss, registry, t, lib, cut);
    var o := Dispatch(uid, ss, registry, t, PROVIDER, Some("CreateEnv,1," + cut), lib);
    CreatedTravels(uid, ss[t], o.ss[t], o.reply, ConstructionOf(lib, IdOf(ss[t]), "CreateEnv,1," + cut));
    var msg := Received(Framed(PROVIDER, "CreateEnv,1," + spec));
    if msg.Some? {
      assert msg.value[|PROVIDER| + 1..] == "CreateEnv,1," + cut;
      RemoteCallIs(uid, ss, registry, t, PROVIDER, "CreateEnv,1," + spec, msg.value, lib);
    }
  }

  /** A fresh environment asked for its root. */
  lemma RootCall(uid: Obj -> string, ss: seq<Session>, registry: seq<nat>, t: nat, lib: Library, env: Obj)
    requires UidsOk(uid) && UidsTravel(uid) && t < |ss| && PointersOk(ss, registry) && !lib.call(env, "Root").Text?
    requires ss[t].attached.None? && ss[t].ctx.Keys == {PROVIDER, ENVIRONMENT} && ss[t].ctx[ENVIRONMENT] == Model(env)
    ensures var r := RemoteCall(uid, ss, registry, t, ENVIRONMENT, "Root", lib);
      && r.Answered? && (r.reply.ok <==> lib.call(env, "Root").Returned?)
      && if lib.call(env, "Root").Returned? then
           var y := lib.call(env, "Root").obj;
           r.reply == Reply(true, uid(y)) && r.ss[t] == ss[t].(ctx := ss[t].ctx[uid(y) := Model(y)])
         else
           r.ss[t] == ss[t]
  {
    ModelCallTransparent(uid, ss, registry, t, ENVIRONMENT, env, "Root", lib);
  }

  /** The second request, of a session that the first left as `Created` says. */
  lemma RootRequest(uid: Obj -> string, ss: seq<Session>, registry: seq<nat>, t: nat, lib: Library, l: Link, made: nat,
                    before: Session, heard: Reply, id: nat, first: Option<Construction>, now: Option<Construction>)
    requires UidsOk(uid) && UidsTravel(uid) && LibraryOk(uid, lib) && t < |ss| && PointersOk(ss, registry)
    requires Progress(uid, before, t, l.f, l.root, lib, made, id, first) && CreatedHeard(uid, before, ss[t], heard, now)
    ensures var r := RemoteCall(uid, ss, registry, t, heard.text, "Root", lib);
      r.Unspecified? || (r.Answered? && var (f, root) := Bound(l.f, l.root, r.reply);
        && Progress(uid, r.ss[t], t, f, root, lib, made, id, FirstOf(first, now))
        && (before.env.Some? ==> (f, root) == (l.f, l.root) && r.ss[t] == before))
  {
    if heard.ok {
      RootCall(uid, ss, registry, t, lib, now.value.env);
    } else {
      assert Plain(uid, ss[t], t);
      ErrorTextResolvesToNothing(uid, ss, registry, t, lib, heard.text);
    }
  }

  // ---- in a run

  /** From state `n` of the run on, no one else talks to or through session `t`, and it meets this library. */
  ghost predicate OnItsOwn(uid: Obj -> string, es: seq<Event>, n: nat, t: nat, lib: Library)
    requires Runs(uid, INITIAL, es) && n <= |es|
  {
    var tr := Trace(uid, INITIAL, es);
    && t < |tr[n].sessions|
    && (forall k | n <= k < |es| && !(es[k].Receive? && es[k].t == t) :: !Concerns(tr[k], es[k], t))
    && (forall k | n <= k < |es| && es[k].Receive? && es[k].t == t :: es[k].lib == lib)
  }

  /** Between two messages of such a session it stays as it is. */
  lemma Rests(uid: Obj -> string, es: seq<Event>, n: nat, k: nat, t: nat, lib: Library)
    requires UidsOk(uid) && Runs(uid, INITIAL, es) && n <= k <= |es| && OnItsOwn(uid, es, n, t, lib)
    requires Silent(es, n, k, t)
    ensures var tr := Trace(uid, INITIAL, es); t < |tr[k].sessions| && tr[k].sessions[t] == tr[n].sessions[t]
  {
    UnconcernedUnchanged(uid, es, n, k, t);
  }

  /** A call in the run of such a session is the remote call from the state it is in. */
  lemma OwnCall(uid: Obj -> string, es: seq<Event>, n: nat, t: nat, lib: Library, ctx: string, args: string)
      returns (ss: seq<Session>, registry: seq<nat>, after: seq<Session>)
    requires UidsOk(uid) && Runs(uid, INITIAL, es) && n <= |es| && OnItsOwn(uid, es, n, t, lib)
    ensures t < |ss| && PointersOk(ss, registry) && ss[t] == Trace(uid, INITIAL, es)[n].sessions[t]
    ensures var c := CallIn(uid, es, n, t, ctx, args);
      c.Heard? || c.Died? ==>
        && OnItsOwn(uid, es, c.at, t, lib) && after == Trace(uid, INITIAL, es)[c.at].sessions
        && RemoteCall(uid, ss, registry, t, ctx, args, lib)
          == (if c.Heard? then Answered(after, c.reply) else ServerDied(after))
  {
    var c := CallIn(uid, es, n, t, ctx, args);
    if c.Heard? || c.Died? {
      var st := OwnCallMade(uid, es, n, t, lib, ctx, args);
      ss, registry, after := st.sessions, st.registry, Trace(uid, INITIAL, es)[c.at].sessions;
    } else {
      ReachedTables(uid, es, n);
      ss, registry, after := Trace(uid, INITIAL, es)[n].sessions, [], [];
    }
  }

  lemma OwnCallMade(uid: Obj -> string, es: seq<Event>, n: nat, t: nat, lib: Library, ctx: string, args: string)
      returns (st: State)
    requires UidsOk(uid) && Runs(uid, INITIAL, es) && n <= |es| && OnItsOwn(uid, es, n, t, lib)
    requires var c := CallIn(uid, es, n, t, ctx, args); c.Heard? || c.Died?
    ensures Fits(st) && t < |st.sessions| && st.sessions[t] == Trace(uid, INITIAL, es)[n].sessions[t]
    ensures var c := CallIn(uid, es, n, t, ctx, args); var after := Trace(uid, INITIAL, es)[c.at].sessions;
      && OnItsOwn(uid, es, c.at, t, lib)
      && RemoteCall(uid, st.sessions, st.registry, t, ctx, args, lib)
        == (if c.Heard? then Answered(after, c.reply) else ServerDied(after))
  {
    var e;
    st, e := CallInRun(uid, es, n, t, ctx, args);
    var k: nat := CallIn(uid, es, n, t, ctx, args).at - 1;
    Rests(uid, es, n, k, t, lib);
    OwnLater(uid, es, n, k + 1, t, lib);
  }

  lemma OwnLater(uid: Obj -> string, es: seq<Event>, n: nat, m: nat, t: nat, lib: Library)
    requires Runs(uid, INITIAL, es) && n <= m <= |es| && OnItsOwn(uid, es, n, t, lib)
    requires t < |Trace(uid, INITIAL, es)[m].sessions|
    ensures OnItsOwn(uid, es, m, t, lib)
  {
  }

  /** Where a connection stands after some exchanges: as `Progress` says, or the run has not gone on with it. */
  ghost predicate InProgress(uid: Obj -> string, es: seq<Event>, i: nat, t: nat, lib: Library, l: Link, made: nat,
                             id: nat, first: Option<Construction>)
    requires UidsOk(uid) && Runs(uid, INITIAL, es) && i <= |es|
  {
    match PlaceOf(uid, es, i, t, l.log)
    case At(n) =>
      && OnItsOwn(uid, es, n, t, lib)
      && Progress(uid, Trace(uid, INITIAL, es)[n].sessions[t], t, l.f, l.root, lib, made, id, first)
    case Lost(_, why) => why.Overran? || why.NotMade?
  }

  /** The environment, the proxies and the root are as they were, if the run has gone on so far. */
  ghost predicate Same(uid: Obj -> string, es: seq<Event>, i: nat, t: nat, l: Link, l': Link)
    requires UidsOk(uid) && Runs(uid, INITIAL, es) && i <= |es|
  {
    var p, p' := PlaceOf(uid, es, i, t, l.log), PlaceOf(uid, es, i, t, l'.log);
    p.At? && p'.At? ==>
      var ss, ss' := Trace(uid, INITIAL, es)[p.n].sessions, Trace(uid, INITIAL, es)[p'.n].sessions;
      t < |ss| && t < |ss'| && ss'[t] == ss[t] && l'.f == l.f && l'.root == l.root
  }

  /** The first exchange of a node mutation, in the run. */
  lemma CreatedInRun(uid: Obj -> string, es: seq<Event>, n: nat, t: nat, lib: Library, spec: string)
    requires UidsOk(uid) && LibraryOk(uid, lib) && Runs(uid, INITIAL, es) && n <= |es| && OnItsOwn(uid, es, n, t, lib)
    requires Plain(uid, Trace(uid, INITIAL, es)[n].sessions[t], t)
    ensures var c, tr := CallIn(uid, es, n, t, PROVIDER, "CreateEnv,1," + spec), Trace(uid, INITIAL, es);
      && !c.Died?
      && (c.Heard? ==>
            && OnItsOwn(uid, es, c.at, t, lib)
            && var s := tr[n].sessions[t];
               CreatedHeard(uid, s, tr[c.at].sessions[t], c.reply, MadeOf(lib, IdOf(s), spec)))
  {
    var c := CallIn(uid, es, n, t, PROVIDER, "CreateEnv,1," + spec);
    var ss, registry, after := OwnCall(uid, es, n, t, lib, PROVIDER, "CreateEnv,1," + spec);
    CreateEnvCall(uid, ss, registry, t, lib, spec);
  }

  /** The second. */
  lemma RootInRun(uid: Obj -> string, es: seq<Event>, n: nat, t: nat, lib: Library, l: Link, made: nat,
                  before: Session, heard: Reply, id: nat, first: Option<Construction>, now: Option<Construction>)
    requires UidsOk(uid) && UidsTravel(uid) && LibraryOk(uid, lib)
    requires Runs(uid, INITIAL, es) && n <= |es| && OnItsOwn(uid, es, n, t, lib)
    requires Progress(uid, before, t, l.f, l.root, lib, made, id, first)
    requires CreatedHeard(uid, before, Trace(uid, INITIAL, es)[n].sessions[t], heard, now)
    ensures var c, tr := CallIn(uid, es, n, t, heard.text, "Root"), Trace(uid, INITIAL, es);
      && !c.Died?
      && (c.Heard? ==> OnItsOwn(uid, es, c.at, t, lib) && var (f, root) := Bound(l.f, l.root, c.reply);
            && Progress(uid, tr[c.at].sessions[t], t, f, root, lib, made, id, FirstOf(first, now))
            && (before.env.Some? ==> (f, root) == (l.f, l.root) && tr[c.at].sessions[t] == before))
  {
    var c := CallIn(uid, es, n, t, heard.text, "Root");
    var ss, registry, after := OwnCall(uid, es, n, t, lib, heard.text, "Root");
    RootRequest(uid, ss, registry, t, lib, l, made, before, heard, id, first, now);
  }

  /** The link after the second exchange of a node mutation. */
  function RootLinked(service: Service, l: Link, created: Exchange): Link {
    var asked := Asked(service, l.log + [created], created.reply.text, "Root");
    var (f, root) := Bound(l.f, l.root, asked.reply);
    Link(l.log + [created, asked], f, root)
  }

  lemma RootPlaced(uid: Obj -> string, es: seq<Event>, i: nat, m: nat, t: nat, service: Service, l: Link,
                   created: Exchange)
    requires UidsOk(uid) && Runs(uid, INITIAL, es) && i <= |es| && ServedBy(service, uid, es, i, t)
    requires PlaceOf(uid, es, i, t, l.log + [created]) == At(m)
    ensures var l', c := RootLinked(service, l, created), CallIn(uid, es, m, t, created.reply.text, "Root");
      && PlaceOf(uid, es, i, t, l'.log) == (if c.Heard? then At(c.at) else Lost(|l.log| + 1, c))
      && (c.Heard? ==> (l'.f, l'.root) == Bound(l.f, l.root, c.reply))
  {
    var log := l.log + [created];
    assert RootLinked(service, l, created).log == log + [Asked(service, log, created.reply.text, "Root")];
    Served(service, uid, es, i, t, log, m, created.reply.text, "Root");
  }

  /** From state `m`, to which the first exchange has led. */
  lemma RootLinkedFrom(uid: Obj -> string, es: seq<Event>, i: nat, m: nat, t: nat, lib: Library, service: Service,
                       l: Link, made: nat, before: Session, created: Exchange,
                       id: nat, first: Option<Construction>, now: Option<Construction>)
    requires UidsOk(uid) && UidsTravel(uid) && LibraryOk(uid, lib)
    requires Runs(uid, INITIAL, es) && i <= |es| && ServedBy(service, uid, es, i, t)
    requires PlaceOf(uid, es, i, t, l.log + [created]) == At(m) && OnItsOwn(uid, es, m, t, lib)
    requires Progress(uid, before, t, l.f, l.root, lib, made, id, first)
    requires CreatedHeard(uid, before, Trace(uid, INITIAL, es)[m].sessions[t], created.reply, now)
    ensures var l', c := RootLinked(service, l, created), CallIn(uid, es, m, t, created.reply.text, "Root");
      && PlaceOf(uid, es, i, t, l'.log) == (if c.Heard? then At(c.at) else Lost(|l.log| + 1, c)) && !c.Died?
      && (c.Heard? ==>
            && OnItsOwn(uid, es, c.at, t, lib)
            && var s := Trace(uid, INITIAL, es)[c.at].sessions[t];
            && Progress(uid, s, t, l'.f, l'.root, lib, made, id, FirstOf(first, now))
            && (before.env.Some? ==> s == before && l'.f == l.f && l'.root == l.root))
  {
    RootPlaced(uid, es, i, m, t, service, l, created);
    RootInRun(uid, es, m, t, lib, l, made, before, created.reply, id, first, now);
  }

  lemma CreatedPlaced(uid: Obj -> string, es: seq<Event>, i: nat, n: nat, t: nat, lib: Library, service: Service,
                      log: seq<Exchange>, spec: string)
    requires UidsOk(uid) && LibraryOk(uid, lib)
    requires Runs(uid, INITIAL, es) && i <= |es| && ServedBy(service, uid, es, i, t)
    requires PlaceOf(uid, es, i, t, log) == At(n) && OnItsOwn(uid, es, n, t, lib)
    requires Plain(uid, Trace(uid, INITIAL, es)[n].sessions[t], t)
    ensures var created := Asked(service, log, PROVIDER, "CreateEnv,1," + spec);
      match PlaceOf(uid, es, i, t, log + [created])
      case At(m) =>
        && OnItsOwn(uid, es, m, t, lib)
        && var s, s' := Trace(uid, INITIAL, es)[n].sessions[t], Trace(uid, INITIAL, es)[m].sessions[t];
           CreatedHeard(uid, s, s', created.reply, MadeOf(lib, IdOf(s), spec))
      case Lost(_, why) => why.Overran? || why.NotMade?
  {
    CreatedInRun(uid, es, n, t, lib, spec);
    Served(service, uid, es, i, t, log, n, PROVIDER, "CreateEnv,1," + spec);
  }

  /** Both, from state `n` of the run on. */
  lemma NodeAddedFrom(uid: Obj -> string, es: seq<Event>, i: nat, n: nat, t: nat, lib: Library, service: Service,
                      l: Link, made: nat, spec: string, id: nat, first: Option<Construction>)
    requires UidsOk(uid) && UidsTravel(uid) && LibraryOk(uid, lib)
    requires Runs(uid, INITIAL, es) && i <= |es| && ServedBy(service, uid, es, i, t)
    requires PlaceOf(uid, es, i, t, l.log) == At(n) && OnItsOwn(uid, es, n, t, lib)
    requires Progress(uid, Trace(uid, INITIAL, es)[n].sessions[t], t, l.f, l.root, lib, made, id, first)
    ensures InProgress(uid, es, i, t, lib, NodeAdded(service, l, spec), made, id, FirstOf(first, MadeOf(lib, id, spec)))
    ensures HasEnv(uid, es, i, t, l) ==> Same(uid, es, i, t, l, NodeAdded(service, l, spec))
  {
    var created := Asked(service, l.log, PROVIDER, "CreateEnv,1," + spec);
    CreatedPlaced(uid, es, i, n, t, lib, service, l.log, spec);
    assert NodeAdded(service, l, spec) == RootLinked(service, l, created);
    match PlaceOf(uid, es, i, t, l.log + [created])
    case At(m) =>
      RootLinkedFrom(uid, es, i, m, t, lib, service, l, made, Trace(uid, INITIAL, es)[n].sessions[t], created,
                     id, first, MadeOf(lib, id, spec));
    case Lost(_, _) => LostStays(uid, es, i, t, l.log + [created], NodeAdded(service, l, spec).log);
  }

  /** One node mutation. */
  lemma NodeAddedProgress(uid: Obj -> string, es: seq<Event>, i: nat, t: nat, lib: Library, service: Service, l: Link,
                          made: nat, spec: string, id: nat, first: Option<Construction>)
    requires UidsOk(uid) && UidsTravel(uid) && LibraryOk(uid, lib)
    requires Runs(uid, INITIAL, es) && i <= |es| && ServedBy(service, uid, es, i, t)
    requires InProgress(uid, es, i, t, lib, l, made, id, first)
    ensures InProgress(uid, es, i, t, lib, NodeAdded(service, l, spec), made, id, FirstOf(first, MadeOf(lib, id, spec)))
    ensures HasEnv(uid, es, i, t, l) ==> Same(uid, es, i, t, l, NodeAdded(service, l, spec))
  {
    match PlaceOf(uid, es, i, t, l.log)
    case Lost(_, _) => LostStays(uid, es, i, t, l.log, NodeAdded(service, l, spec).log);
    case At(n) => NodeAddedFrom(uid, es, i, n, t, lib, service, l, made, spec, id, first);
  }

  ghost predicate HasEnv(uid: Obj -> string, es: seq<Event>, i: nat, t: nat, l: Link)
    requires UidsOk(uid) && Runs(uid, INITIAL, es) && i <= |es|
  {
    var p := PlaceOf(uid, es, i, t, l.log);
    p.At? && var ss := Trace(uid, INITIAL, es)[p.n].sessions; t < |ss| && ss[t].env.Some?
  }

  /** Any sequence of calls of `DoMutation`, on a session without an environment. */
  lemma {:induction false} AllAddedProgress(uid: Obj -> string, es: seq<Event>, i: nat, t: nat, lib: Library,
                                            service: Service, l: Link, made: nat, calls: seq<Mutations.Action>, id: nat)
    requires UidsOk(uid) && UidsTravel(uid) && LibraryOk(uid, lib)
    requires Runs(uid, INITIAL, es) && i <= |es| && ServedBy(service, uid, es, i, t)
    requires InProgress(uid, es, i, t, lib, l, made, id, None)
    ensures InProgress(uid, es, i, t, lib, AllAdded(service, l, calls), made, id, FirstMade(lib, id, calls))
    decreases |calls|
  {
    if calls != [] {
      var n := |calls| - 1;
      AllAddedProgress(uid, es, i, t, lib, service, l, made, calls[..n], id);
      if calls[n].AddElemRmt? {
        NodeAddedProgress(uid, es, i, t, lib, service, AllAdded(service, l, calls[..n]), made, calls[n].m.text,
                          id, FirstMade(lib, id, calls[..n]));
      }
    }
  }

  /**
   One remote root per connection, in every run in which nobody else talks to or through its session,
   whatever mutations `DoMutation` performs from a fresh session on. The session's one environment is
   what the construction makes of the text of the first node mutation for which it allocates any; it is
   bound exactly when that is completed. At most one proxy is made, exactly when the environment returns
   a root besides; it is the remote root, and its handle denotes that root. The server never dies of
   them; the run is left only by a request that overruns the buffer, or by going on otherwise.
  */
  lemma OneRemoteRoot(uid: Obj -> string, es: seq<Event>, n: nat, t: nat, lib: Library, service: Service,
                      l: Link, calls: seq<Mutations.Action>, id: nat)
    requires UidsOk(uid) && UidsTravel(uid) && LibraryOk(uid, lib)
    requires Runs(uid, INITIAL, es) && n <= |es| && ServedBy(service, uid, es, n, t) && OnItsOwn(uid, es, n, t, lib)
    requires l.log == [] && l.root.None?
    requires Trace(uid, INITIAL, es)[n].sessions[t] == Session(Some(id), None, map[PROVIDER := Provider(t)], None)
    ensures InProgress(uid, es, n, t, lib, AllAdded(service, l, calls), |l.f|, id, FirstMade(lib, id, calls))
  {
    AllAddedProgress(uid, es, n, t, lib, service, l, |l.f|, calls, id);
  }

  /** With an environment there, any calls leave session, proxies and root alone. */
  lemma {:induction false} AllAddedSame(uid: Obj -> string, es: seq<Event>, i: nat, t: nat, lib: Library,
                                        service: Service, l: Link, made: nat, calls: seq<Mutations.Action>, id: nat,
                                        first: Option<Construction>)
    requires UidsOk(uid) && UidsTravel(uid) && LibraryOk(uid, lib)
    requires Runs(uid, INITIAL, es) && i <= |es| && ServedBy(service, uid, es, i, t)
    requires InProgress(uid, es, i, t, lib, l, made, id, first) && first.Some? && HasEnv(uid, es, i, t, l)
    ensures InProgress(uid, es, i, t, lib, AllAdded(service, l, calls), made, id, first)
    ensures Same(uid, es, i, t, l, AllAdded(service, l, calls))
    decreases |calls|
  {
    if calls != [] {
      var n := |calls| - 1;
      var l' := AllAdded(service, l, calls[..n]);
      AllAddedSame(uid, es, i, t, lib, service, l, made, calls[..n], id, first);
      if calls[n].AddElemRmt? {
        NodeAddedProgress(uid, es, i, t, lib, service, l', made, calls[n].m.text, id, first);
        if PlaceOf(uid, es, i, t, l'.log).Lost? {
          LostStays(uid, es, i, t, l'.log, NodeAdded(service, l', calls[n].m.text).log);
        }
      }
    }
  }

  /** Once there is an environment, node mutations change neither session, proxies nor root. */
  lemma RemoteRootIsFinal(uid: Obj -> string, es: seq<Event>, i: nat, t: nat, lib: Library, service: Service,
                          l: Link, made: nat, calls: seq<Mutations.Action>, id: nat, first: Option<Construction>)
    requires UidsOk(uid) && UidsTravel(uid) && LibraryOk(uid, lib)
    requires Runs(uid, INITIAL, es) && i <= |es| && ServedBy(service, uid, es, i, t)
    requires InProgress(uid, es, i, t, lib, l, made, id, first) && HasEnv(uid, es, i, t, l)
    ensures Same(uid, es, i, t, l, AllAdded(service, l, calls))
  {
    AllAddedSame(uid, es, i, t, lib, service, l, made, calls, id, first);
  }
}
