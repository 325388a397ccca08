/**
 The sessions of the server as values, and what one message does to them. A session is named by its
 position in the order of construction, which stands for its address: `SessionClient` objects are
 never freed, so an address never changes its meaning.
*/
module Sessions {
  import opened Wrappers
  import opened Wire

  /** An interface object of a model, outside this repository. */
  type Obj = nat

  /** What a handle denotes: a session as environment provider, or an interface of a model. */
  datatype Iface = Provider(sid: nat) | Model(obj: Obj)

  datatype Session = Session(id: Option<nat>, env: Option<Obj>, ctx: map<string, Iface>, attached: Option<nat>)

  const PROVIDER := "EnvProvider"
  const ENVIRONMENT := "MEnv#0"

  datatype CallSpec = CallSpec(name: string, args: seq<string>)

  /** `MIface::Call` on a model: an interface, a text (maybe empty), or an exception. */
  datatype CallOutcome = Returned(obj: Obj) | Text(text: string) | Threw(what: string)

  /** `new Env` and `ConstructSystem`; an environment is named by its MEnv interface. */
  datatype Construction = NotAllocated(what: string) | NotConstructed(env: Obj, what: string) | Built(env: Obj)

  /** The libraries the session calls into, as they behave at the moment of one message. */
  datatype Library = Library(
    parse: string -> Result<CallSpec>,
    call: (Obj, string) -> CallOutcome,
    construct: (string, string) -> Construction,
    show: int -> string,
    read: string -> int)

  /** How handling one message ends. */
  datatype Outcome =
    | Replied(ss: seq<Session>, reply: Reply)
    | Terminated(ss: seq<Session>)  // an exception leaves the thread function
    | Undefined                     // mId is read before it is set

  /** How `MIface::Call` ends. */
  datatype Called =
    | Done(ss: seq<Session>, obj: Option<Obj>, text: string)
    | Raised(ss: seq<Session>, what: string)
    | Garbage                       // mId is read before it is set

  /** Every pointer points to a constructed session. */
  ghost predicate PointersOk(ss: seq<Session>, registry: seq<nat>) {
    && (forall i | 0 <= i < |registry| :: registry[i] < |ss|)
    && (forall t | 0 <= t < |ss| ::
          && (ss[t].attached.Some? ==> ss[t].attached.value < |ss|)
          && (forall h | h in ss[t].ctx && ss[t].ctx[h].Provider? :: ss[t].ctx[h].sid < |ss|))
  }

  /** The session whose table a lookup by session `t` uses. */
  function Effective(ss: seq<Session>, t: nat): nat
    requires t < |ss|
  {
    if ss[t].attached.None? then t else ss[t].attached.value
  }

  function Lookup(ss: seq<Session>, t: nat, h: string): Option<Iface>
    requires t < |ss| && PointersOk(ss, [])
  {
    var ctx := ss[Effective(ss, t)].ctx;
    if h in ctx then Some(ctx[h]) else None
  }

  /** `AddContext`; None when it throws. */
  function AddContext(s: Session, h: string, i: Iface): Option<Session> {
    if h in s.ctx then None else Some(s.(ctx := s.ctx[h := i]))
  }

  /** The first registry entry whose session has this id. */
  function FindById(ss: seq<Session>, registry: seq<nat>, id: int): (i: nat)
    requires PointersOk(ss, registry)
    ensures i <= |registry|
    ensures forall j | 0 <= j < i :: ss[registry[j]].id != Some(id)
    ensures i < |registry| ==> ss[registry[i]].id == Some(id)
  {
    if registry == [] || ss[registry[0]].id == Some(id) then 0
    else 1 + FindById(ss, registry[1..], id)
  }

  function CreateEnv(ss: seq<Session>, t: nat, chromo: string, lib: Library): (c: Called)
    requires t < |ss| && PointersOk(ss, [])
    ensures !c.Garbage? ==> |c.ss| == |ss| && PointersOk(c.ss, [])
  {
    if ss[t].env.Some? then Raised(ss, "Env already created")
    else if ss[t].id.None? then Garbage
    else match lib.construct(chromo, lib.show(ss[t].id.value))
      case NotAllocated(what) => Raised(ss, what)
      case NotConstructed(env, what) => Raised(ss[t := ss[t].(env := Some(env))], what)
      case Built(env) =>
        var s := ss[t].(env := Some(env));
        match AddContext(s, ENVIRONMENT, Model(env))
        case None => Raised(ss[t := s], "Context already exists")
        case Some(s') => Done(ss[t := s'], None, ENVIRONMENT)
  }

  function AttachEnv(ss: seq<Session>, registry: seq<nat>, t: nat, id: int, lib: Library): (c: Called)
    requires t < |ss| && PointersOk(ss, registry)
    ensures !c.Garbage? ==> |c.ss| == |ss| && PointersOk(c.ss, registry)
  {
    var i := FindById(ss, registry, id);
    if i < |registry| then Done(ss[t := ss[t].(attached := Some(registry[i]))], None, "")
    else Raised(ss, "Session [" + lib.show(id) + "] for attaching not found")
  }

  /** `SessionClient::Call`, the environment provider interface of session `t`. */
  function ProviderCall(ss: seq<Session>, registry: seq<nat>, t: nat, spec: string, lib: Library): (c: Called)
    requires t < |ss| && PointersOk(ss, registry)
    ensures !c.Garbage? ==> |c.ss| == |ss| && PointersOk(c.ss, registry)
  {
    match lib.parse(spec)
    case Fail(what) => Raised(ss, what)
    case Ok(CallSpec(name, args)) =>
      if name == "GetEnv" then
        Done(ss, None, if ss[t].env.Some? then ENVIRONMENT else "")
      else if name == "CreateEnv" then
        if |args| != 1 then Raised(ss, "Wrong arguments number") else CreateEnv(ss, t, args[0], lib)
      else if name == "GetId" then
        if |args| != 0 then Raised(ss, "Wrong arguments number")
        else if ss[t].id.None? then Garbage
        else Done(ss, None, lib.show(ss[t].id.value))
      else if name == "AttachEnv" then
        if |args| != 1 then Raised(ss, "Wrong arguments number")
        else AttachEnv(ss, registry, t, lib.read(args[0]), lib)
      else
        Raised(ss, "Unknown method")
  }

  function Call(ss: seq<Session>, registry: seq<nat>, target: Iface, spec: string, lib: Library): (c: Called)
    requires PointersOk(ss, registry) && (target.Provider? ==> target.sid < |ss|)
    ensures !c.Garbage? ==> |c.ss| == |ss| && PointersOk(c.ss, registry)
  {
    match target
    case Provider(t) => ProviderCall(ss, registry, t, spec, lib)
    case Model(x) =>
      match lib.call(x, spec)
      case Returned(y) => Done(ss, Some(y), "")
      case Text(text) => Done(ss, None, text)
      case Threw(what) => Raised(ss, what)
  }

  /** The call of session `t` on `target`, and the registration of an interface it returns. */
  function Perform(uid: Obj -> string, ss: seq<Session>, registry: seq<nat>, t: nat,
                   target: Iface, spec: string, lib: Library): (o: Outcome)
    requires t < |ss| && PointersOk(ss, registry) && (target.Provider? ==> target.sid < |ss|)
    ensures !o.Undefined? ==> |o.ss| == |ss| && PointersOk(o.ss, registry)
  {
    match Call(ss, registry, target, spec, lib)
    case Garbage => Undefined
    case Raised(ss', what) => Replied(ss', Reply(false, what))
    case Done(ss', None, text) => Replied(ss', Reply(true, if text == "" then "OK" else text))
    case Done(ss', Some(y), _) =>
      match AddContext(ss'[t], uid(y), Model(y))
      case None => Terminated(ss')
      case Some(s) => Replied(ss'[t := s], Reply(true, uid(y)))
  }

  /** A message of session `t`, once its context and call specification are separated. */
  function Dispatch(uid: Obj -> string, ss: seq<Session>, registry: seq<nat>, t: nat,
                    ctx: string, spec: Option<string>, lib: Library): (o: Outcome)
    requires t < |ss| && PointersOk(ss, registry)
    ensures !o.Undefined? ==> |o.ss| == |ss| && PointersOk(o.ss, registry)
  {
    match Lookup(ss, t, ctx)
    case None => Replied(ss, Reply(false, "Context not found"))
    case Some(target) =>
      if spec.None? then Replied(ss, Reply(false, "Missing call spec"))
      else Perform(uid, ss, registry, t, target, spec.value, lib)
  }

  function Handle(uid: Obj -> string, ss: seq<Session>, registry: seq<nat>, t: nat,
                  msg: string, lib: Library): (o: Outcome)
    requires t < |ss| && PointersOk(ss, registry)
    ensures !o.Undefined? ==> |o.ss| == |ss| && PointersOk(o.ss, registry)
  {
    match Parse(msg)
    case MissingContext => Replied(ss, Reply(false, "Missing context"))
    case Request(ctx, spec) => Dispatch(uid, ss, registry, t, ctx, spec, lib)
  }

  /** A framed request reaches the dispatcher with its context and arguments as sent. */
  lemma HandleFramed(uid: Obj -> string, ss: seq<Session>, registry: seq<nat>, t: nat, ctx: string, args: string,
                     lib: Library)
    requires t < |ss| && PointersOk(ss, registry) && ctx != "" && SEPARATOR !in ctx
    ensures Handle(uid, ss, registry, t, Framed(ctx, args), lib) == Dispatch(uid, ss, registry, t, ctx, Some(args), lib)
  {
    ParseFramed(ctx, args);
  }

  // ---- what the tables of reachable sessions look like

  /** What the server relies on: uids are words of their own. */
  ghost predicate UidsOk(uid: Obj -> string) {
    forall x: Obj :: uid(x) != "" && SEPARATOR !in uid(x) && uid(x) != PROVIDER && uid(x) != ENVIRONMENT
  }

  /**
   Session `t` has either nothing at all, or its own provider under the fixed handle; the other
   handles are its own environment and interfaces under their uid.
  */
  ghost predicate TableOk(uid: Obj -> string, s: Session, t: nat) {
    && (s.ctx == map[] ==> s.env.None? && s.attached.None?)
    && (s.ctx != map[] ==> PROVIDER in s.ctx)
    && (forall h | h in s.ctx :: EntryOk(uid, s, t, h))
  }

  ghost predicate EntryOk(uid: Obj -> string, s: Session, t: nat, h: string)
    requires h in s.ctx
  {
    if h == PROVIDER then s.ctx[h] == Provider(t)
    else if h == ENVIRONMENT then s.env.Some? && s.ctx[h] == Model(s.env.value)
    else s.ctx[h].Model? && uid(s.ctx[h].obj) == h
  }

  ghost predicate TablesOk(uid: Obj -> string, ss: seq<Session>) {
    forall t | 0 <= t < |ss| :: TableOk(uid, ss[t], t)
  }

  /** The ways a message of session `t` may change the sessions. */
  ghost predicate Registers(uid: Obj -> string, ss: seq<Session>, ss': seq<Session>, t: nat, y: Obj)
    requires t < |ss|
  {
    && uid(y) !in ss[t].ctx
    && ss' == ss[t := ss[t].(ctx := ss[t].ctx[uid(y) := Model(y)])]
  }

  ghost predicate SetsEnv(ss: seq<Session>, ss': seq<Session>, e: nat, env: Obj, bound: bool)
    requires e < |ss|
  {
    && ss[e].env.None? && (bound ==> ENVIRONMENT !in ss[e].ctx)
    && var ctx := if bound then ss[e].ctx[ENVIRONMENT := Model(env)] else ss[e].ctx;
       ss' == ss[e := ss[e].(env := Some(env), ctx := ctx)]
  }

  ghost predicate Attaches(ss: seq<Session>, ss': seq<Session>, registry: seq<nat>, e: nat, i: nat)
    requires e < |ss|
  {
    i < |registry| && ss' == ss[e := ss[e].(attached := Some(registry[i]))]
  }

  /**
   Frame of a message of session `t` looked up in the table of `e`: nothing, one registration in
   the table of `t` itself, or one change of the environment or attachment of `e`.
  */
  ghost predicate MessageFrame(uid: Obj -> string, ss: seq<Session>, ss': seq<Session>, registry: seq<nat>, t: nat,
                               e: nat)
    requires t < |ss| && e < |ss|
  {
    || ss' == ss
    || (PROVIDER in ss[e].ctx &&
        ((exists y :: Registers(uid, ss, ss', t, y))
         || (exists env, bound :: SetsEnv(ss, ss', e, env, bound))
         || (exists i :: Attaches(ss, ss', registry, e, i))))
  }

  lemma DispatchFrame(uid: Obj -> string, ss: seq<Session>, registry: seq<nat>, t: nat,
                      ctx: string, spec: Option<string>, lib: Library)
    requires t < |ss| && PointersOk(ss, registry) && UidsOk(uid) && TablesOk(uid, ss)
    ensures var o := Dispatch(uid, ss, registry, t, ctx, spec, lib);
      o.Undefined? || MessageFrame(uid, ss, o.ss, registry, t, Effective(ss, t))
    ensures Dispatch(uid, ss, registry, t, ctx, spec, lib).Undefined? ==> ss[Effective(ss, t)].id.None?
  {
    var e := Effective(ss, t);
    var target := Lookup(ss, t, ctx);
    if target.Some? && spec.Some? {
      match target.value {
        case Provider(p) =>
          assert TableOk(uid, ss[e], e) && EntryOk(uid, ss[e], e, ctx);
          assert p == e && ctx == PROVIDER;
          ProviderFrame(ss, registry, e, spec.value, lib);
          var c := ProviderCall(ss, registry, e, spec.value, lib);
          if !c.Garbage? && c.ss != ss {
            if env, bound :| SetsEnv(ss, c.ss, e, env, bound) {
              assert SetsEnv(ss, c.ss, e, env, bound);
            }
          }
        case Model(x) =>
          match lib.call(x, spec.value)
          case Returned(y) =>
            if uid(y) !in ss[t].ctx {
              assert Registers(uid, ss, Dispatch(uid, ss, registry, t, ctx, spec, lib).ss, t, y);
            }
          case Text(_) =>
          case Threw(_) =>
      }
    }
  }

  lemma ProviderFrame(ss: seq<Session>, registry: seq<nat>, e: nat, spec: string, lib: Library)
    requires e < |ss| && PointersOk(ss, registry)
    ensures var c := ProviderCall(ss, registry, e, spec, lib);
      && (c.Garbage? ==> ss[e].id.None?)
      && (c.Done? ==> c.obj.None?)
      && (!c.Garbage? ==>
        || c.ss == ss
        || (exists env, bound :: SetsEnv(ss, c.ss, e, env, bound))
        || (exists i :: Attaches(ss, c.ss, registry, e, i)))
  {
    match lib.parse(spec)
    case Fail(_) =>
    case Ok(CallSpec(name, args)) =>
      if name == "CreateEnv" && |args| == 1 && ss[e].env.None? && ss[e].id.Some? {
        var c := CreateEnv(ss, e, args[0], lib);
        match lib.construct(args[0], lib.show(ss[e].id.value))
        case NotAllocated(_) =>
        case NotConstructed(env, _) => assert SetsEnv(ss, c.ss, e, env, false);
        case Built(env) => assert SetsEnv(ss, c.ss, e, env, ENVIRONMENT !in ss[e].ctx);
      } else if name == "AttachEnv" && |args| == 1 {
        var i := FindById(ss, registry, lib.read(args[0]));
        if i < |registry| {
          assert Attaches(ss, AttachEnv(ss, registry, e, lib.read(args[0]), lib).ss, registry, e, i);
        }
      }
  }

  lemma HandleFrame(uid: Obj -> string, ss: seq<Session>, registry: seq<nat>, t: nat, msg: string, lib: Library)
    requires t < |ss| && PointersOk(ss, registry) && UidsOk(uid) && TablesOk(uid, ss)
    ensures var o := Handle(uid, ss, registry, t, msg, lib);
      o.Undefined? || MessageFrame(uid, ss, o.ss, registry, t, Effective(ss, t))
    ensures Handle(uid, ss, registry, t, msg, lib).Undefined? ==> ss[Effective(ss, t)].id.None?
  {
    match Parse(msg)
    case MissingContext =>
    case Request(ctx, spec) => DispatchFrame(uid, ss, registry, t, ctx, spec, lib);
  }

  lemma FrameKeepsTables(uid: Obj -> string, ss: seq<Session>, ss': seq<Session>, registry: seq<nat>, t: nat, e: nat)
    requires t < |ss| && e < |ss| && UidsOk(uid) && TablesOk(uid, ss)
    requires ss[t].ctx == map[] ==> e == t
    requires MessageFrame(uid, ss, ss', registry, t, e)
    ensures TablesOk(uid, ss')
    ensures forall u | 0 <= u < |ss| :: ss'[u].ctx == map[] <==> ss[u].ctx == map[]
  {
    forall u | 0 <= u < |ss|
      ensures TableOk(uid, ss'[u], u) && (ss'[u].ctx == map[] <==> ss[u].ctx == map[])
    {
      assert TableOk(uid, ss[u], u);
      assert TableOk(uid, ss[e], e);
      assert forall h | h in ss[u].ctx :: EntryOk(uid, ss[u], u, h);
      assert ss'[u].ctx.Keys >= ss[u].ctx.Keys;
      assert ss[u].ctx == map[] || PROVIDER in ss'[u].ctx;
    }
  }

  lemma FrameKeepsIds(uid: Obj -> string, ss: seq<Session>, ss': seq<Session>, registry: seq<nat>, t: nat, e: nat)
    requires t < |ss| && e < |ss| && MessageFrame(uid, ss, ss', registry, t, e)
    ensures |ss'| == |ss|
    ensures forall u | 0 <= u < |ss| :: ss'[u].id == ss[u].id
    ensures forall u | 0 <= u < |ss| :: ss'[u].attached == ss[u].attached || exists i ::
        0 <= i < |registry| && ss'[u].attached == Some(registry[i])
  {
  }
}
