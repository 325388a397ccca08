/**
 `SessionClient` as the source has it: objects that update their fields in place and point at each
 other. Every method is proved against the functions on values of module Sessions.
*/
module SessionObjects {
  import opened Wrappers
  import opened Wire
  import opened Sessions
  import opened Ids

  /** A pointer to an interface: a session in its role of environment provider, or a model's. */
  datatype MIface = SessionObj(session: SessionClient) | ModelObj(obj: Obj)

  ghost function ValueOf(p: MIface): Iface {
    match p
    case SessionObj(s) => Provider(s.sid)
    case ModelObj(x) => Model(x)
  }

  /** How a method call ends that may throw, or read `mId` before it is set. */
  datatype Ending = Returns(obj: Option<MIface>, text: string) | Throws(what: string) | ReadsGarbage

  datatype MessageEnd = Sends(reply: Reply) | Dies | ReadsUnset

  class SessionClient {
    ghost const sid: nat     // position in the order of construction, standing for the address
    var mId: Option<nat>     // None until SetId
    var mEnv: Option<Obj>
    var mCtx: map<string, MIface>
    var mAttached: SessionClient?

    ghost function Value(): Session
      reads this
    {
      Session(mId, mEnv, map h | h in mCtx :: ValueOf(mCtx[h]),
              if mAttached == null then None else Some(mAttached.sid))
    }

    constructor (ghost sid: nat)
      ensures this.sid == sid && mCtx == map[] && mAttached == null
      ensures Value() == Session(None, None, map[], None)
    {
      this.sid := sid;
      mId, mEnv, mCtx, mAttached := None, None, map[], null;
    }

    method AddContext(handle: string, p: MIface) returns (ok: bool)
      modifies this`mCtx
      ensures ok <==> Sessions.AddContext(old(Value()), handle, ValueOf(p)).Some?
      ensures Value() == if ok then Sessions.AddContext(old(Value()), handle, ValueOf(p)).value else old(Value())
      ensures mCtx == if ok then old(mCtx)[handle := p] else old(mCtx)
    {
      if handle in mCtx {
        return false;
      }
      mCtx := mCtx[handle := p];
      ok := true;
    }

    /** Lookup in the own table, or in that of the session attached to; one level only. */
    method GetContext(ghost server: SessionServer, handle: string) returns (res: Option<MIface>)
      requires server.Valid() && this in server.all
      ensures PointersOk(server.Values(), server.Registry())
      ensures Lookup(server.Values(), sid, handle) == match res { case None => None case Some(p) => Some(ValueOf(p)) }
      ensures res.Some? && res.value.SessionObj? ==> res.value.session in server.all
    {
      server.PointersAreOk();
      assert server.PointersIn(this) && (mAttached != null ==> server.PointersIn(mAttached));
      var ctx := if mAttached == null then mCtx else mAttached.mCtx;
      res := if handle in ctx then Some(ctx[handle]) else None;
    }

    method CreateEnv(server: SessionServer, chromo: string, lib: Library) returns (e: Ending)
      requires server.Valid() && this in server.all
      modifies this
      ensures server.Valid()
      ensures server.Shows(Sessions.CreateEnv(old(server.Values()), sid, chromo, lib), e, old(server.Values()))
    {
      server.PointersAreOk();
      ghost var before := server.Values();
      if mEnv.Some? {
        return Throws("Env already created");
      }
      if mId.None? {
        return ReadsGarbage;
      }
      match lib.construct(chromo, lib.show(mId.value))
      case NotAllocated(what) => e := Throws(what);
      case NotConstructed(env, what) =>
        mEnv := Some(env);
        server.OnlyChanged(before, this);
        e := Throws(what);
      case Built(env) =>
        mEnv := Some(env);
        var ok := AddContext(ENVIRONMENT, ModelObj(env));
        server.OnlyChanged(before, this);
        e := if ok then Returns(None, ENVIRONMENT) else Throws("Context already exists");
    }

    method AttachEnv(server: SessionServer, id: int, lib: Library) returns (e: Ending)
      requires server.Valid() && this in server.all
      modifies this
      ensures server.Valid()
      ensures server.Shows(Sessions.AttachEnv(old(server.Values()), old(server.Registry()), sid, id, lib), e,
        old(server.Values()))
    {
      server.PointersAreOk();
      ghost var before := server.Values();
      var session := server.FindSessionClientById(id);
      if session != null {
        mAttached := session;
        server.OnlyChanged(before, this);
        e := Returns(None, "");
      } else {
        e := Throws("Session [" + lib.show(id) + "] for attaching not found");
      }
    }

    method Call(server: SessionServer, spec: string, lib: Library) returns (e: Ending)
      requires server.Valid() && this in server.all
      modifies this
      ensures server.Valid()
      ensures server.Shows(ProviderCall(old(server.Values()), old(server.Registry()), sid, spec, lib), e,
        old(server.Values()))
      ensures e.Returns? ==> e.obj.None?
    {
      server.PointersAreOk();
      ProviderFrame(server.Values(), server.Registry(), sid, spec, lib);
      match lib.parse(spec)
      case Fail(what) => e := Throws(what);
      case Ok(CallSpec(name, args)) =>
        if name == "GetEnv" {
          e := Returns(None, if mEnv.Some? then ENVIRONMENT else "");
        } else if name == "CreateEnv" {
          if |args| != 1 {
            return Throws("Wrong arguments number");
          }
          e := CreateEnv(server, args[0], lib);
        } else if name == "GetId" {
          if |args| != 0 {
            return Throws("Wrong arguments number");
          }
          e := if mId.None? then ReadsGarbage else Returns(None, lib.show(mId.value));
        } else if name == "AttachEnv" {
          if |args| != 1 {
            return Throws("Wrong arguments number");
          }
          e := AttachEnv(server, lib.read(args[0]), lib);
        } else {
          e := Throws("Unknown method");
        }
    }

    /** The end of a message as module Sessions says, on the state and in the reply. */
    static ghost predicate EndsAs(server: SessionServer, o: Outcome, end: MessageEnd, before: seq<Session>)
      reads server, server.all
    {
      match o
      case Replied(ss, reply) => server.Values() == ss && end == Sends(reply)
      case Terminated(ss) => server.Values() == ss && end == Dies
      case Undefined => server.Values() == before && end == ReadsUnset
    }

    /** Call a model's interface and register what it returns, outside the try block. */
    method PerformOnModel(server: SessionServer, uid: Obj -> string, x: Obj, spec: string, lib: Library)
        returns (end: MessageEnd)
      requires server.Valid() && this in server.all
      modifies this
      ensures server.Valid()
      ensures PointersOk(old(server.Values()), old(server.Registry()))
      ensures EndsAs(server, Perform(uid, old(server.Values()), old(server.Registry()), sid, Model(x), spec, lib),
                     end, old(server.Values()))
    {
      server.PointersAreOk();
      match lib.call(x, spec) {
        case Threw(what) => end := Sends(Reply(false, what));
        case Text(text) => end := Sends(Reply(true, if text == "" then "OK" else text));
        case Returned(y) =>
          ghost var before := server.Values();
          var ok := AddContext(uid(y), ModelObj(y));
          server.OnlyChanged(before, this);
          assert forall i | 0 <= i < |server.all| :: old(server.PointersIn(server.all[i]));
          end := if ok then Sends(Reply(true, uid(y))) else Dies;
      }
    }

    method PerformOnProvider(server: SessionServer, ghost uid: Obj -> string, p: SessionClient, spec: string,
                             lib: Library)
        returns (end: MessageEnd)
      requires server.Valid() && this in server.all && p in server.all
      modifies p
      ensures server.Valid()
      ensures PointersOk(old(server.Values()), old(server.Registry()))
      ensures EndsAs(server,
        Perform(uid, old(server.Values()), old(server.Registry()), sid, Provider(p.sid), spec, lib),
                     end, old(server.Values()))
    {
      server.PointersAreOk();
      var e := p.Call(server, spec, lib);
      match e {
        case ReadsGarbage => end := ReadsUnset;
        case Throws(what) => end := Sends(Reply(false, what));
        case Returns(_, text) => end := Sends(Reply(true, if text == "" then "OK" else text));
      }
    }

    method PerformOn(server: SessionServer, uid: Obj -> string, p: MIface, spec: string, lib: Library)
        returns (end: MessageEnd)
      requires server.Valid() && this in server.all && (p.SessionObj? ==> p.session in server.all)
      modifies server.all
      ensures server.Valid()
      ensures PointersOk(old(server.Values()), old(server.Registry()))
      ensures EndsAs(server, Perform(uid, old(server.Values()), old(server.Registry()), sid, ValueOf(p), spec, lib),
                     end, old(server.Values()))
    {
      match p
      case SessionObj(s) => end := PerformOnProvider(server, uid, s, spec, lib);
      case ModelObj(x) => end := PerformOnModel(server, uid, x, spec, lib);
    }

    /** One message: look up the context, call it, register what it returns, and reply. */
    method HandleMessage(server: SessionServer, uid: Obj -> string, msg: string, lib: Library) returns (end: MessageEnd)
      requires server.Valid() && this in server.all
      modifies server.all
      ensures server.Valid()
      ensures PointersOk(old(server.Values()), old(server.Registry()))
      ensures EndsAs(server, Handle(uid, old(server.Values()), old(server.Registry()), sid, msg, lib),
                     end, old(server.Values()))
    {
      server.PointersAreOk();
      match Parse(msg)
      case MissingContext => end := Sends(Reply(false, "Missing context"));
      case Request(ctx, spec) =>
        var found := GetContext(server, ctx);
        if found.None? {
          end := Sends(Reply(false, "Context not found"));
        } else if spec.None? {
          end := Sends(Reply(false, "Missing call spec"));
        } else {
          end := PerformOn(server, uid, found.value, spec.value, lib);
        }
    }
  }

  /** The static members: the vector of registered clients. `all` is every client ever constructed. */
  class SessionServer {
    var sClients: seq<SessionClient>
    ghost var all: seq<SessionClient>

    ghost predicate Valid()
      reads this, all
    {
      && (forall i | 0 <= i < |all| :: all[i].sid == i && PointersIn(all[i]))
      && (forall i | 0 <= i < |sClients| :: sClients[i] in all)
    }

    ghost predicate PointersIn(c: SessionClient)
      reads this, c
    {
      && (c.mAttached != null ==> c.mAttached in all)
      && (forall h | h in c.mCtx && c.mCtx[h].SessionObj? :: c.mCtx[h].session in all)
    }

    ghost function Values(): (ss: seq<Session>)
      reads this, all
      ensures |ss| == |all| && forall i | 0 <= i < |ss| :: ss[i] == all[i].Value()
    {
      seq(|all|, i requires 0 <= i < |all| reads this, all => all[i].Value())
    }

    ghost function Registry(): (r: seq<nat>)
      reads this
      ensures |r| == |sClients| && forall i | 0 <= i < |r| :: r[i] == sClients[i].sid
    {
      seq(|sClients|, i requires 0 <= i < |sClients| reads this => sClients[i].sid)
    }

    /** The call ended as `c` says, on the state and in its result. */
    ghost predicate Shows(c: Called, e: Ending, before: seq<Session>)
      reads this, all
    {
      match c
      case Done(ss, obj, text) => Values() == ss && e.Returns? && e.text == text && e.obj.None? && obj.None?
      case Raised(ss, what) => Values() == ss && e == Throws(what)
      case Garbage => Values() == before && e == ReadsGarbage
    }

    lemma PointersAreOk()
      requires Valid()
      ensures PointersOk(Values(), Registry())
    {
    }

    /** The values after a change confined to one client. */
    lemma OnlyChanged(before: seq<Session>, c: SessionClient)
      requires c.sid < |all| && all[c.sid] == c && |before| == |all|
      requires forall i | 0 <= i < |all| && i != c.sid :: before[i] == all[i].Value()
      ensures Values() == before[c.sid := c.Value()]
    {
    }

    constructor ()
      ensures Valid() && Values() == [] && Registry() == []
    {
      sClients, all := [], [];
    }

    /** Construction of a client, up to the start of its handler. */
    method Accept() returns (c: SessionClient)
      requires Valid()
      modifies this`all
      ensures Valid() && fresh(c) && all == old(all) + [c]
      ensures Values() == old(Values()) + [Session(None, None, map[], None)]
      ensures Registry() == old(Registry())
    {
      c := new SessionClient(|all|);
      all := all + [c];
      forall i | 0 <= i < |all| ensures all[i].sid == i && PointersIn(all[i]) {
        assert i < |old(all)| ==> old(PointersIn(all[i]));
      }
    }

    /** The end of the constructor, with the handler already running; false when it throws. */
    method Install(c: SessionClient) returns (ok: bool)
      requires Valid() && c in all
      modifies c`mCtx
      ensures Valid() && Registry() == old(Registry())
      ensures ok <==> PROVIDER !in old(c.Value()).ctx
      ensures Values() == if ok
        then old(Values())[c.sid := old(c.Value()).(ctx := old(c.Value()).ctx[PROVIDER := Provider(c.sid)])]
        else old(Values())
    {
      ghost var before := Values();
      ok := c.AddContext(PROVIDER, SessionObj(c));
      OnlyChanged(before, c);
      assert forall i | 0 <= i < |all| :: old(PointersIn(all[i]));
    }

    method FindSessionClientIndex(c: SessionClient) returns (index: int)
      requires Valid() && c.mId.Some?
      ensures PointersOk(Values(), Registry())
      ensures var i := FindById(Values(), Registry(), c.mId.value); index == if i < |sClients| then i else -1
    {
      PointersAreOk();
      index := -1;
      for i := 0 to |sClients|
        invariant index == -1
        invariant forall j | 0 <= j < i :: sClients[j].mId != c.mId
      {
        if sClients[i].mId == c.mId {
          assert Values()[Registry()[i]].id == c.mId;
          return i;
        }
      }
      assert forall j | 0 <= j < |sClients| :: Values()[Registry()[j]].id != c.mId;
    }

    method FindSessionClientById(id: int) returns (c: SessionClient?)
      requires Valid()
      ensures PointersOk(Values(), Registry())
      ensures var i := FindById(Values(), Registry(), id); c == if i < |sClients| then sClients[i] else null
    {
      PointersAreOk();
      c := null;
      for i := 0 to |sClients|
        invariant c == null
        invariant forall j | 0 <= j < i :: sClients[j].mId != Some(id)
      {
        if sClients[i].mId == Some(id) {
          assert Values()[Registry()[i]].id == Some(id);
          return sClients[i];
        }
      }
      assert forall j | 0 <= j < |sClients| :: Values()[Registry()[j]].id != Some(id);
    }

    /** The first critical section of a handler: number the client and append it. */
    method Register(c: SessionClient)
      requires Valid() && c in all
      modifies this`sClients, c`mId
      ensures Valid() && all == old(all)
      ensures Values() == old(Values())[c.sid := old(c.Value()).(id := Some(|old(Registry())|))]
      ensures Registry() == old(Registry()) + [c.sid]
    {
      ghost var before := Values();
      c.mId := Some(|sClients|);
      sClients := sClients + [c];
      OnlyChanged(before, c);
      assert forall i | 0 <= i < |all| :: old(PointersIn(all[i]));
    }

    method Erase(index: nat)
      requires Valid() && index < |sClients|
      modifies this`sClients
      ensures Valid() && all == old(all) && Values() == old(Values())
      ensures Registry() == Without(old(Registry()), index)
      ensures |sClients| == |old(sClients)| - 1
      ensures forall j | 0 <= j < |sClients| :: sClients[j] == old(sClients)[if j < index then j else j + 1]
    {
      ghost var was := sClients;
      sClients := sClients[..index] + sClients[index + 1..];
      assert forall i | 0 <= i < |sClients| :: sClients[i] == was[if i < index then i else i + 1];
      assert forall i | 0 <= i < |all| :: old(PointersIn(all[i]));
    }

    /** The last critical section: erase the first entry with the client's number; false is an erase out of range. */
    method Unregister(c: SessionClient) returns (ok: bool)
      requires Valid() && c in all && c.mId.Some?
      modifies this`sClients
      ensures Valid() && all == old(all) && Values() == old(Values())
      ensures PointersOk(old(Values()), old(Registry()))
      ensures var i := FindById(old(Values()), old(Registry()), c.mId.value);
        && (ok <==> i < |old(Registry())|)
        && Registry() == if ok then Without(old(Registry()), i) else old(Registry())
      ensures var i := FindById(old(Values()), old(Registry()), c.mId.value);
        ok ==>
          && |sClients| == |old(sClients)| - 1
          && forall j | 0 <= j < |sClients| :: sClients[j] == old(sClients)[if j < i then j else j + 1]
    {
      var index := FindSessionClientIndex(c);
      if index < 0 {
        return false;
      }
      Erase(index);
      ok := true;
    }
  }
}
