/** What a client is answered, request by request, from the table its session looks in. */
module Answers {
  import opened Wrappers
  import opened Wire
  import opened Sessions
  import opened Remote

  /** The request on the provider that session `t` looks in, session `e`, is one for method `name`. */
  ghost predicate Asks(ss: seq<Session>, registry: seq<nat>, t: nat, e: nat, request: string, lib: Library,
                       name: string, args: seq<string>)
  {
    && t < |ss| && e < |ss| && PointersOk(ss, registry)
    && e == (if ss[t].attached.None? then t else ss[t].attached.value)
    && PROVIDER in ss[e].ctx && ss[e].ctx[PROVIDER] == Provider(e)
    && Deliverable(PROVIDER, request) && lib.parse(request) == Ok(CallSpec(name, args))
  }

  /** GetEnv names the environment handle if and only if the provider has an environment. */
  lemma RemoteGetEnv(uid: Obj -> string, ss: seq<Session>, registry: seq<nat>, t: nat, e: nat, request: string,
                     lib: Library, args: seq<string>)
    requires Asks(ss, registry, t, e, request, lib, "GetEnv", args)
    ensures var r := RemoteCall(uid, ss, registry, t, PROVIDER, request, lib);
      && r.Answered? && r.ss == ss && r.reply.ok
      && (r.reply.text == "MEnv#0" <==> ss[e].env.Some?)
      && (r.reply.text == "OK" <==> ss[e].env.None?)
  {
    CallTransparent(uid, ss, registry, t, PROVIDER, request, lib);
    assert ReplyFits("MEnv#0") && ReplyFits("OK");
    assert "MEnv#0"[0] != "OK"[0];
  }

  /** CreateEnv hands its argument and the session's number on, and ends as the construction does. */
  lemma RemoteCreateEnv(uid: Obj -> string, ss: seq<Session>, registry: seq<nat>, t: nat, e: nat, request: string,
                        lib: Library, chromo: string, id: nat)
    requires Asks(ss, registry, t, e, request, lib, "CreateEnv", [chromo])
    requires ss[e].id == Some(id) && (ss[e].env.None? ==> ENVIRONMENT !in ss[e].ctx)
    ensures var r := RemoteCall(uid, ss, registry, t, PROVIDER, request, lib);
      if ss[e].env.Some? then Delivered(r, ss, Reply(false, "Env already created"))
      else match lib.construct(chromo, lib.show(id))
        case NotAllocated(what) => Delivered(r, ss, Reply(false, what))
        case NotConstructed(env, what) => Delivered(r, ss[e := ss[e].(env := Some(env))], Reply(false, what))
        case Built(env) =>
          var ctx := ss[e].ctx["MEnv#0" := Model(env)];
          r == Answered(ss[e := ss[e].(env := Some(env), ctx := ctx)], Reply(true, "MEnv#0"))
  {
    CallTransparent(uid, ss, registry, t, PROVIDER, request, lib);
    assert ReplyFits("MEnv#0");
  }

  lemma RemoteGetId(uid: Obj -> string, ss: seq<Session>, registry: seq<nat>, t: nat, e: nat, request: string,
                    lib: Library, id: nat)
    requires Asks(ss, registry, t, e, request, lib, "GetId", []) && ss[e].id == Some(id) && lib.show(id) != ""
    ensures Delivered(RemoteCall(uid, ss, registry, t, PROVIDER, request, lib), ss, Reply(true, lib.show(id)))
  {
    CallTransparent(uid, ss, registry, t, PROVIDER, request, lib);
  }

  /** AttachEnv attaches to the session of the first entry with the id read, or says that there is none. */
  lemma RemoteAttachEnv(uid: Obj -> string, ss: seq<Session>, registry: seq<nat>, t: nat, e: nat, request: string,
                        lib: Library, arg: string, i: nat)
    requires Asks(ss, registry, t, e, request, lib, "AttachEnv", [arg]) && i <= |registry|
    requires forall j | 0 <= j < i :: ss[registry[j]].id != Some(lib.read(arg))
    requires i < |registry| ==> ss[registry[i]].id == Some(lib.read(arg))
    ensures var r := RemoteCall(uid, ss, registry, t, PROVIDER, request, lib);
      if i < |registry| then r == Answered(ss[e := ss[e].(attached := Some(registry[i]))], Reply(true, "OK"))
      else Delivered(r, ss, Reply(false, "Session [" + lib.show(lib.read(arg)) + "] for attaching not found"))
  {
    CallTransparent(uid, ss, registry, t, PROVIDER, request, lib);
    assert ReplyFits("OK");
    assert FindById(ss, registry, lib.read(arg)) == i;
  }

  /** A method that is not known is refused and changes nothing. */
  lemma RemoteUnknownMethod(uid: Obj -> string, ss: seq<Session>, registry: seq<nat>, t: nat, e: nat, request: string,
                            lib: Library, name: string, args: seq<string>)
    requires Asks(ss, registry, t, e, request, lib, name, args)
    requires name != "GetEnv" && name != "CreateEnv" && name != "GetId" && name != "AttachEnv"
    ensures Delivered(RemoteCall(uid, ss, registry, t, PROVIDER, request, lib), ss, Reply(false, "Unknown method"))
  {
    CallTransparent(uid, ss, registry, t, PROVIDER, request, lib);
  }

  /** So is one with the wrong number of arguments. */
  lemma RemoteWrongArguments(uid: Obj -> string, ss: seq<Session>, registry: seq<nat>, t: nat, e: nat, request: string,
                             lib: Library, name: string, args: seq<string>)
    requires Asks(ss, registry, t, e, request, lib, name, args)
    requires name == "CreateEnv" || name == "GetId" || name == "AttachEnv"
    requires |args| != if name == "GetId" then 0 else 1
    ensures var reply := Reply(false, "Wrong arguments number");
      Delivered(RemoteCall(uid, ss, registry, t, PROVIDER, request, lib), ss, reply)
  {
    CallTransparent(uid, ss, registry, t, PROVIDER, request, lib);
  }

  /** A specification that cannot be parsed. */
  lemma RemoteUnparsed(uid: Obj -> string, ss: seq<Session>, registry: seq<nat>, t: nat, request: string,
                       lib: Library, what: string)
    requires t < |ss| && PointersOk(ss, registry) && Deliverable(PROVIDER, request) && lib.parse(request) == Fail(what)
    requires exists e :: Lookup(ss, t, PROVIDER) == Some(Provider(e))
    ensures Delivered(RemoteCall(uid, ss, registry, t, PROVIDER, request, lib), ss, Reply(false, what))
  {
    CallTransparent(uid, ss, registry, t, PROVIDER, request, lib);
  }

  /** A context that the table looked in does not have. */
  lemma RemoteUnknownContext(uid: Obj -> string, ss: seq<Session>, registry: seq<nat>, t: nat, ctx: string,
                             request: string, lib: Library)
    requires t < |ss| && PointersOk(ss, registry) && Deliverable(ctx, request)
    requires ctx !in (if ss[t].attached.None? then ss[t].ctx else ss[ss[t].attached.value].ctx)
    ensures RemoteCall(uid, ss, registry, t, ctx, request, lib) == Answered(ss, Reply(false, "Context not found"))
  {
    CallTransparent(uid, ss, registry, t, ctx, request, lib);
    assert ReplyFits("Context not found");
  }

  /** Messages that are no request: a space ahead, or no space at all. */
  lemma NoRequest(uid: Obj -> string, ss: seq<Session>, registry: seq<nat>, t: nat, msg: string, lib: Library)
    requires t < |ss| && PointersOk(ss, registry)
    ensures msg != "" && msg[0] == ' ' ==>
      Handle(uid, ss, registry, t, msg, lib) == Replied(ss, Reply(false, "Missing context"))
    ensures ' ' !in msg ==>
      var ctx := if ss[t].attached.None? then ss[t].ctx else ss[ss[t].attached.value].ctx;
      Handle(uid, ss, registry, t, msg, lib)
        == Replied(ss, Reply(false, if msg in ctx then "Missing call spec" else "Context not found"))
  {
    if ' ' !in msg {
      assert msg[..|msg|] == msg;
    }
  }
}
