/** A message depends on two sessions only: its own, and the one it looks in. */
module SessionLocality {
  import opened Wrappers
  import opened Wire
  import opened Sessions

  /**
   Two servers that agree on session `t`, on the session it looks in but for where that is attached,
   and on the numbers in the registry; all other sessions, and all other attachments, are their own.
  */
  ghost predicate Agree(ss: seq<Session>, ss2: seq<Session>, registry: seq<nat>, t: nat) {
    && t < |ss| && t < |ss2| && PointersOk(ss, registry) && PointersOk(ss2, registry)
    && ss[t] == ss2[t]
    && var e := Effective(ss, t);
    && e < |ss2| && ss2[e] == ss[e].(attached := ss2[e].attached)
    && forall i | 0 <= i < |registry| :: ss[registry[i]].id == ss2[registry[i]].id
  }

  /**
   Only sessions `t` and `e` change, and in the same way; where `e` is attached either becomes the
   same on both servers or stays as it was on each.
  */
  ghost predicate ChangeAlike(ss: seq<Session>, after: seq<Session>, ss2: seq<Session>, after2: seq<Session>, t: nat,
                              e: nat)
    requires t < |ss| && t < |ss2| && e < |ss| && e < |ss2|
  {
    && |after| == |ss| && |after2| == |ss2|
    && after[t] == after2[t] && after2[e] == after[e].(attached := after2[e].attached)
    && (after2[e].attached == after[e].attached
        || (after[e].attached == ss[e].attached && after2[e].attached == ss2[e].attached))
    && (forall u | 0 <= u < |ss| && u != t && u != e :: after[u] == ss[u])
    && (forall u | 0 <= u < |ss2| && u != t && u != e :: after2[u] == ss2[u])
  }

  ghost predicate EndAlike(ss: seq<Session>, o: Outcome, ss2: seq<Session>, o2: Outcome, t: nat, e: nat)
    requires t < |ss| && t < |ss2| && e < |ss| && e < |ss2|
  {
    match o
    case Undefined => o2.Undefined?
    case Terminated(after) => o2.Terminated? && ChangeAlike(ss, after, ss2, o2.ss, t, e)
    case Replied(after, reply) => o2.Replied? && o2.reply == reply && ChangeAlike(ss, after, ss2, o2.ss, t, e)
  }

  ghost predicate CallAlike(ss: seq<Session>, c: Called, ss2: seq<Session>, c2: Called, t: nat, e: nat)
    requires t < |ss| && t < |ss2| && e < |ss| && e < |ss2|
  {
    match c
    case Garbage => c2.Garbage?
    case Raised(after, what) => c2.Raised? && c2.what == what && ChangeAlike(ss, after, ss2, c2.ss, t, e)
    case Done(after, obj, text) =>
      c2.Done? && c2.obj == obj && c2.text == text && ChangeAlike(ss, after, ss2, c2.ss, t, e)
  }

  lemma {:induction false} FindByIdAlike(ss: seq<Session>, ss2: seq<Session>, registry: seq<nat>, id: int)
    requires PointersOk(ss, registry) && PointersOk(ss2, registry)
    requires forall i | 0 <= i < |registry| :: ss[registry[i]].id == ss2[registry[i]].id
    ensures FindById(ss, registry, id) == FindById(ss2, registry, id)
  {
    if registry != [] {
      FindByIdAlike(ss, ss2, registry[1..], id);
    }
  }

  lemma CreateEnvAlike(ss: seq<Session>, ss2: seq<Session>, registry: seq<nat>, t: nat, chromo: string, lib: Library)
    requires Agree(ss, ss2, registry, t)
    ensures var e := Effective(ss, t);
      CallAlike(ss, CreateEnv(ss, e, chromo, lib), ss2, CreateEnv(ss2, e, chromo, lib), t, e)
  {
  }

  lemma AttachEnvAlike(ss: seq<Session>, ss2: seq<Session>, registry: seq<nat>, t: nat, id: int, lib: Library)
    requires Agree(ss, ss2, registry, t)
    ensures var e := Effective(ss, t);
      CallAlike(ss, AttachEnv(ss, registry, e, id, lib), ss2, AttachEnv(ss2, registry, e, id, lib), t, e)
  {
    FindByIdAlike(ss, ss2, registry, id);
  }

  lemma ProviderAlike(ss: seq<Session>, ss2: seq<Session>, registry: seq<nat>, t: nat, spec: string, lib: Library)
    requires Agree(ss, ss2, registry, t)
    ensures var e := Effective(ss, t);
      CallAlike(ss, ProviderCall(ss, registry, e, spec, lib), ss2, ProviderCall(ss2, registry, e, spec, lib), t, e)
  {
    match lib.parse(spec)
    case Fail(_) =>
    case Ok(CallSpec(name, args)) =>
      if name == "CreateEnv" && |args| == 1 {
        CreateEnvAlike(ss, ss2, registry, t, args[0], lib);
      } else if name == "AttachEnv" && |args| == 1 {
        AttachEnvAlike(ss, ss2, registry, t, lib.read(args[0]), lib);
      }
  }

  lemma ModelAlike(uid: Obj -> string, ss: seq<Session>, ss2: seq<Session>, registry: seq<nat>, t: nat, x: Obj,
                   spec: string, lib: Library)
    requires Agree(ss, ss2, registry, t)
    ensures EndAlike(ss, Perform(uid, ss, registry, t, Model(x), spec, lib),
                     ss2, Perform(uid, ss2, registry, t, Model(x), spec, lib), t, Effective(ss, t))
  {
  }

  lemma PerformAlike(uid: Obj -> string, ss: seq<Session>, ss2: seq<Session>, registry: seq<nat>, t: nat,
                     target: Iface, spec: string, lib: Library)
    requires Agree(ss, ss2, registry, t) && (target.Provider? ==> target.sid == Effective(ss, t))
    ensures EndAlike(ss, Perform(uid, ss, registry, t, target, spec, lib),
                     ss2, Perform(uid, ss2, registry, t, target, spec, lib), t, Effective(ss, t))
  {
    if target.Provider? {
      ProviderAlike(ss, ss2, registry, t, spec, lib);
      ProviderFrame(ss, registry, target.sid, spec, lib);
    } else {
      ModelAlike(uid, ss, ss2, registry, t, target.obj, spec, lib);
    }
  }

  /**
   A message of session `t` ends in the same way, with the same reply and the same change to the two
   sessions it concerns, whatever the rest of the attachments: chains and cycles of them included.
  */
  lemma MessageIsLocal(uid: Obj -> string, ss: seq<Session>, ss2: seq<Session>, registry: seq<nat>, t: nat,
                       msg: string, lib: Library)
    requires Agree(ss, ss2, registry, t) && TablesOk(uid, ss)
    ensures EndAlike(ss, Handle(uid, ss, registry, t, msg, lib),
                     ss2, Handle(uid, ss2, registry, t, msg, lib), t, Effective(ss, t))
  {
    match Parse(msg)
    case MissingContext =>
    case Request(ctx, spec) =>
      var e := Effective(ss, t);
      var target := Lookup(ss, t, ctx);
      assert TableOk(uid, ss[e], e);
      if target.Some? && spec.Some? {
        assert EntryOk(uid, ss[e], e, ctx);
        PerformAlike(uid, ss, ss2, registry, t, target.value, spec.value, lib);
      }
  }

  /**
   In particular where the session looked in is attached itself, be it back to `t`, makes no
   difference to the messages of `t`.
  */
  lemma CycleIsHarmless(uid: Obj -> string, ss: seq<Session>, registry: seq<nat>, t: nat, e: nat, msg: string,
                        lib: Library)
    requires t < |ss| && e < |ss| && PointersOk(ss, registry) && TablesOk(uid, ss)
    requires ss[t].attached == Some(e) && e != t
    ensures var cut := ss[e := ss[e].(attached := None)];
      && PointersOk(cut, registry)
      && EndAlike(ss, Handle(uid, ss, registry, t, msg, lib), cut, Handle(uid, cut, registry, t, msg, lib), t, e)
  {
    MessageIsLocal(uid, ss, ss[e := ss[e].(attached := None)], registry, t, msg, lib);
  }
}
