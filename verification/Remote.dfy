/** One remote call: the client frames it, the server handles it, the client decodes the reply. */
module Remote {
  import opened Wrappers
  import opened Wire
  import opened Sessions
  import opened Server
  import opened ServerRuns

  /** How a remote call ends for the client. */
  datatype RemoteEnd =
    | Answered(ss: seq<Session>, reply: Reply)
    | ServerDied(ss: seq<Session>)
    | Unspecified  // the server reads past its buffer, or an unset number

  function RemoteCall(uid: Obj -> string, ss: seq<Session>, registry: seq<nat>, t: nat,
                      ctx: string, args: string, lib: Library): (r: RemoteEnd)
    requires t < |ss| && PointersOk(ss, registry)
    ensures !r.Unspecified? ==> |r.ss| == |ss| && PointersOk(r.ss, registry)
  {
    match Received(Framed(ctx, args))
    case None => Unspecified
    case Some(msg) =>
      match Handle(uid, ss, registry, t, msg, lib)
      case Undefined => Unspecified
      case Terminated(ss') => ServerDied(ss')
      case Replied(ss', reply) => Answered(ss', Decoded(Encoded(reply)).value)
  }

  /** The client side: what is known of `text` once it has been the text of a reply. */
  function Arrives(text: string): string {
    Decoded(Encoded(Reply(false, text))).value.text
  }

  /** A request the server's buffer can take and its parser can take apart. */
  predicate Deliverable(ctx: string, args: string) {
    && ctx != "" && SEPARATOR !in ctx
    && NUL !in ctx && NUL !in args
    && |ctx| + 1 + |args| < REQUEST_BUFFER
  }

  predicate ReplyFits(text: string) {
    NUL !in text && |text| <= REPLY_BUFFER - 2
  }

  /**
   Call transparency: for a request that fits, the client gets exactly the outcome of the call on
   the server - and every reply as it was meant exactly when that fits too.
  */
  lemma CallTransparent(uid: Obj -> string, ss: seq<Session>, registry: seq<nat>, t: nat,
                        ctx: string, args: string, lib: Library)
    requires t < |ss| && PointersOk(ss, registry) && Deliverable(ctx, args)
    ensures var r := RemoteCall(uid, ss, registry, t, ctx, args, lib);
      match Dispatch(uid, ss, registry, t, ctx, Some(args), lib)
      case Undefined => r == Unspecified
      case Terminated(ss') => r == ServerDied(ss')
      case Replied(ss', reply) =>
        r.Answered? && r.ss == ss' && r.reply.ok == reply.ok && (r.reply == reply <==> ReplyFits(reply.text))
  {
    var msg := Framed(ctx, args);
    assert NUL !in msg;
    ReceivedWhole(msg);
    HandleFramed(uid, ss, registry, t, ctx, args, lib);
    match Dispatch(uid, ss, registry, t, ctx, Some(args), lib)
    case Replied(_, reply) => ReplyTransparent(reply);
    case _ =>
  }

  /** A request too long for the buffer, or cut by a NUL, does not arrive. */
  lemma UnfitNotReceived(ctx: string, args: string)
    requires ctx != "" && SEPARATOR !in ctx
    ensures Received(Framed(ctx, args)) == Some(Framed(ctx, args)) <==> Deliverable(ctx, args)
  {
    var msg := Framed(ctx, args);
    ReceivedWhole(msg);
    assert msg[..|ctx|] == ctx && msg[|ctx| + 1..] == args;
    assert NUL in msg <==> NUL in ctx || NUL in args;
  }

  /** What makes a uid a handle that survives the journey both ways. */
  ghost predicate UidsTravel(uid: Obj -> string) {
    forall x :: ReplyFits(uid(x))
  }

  /** The client has been answered `reply`: its flag for certain, its text when it fits. */
  ghost predicate Delivered(r: RemoteEnd, ss: seq<Session>, reply: Reply) {
    r.Answered? && r.ss == ss && r.reply.ok == reply.ok && (ReplyFits(reply.text) ==> r.reply == reply)
  }

  /** A remote call on a model's interface: what the model does, in each of its three ways, is what arrives. */
  lemma ModelCallTransparent(uid: Obj -> string, ss: seq<Session>, registry: seq<nat>, t: nat,
                             ctx: string, x: Obj, args: string, lib: Library)
    requires t < |ss| && PointersOk(ss, registry) && Deliverable(ctx, args) && UidsTravel(uid)
    requires Lookup(ss, t, ctx) == Some(Model(x))
    ensures var r := RemoteCall(uid, ss, registry, t, ctx, args, lib);
      match lib.call(x, args)
      case Threw(what) => Delivered(r, ss, Reply(false, what))
      case Text(text) =>
        (text != "" ==> Delivered(r, ss, Reply(true, text))) && (text == "" ==> r == Answered(ss, Reply(true, "OK")))
      case Returned(y) =>
        if uid(y) in ss[t].ctx then r == ServerDied(ss)
        else r == Answered(ss[t := ss[t].(ctx := ss[t].ctx[uid(y) := Model(y)])], Reply(true, uid(y)))
  {
    CallTransparent(uid, ss, registry, t, ctx, args, lib);
    match lib.call(x, args)
    case Threw(_) =>
    case Text(_) => assert ReplyFits("OK");
    case Returned(y) => assert ReplyFits(uid(y));
  }

  // ---- the other clients, between two calls of one of them

  /** What the others may do to the table of an unattached session: bind its environment handle. */
  ghost predicate Undisturbed(ss: seq<Session>, ss': seq<Session>, t: nat) {
    && t < |ss| && t < |ss'|
    && ss'[t].ctx.Keys - {ENVIRONMENT} == ss[t].ctx.Keys - {ENVIRONMENT}
    && forall h | h in ss[t].ctx :: h in ss'[t].ctx && ss'[t].ctx[h] == ss[t].ctx[h]
  }

  /** No step of a run other than a message of `t` or the end of its constructor does more. */
  lemma {:induction false} OthersLeaveTable(uid: Obj -> string, es: seq<Event>, i: nat, j: nat, t: nat)
    requires UidsOk(uid) && Runs(uid, INITIAL, es) && i <= j <= |es|
    requires var tr := Trace(uid, INITIAL, es); t < |tr[i].sessions| && PROVIDER in tr[i].sessions[t].ctx
    requires forall k | i <= k < j :: es[k].Receive? ==> es[k].t != t
    ensures var tr := Trace(uid, INITIAL, es); Undisturbed(tr[i].sessions, tr[j].sessions, t)
  {
    if i < j {
      var tr := Trace(uid, INITIAL, es);
      OthersLeaveTable(uid, es, i, j - 1, t);
      TraceFacts(uid, es, j - 1);
      OtherStepLeavesTable(uid, tr[j - 1], es[j - 1], t);
    }
  }

  lemma OtherStepLeavesTable(uid: Obj -> string, st: State, e: Event, t: nat)
    requires UidsOk(uid) && Fits(st) && TablesOk(uid, st.sessions) && Enabled(st, e)
    requires t < |st.sessions| && PROVIDER in st.sessions[t].ctx && (e.Receive? ==> e.t != t)
    ensures Undisturbed(st.sessions, Step(uid, st, e).sessions, t)
  {
    if e.Receive? {
      var o := Handle(uid, st.sessions, st.registry, e.t, e.msg, e.lib);
      if !o.Undefined? {
        HandleFrame(uid, st.sessions, st.registry, e.t, e.msg, e.lib);
        OtherFrameLeavesTable(uid, st.sessions, o.ss, st.registry, e.t, Effective(st.sessions, e.t), t);
      }
    } else {
      assert Step(uid, st, e).sessions[t].ctx == st.sessions[t].ctx;
    }
  }

  lemma OtherFrameLeavesTable(uid: Obj -> string, ss: seq<Session>, ss': seq<Session>, registry: seq<nat>, u: nat,
                              e: nat, t: nat)
    requires u < |ss| && e < |ss| && t < |ss| && u != t && MessageFrame(uid, ss, ss', registry, u, e)
    ensures Undisturbed(ss, ss', t)
  {
  }
}
