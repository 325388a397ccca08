/**
 One client's calls within a run of the whole server: which event of the run handles a call, what
 the client hears, and where the run stands after a list of exchanges.
*/
module Connection {
  import opened Wrappers
  import opened Wire
  import opened Sessions
  import opened Server
  import opened ServerRuns
  import opened Remote
  import opened ProxyObjects

  /** The place of the next message of session `t` from state `i` on; the end of the run when there is none. */
  function NextMessage(es: seq<Event>, i: nat, t: nat): (k: nat)
    requires i <= |es|
    ensures i <= k <= |es|
    ensures forall j | i <= j < k :: !(es[j].Receive? && es[j].t == t)
    ensures k < |es| ==> es[k].Receive? && es[k].t == t
    decreases |es| - i
  {
    if i == |es| || (es[i].Receive? && es[i].t == t) then i else NextMessage(es, i + 1, t)
  }

  /** How a call ends in a run. */
  datatype CallEnd =
    | Heard(at: nat, reply: Reply)  // handled; `at` numbers the state right after, `reply` is what arrives
    | Died(at: nat)                 // handled, and the server dies of it
    | Overran                       // the request runs past the server's buffer
    | NotMade                       // the session's next message in the run is another one, or there is none

  function LastAnswer(th: Thread): Reply
    requires th.answers != []
  {
    th.answers[|th.answers| - 1]
  }

  /** What a message event of a run does, read off the states around it. */
  lemma MessageHandled(uid: Obj -> string, es: seq<Event>, k: nat)
    requires UidsOk(uid) && Runs(uid, INITIAL, es) && k < |es| && es[k].Receive?
    ensures var tr := Trace(uid, INITIAL, es); var st, st', t := tr[k], tr[k + 1], es[k].t;
      && Fits(st) && t < |st.sessions| && t < |st'.threads| && |st'.sessions| == |st.sessions|
      && match Handle(uid, st.sessions, st.registry, t, es[k].msg, es[k].lib)
         case Undefined => false
         case Terminated(ss) => !st'.status.Running? && st'.sessions == ss
         case Replied(ss, reply) =>
           st'.status.Running? && st'.sessions == ss && st'.threads[t].answers != []
             && LastAnswer(st'.threads[t]) == reply
  {
    TraceFacts(uid, es, k);
    MessageReadsNumber(uid, Trace(uid, INITIAL, es)[k], es[k].t, es[k].msg, es[k].lib);
  }

  /** The call of session `t` under `ctx`, made from state `i` of the run on. */
  ghost function CallIn(uid: Obj -> string, es: seq<Event>, i: nat, t: nat, ctx: string, args: string): (c: CallEnd)
    requires UidsOk(uid) && Runs(uid, INITIAL, es) && i <= |es|
    ensures c.Heard? || c.Died? ==>
      && i < c.at <= |es| && c.at == NextMessage(es, i, t) + 1
      && (c.Heard? <==> Trace(uid, INITIAL, es)[c.at].status.Running?)
    ensures c.Overran? <==> Received(Framed(ctx, args)).None?
    ensures c.NotMade? ==>
      var k := NextMessage(es, i, t); k == |es| || Received(Framed(ctx, args)) != Some(es[k].msg)
  {
    match Received(Framed(ctx, args))
    case None => Overran
    case Some(msg) =>
      var k := NextMessage(es, i, t);
      if k == |es| || es[k].msg != msg then NotMade
      else
        MessageHandled(uid, es, k);
        var st := Trace(uid, INITIAL, es)[k + 1];
        if st.status.Running? then Heard(k + 1, Decoded(Encoded(LastAnswer(st.threads[t]))).value) else Died(k + 1)
  }

  /** Between the place of a call and the event that handles it there is no message of the session. */
  ghost predicate Silent(es: seq<Event>, i: nat, j: nat, t: nat)
    requires i <= j <= |es|
  {
    forall k | i <= k < j :: !(es[k].Receive? && es[k].t == t)
  }

  /** What the client makes of a message that has been handled. */
  lemma RemoteCallIs(uid: Obj -> string, ss: seq<Session>, registry: seq<nat>, t: nat, ctx: string, args: string,
                     msg: string, lib: Library)
    requires t < |ss| && PointersOk(ss, registry) && Received(Framed(ctx, args)) == Some(msg)
    ensures var r := RemoteCall(uid, ss, registry, t, ctx, args, lib);
      match Handle(uid, ss, registry, t, msg, lib)
      case Undefined => r == Unspecified
      case Terminated(ss') => r == ServerDied(ss')
      case Replied(ss', reply) => r == Answered(ss', Decoded(Encoded(reply)).value)
  {
  }

  lemma OverranIff(uid: Obj -> string, es: seq<Event>, i: nat, t: nat, ctx: string, args: string)
    requires UidsOk(uid) && Runs(uid, INITIAL, es) && i <= |es|
    ensures CallIn(uid, es, i, t, ctx, args).Overran? <==> Received(Framed(ctx, args)).None?
  {
  }

  lemma HandledCall(uid: Obj -> string, es: seq<Event>, k: nat, ctx: string, args: string)
    requires UidsOk(uid) && Runs(uid, INITIAL, es) && k < |es| && es[k].Receive?
    requires Received(Framed(ctx, args)) == Some(es[k].msg)
    ensures var tr := Trace(uid, INITIAL, es); var st, st', t := tr[k], tr[k + 1], es[k].t;
      && Fits(st) && t < |st.sessions| == |st'.sessions| && t < |st'.threads|
        && (st'.status.Running? ==> st'.threads[t].answers != [])
      && RemoteCall(uid, st.sessions, st.registry, t, ctx, args, es[k].lib)
         == (if st'.status.Running? then Answered(st'.sessions, Decoded(Encoded(LastAnswer(st'.threads[t]))).value)
             else ServerDied(st'.sessions))
  {
    var st := Trace(uid, INITIAL, es)[k];
    MessageHandled(uid, es, k);
    RemoteCallIs(uid, st.sessions, st.registry, es[k].t, ctx, args, es[k].msg, es[k].lib);
  }

  lemma CallHandledAt(uid: Obj -> string, es: seq<Event>, i: nat, t: nat, ctx: string, args: string) returns (k: nat)
    requires UidsOk(uid) && Runs(uid, INITIAL, es) && i <= |es|
    requires var c := CallIn(uid, es, i, t, ctx, args); c.Heard? || c.Died?
    ensures i <= k < |es| && es[k].Receive? && es[k].t == t && Received(Framed(ctx, args)) == Some(es[k].msg)
    ensures Silent(es, i, k, t)
    ensures var c, st' := CallIn(uid, es, i, t, ctx, args), Trace(uid, INITIAL, es)[k + 1];
      && c.at == k + 1 && t < |st'.threads| && (c.Heard? <==> st'.status.Running?)
      && (c.Heard? ==> st'.threads[t].answers != [] && c.reply == Decoded(Encoded(LastAnswer(st'.threads[t]))).value)
  {
    k := NextMessage(es, i, t);
    MessageHandled(uid, es, k);
  }

  /** A call in a run is the remote call in the state `st` that its message finds. */
  lemma CallInRun(uid: Obj -> string, es: seq<Event>, i: nat, t: nat, ctx: string, args: string)
      returns (st: State, e: Event)
    requires UidsOk(uid) && Runs(uid, INITIAL, es) && i <= |es|
    requires var c := CallIn(uid, es, i, t, ctx, args); c.Heard? || c.Died?
    ensures var c, tr := CallIn(uid, es, i, t, ctx, args), Trace(uid, INITIAL, es);
      && st == tr[c.at - 1] && e == es[c.at - 1] && e.Receive? && e.t == t && Silent(es, i, c.at - 1, t)
      && Fits(st) && t < |st.sessions| == |tr[c.at].sessions|
      && RemoteCall(uid, st.sessions, st.registry, t, ctx, args, e.lib)
         == (if c.Heard? then Answered(tr[c.at].sessions, c.reply) else ServerDied(tr[c.at].sessions))
  {
    var k := CallHandledAt(uid, es, i, t, ctx, args);
    st, e := Trace(uid, INITIAL, es)[k], es[k];
    HandledCall(uid, es, k, ctx, args);
  }

  // ---- lists of exchanges

  /** Where the run stands after a list of exchanges, or after how many of them it was lost and why. */
  datatype Place = At(n: nat) | Lost(answered: nat, why: CallEnd)

  ghost function PlaceOf(uid: Obj -> string, es: seq<Event>, i: nat, t: nat, log: seq<Exchange>): (p: Place)
    requires UidsOk(uid) && Runs(uid, INITIAL, es) && i <= |es|
    ensures p.At? ==> i <= p.n <= |es|
    ensures p.Lost? ==> p.answered < |log| && !p.why.Heard?
    decreases |log|
  {
    if log == [] then At(i)
    else
      var last := log[|log| - 1];
      match PlaceOf(uid, es, i, t, log[..|log| - 1])
      case Lost(answered, why) => Lost(answered, why)
      case At(n) =>
        match CallIn(uid, es, n, t, last.context, last.request)
        case Heard(at, _) => At(at)
        case c => Lost(|log| - 1, c)
  }

  lemma PlaceNext(uid: Obj -> string, es: seq<Event>, i: nat, t: nat, log: seq<Exchange>, x: Exchange)
    requires UidsOk(uid) && Runs(uid, INITIAL, es) && i <= |es|
    ensures PlaceOf(uid, es, i, t, log + [x]) ==
      match PlaceOf(uid, es, i, t, log)
      case Lost(answered, why) => Lost(answered, why)
      case At(n) =>
        match CallIn(uid, es, n, t, x.context, x.request)
        case Heard(at, _) => At(at)
        case c => Lost(|log|, c)
  {
    assert (log + [x])[..|log|] == log;
  }

  lemma {:induction false} LostStays(uid: Obj -> string, es: seq<Event>, i: nat, t: nat, log: seq<Exchange>,
                                     log': seq<Exchange>)
    requires UidsOk(uid) && Runs(uid, INITIAL, es) && i <= |es|
    requires PlaceOf(uid, es, i, t, log).Lost? && log <= log'
    ensures PlaceOf(uid, es, i, t, log') == PlaceOf(uid, es, i, t, log)
    decreases |log'|
  {
    if |log| < |log'| {
      var n := |log'| - 1;
      LostStays(uid, es, i, t, log, log'[..n]);
      assert log' == log'[..n] + [log'[n]];
      PlaceNext(uid, es, i, t, log'[..n], log'[n]);
    } else {
      assert log == log';
    }
  }

  /** What the client hears, in the run, of one more call after `log`. */
  ghost function HeardAfter(uid: Obj -> string, es: seq<Event>, i: nat, t: nat, log: seq<Exchange>, ctx: string,
                            args: string): Option<Reply>
    requires UidsOk(uid) && Runs(uid, INITIAL, es) && i <= |es|
  {
    match PlaceOf(uid, es, i, t, log)
    case Lost(_, _) => None
    case At(n) =>
      var c := CallIn(uid, es, n, t, ctx, args);
      if c.Heard? then Some(c.reply) else None
  }

  /** The connection's answers are those the client hears in the run, as long as it goes along with it. */
  ghost predicate ServedBy(service: Service, uid: Obj -> string, es: seq<Event>, i: nat, t: nat)
    requires UidsOk(uid) && Runs(uid, INITIAL, es) && i <= |es|
  {
    forall log, ctx, args | HeardAfter(uid, es, i, t, log, ctx, args).Some? ::
      Some(service(log, ctx, args)) == HeardAfter(uid, es, i, t, log, ctx, args)
  }

  /** Every run serves. */
  lemma SomeService(uid: Obj -> string, es: seq<Event>, i: nat, t: nat) returns (service: Service)
    requires UidsOk(uid) && Runs(uid, INITIAL, es) && i <= |es|
    ensures ServedBy(service, uid, es, i, t)
  {
    service := (log, ctx, args) =>
      var heard := HeardAfter(uid, es, i, t, log, ctx, args);
      if heard.Some? then heard.value else Reply(false, "");
  }

  /** One more exchange with a service of the run. */
  lemma Served(service: Service, uid: Obj -> string, es: seq<Event>, i: nat, t: nat, log: seq<Exchange>, n: nat,
               ctx: string, args: string)
    requires UidsOk(uid) && Runs(uid, INITIAL, es) && i <= |es| && ServedBy(service, uid, es, i, t)
    requires PlaceOf(uid, es, i, t, log) == At(n)
    ensures var c := CallIn(uid, es, n, t, ctx, args); var x := Asked(service, log, ctx, args);
      && PlaceOf(uid, es, i, t, log + [x]) == (if c.Heard? then At(c.at) else Lost(|log|, c))
      && (c.Heard? ==> x.reply == c.reply)
  {
    PlaceNext(uid, es, i, t, log, Asked(service, log, ctx, args));
    assert HeardAfter(uid, es, i, t, log, ctx, args).Some? ==>
      Some(service(log, ctx, args)) == HeardAfter(uid, es, i, t, log, ctx, args);
  }

  // ---- the next call can always be made

  /** The mutex is free and session `t` waits for a message. */
  ghost predicate Awaits(st: State, t: nat) {
    st.status.Running? && st.lock.None? && t < |st.threads| && st.threads[t].pc.Serving?
  }

  lemma OneMore(uid: Obj -> string, es: seq<Event>, e: Event)
    requires Runs(uid, INITIAL, es) && Enabled(After(uid, INITIAL, es), e)
    ensures Runs(uid, INITIAL, es + [e]) && After(uid, INITIAL, es + [e]) == Step(uid, After(uid, INITIAL, es), e)
  {
    var st := After(uid, INITIAL, es);
    assert [e][1..] == [];
    assert Runs(uid, Step(uid, st, e), []) && Runs(uid, st, [e]);
    RunsConcat(uid, INITIAL, es, [e]);
  }

  /** The answer to a message goes out. */
  lemma AnswerGoesOut(uid: Obj -> string, es: seq<Event>, t: nat) returns (es': seq<Event>)
    requires Runs(uid, INITIAL, es)
    requires var st := After(uid, INITIAL, es);
      st.status.Running? && st.lock.None? && t < |st.threads| && st.threads[t].pc.Answering?
    ensures es' == es + [Lock(t), Inside(t), Unlock(t)] && Runs(uid, INITIAL, es')
    ensures Awaits(After(uid, INITIAL, es'), t)
  {
    OneMore(uid, es, Lock(t));
    OneMore(uid, es + [Lock(t)], Inside(t));
    OneMore(uid, es + [Lock(t)] + [Inside(t)], Unlock(t));
    es' := es + [Lock(t)] + [Inside(t)] + [Unlock(t)];
  }

  /** The message itself: unless the server dies of it, its answer is ready. */
  lemma MessageComes(uid: Obj -> string, es: seq<Event>, t: nat, msg: string, lib: Library)
    requires UidsOk(uid) && Runs(uid, INITIAL, es) && Awaits(After(uid, INITIAL, es), t)
    ensures Runs(uid, INITIAL, es + [Receive(t, msg, lib)])
    ensures var st := After(uid, INITIAL, es + [Receive(t, msg, lib)]);
      st.status.Running? ==> st.lock.None? && t < |st.threads| && st.threads[t].pc.Answering?
  {
    OneMore(uid, es, Receive(t, msg, lib));
  }

  lemma NextHere(es: seq<Event>, i: nat, t: nat)
    requires i < |es| && es[i].Receive? && es[i].t == t
    ensures NextMessage(es, i, t) == i
  {
  }

  /**
   From a state in which the session waits, a request that arrives can be the next to be handled; if
   the server survives it, the session is answered and waits again.
  */
  lemma CallCanBeMade(uid: Obj -> string, es: seq<Event>, t: nat, ctx: string, args: string, lib: Library)
      returns (es': seq<Event>)
    requires UidsOk(uid) && Runs(uid, INITIAL, es) && Awaits(After(uid, INITIAL, es), t)
    requires Received(Framed(ctx, args)).Some?
    ensures es <= es' && Runs(uid, INITIAL, es')
    ensures var c := CallIn(uid, es', |es|, t, ctx, args);
      c.Died? || (c.Heard? && Awaits(After(uid, INITIAL, es'), t))
  {
    var msg := Received(Framed(ctx, args)).value;
    MessageComes(uid, es, t, msg, lib);
    es' := es + [Receive(t, msg, lib)];
    if After(uid, INITIAL, es').status.Running? {
      es' := AnswerGoesOut(uid, es', t);
    }
    NextHere(es', |es|, t);
  }
}
