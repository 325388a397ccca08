/**
 Walking a model through its proxies, in a run of the server with any other clients, against walking
 the model itself.
*/
module Walk {
  import opened Wrappers
  import opened Wire
  import opened Sessions
  import opened Server
  import opened ServerRuns
  import opened ServerHistories
  import opened Remote
  import opened Proxies
  import opened ProxyObjects
  import opened Connection

  /** Following `uris` by `GetNode`, from proxy `p`, until one gives NULL. */
  ghost function Walked(service: Service, l: Link, p: nat, uris: seq<string>): (end: (Link, Option<nat>))
    requires Coherent(l.f) && p < |l.f|
    ensures Coherent(end.0.f) && l.log <= end.0.log
    ensures end.1.Some? ==> end.1.value < |end.0.f|
    decreases |uris|
  {
    if uris == [] then (l, Some(p))
    else
      FetchedIsChild(l.f, p, Asked(service, l.log, l.f[p].context, "GetNode,1," + uris[0]).reply);
      var (l', r) := NodeFetched(service, l, p, uris[0]);
      if r.None? then (l', None) else Walked(service, l', r.value, uris[1..])
  }

  datatype DirectEnd = Found(x: Obj) | Fails(left: nat) | Repeats(left: nat) | TooLong(left: nat)

  /**
   Following `uris` by `GetNode` on the model itself, from object `x` known as `h`, while `known` holds
   the handles given out: up to the first failure, object seen before, or request too long.
  */
  ghost function DirectWalk(uid: Obj -> string, lib: Library, known: set<string>, h: string, x: Obj,
                            uris: seq<string>): DirectEnd
    decreases |uris|
  {
    if uris == [] then Found(x)
    else if !Deliverable(h, "GetNode,1," + uris[0]) then TooLong(|uris|)
    else match lib.call(x, "GetNode,1," + uris[0])
      case Returned(y) =>
        if uid(y) in known then Repeats(|uris|)
        else DirectWalk(uid, lib, known + {uid(y)}, uid(y), y, uris[1..])
      case _ => Fails(|uris|)
  }

  /** A remote GetNode returns an interface or throws. */
  ghost predicate GetNodeOk(lib: Library) {
    forall x: Obj, uri :: !lib.call(x, "GetNode,1," + uri).Text?
  }

  /** Handles and URIs the protocol was made for; how long they are is left to the walks. */
  ghost predicate NulFree(uris: seq<string>) {
    forall i | 0 <= i < |uris| :: NUL !in uris[i]
  }

  /** Every handle a proxy has cached is in the table. */
  ghost predicate CachesRegistered(f: seq<Proxy>, ctx: map<string, Iface>) {
    forall p, h | 0 <= p < |f| && h in f[p].cache :: h in ctx
  }

  /** The handles of `ctx` that count as given out. */
  ghost predicate Known(known: set<string>, ctx: map<string, Iface>) {
    known - {ENVIRONMENT} == ctx.Keys - {ENVIRONMENT}
  }

  /** Proxy `p` of session `t` stands for object `x`, and the caches hold registered handles only. */
  ghost predicate StandsFor(ss: seq<Session>, t: nat, f: seq<Proxy>, p: nat, x: Obj, known: set<string>) {
    && t < |ss| && PointersOk(ss, []) && ss[t].attached.None?
    && Coherent(f) && p < |f|
    && Lookup(ss, t, f[p].context) == Some(Model(x))
    && f[p].context != "" && SEPARATOR !in f[p].context && NUL !in f[p].context
    && CachesRegistered(f, ss[t].ctx) && Known(known, ss[t].ctx)
  }

  /** From state `n` of the run on, session `t` looks in its own table, and its messages meet this library. */
  ghost predicate WalksOn(uid: Obj -> string, es: seq<Event>, n: nat, t: nat, lib: Library)
    requires Runs(uid, INITIAL, es) && n <= |es|
  {
    var tr := Trace(uid, INITIAL, es);
    && (forall j | n <= j <= |es| :: t < |tr[j].sessions| && tr[j].sessions[t].attached.None?)
    && (forall j | n <= j < |es| && es[j].Receive? && es[j].t == t :: es[j].lib.call == lib.call)
  }

  lemma KnownUid(uid: Obj -> string, known: set<string>, ctx: map<string, Iface>, y: Obj)
    requires UidsOk(uid) && Known(known, ctx)
    ensures uid(y) in known <==> uid(y) in ctx
    ensures Known(known + {uid(y)}, ctx[uid(y) := Model(y)])
  {
    assert uid(y) in known - {ENVIRONMENT} <==> uid(y) in ctx.Keys - {ENVIRONMENT};
    assert known + {uid(y)} - {ENVIRONMENT} == known - {ENVIRONMENT} + {uid(y)};
    assert ctx[uid(y) := Model(y)].Keys - {ENVIRONMENT} == ctx.Keys - {ENVIRONMENT} + {uid(y)};
  }

  /** A GetNode that returns an object not seen before makes a new proxy, and it stands for that object. */
  lemma NextStands(uid: Obj -> string, ss: seq<Session>, t: nat, f: seq<Proxy>, p: nat, x: Obj, known: set<string>,
                   y: Obj)
    requires UidsOk(uid) && UidsTravel(uid) && StandsFor(ss, t, f, p, x, known) && uid(y) !in ss[t].ctx
    ensures uid(y) !in known
    ensures var ss' := ss[t := ss[t].(ctx := ss[t].ctx[uid(y) := Model(y)])];
      var (f', r) := Fetched(f, p, Reply(true, uid(y)));
      && r == Some(|f|) && |f'| == |f| + 1 && ForestGrows(f, f') && f'[|f|].context == uid(y)
      && StandsFor(ss', t, f', |f|, y, known + {uid(y)})
  {
    KnownUid(uid, known, ss[t].ctx, y);
    assert uid(y) !in f[p].cache;
    ApplyKeepsCoherent(f, GetNode(p, Reply(true, uid(y))));
    assert ReplyFits(uid(y));
  }

  /** What the other clients do until the session's next message leaves its proxies standing. */
  lemma StillStands(uid: Obj -> string, es: seq<Event>, n: nat, k: nat, t: nat, lib: Library,
                    f: seq<Proxy>, p: nat, x: Obj, known: set<string>)
    requires UidsOk(uid) && Runs(uid, INITIAL, es) && n <= k <= |es| && WalksOn(uid, es, n, t, lib)
    requires Silent(es, n, k, t)
    requires StandsFor(Trace(uid, INITIAL, es)[n].sessions, t, f, p, x, known)
    ensures StandsFor(Trace(uid, INITIAL, es)[k].sessions, t, f, p, x, known)
  {
    var tr := Trace(uid, INITIAL, es);
    ReachedTables(uid, es, n);
    assert TableOk(uid, tr[n].sessions[t], t);
    OthersLeaveTable(uid, es, n, k, t);
    ReachedTables(uid, es, k);
    TableStands(tr[n].sessions, tr[k].sessions, t, f, p, x, known);
  }

  lemma TableStands(ss: seq<Session>, ss': seq<Session>, t: nat, f: seq<Proxy>, p: nat, x: Obj, known: set<string>)
    requires StandsFor(ss, t, f, p, x, known) && Undisturbed(ss, ss', t) && PointersOk(ss', []) && ss'[t].attached.None?
    ensures StandsFor(ss', t, f, p, x, known)
  {
  }

  /** A handle not known before has come: the new proxy for it stands for the object. */
  ghost predicate NewNode(uid: Obj -> string, ss: seq<Session>, t: nat, f: seq<Proxy>, p: nat, known: set<string>,
                          y: Obj, reply: Reply)
    requires p < |f|
  {
    && uid(y) !in known && reply == Reply(true, uid(y))
    && var (f', r) := Fetched(f, p, reply);
    && r == Some(|f|) && |f'| == |f| + 1 && ForestGrows(f, f') && f'[|f|].context == uid(y)
    && StandsFor(ss, t, f', |f|, y, known + {uid(y)})
  }

  /** How one GetNode of a walk ends in the run. */
  ghost predicate StepAgrees(uid: Obj -> string, es: seq<Event>, t: nat, lib: Library, c: CallEnd,
                             f: seq<Proxy>, p: nat, x: Obj, known: set<string>, uri: string)
    requires Runs(uid, INITIAL, es) && p < |f| && (c.Heard? ==> c.at <= |es|)
  {
    && (c.Overran? <==> !Deliverable(f[p].context, "GetNode,1," + uri))
    && EndAgrees(uid, es, t, lib.call(x, "GetNode,1," + uri), c, f, p, x, known)
  }

  ghost predicate EndAgrees(uid: Obj -> string, es: seq<Event>, t: nat, out: CallOutcome, c: CallEnd,
                            f: seq<Proxy>, p: nat, x: Obj, known: set<string>)
    requires Runs(uid, INITIAL, es) && p < |f| && (c.Heard? ==> c.at <= |es|)
  {
    match out
    case Text(_) => false
    case Threw(_) =>
      !c.Died? && (c.Heard? ==> !c.reply.ok && StandsFor(Trace(uid, INITIAL, es)[c.at].sessions, t, f, p, x, known))
    case Returned(y) =>
      && (c.Died? ==> uid(y) in known)
      && (c.Heard? ==> NewNode(uid, Trace(uid, INITIAL, es)[c.at].sessions, t, f, p, known, y, c.reply))
  }

  /** What a remote GetNode comes to, when the model's own gives `out`. */
  ghost predicate AnsweredAs(uid: Obj -> string, out: CallOutcome, r: RemoteEnd, t: nat,
                             f: seq<Proxy>, p: nat, x: Obj, known: set<string>)
    requires p < |f|
  {
    match out
    case Text(_) => false
    case Threw(_) => r.Answered? && !r.reply.ok && StandsFor(r.ss, t, f, p, x, known)
    case Returned(y) =>
      if uid(y) in known then r.ServerDied? else r.Answered? && NewNode(uid, r.ss, t, f, p, known, y, r.reply)
  }

  lemma NodeAnswered(uid: Obj -> string, ss: seq<Session>, registry: seq<nat>, t: nat, lib: Library,
                     f: seq<Proxy>, p: nat, x: Obj, known: set<string>, args: string)
    requires UidsOk(uid) && UidsTravel(uid) && StandsFor(ss, t, f, p, x, known) && PointersOk(ss, registry)
    requires !lib.call(x, args).Text? && Deliverable(f[p].context, args)
    ensures AnsweredAs(uid, lib.call(x, args), RemoteCall(uid, ss, registry, t, f[p].context, args, lib), t, f, p, x,
      known)
  {
    ModelCallTransparent(uid, ss, registry, t, f[p].context, x, args, lib);
    match lib.call(x, args)
    case Threw(_) =>
    case Returned(y) =>
      KnownUid(uid, known, ss[t].ctx, y);
      if uid(y) !in known {
        NextStands(uid, ss, t, f, p, x, known, y);
      }
  }

  /** All that a call on a model needs of the library is how the model behaves. */
  lemma SameCall(uid: Obj -> string, ss: seq<Session>, registry: seq<nat>, t: nat, ctx: string, x: Obj, args: string,
                 lib: Library, lib': Library)
    requires t < |ss| && PointersOk(ss, registry) && Deliverable(ctx, args)
    requires Lookup(ss, t, ctx) == Some(Model(x)) && lib.call == lib'.call
    ensures RemoteCall(uid, ss, registry, t, ctx, args, lib) == RemoteCall(uid, ss, registry, t, ctx, args, lib')
  {
    ReceivedWhole(Framed(ctx, args));
    assert NUL !in Framed(ctx, args);
    HandleFramed(uid, ss, registry, t, ctx, args, lib);
    HandleFramed(uid, ss, registry, t, ctx, args, lib');
  }

  /** The state in which the next GetNode of the walk is handled: the walker's proxies still stand. */
  lemma WalkerCall(uid: Obj -> string, es: seq<Event>, n: nat, t: nat, lib: Library,
                   f: seq<Proxy>, p: nat, x: Obj, known: set<string>, args: string)
      returns (ss: seq<Session>, registry: seq<nat>, r: RemoteEnd)
    requires UidsOk(uid) && Runs(uid, INITIAL, es) && n <= |es| && WalksOn(uid, es, n, t, lib)
    requires StandsFor(Trace(uid, INITIAL, es)[n].sessions, t, f, p, x, known) && Deliverable(f[p].context, args)
    requires var c := CallIn(uid, es, n, t, f[p].context, args); c.Heard? || c.Died?
    ensures StandsFor(ss, t, f, p, x, known) && PointersOk(ss, registry)
    ensures r == RemoteCall(uid, ss, registry, t, f[p].context, args, lib)
    ensures var c, tr := CallIn(uid, es, n, t, f[p].context, args), Trace(uid, INITIAL, es);
      r == if c.Heard? then Answered(tr[c.at].sessions, c.reply) else ServerDied(tr[c.at].sessions)
  {
    var st, e := CallInRun(uid, es, n, t, f[p].context, args);
    StillStands(uid, es, n, CallIn(uid, es, n, t, f[p].context, args).at - 1, t, lib, f, p, x, known);
    SameCall(uid, st.sessions, st.registry, t, f[p].context, x, args, e.lib, lib);
    ss, registry := st.sessions, st.registry;
    r := RemoteCall(uid, ss, registry, t, f[p].context, args, lib);
  }

  lemma EndFollows(uid: Obj -> string, es: seq<Event>, t: nat, out: CallOutcome, c: CallEnd, r: RemoteEnd,
                   f: seq<Proxy>, p: nat, x: Obj, known: set<string>)
    requires Runs(uid, INITIAL, es) && p < |f| && (c.Heard? || c.Died?) && c.at <= |es|
      && AnsweredAs(uid, out, r, t, f, p, x, known)
    requires var ss := Trace(uid, INITIAL, es)[c.at].sessions;
      r == if c.Heard? then Answered(ss, c.reply) else ServerDied(ss)
    ensures EndAgrees(uid, es, t, out, c, f, p, x, known)
  {
  }

  lemma NodeEnd(uid: Obj -> string, es: seq<Event>, n: nat, t: nat, lib: Library,
                f: seq<Proxy>, p: nat, x: Obj, known: set<string>, uri: string)
    requires UidsOk(uid) && UidsTravel(uid) && Runs(uid, INITIAL, es) && n <= |es| && WalksOn(uid, es, n, t, lib)
    requires StandsFor(Trace(uid, INITIAL, es)[n].sessions, t, f, p, x, known)
    requires Deliverable(f[p].context, "GetNode,1," + uri)
    requires !lib.call(x, "GetNode,1," + uri).Text?
    requires var c := CallIn(uid, es, n, t, f[p].context, "GetNode,1," + uri); c.Heard? || c.Died?
    ensures EndAgrees(uid, es, t, lib.call(x, "GetNode,1," + uri),
      CallIn(uid, es, n, t, f[p].context, "GetNode,1," + uri), f, p, x, known)
  {
    var args := "GetNode,1," + uri;
    var ss, registry, r := WalkerCall(uid, es, n, t, lib, f, p, x, known, args);
    NodeAnswered(uid, ss, registry, t, lib, f, p, x, known, args);
    EndFollows(uid, es, t, lib.call(x, args), CallIn(uid, es, n, t, f[p].context, args), r, f, p, x, known);
  }

  lemma NodeCall(uid: Obj -> string, es: seq<Event>, n: nat, t: nat, lib: Library,
                 f: seq<Proxy>, p: nat, x: Obj, known: set<string>, uri: string)
    requires UidsOk(uid) && UidsTravel(uid) && Runs(uid, INITIAL, es) && n <= |es| && WalksOn(uid, es, n, t, lib)
    requires StandsFor(Trace(uid, INITIAL, es)[n].sessions, t, f, p, x, known)
    requires NUL !in uri && !lib.call(x, "GetNode,1," + uri).Text?
    ensures StepAgrees(uid, es, t, lib, CallIn(uid, es, n, t, f[p].context, "GetNode,1," + uri), f, p, x, known, uri)
  {
    CallOverruns(uid, es, n, t, f[p].context, "GetNode,1," + uri);
    var c := CallIn(uid, es, n, t, f[p].context, "GetNode,1," + uri);
    if c.Heard? || c.Died? {
      NodeEnd(uid, es, n, t, lib, f, p, x, known, uri);
    }
  }

  lemma CallOverruns(uid: Obj -> string, es: seq<Event>, n: nat, t: nat, ctx: string, args: string)
    requires UidsOk(uid) && Runs(uid, INITIAL, es) && n <= |es|
    requires ctx != "" && SEPARATOR !in ctx && NUL !in ctx && NUL !in args
    ensures CallIn(uid, es, n, t, ctx, args).Overran? <==> !Deliverable(ctx, args)
  {
    OverranIff(uid, es, n, t, ctx, args);
    OverrunIff(ctx, args);
  }

  lemma OverrunIff(ctx: string, args: string)
    requires ctx != "" && SEPARATOR !in ctx && NUL !in ctx && NUL !in args
    ensures Received(Framed(ctx, args)).None? <==> !Deliverable(ctx, args)
  {
    assert NUL !in Framed(ctx, args);
  }

  /** How a walk through proxies, `end`, relates to the direct walk `d` of `n` steps. */
  ghost predicate WalkAgrees(uid: Obj -> string, es: seq<Event>, i: nat, t: nat, l: Link, end: (Link, Option<nat>),
                             d: DirectEnd, n: nat)
    requires UidsOk(uid) && Runs(uid, INITIAL, es) && i <= |es|
  {
    var (l', r) := end;
    match PlaceOf(uid, es, i, t, l'.log)
    case At(m) =>
      (match d
       case Found(y) =>
         var ss := Trace(uid, INITIAL, es)[m].sessions;
         && r.Some? && r.value < |l'.f| && t < |ss| && PointersOk(ss, [])
         && Lookup(ss, t, l'.f[r.value].context) == Some(Model(y))
         && |l'.log| == |l.log| + n && |l'.f| == |l.f| + n && ForestGrows(l.f, l'.f)
       case Fails(left) => r.None? && |l'.log| == |l.log| + n - left + 1
       case _ => false)
    case Lost(k, Died(_)) => d.Repeats? && d.left == |l.log| + n - k
    case Lost(k, Overran) => d.TooLong? && d.left == |l.log| + n - k
    case Lost(_, _) => true
  }

  /** The walk as far as `l`, where its next GetNode is the call `c` in the run. */
  ghost predicate Underway(uid: Obj -> string, es: seq<Event>, i: nat, n: nat, t: nat, lib: Library, service: Service,
                           l: Link, p: nat, x: Obj, known: set<string>, uris: seq<string>, c: CallEnd)
  {
    && UidsOk(uid) && Runs(uid, INITIAL, es) && i <= n <= |es| && ServedBy(service, uid, es, i, t)
    && PlaceOf(uid, es, i, t, l.log) == At(n) && (c.Heard? ==> c.at <= |es|)
    && Coherent(l.f) && p < |l.f| && uris != []
    && c == CallIn(uid, es, n, t, l.f[p].context, "GetNode,1," + uris[0])
    && StepAgrees(uid, es, t, lib, c, l.f, p, x, known, uris[0])
  }

  /** The run does not answer: nothing that follows counts. */
  lemma WalkLost(uid: Obj -> string, es: seq<Event>, i: nat, n: nat, t: nat, lib: Library, service: Service,
                 l: Link, p: nat, x: Obj, known: set<string>, uris: seq<string>, c: CallEnd)
    requires Underway(uid, es, i, n, t, lib, service, l, p, x, known, uris, c) && !c.Heard?
    ensures Simulates(uid, es, i, t, lib, service, l, p, x, known, uris)
  {
    Served(service, uid, es, i, t, l.log, n, l.f[p].context, "GetNode,1," + uris[0]);
    var l' := NodeFetched(service, l, p, uris[0]).0;
    LostStays(uid, es, i, t, l'.log, Walked(service, l, p, uris).0.log);
  }

  /** It answers with an error: NULL. */
  lemma WalkFails(uid: Obj -> string, es: seq<Event>, i: nat, n: nat, t: nat, lib: Library, service: Service,
                  l: Link, p: nat, x: Obj, known: set<string>, uris: seq<string>, c: CallEnd)
    requires Underway(uid, es, i, n, t, lib, service, l, p, x, known, uris, c) && c.Heard?
    requires lib.call(x, "GetNode,1," + uris[0]).Threw?
    ensures Simulates(uid, es, i, t, lib, service, l, p, x, known, uris)
  {
    Served(service, uid, es, i, t, l.log, n, l.f[p].context, "GetNode,1," + uris[0]);
  }

  /** It answers with a handle: both walks go on from the object. */
  lemma WalkGoesOn(uid: Obj -> string, es: seq<Event>, i: nat, n: nat, t: nat, lib: Library, service: Service,
                   l: Link, p: nat, x: Obj, known: set<string>, uris: seq<string>, c: CallEnd, y: Obj)
    requires Underway(uid, es, i, n, t, lib, service, l, p, x, known, uris, c) && c.Heard?
    requires lib.call(x, "GetNode,1," + uris[0]) == Returned(y)
    ensures var l' := NodeFetched(service, l, p, uris[0]).0;
      && PlaceOf(uid, es, i, t, l'.log) == At(c.at) && |l'.log| == |l.log| + 1
      && StandsFor(Trace(uid, INITIAL, es)[c.at].sessions, t, l'.f, |l.f|, y, known + {uid(y)})
      && |l'.f| == |l.f| + 1 && ForestGrows(l.f, l'.f) && l'.f[|l.f|].context == uid(y)
      && Walked(service, l, p, uris) == Walked(service, l', |l.f|, uris[1..])
      && DirectWalk(uid, lib, known, l.f[p].context, x, uris)
        == DirectWalk(uid, lib, known + {uid(y)}, uid(y), y, uris[1..])
  {
    Served(service, uid, es, i, t, l.log, n, l.f[p].context, "GetNode,1," + uris[0]);
  }

  lemma ForestGrowsOn(f: seq<Proxy>, f': seq<Proxy>, f'': seq<Proxy>)
    requires ForestGrows(f, f') && ForestGrows(f', f'')
    ensures ForestGrows(f, f'')
  {
  }

  lemma AgreesFurther(uid: Obj -> string, es: seq<Event>, i: nat, t: nat, l: Link, l': Link, end: (Link, Option<nat>),
                      d: DirectEnd, n: nat)
    requires UidsOk(uid) && Runs(uid, INITIAL, es) && i <= |es|
    requires |l'.log| == |l.log| + 1 && |l'.f| == |l.f| + 1 && ForestGrows(l.f, l'.f)
    requires WalkAgrees(uid, es, i, t, l', end, d, n)
    ensures WalkAgrees(uid, es, i, t, l, end, d, n + 1)
  {
    match PlaceOf(uid, es, i, t, end.0.log)
    case At(_) =>
      if d.Found? {
        ForestGrowsOn(l.f, l'.f, end.0.f);
      }
    case Lost(_, _) =>
  }

  /** The two walks of `uris` from here agree. */
  ghost predicate Simulates(uid: Obj -> string, es: seq<Event>, i: nat, t: nat, lib: Library, service: Service,
                            l: Link, p: nat, x: Obj, known: set<string>, uris: seq<string>)
    requires UidsOk(uid) && Runs(uid, INITIAL, es) && i <= |es| && Coherent(l.f) && p < |l.f|
  {
    WalkAgrees(uid, es, i, t, l, Walked(service, l, p, uris), DirectWalk(uid, lib, known, l.f[p].context, x, uris),
      |uris|)
  }

  lemma EmptyWalk(uid: Obj -> string, es: seq<Event>, i: nat, n: nat, t: nat, lib: Library, service: Service,
                  l: Link, p: nat, x: Obj, known: set<string>)
    requires UidsOk(uid) && Runs(uid, INITIAL, es) && i <= n <= |es| && PlaceOf(uid, es, i, t, l.log) == At(n)
    requires StandsFor(Trace(uid, INITIAL, es)[n].sessions, t, l.f, p, x, known)
    ensures Simulates(uid, es, i, t, lib, service, l, p, x, known, [])
  {
  }

  lemma WalkOn(uid: Obj -> string, es: seq<Event>, i: nat, n: nat, t: nat, lib: Library, service: Service,
               l: Link, p: nat, x: Obj, known: set<string>, uris: seq<string>, c: CallEnd, y: Obj)
    requires Underway(uid, es, i, n, t, lib, service, l, p, x, known, uris, c) && c.Heard?
    requires lib.call(x, "GetNode,1," + uris[0]) == Returned(y)
    requires var l' := NodeFetched(service, l, p, uris[0]).0;
      Coherent(l'.f) && |l.f| < |l'.f|
        && Simulates(uid, es, i, t, lib, service, l', |l.f|, y, known + {uid(y)}, uris[1..])
    ensures Simulates(uid, es, i, t, lib, service, l, p, x, known, uris)
  {
    var l' := NodeFetched(service, l, p, uris[0]).0;
    WalkGoesOn(uid, es, i, n, t, lib, service, l, p, x, known, uris, c, y);
    AgreesFurther(uid, es, i, t, l, l', Walked(service, l, p, uris),
                  DirectWalk(uid, lib, known, l.f[p].context, x, uris), |uris| - 1);
  }

  lemma WalkStep(uid: Obj -> string, es: seq<Event>, i: nat, n: nat, t: nat, lib: Library, service: Service,
                 l: Link, p: nat, x: Obj, known: set<string>, uris: seq<string>) returns (c: CallEnd)
    requires UidsOk(uid) && UidsTravel(uid) && GetNodeOk(lib) && NulFree(uris) && uris != []
    requires Runs(uid, INITIAL, es) && i <= |es| && ServedBy(service, uid, es, i, t)
    requires PlaceOf(uid, es, i, t, l.log) == At(n)
    requires WalksOn(uid, es, n, t, lib) && StandsFor(Trace(uid, INITIAL, es)[n].sessions, t, l.f, p, x, known)
    ensures Underway(uid, es, i, n, t, lib, service, l, p, x, known, uris, c)
    ensures !lib.call(x, "GetNode,1," + uris[0]).Text?
  {
    assert NUL !in uris[0];
    NodeCall(uid, es, n, t, lib, l.f, p, x, known, uris[0]);
    c := CallIn(uid, es, n, t, l.f[p].context, "GetNode,1," + uris[0]);
  }

  /**
   The walk through proxies simulates the direct walk in every run of the server, whatever the other
   clients do in between. It ends at a proxy for the object the direct walk reaches, in the state the
   run is in by then; or it stops at the same step - with NULL where the call throws, with the
   server's death where an object comes a second time, with an overrun where the request is too long.
   Only a run that does not go on with the walk is compared no further.
  */
  lemma {:induction false} ProxyWalkSimulates(uid: Obj -> string, es: seq<Event>, i: nat, n: nat, t: nat,
                                              lib: Library, service: Service, l: Link, p: nat, x: Obj,
                                              known: set<string>, uris: seq<string>)
    requires UidsOk(uid) && UidsTravel(uid) && GetNodeOk(lib) && NulFree(uris)
    requires Runs(uid, INITIAL, es) && i <= |es| && ServedBy(service, uid, es, i, t)
    requires PlaceOf(uid, es, i, t, l.log) == At(n)
    requires WalksOn(uid, es, n, t, lib) && StandsFor(Trace(uid, INITIAL, es)[n].sessions, t, l.f, p, x, known)
    ensures Simulates(uid, es, i, t, lib, service, l, p, x, known, uris)
    decreases |uris|
  {
    if uris == [] {
      EmptyWalk(uid, es, i, n, t, lib, service, l, p, x, known);
    } else {
      var c := WalkStep(uid, es, i, n, t, lib, service, l, p, x, known, uris);
      match lib.call(x, "GetNode,1," + uris[0])
      case Threw(_) =>
        if c.Heard? {
          WalkFails(uid, es, i, n, t, lib, service, l, p, x, known, uris, c);
        } else {
          WalkLost(uid, es, i, n, t, lib, service, l, p, x, known, uris, c);
        }
      case Returned(y) =>
        if c.Heard? {
          WalkGoesOn(uid, es, i, n, t, lib, service, l, p, x, known, uris, c, y);
          var l' := NodeFetched(service, l, p, uris[0]).0;
          assert WalksOn(uid, es, c.at, t, lib) && NulFree(uris[1..]);
          ProxyWalkSimulates(uid, es, i, c.at, t, lib, service, l', |l.f|, y, known + {uid(y)}, uris[1..]);
          WalkOn(uid, es, i, n, t, lib, service, l, p, x, known, uris, c, y);
        } else {
          WalkLost(uid, es, i, n, t, lib, service, l, p, x, known, uris, c);
        }
    }
  }
}
