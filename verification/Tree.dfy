/**
 Any GetNodes on any of the proxies held, in any order, in a run of the server: the forest they grow
 mirrors the tree that the same calls grow on the model.
*/
module TreeWalk {
  import opened Wrappers
  import opened Wire
  import opened Sessions
  import opened Server
  import opened ServerRuns
  import opened ServerHistories
  import opened Remote
  import opened Proxies
  import opened ProxyObjects
  import opened Connection
  import opened Walk

  /** `GetNode` of the proxy, or the node, with number `p`. */
  datatype Get = Get(p: nat, uri: string)

  /** A GetNode each in turn; a number that no proxy has is passed over. */
  ghost function Grown(service: Service, l: Link, gets: seq<Get>): (l': Link)
    ensures l.log <= l'.log
    decreases |gets|
  {
    if gets == [] then l
    else Grown(service, if gets[0].p < |l.f| then NodeFetched(service, l, gets[0].p, gets[0].uri).0 else l, gets[1..])
  }

  /** An object of the model, the handle it has been given, and the node it was got from. */
  datatype Node = Node(handle: string, obj: Obj, parent: Option<nat>)

  /** How direct calls end: all made, or stopped after `made` of them. */
  datatype TreeEnd = Tree(nodes: seq<Node>, known: set<string>) | Repeated(made: nat) | Overlong(made: nat)

  function Later(end: TreeEnd): TreeEnd {
    match end
    case Tree(_, _) => end
    case Repeated(made) => Repeated(made + 1)
    case Overlong(made) => Overlong(made + 1)
  }

  /** What a call that ends as `out` on node `p` adds: the object got, or nothing where it throws. */
  function NodesAfter(uid: Obj -> string, nodes: seq<Node>, p: nat, out: CallOutcome): seq<Node> {
    if out.Returned? then nodes + [Node(uid(out.obj), out.obj, Some(p))] else nodes
  }

  function KnownAfter(uid: Obj -> string, known: set<string>, out: CallOutcome): set<string> {
    if out.Returned? then known + {uid(out.obj)} else known
  }

  /** The same calls on the model itself, up to the first object seen before or request too long. */
  ghost function DirectTree(uid: Obj -> string, lib: Library, nodes: seq<Node>, known: set<string>,
                            gets: seq<Get>): TreeEnd
    decreases |gets|
  {
    if gets == [] then Tree(nodes, known)
    else if gets[0].p >= |nodes| then DirectTree(uid, lib, nodes, known, gets[1..])
    else
      var node, args := nodes[gets[0].p], "GetNode,1," + gets[0].uri;
      var out := lib.call(node.obj, args);
      if !Deliverable(node.handle, args) then Overlong(0)
      else if out.Returned? && uid(out.obj) in known then Repeated(0)
      else Later(DirectTree(uid, lib, NodesAfter(uid, nodes, gets[0].p, out), KnownAfter(uid, known, out), gets[1..]))
  }

  /** Each proxy stands for the object of its node, and is managed as the node was got. */
  ghost predicate Mirrors(ss: seq<Session>, t: nat, f: seq<Proxy>, nodes: seq<Node>, known: set<string>) {
    |f| == |nodes| && forall q | 0 <= q < |f| :: MirrorsAt(ss, t, f, nodes, known, q)
  }

  ghost predicate MirrorsAt(ss: seq<Session>, t: nat, f: seq<Proxy>, nodes: seq<Node>, known: set<string>, q: nat)
    requires q < |f| == |nodes|
  {
    && StandsFor(ss, t, f, q, nodes[q].obj, known)
    && f[q].context == nodes[q].handle && f[q].mgr == nodes[q].parent
  }

  /** A proxy goes on standing for its object when another GetNode has been handled. */
  lemma StandsToo(ss: seq<Session>, t: nat, f: seq<Proxy>, q: nat, x: Obj, known: set<string>,
                  ss': seq<Session>, f': seq<Proxy>, p': nat, x': Obj, known': set<string>)
    requires StandsFor(ss, t, f, q, x, known) && StandsFor(ss', t, f', p', x', known')
    requires ForestGrows(f, f') && Grows(ss, ss')
    ensures StandsFor(ss', t, f', q, x, known')
  {
    assert SessionGrows(ss[t], ss'[t]);
  }

  lemma MirrorsSame(ss: seq<Session>, t: nat, f: seq<Proxy>, nodes: seq<Node>, known: set<string>, p: nat,
                    ss': seq<Session>)
    requires Mirrors(ss, t, f, nodes, known) && p < |f| && Grows(ss, ss')
    requires StandsFor(ss', t, f, p, nodes[p].obj, known)
    ensures Mirrors(ss', t, f, nodes, known)
  {
    forall q | 0 <= q < |f| ensures MirrorsAt(ss', t, f, nodes, known, q) {
      assert MirrorsAt(ss, t, f, nodes, known, q);
      StandsToo(ss, t, f, q, nodes[q].obj, known, ss', f, p, nodes[p].obj, known);
    }
  }

  lemma MirrorsMore(uid: Obj -> string, ss: seq<Session>, t: nat, f: seq<Proxy>, nodes: seq<Node>, known: set<string>,
                    p: nat, ss': seq<Session>, y: Obj, reply: Reply)
    requires Mirrors(ss, t, f, nodes, known) && p < |f| && Grows(ss, ss') && NewNode(uid, ss', t, f, p, known, y, reply)
    ensures Mirrors(ss', t, Fetched(f, p, reply).0, nodes + [Node(uid(y), y, Some(p))], known + {uid(y)})
  {
    var f', nodes', known' := Fetched(f, p, reply).0, nodes + [Node(uid(y), y, Some(p))], known + {uid(y)};
    forall q | 0 <= q < |f'| ensures MirrorsAt(ss', t, f', nodes', known', q) {
      if q < |f| {
        assert MirrorsAt(ss, t, f, nodes, known, q);
        StandsToo(ss, t, f, q, nodes[q].obj, known, ss', f', |f|, y, known');
      }
    }
  }

  // ---- in a run

  /** How a grown forest relates to the direct tree. */
  ghost predicate TreeAgrees(uid: Obj -> string, es: seq<Event>, i: nat, t: nat, asked: nat, l': Link, d: TreeEnd)
    requires UidsOk(uid) && Runs(uid, INITIAL, es) && i <= |es|
  {
    match PlaceOf(uid, es, i, t, l'.log)
    case At(m) => d.Tree? && Mirrors(Trace(uid, INITIAL, es)[m].sessions, t, l'.f, d.nodes, d.known)
    case Lost(k, Died(_)) => d.Repeated? && d.made + asked == k
    case Lost(k, Overran) => d.Overlong? && d.made + asked == k
    case Lost(_, _) => true
  }

  /** The connection with link `l` stands at state `n` of the run, and mirrors `nodes`. */
  ghost predicate Stands(uid: Obj -> string, es: seq<Event>, i: nat, n: nat, t: nat, lib: Library, service: Service,
                         l: Link, nodes: seq<Node>, known: set<string>)
  {
    && UidsOk(uid) && UidsTravel(uid) && GetNodeOk(lib)
    && Runs(uid, INITIAL, es) && i <= n <= |es| && ServedBy(service, uid, es, i, t)
    && PlaceOf(uid, es, i, t, l.log) == At(n) && WalksOn(uid, es, n, t, lib)
    && Mirrors(Trace(uid, INITIAL, es)[n].sessions, t, l.f, nodes, known)
  }

  /** One GetNode in the run. */
  lemma GetInRun(uid: Obj -> string, es: seq<Event>, i: nat, n: nat, t: nat, lib: Library, service: Service,
                 l: Link, nodes: seq<Node>, known: set<string>, g: Get) returns (c: CallEnd)
    requires Stands(uid, es, i, n, t, lib, service, l, nodes, known) && g.p < |nodes| && NUL !in g.uri
    ensures c.Heard? ==>
      n <= c.at <= |es| && Grows(Trace(uid, INITIAL, es)[n].sessions, Trace(uid, INITIAL, es)[c.at].sessions)
    ensures StepAgrees(uid, es, t, lib, c, l.f, g.p, nodes[g.p].obj, known, g.uri)
    ensures var l' := NodeFetched(service, l, g.p, g.uri).0;
      && |l'.log| == |l.log| + 1
      && PlaceOf(uid, es, i, t, l'.log) == (if c.Heard? then At(c.at) else Lost(|l.log|, c))
      && (c.Heard? ==> l'.f == Fetched(l.f, g.p, c.reply).0)
  {
    assert MirrorsAt(Trace(uid, INITIAL, es)[n].sessions, t, l.f, nodes, known, g.p);
    var args := "GetNode,1," + g.uri;
    c := CallIn(uid, es, n, t, l.f[g.p].context, args);
    NodeCall(uid, es, n, t, lib, l.f, g.p, nodes[g.p].obj, known, g.uri);
    Served(service, uid, es, i, t, l.log, n, l.f[g.p].context, args);
    if c.Heard? {
      RunGrows(uid, es, n, c.at);
    }
  }

  /** It answers: forest and tree both grow, or neither does. */
  lemma GetHeard(uid: Obj -> string, es: seq<Event>, i: nat, n: nat, t: nat, lib: Library, service: Service,
                 l: Link, nodes: seq<Node>, known: set<string>, g: Get, c: CallEnd)
    requires Stands(uid, es, i, n, t, lib, service, l, nodes, known) && g.p < |nodes| && c.Heard? && n <= c.at <= |es|
    requires Grows(Trace(uid, INITIAL, es)[n].sessions, Trace(uid, INITIAL, es)[c.at].sessions)
    requires StepAgrees(uid, es, t, lib, c, l.f, g.p, nodes[g.p].obj, known, g.uri)
    requires var l' := NodeFetched(service, l, g.p, g.uri).0;
      PlaceOf(uid, es, i, t, l'.log) == At(c.at) && l'.f == Fetched(l.f, g.p, c.reply).0
    ensures var l', out := NodeFetched(service, l, g.p, g.uri).0, lib.call(nodes[g.p].obj, "GetNode,1," + g.uri);
      && (out.Returned? ==> uid(out.obj) !in known)
      && Stands(uid, es, i, c.at, t, lib, service, l', NodesAfter(uid, nodes, g.p, out), KnownAfter(uid, known, out))
  {
    var ss, ss' := Trace(uid, INITIAL, es)[n].sessions, Trace(uid, INITIAL, es)[c.at].sessions;
    var out := lib.call(nodes[g.p].obj, "GetNode,1," + g.uri);
    assert WalksOn(uid, es, c.at, t, lib);
    if out.Returned? {
      MirrorsMore(uid, ss, t, l.f, nodes, known, g.p, ss', out.obj, c.reply);
    } else {
      MirrorsSame(ss, t, l.f, nodes, known, g.p, ss');
    }
  }

  ghost predicate NulFreeGets(gets: seq<Get>) {
    forall i | 0 <= i < |gets| :: NUL !in gets[i].uri
  }

  /** The calls `gets`, on the proxies and on the model, agree. */
  ghost predicate SameTree(uid: Obj -> string, es: seq<Event>, i: nat, t: nat, lib: Library, service: Service,
                           l: Link, nodes: seq<Node>, known: set<string>, gets: seq<Get>)
    requires UidsOk(uid) && Runs(uid, INITIAL, es) && i <= |es|
  {
    TreeAgrees(uid, es, i, t, |l.log|, Grown(service, l, gets), DirectTree(uid, lib, nodes, known, gets))
  }

  lemma NoGets(uid: Obj -> string, es: seq<Event>, i: nat, n: nat, t: nat, lib: Library, service: Service,
               l: Link, nodes: seq<Node>, known: set<string>)
    requires Stands(uid, es, i, n, t, lib, service, l, nodes, known)
    ensures SameTree(uid, es, i, t, lib, service, l, nodes, known, [])
  {
  }

  /** No proxy has the number: the call is passed over on both sides. */
  lemma PassOver(uid: Obj -> string, es: seq<Event>, i: nat, t: nat, lib: Library, service: Service,
                 l: Link, nodes: seq<Node>, known: set<string>, gets: seq<Get>)
    requires UidsOk(uid) && Runs(uid, INITIAL, es) && i <= |es|
    requires |l.f| == |nodes| && gets != [] && gets[0].p >= |nodes|
    requires SameTree(uid, es, i, t, lib, service, l, nodes, known, gets[1..])
    ensures SameTree(uid, es, i, t, lib, service, l, nodes, known, gets)
  {
  }

  /** The run does not answer: nothing that follows counts. */
  lemma GetLost(uid: Obj -> string, es: seq<Event>, i: nat, t: nat, lib: Library, service: Service,
                l: Link, nodes: seq<Node>, known: set<string>, gets: seq<Get>, c: CallEnd)
    requires UidsOk(uid) && Runs(uid, INITIAL, es) && i <= |es|
    requires |l.f| == |nodes| && gets != [] && gets[0].p < |nodes| && l.f[gets[0].p].context == nodes[gets[0].p].handle
    requires !c.Heard? && StepAgrees(uid, es, t, lib, c, l.f, gets[0].p, nodes[gets[0].p].obj, known, gets[0].uri)
    requires PlaceOf(uid, es, i, t, NodeFetched(service, l, gets[0].p, gets[0].uri).0.log) == Lost(|l.log|, c)
    ensures SameTree(uid, es, i, t, lib, service, l, nodes, known, gets)
  {
    var l' := NodeFetched(service, l, gets[0].p, gets[0].uri).0;
    LostStays(uid, es, i, t, l'.log, Grown(service, l, gets).log);
  }

  /** It answers: the rest of the calls decides. */
  lemma GetGoesOn(uid: Obj -> string, es: seq<Event>, i: nat, t: nat, lib: Library, service: Service,
                  l: Link, nodes: seq<Node>, known: set<string>, gets: seq<Get>, l': Link, out: CallOutcome)
    requires UidsOk(uid) && Runs(uid, INITIAL, es) && i <= |es|
    requires |l.f| == |nodes| && gets != [] && gets[0].p < |nodes|
    requires l' == NodeFetched(service, l, gets[0].p, gets[0].uri).0
    requires out == lib.call(nodes[gets[0].p].obj, "GetNode,1," + gets[0].uri)
      && (out.Returned? ==> uid(out.obj) !in known)
    requires Deliverable(nodes[gets[0].p].handle, "GetNode,1," + gets[0].uri)
    requires SameTree(uid, es, i, t, lib, service, l', NodesAfter(uid, nodes, gets[0].p, out),
      KnownAfter(uid, known, out), gets[1..])
    ensures SameTree(uid, es, i, t, lib, service, l, nodes, known, gets)
  {
  }

  /**
   In every run, with any other clients, any sequence of GetNodes on any of the proxies held leaves a
   forest that mirrors the tree of the same calls on the model: same shape, and every proxy, old or new,
   stands for the object of its node. It stops where the direct calls stop, for the same reason.
  */
  lemma {:induction false} TreeSimulates(uid: Obj -> string, es: seq<Event>, i: nat, n: nat, t: nat, lib: Library,
                                         service: Service, l: Link, nodes: seq<Node>, known: set<string>,
                                         gets: seq<Get>)
    requires Stands(uid, es, i, n, t, lib, service, l, nodes, known) && NulFreeGets(gets)
    ensures SameTree(uid, es, i, t, lib, service, l, nodes, known, gets)
    decreases |gets|
  {
    if gets == [] {
      NoGets(uid, es, i, n, t, lib, service, l, nodes, known);
    } else if gets[0].p >= |nodes| {
      assert NulFreeGets(gets[1..]);
      TreeSimulates(uid, es, i, n, t, lib, service, l, nodes, known, gets[1..]);
      PassOver(uid, es, i, t, lib, service, l, nodes, known, gets);
    } else {
      var g := gets[0];
      assert MirrorsAt(Trace(uid, INITIAL, es)[n].sessions, t, l.f, nodes, known, g.p);
      var c := GetInRun(uid, es, i, n, t, lib, service, l, nodes, known, g);
      if !c.Heard? {
        GetLost(uid, es, i, t, lib, service, l, nodes, known, gets, c);
      } else {
        GetHeard(uid, es, i, n, t, lib, service, l, nodes, known, g, c);
        var l', out := NodeFetched(service, l, g.p, g.uri).0, lib.call(nodes[g.p].obj, "GetNode,1," + g.uri);
        assert NulFreeGets(gets[1..]);
        TreeSimulates(uid, es, i, c.at, t, lib, service, l',
                      NodesAfter(uid, nodes, g.p, out), KnownAfter(uid, known, out), gets[1..]);
        GetGoesOn(uid, es, i, t, lib, service, l, nodes, known, gets, l', out);
      }
    }
  }
}
