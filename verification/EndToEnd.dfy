/** The parts together: from a fresh session, through the mutations of `ARenv`, to walks from its remote root. */
module EndToEnd {
  import opened Wrappers
  import opened Sessions
  import opened Server
  import opened ServerRuns
  import opened ServerHistories
  import opened Remote
  import opened Proxies
  import opened ProxyObjects
  import opened Connection
  import opened RemoteRoot
  import Mutations
  import Walk
  import TreeWalk

  /** A connection without proxies, of a fresh session in state `n`, that nobody else talks to or through. */
  ghost predicate FreshConnection(uid: Obj -> string, es: seq<Event>, n: nat, t: nat, lib: Library, service: Service)
  {
    && UidsOk(uid) && UidsTravel(uid) && LibraryOk(uid, lib)
    && Runs(uid, INITIAL, es) && n <= |es| && ServedBy(service, uid, es, n, t) && OnItsOwn(uid, es, n, t, lib)
    && var s := Trace(uid, INITIAL, es)[n].sessions[t];
       s == Session(Some(IdOf(s)), None, map[PROVIDER := Provider(t)], None)
  }

  lemma RootStands(uid: Obj -> string, ss: seq<Session>, t: nat, l: Link, lib: Library,
                   id: nat, first: Option<Construction>) returns (root: Obj)
    requires UidsOk(uid) && UidsTravel(uid) && t < |ss| && PointersOk(ss, []) && l.root.Some?
    requires Progress(uid, ss[t], t, l.f, l.root, lib, 0, id, first)
    ensures l.root == Some(0) && l.f == [Proxy(uid(root), None, "", map[])] && ss[t].env.Some?
    ensures lib.call(ss[t].env.value, "Root") == Returned(root) && first == Some(Built(ss[t].env.value))
    ensures Walk.StandsFor(ss, t, l.f, 0, root, ss[t].ctx.Keys)
  {
    root := lib.call(ss[t].env.value, "Root").obj;
    assert l.f[0] == Proxy(uid(root), None, "", map[]);
    assert ReplyFits(uid(root));
  }

  /** The remote root stands for the object that the environment returns as its root. */
  lemma RemoteRootStands(uid: Obj -> string, es: seq<Event>, n: nat, t: nat, lib: Library, service: Service,
                         calls: seq<Mutations.Action>, m: nat) returns (root: Obj)
    requires FreshConnection(uid, es, n, t, lib, service)
    requires var l := AllAdded(service, Link([], [], None), calls);
      l.root.Some? && PlaceOf(uid, es, n, t, l.log) == At(m)
    ensures var l, ss := AllAdded(service, Link([], [], None), calls), Trace(uid, INITIAL, es)[m].sessions;
      && l.root == Some(0) && l.f == [Proxy(uid(root), None, "", map[])] && t < |ss| && ss[t].env.Some?
      && lib.call(ss[t].env.value, "Root") == Returned(root)
      && FirstMade(lib, IdOf(Trace(uid, INITIAL, es)[n].sessions[t]), calls) == Some(Built(ss[t].env.value))
      && Walk.StandsFor(ss, t, l.f, 0, root, ss[t].ctx.Keys)
  {
    var id := IdOf(Trace(uid, INITIAL, es)[n].sessions[t]);
    OneRemoteRoot(uid, es, n, t, lib, service, Link([], [], None), calls, id);
    ReachedTables(uid, es, m);
    root := RootStands(uid, Trace(uid, INITIAL, es)[m].sessions, t, AllAdded(service, Link([], [], None), calls), lib,
                       id, FirstMade(lib, id, calls));
  }

  /**
   A walk from the remote root that the mutations of a fresh connection have left simulates the walk
   of the model from the root of the session's environment.
  */
  lemma WalkFromRemoteRoot(uid: Obj -> string, es: seq<Event>, n: nat, t: nat, lib: Library, service: Service,
                           calls: seq<Mutations.Action>, m: nat, uris: seq<string>) returns (root: Obj)
    requires FreshConnection(uid, es, n, t, lib, service) && Walk.GetNodeOk(lib) && Walk.NulFree(uris)
    requires var l := AllAdded(service, Link([], [], None), calls);
      l.root.Some? && PlaceOf(uid, es, n, t, l.log) == At(m)
    requires Walk.WalksOn(uid, es, m, t, lib)
    ensures var l, ss := AllAdded(service, Link([], [], None), calls), Trace(uid, INITIAL, es)[m].sessions;
      && Coherent(l.f) && |l.f| == 1 && ss[t].env.Some? && lib.call(ss[t].env.value, "Root") == Returned(root)
      && Walk.Simulates(uid, es, n, t, lib, service, l, 0, root, ss[t].ctx.Keys, uris)
  {
    root := RemoteRootStands(uid, es, n, t, lib, service, calls, m);
    var l, ss := AllAdded(service, Link([], [], None), calls), Trace(uid, INITIAL, es)[m].sessions;
    Walk.ProxyWalkSimulates(uid, es, n, m, t, lib, service, l, 0, root, ss[t].ctx.Keys, uris);
  }

  /**
   So does every exploration: whatever GetNodes follow, on the remote root and on what they give, the
   forest of proxies mirrors the tree that the same calls grow from the root of the environment.
  */
  lemma TreeFromRemoteRoot(uid: Obj -> string, es: seq<Event>, n: nat, t: nat, lib: Library, service: Service,
                           calls: seq<Mutations.Action>, m: nat, gets: seq<TreeWalk.Get>) returns (root: Obj)
    requires FreshConnection(uid, es, n, t, lib, service) && Walk.GetNodeOk(lib) && TreeWalk.NulFreeGets(gets)
    requires var l := AllAdded(service, Link([], [], None), calls);
      l.root.Some? && PlaceOf(uid, es, n, t, l.log) == At(m)
    requires Walk.WalksOn(uid, es, m, t, lib)
    ensures var l, ss := AllAdded(service, Link([], [], None), calls), Trace(uid, INITIAL, es)[m].sessions;
      && ss[t].env.Some? && lib.call(ss[t].env.value, "Root") == Returned(root)
      && TreeWalk.SameTree(uid, es, n, t, lib, service, l, [TreeWalk.Node(uid(root), root, None)], ss[t].ctx.Keys, gets)
  {
    root := RemoteRootStands(uid, es, n, t, lib, service, calls, m);
    var l, ss := AllAdded(service, Link([], [], None), calls), Trace(uid, INITIAL, es)[m].sessions;
    var nodes := [TreeWalk.Node(uid(root), root, None)];
    assert TreeWalk.MirrorsAt(ss, t, l.f, nodes, ss[t].ctx.Keys, 0);
    TreeWalk.TreeSimulates(uid, es, n, m, t, lib, service, l, nodes, ss[t].ctx.Keys, gets);
  }
}
