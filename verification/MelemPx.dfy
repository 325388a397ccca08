/**
 `MelemPx` and the connection of `ARenv` as objects. The server behind the connection is any function
 of what has been asked so far; `log` is what reached it.
*/
module ProxyObjects {
  import opened Wrappers
  import opened Wire
  import opened Proxies
  import opened Mutations
  import Sessions

  datatype Exchange = Exchange(context: string, request: string, reply: Reply)

  type Service = (seq<Exchange>, string, string) -> Reply

  /** What an `ARenv` has sent, the proxies of its connection, and `mRroot`. */
  datatype Link = Link(log: seq<Exchange>, f: seq<Proxy>, root: Option<nat>)

  function Asked(service: Service, log: seq<Exchange>, context: string, request: string): Exchange {
    Exchange(context, request, service(log, context, request))
  }

  /** `AddElemRmt`: create an environment, and ask what came back for its root. */
  function NodeAdded(service: Service, l: Link, spec: string): Link {
    var created := Asked(service, l.log, Sessions.PROVIDER, "CreateEnv,1," + spec);
    var asked := Asked(service, l.log + [created], created.reply.text, "Root");
    var (f, root) := Bound(l.f, l.root, asked.reply);
    Link(l.log + [created, asked], f, root)
  }

  /** `GetNode` of proxy `p`: one exchange under its context, and the proxy for what came back. */
  function NodeFetched(service: Service, l: Link, p: nat, uri: string): (r: (Link, Option<nat>))
    requires p < |l.f|
    ensures |l.f| <= |r.0.f|
  {
    var asked := Asked(service, l.log, l.f[p].context, "GetNode,1," + uri);
    var (f, found) := Fetched(l.f, p, asked.reply);
    (Link(l.log + [asked], f, l.root), found)
  }

  /** `Name` of proxy `p`: one exchange under its context, and the name the proxy has by then. */
  function Named(service: Service, l: Link, p: nat): (r: (Link, string))
    requires p < |l.f|
  {
    var asked := Asked(service, l.log, l.f[p].context, "Name");
    var f := Renamed(l.f, p, asked.reply);
    (Link(l.log + [asked], f, l.root), f[p].name)
  }

  /** `GetCont` of proxy `p`: one exchange under its context, and the text of the answer. */
  function ContGot(service: Service, l: Link, p: nat, name: string): (r: (Link, string))
    requires p < |l.f|
  {
    var asked := Asked(service, l.log, l.f[p].context, "GetCont,1," + name);
    (Link(l.log + [asked], l.f, l.root), asked.reply.text)
  }

  /** A failing `Name` gives what the last one that succeeded gave, whatever else has been done since. */
  lemma FailingNameRemembers(service: Service, l: Link, p: nat, ops: seq<Operation>, l': Link)
    requires p < |l.f| && Asked(service, l.log, l.f[p].context, "Name").reply.ok
    requires AllPossible(Named(service, l, p).0.f, ops) && l'.f == ApplyAll(Named(service, l, p).0.f, ops)
    requires forall i | 0 <= i < |ops| :: !Renames(ops[i], p)
    requires p < |l'.f| && !Asked(service, l'.log, l'.f[p].context, "Name").reply.ok
    ensures Named(service, l', p).1 == Named(service, l, p).1
      == Asked(service, l.log, l.f[p].context, "Name").reply.text
  {
    NameStays(Named(service, l, p).0.f, p, ops);
  }

  /** The calls of a mutation, as far as the connection is concerned. */
  function AllAdded(service: Service, l: Link, calls: seq<Action>): Link
    decreases |calls|
  {
    if calls == [] then l
    else
      var last := calls[|calls| - 1];
      var before := AllAdded(service, l, calls[..|calls| - 1]);
      if last.AddElemRmt? then NodeAdded(service, before, last.m.text) else before
  }

  /** What mutations change: the chromo, the calls made, and the connection. */
  datatype MutationState = MutationState(chromo: seq<Mutation>, calls: seq<Action>, link: Link)

  /** The body of the mutation loop. */
  function MutatedBy(service: Service, st: MutationState, m: Mutation, s: Settings, mode: Mode): MutationState {
    match FateOf(s, mode, m)
    case Kept => st.(chromo := st.chromo + [m])
    case Dropped => st
    case Performed =>
      st.(calls := st.calls + [ActionOf(m, true)],
          link := if m.kind.Node? then NodeAdded(service, st.link, m.text) else st.link)
  }

  function MutatedByAll(service: Service, st: MutationState, ms: seq<Mutation>, s: Settings, mode: Mode): MutationState
  {
    if ms == [] then st
    else MutatedBy(service, MutatedByAll(service, st, ms[..|ms| - 1], s, mode), ms[|ms| - 1], s, mode)
  }

  /** The state after `kept` has been kept and `done` performed. */
  function Reached(service: Service, st: MutationState, kept: seq<Mutation>, done: seq<Action>): MutationState {
    MutationState(st.chromo + kept, st.calls + done, AllAdded(service, st.link, done))
  }

  lemma ReachedNext(service: Service, st: MutationState, kept: seq<Mutation>, done: seq<Action>, m: Mutation,
                    s: Settings, mode: Mode)
    ensures MutatedBy(service, Reached(service, st, kept, done), m, s, mode) ==
      match FateOf(s, mode, m)
      case Kept => Reached(service, st, kept + [m], done)
      case Dropped => Reached(service, st, kept, done)
      case Performed => Reached(service, st, kept, done + [ActionOf(m, true)])
  {
  }

  /** The loop keeps what is to be kept, and performs what is to be performed, in order. */
  lemma {:induction false} MutatedByAllIs(service: Service, st: MutationState, ms: seq<Mutation>, s: Settings,
                                          mode: Mode)
    ensures MutatedByAll(service, st, ms, s, mode)
      == Reached(service, st, Pick(s, mode, ms, Kept), Actions(Pick(s, mode, ms, Performed), true))
  {
    if ms == [] {
      assert st.chromo + [] == st.chromo && st.calls + [] == st.calls;
    } else {
      var n := |ms| - 1;
      var kept, done := Pick(s, mode, ms[..n], Kept), Actions(Pick(s, mode, ms[..n], Performed), true);
      MutatedByAllIs(service, st, ms[..n], s, mode);
      ReachedNext(service, st, kept, done, ms[n], s, mode);
      assert ms[..n + 1] == ms;
      var kept', done' := NextFate(ms, s, mode, true, n, kept, done);
      assert kept + [] == kept;
    }
  }

  class ARenv {
    const service: Service
    var log: seq<Exchange>
    var mRroot: MelemPx?
    var iChromo: seq<Mutation>
    var calls: seq<Action>       // the calls made by DoMutation, in their order
    ghost var all: seq<MelemPx>  // every proxy of this connection

    ghost predicate Valid()
      reads this, all
    {
      && (mRroot != null ==> mRroot in all)
      && (forall i | 0 <= i < |all| :: all[i].index == i)
      && (forall px | px in all :: LinksOk(px))
    }

    ghost predicate LinksOk(px: MelemPx)
      reads this, px
    {
      && px.index < |all| && all[px.index] == px && px.conn == this
      && (px.mMgr != null ==> px.mMgr in all && px.mMgr.index < px.index)
      && (forall h | h in px.mProxies :: px.mProxies[h] in all)
    }

    ghost function Forest(): (f: seq<Proxy>)
      reads this, all
      ensures |f| == |all| && forall i | 0 <= i < |f| :: f[i] == all[i].Value()
    {
      seq(|all|, i requires 0 <= i < |all| reads this, all => all[i].Value())
    }

    ghost function Memory(): MutationState
      reads this, all
    {
      MutationState(iChromo, calls, State())
    }

    ghost function State(): Link
      reads this, all
    {
      Link(log, Forest(), if mRroot == null then None else Some(mRroot.index))
    }

    constructor (service: Service)
      ensures Valid() && State() == Link([], [], None) && this.service == service
      ensures iChromo == [] && calls == []
    {
      this.service := service;
      log, all, mRroot, iChromo, calls := [], [], null, [], [];
    }

    /** What the server would answer now. */
    function Answer(context: string, request: string): Reply
      reads this
    {
      service(log, context, request)
    }

    method Request(context: string, request: string) returns (reply: Reply)
      modifies this`log
      ensures reply == old(Answer(context, request))
      ensures log == old(log) + [Exchange(context, request, reply)]
      ensures old(Valid()) ==> Valid()
      ensures State() == old(State()).(log := log)
    {
      reply := Answer(context, request);
      log := log + [Exchange(context, request, reply)];
      assert old(Valid()) ==> forall px | px in all :: old(LinksOk(px));
    }

    /** A new proxy for `context`, managed by `mgr` or by the connection itself. */
    method NewProxy(mgr: MelemPx?, context: string) returns (px: MelemPx)
      requires Valid() && (mgr != null ==> mgr in all)
      modifies this`all
      ensures Valid() && fresh(px) && all == old(all) + [px]
      ensures px.Value() == Proxy(context, if mgr == null then None else Some(mgr.index), "", map[])
      ensures px.mProxies == map[] && px.mContext == context && px.mMgr == mgr && px.conn == this
      ensures Forest() == old(Forest()) + [px.Value()]
    {
      px := new MelemPx(this, mgr, context, |all|);
      all := all + [px];
      forall q | q in all ensures LinksOk(q) {
        assert q in old(all) ==> old(LinksOk(q));
      }
    }

    method BindRoot(context: string)
      requires Valid()
      modifies this`all, this`mRroot
      ensures Valid() && log == old(log)
      ensures (Forest(), State().root) == Bound(old(Forest()), old(State().root), Reply(true, context))
    {
      ghost var n := |all|;
      var px := NewProxy(null, context);
      assert all[n] == px && LinksOk(px) && px.index == n;
      ghost var f := Forest();
      mRroot := px;
      assert forall q | q in all :: LinksOk(q);
      assert Forest() == f == old(Forest()) + [Proxy(context, None, "", map[])];
    }

    /** Both requests in turn, and the proxy for the root when the second succeeds. */
    method AddElemRmt(spec: string)
      requires Valid()
      modifies this`log, this`all, this`mRroot
      ensures Valid() && State() == NodeAdded(service, old(State()), spec)
      ensures |log| == |old(log)| + 2 && log[..|old(log)|] == old(log)
      ensures var created, asked := log[|old(log)|], log[|old(log)| + 1];
        && created.context == "EnvProvider" && created.request == "CreateEnv,1," + spec
        && asked.context == created.reply.text && asked.request == "Root"
        && (asked.reply.ok ==> mRroot != null && mRroot.mContext == asked.reply.text)
        && (!asked.reply.ok ==> mRroot == old(mRroot))
    {
      var created := Request(Sessions.PROVIDER, "CreateEnv,1," + spec);
      var asked := Request(created.text, "Root");
      if asked.ok {
        BindRoot(asked.text);
      }
    }

    /** One more call is recorded. */
    method Record(a: Action)
      requires Valid()
      modifies this`calls
      ensures Valid() && State() == old(State()) && calls == old(calls) + [a]
    {
      calls := calls + [a];
      assert forall px | px in all :: old(LinksOk(px));
    }

    /** The dispatch on the type of one mutation; an unknown type is only logged. */
    method Perform(rno: Mutation)
      requires Valid()
      modifies this`log, this`all, this`mRroot, this`calls
      ensures Valid()
      ensures calls == if rno.kind.Unknown? then old(calls) else old(calls) + [ActionOf(rno, true)]
      ensures State() == if rno.kind.Node? then NodeAdded(service, old(State()), rno.text) else old(State())
    {
      if rno.kind == Node {
        AddElemRmt(rno.text);
        Record(Action.AddElemRmt(rno));
      } else if rno.kind == Change {
        Record(ChangeAttr(rno));
      } else if rno.kind == Cont {
        Record(ChangeCont(rno));
      } else if rno.kind == Move {
        Record(MoveNode(rno));
      } else if rno.kind == Import {
        Record(ImportNode(rno));
      } else if rno.kind == Rm {
        Record(RmNode(rno));
      }
    }

    /** The body of the loop: one mutation is kept in the chromo, dropped, or performed. */
    method MutateBy(rno: Mutation, s: Settings, mode: Mode)
      requires Valid()
      modifies this`log, this`all, this`mRroot, this`iChromo, this`calls
      ensures Valid() && Memory() == MutatedBy(service, old(Memory()), rno, s, mode)
    {
      if s.optimize && rno.inactive {
        if !mode.runtime {
          iChromo := iChromo + [rno];
        }
        assert forall px | px in all :: old(LinksOk(px));
        return;
      }
      if s.limiting && s.attached && s.maxOrder > 0 && rno.order > s.maxOrder - s.limit {
        if !mode.runtime && !mode.trial {
          iChromo := iChromo + [rno];
        }
        assert forall px | px in all :: old(LinksOk(px));
        return;
      }
      Perform(rno);
    }

    method DoMutation(spec: seq<Mutation>, s: Settings, mode: Mode)
      requires Valid()
      modifies this`log, this`all, this`mRroot, this`iChromo, this`calls
      ensures Valid()
      ensures iChromo == old(iChromo) + Pick(s, mode, spec, Kept)
      ensures calls == old(calls) + Actions(Pick(s, mode, spec, Performed), true)
      ensures State() == AllAdded(service, old(State()), Actions(Pick(s, mode, spec, Performed), true))
      ensures old(iChromo) <= iChromo && old(calls) <= calls
      ensures Effects(s, mode, spec, iChromo[|old(iChromo)|..], calls[|old(calls)|..], true)
    {
      LoopEffects(s, mode, spec, true);
      if spec == [] {
        return;
      }
      ghost var start := Memory();
      for i := 0 to |spec|
        invariant Valid() && Memory() == MutatedByAll(service, start, spec[..i], s, mode)
      {
        assert spec[..i + 1][..i] == spec[..i];
        MutateBy(spec[i], s, mode);
      }
      assert spec[..|spec|] == spec;
      MutatedByAllIs(service, start, spec, s, mode);
    }

    lemma OnlyChanged(before: seq<Proxy>, px: MelemPx)
      requires px.index < |all| && all[px.index] == px && |before| == |all|
      requires forall i | 0 <= i < |all| && i != px.index :: before[i] == all[i].Value()
      ensures Forest() == before[px.index := px.Value()]
    {
    }
  }

  class MelemPx {
    ghost const index: nat     // position in the order of construction
    const conn: ARenv          // the connection: what mMgr points to when it is no proxy
    const mMgr: MelemPx?
    const mContext: string
    var mName: string
    var mProxies: map<string, MelemPx>

    ghost function Value(): Proxy
      reads this
    {
      Proxy(mContext, if mMgr == null then None else Some(mMgr.index), mName,
            map h | h in mProxies :: mProxies[h].index)
    }

    constructor (conn: ARenv, mgr: MelemPx?, context: string, ghost index: nat)
      ensures this.index == index && this.conn == conn && mMgr == mgr && mContext == context
      ensures mName == "" && mProxies == map[]
      ensures Value() == Proxy(context, if mgr == null then None else Some(mgr.index), "", map[])
    {
      this.conn, mMgr, mContext, this.index := conn, mgr, context, index;
      mName, mProxies := "", map[];
    }

    ghost predicate Valid()
      reads this, conn, conn.all
    {
      conn.Valid() && this in conn.all
    }

    function IsCached(context: string): bool
      reads this
    {
      context in mProxies
    }

    method RegProxy(px: MelemPx)
      requires !IsCached(px.mContext)  // the assertion of the source
      modifies this`mProxies
      ensures mProxies == old(mProxies)[px.mContext := px]
    {
      mProxies := mProxies[px.mContext := px];
    }

    method GetProxy(context: string) returns (px: MelemPx)
      requires IsCached(context)       // the assertion of the source
      ensures px == mProxies[context]
    {
      px := mProxies[context];
    }

    /**
     Through however many managers, the request reaches the connection once, as it is, and its
     answer comes back as it is.
    */
    method Request(context: string, request: string) returns (reply: Reply)
      requires Valid()
      modifies conn`log
      ensures Valid() && conn.Forest() == old(conn.Forest())
      ensures reply == old(conn.Answer(context, request))
      ensures conn.log == old(conn.log) + [Exchange(context, request, reply)]
      decreases index
    {
      if mMgr == null {
        reply := conn.Request(context, request);
      } else {
        reply := mMgr.Request(context, request);
      }
    }

    /** A request of the proxy's own, put to its manager under its context. */
    method Ask(request: string) returns (reply: Reply)
      requires Valid()
      modifies conn`log
      ensures Valid() && conn.Forest() == old(conn.Forest())
      ensures reply == old(conn.Answer(mContext, request))
      ensures conn.log == old(conn.log) + [Exchange(mContext, request, reply)]
    {
      if mMgr == null {
        reply := conn.Request(mContext, request);
      } else {
        reply := mMgr.Request(mContext, request);
      }
    }

    /** `RegProxy` with a proxy of this connection, as all proxies see it. */
    method Keep(px: MelemPx)
      requires Valid() && px in conn.all && !IsCached(px.mContext)
      modifies this`mProxies
      ensures Valid() && index < |old(conn.Forest())|
      ensures var f := old(conn.Forest());
        conn.Forest() == f[index := f[index].(cache := f[index].cache[px.mContext := px.index])]
    {
      ghost var f := conn.Forest();
      assert f[index] == Value();
      RegProxy(px);
      conn.OnlyChanged(f, this);
      CachedValue(f[index], px);
      assert forall q | q in conn.all :: old(conn.LinksOk(q));
    }

    /** The part of `GetNode` for a handle not seen yet: a new proxy, managed and cached here. */
    method Adopt(context: string) returns (px: MelemPx)
      requires Valid() && !IsCached(context)
      modifies this`mProxies, conn`all
      ensures Valid() && index < |old(conn.Forest())|
      ensures (conn.Forest(), Some(px.index)) == Fetched(old(conn.Forest()), index, Reply(true, context))
      ensures px in conn.all
    {
      ghost var f := conn.Forest();
      assert f[index] == Value();
      px := conn.NewProxy(this, context);
      assert conn.all[|f|] == px;
      Keep(px);
      FetchedNew(f, index, context);
    }

    /** The part of `GetNode` that follows the answer. */
    method Take(reply: Reply) returns (res: MelemPx?)
      requires Valid()
      modifies this`mProxies, conn`all
      ensures Valid() && index < |old(conn.Forest())|
      ensures conn.Forest() == Fetched(old(conn.Forest()), index, reply).0
      ensures var r := Fetched(old(conn.Forest()), index, reply).1;
        && (res == null <==> r.None?)
        && (res != null ==> res in conn.all && res.index == r.value)
    {
      assert conn.Forest()[index] == Value();
      res := null;
      if reply.ok {
        if !IsCached(reply.text) {
          res := Adopt(reply.text);
        } else {
          res := GetProxy(reply.text);
        }
      }
    }

    /** What the proxy returned is in a coherent forest, cached or new, is what `FetchedIsChild` says. */
    method GetNode(uri: string) returns (res: MelemPx?)
      requires Valid()
      modifies this`mProxies, conn`log, conn`all
      ensures Valid() && index < |old(conn.State()).f|
      ensures conn.log == old(conn.log)
        + [Exchange(mContext, "GetNode,1," + uri, old(conn.Answer(mContext, "GetNode,1," + uri)))]
      ensures var (l, r) := NodeFetched(conn.service, old(conn.State()), index, uri);
        && conn.State() == l
        && (res == null <==> r.None?)
        && (res != null ==> res in conn.all && res.index == r.value)
    {
      assert conn.Forest()[index] == Value();
      var reply := Ask("GetNode,1," + uri);
      res := Take(reply);
    }

    lemma CachedValue(was: Proxy, px: MelemPx)
      requires px.mContext in mProxies && mProxies[px.mContext] == px
      requires was.cache.Keys + {px.mContext} == mProxies.Keys
      requires forall h | h in was.cache && h != px.mContext :: was.cache[h] == mProxies[h].index
      ensures Value().cache == was.cache[px.mContext := px.index]
    {
    }

    method Name() returns (name: string)
      requires Valid()
      modifies this`mName, conn`log
      ensures Valid() && index < |old(conn.Forest())|
      ensures var reply := old(conn.Answer(mContext, "Name"));
        && conn.log == old(conn.log) + [Exchange(mContext, "Name", reply)]
        && conn.Forest() == Renamed(old(conn.Forest()), index, reply)
        && name == if reply.ok then reply.text else old(mName)
      ensures (conn.State(), name) == Named(conn.service, old(conn.State()), index)
    {
      var reply := Ask("Name");
      ghost var before := conn.Forest();
      if reply.ok {
        mName := reply.text;
        conn.OnlyChanged(before, this);
        assert forall px | px in conn.all :: old(conn.LinksOk(px));
      }
      name := mName;
    }

    /** The content, or the error text: the status of the call is lost. */
    method GetCont(name: string) returns (cont: string)
      requires Valid()
      modifies conn`log
      ensures Valid() && conn.Forest() == old(conn.Forest())
      ensures var reply := old(conn.Answer(mContext, "GetCont,1," + name));
        && cont == reply.text
        && conn.log == old(conn.log) + [Exchange(mContext, "GetCont,1," + name, reply)]
      ensures index < |old(conn.Forest())|
      ensures (conn.State(), cont) == ContGot(conn.service, old(conn.State()), index, name)
    {
      var reply := Ask("GetCont,1," + name);
      cont := reply.text;
    }
  }
}
