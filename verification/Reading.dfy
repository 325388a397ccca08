/** Reading through a proxy, in a run of the server with any other clients: its name and its content. */
module Reading {
  import opened Wire
  import opened Sessions
  import opened Server
  import opened ServerRuns
  import opened Remote
  import opened Proxies
  import opened ProxyObjects
  import opened Connection
  import opened Walk

  /** What a proxy hears when the model's own call gives `out`. */
  ghost predicate Reads(out: CallOutcome, heard: Reply) {
    match out
    case Text(text) =>
      heard.ok && (text == "" ==> heard.text == "OK") && (text != "" && ReplyFits(text) ==> heard.text == text)
    case Threw(what) => !heard.ok && (ReplyFits(what) ==> heard.text == what)
    case Returned(_) => true
  }

  /** A call on the object that a proxy stands for, answered in the run, is answered as the object says. */
  lemma ReadInRun(uid: Obj -> string, es: seq<Event>, n: nat, t: nat, lib: Library,
                  f: seq<Proxy>, p: nat, x: Obj, known: set<string>, args: string)
    requires UidsOk(uid) && UidsTravel(uid) && Runs(uid, INITIAL, es) && n <= |es| && WalksOn(uid, es, n, t, lib)
    requires StandsFor(Trace(uid, INITIAL, es)[n].sessions, t, f, p, x, known) && Deliverable(f[p].context, args)
    ensures var c := CallIn(uid, es, n, t, f[p].context, args);
      && !c.Overran?
      && (c.Died? ==> lib.call(x, args).Returned?)
      && (c.Heard? ==> Reads(lib.call(x, args), c.reply))
  {
    CallOverruns(uid, es, n, t, f[p].context, args);
    var c := CallIn(uid, es, n, t, f[p].context, args);
    if c.Heard? || c.Died? {
      var ss, registry, r := WalkerCall(uid, es, n, t, lib, f, p, x, known, args);
      ModelCallTransparent(uid, ss, registry, t, f[p].context, x, args, lib);
    }
  }

  /**
   `Name` gives the name that the object itself gives; where that throws it gives the name the proxy
   had, and where it is empty "OK".
  */
  lemma NameIsModels(uid: Obj -> string, es: seq<Event>, i: nat, n: nat, t: nat, lib: Library, service: Service,
                     l: Link, p: nat, x: Obj, known: set<string>)
    requires UidsOk(uid) && UidsTravel(uid) && Runs(uid, INITIAL, es) && i <= |es| && ServedBy(service, uid, es, i, t)
    requires PlaceOf(uid, es, i, t, l.log) == At(n) && WalksOn(uid, es, n, t, lib)
    requires StandsFor(Trace(uid, INITIAL, es)[n].sessions, t, l.f, p, x, known) && Deliverable(l.f[p].context, "Name")
    ensures CallIn(uid, es, n, t, l.f[p].context, "Name").Heard? ==>
      match lib.call(x, "Name")
      case Text(text) =>
        (text != "" && ReplyFits(text) ==> Named(service, l, p).1 == text)
        && (text == "" ==> Named(service, l, p).1 == "OK")
      case Threw(_) => Named(service, l, p).1 == l.f[p].name
      case Returned(_) => true
  {
    ReadInRun(uid, es, n, t, lib, l.f, p, x, known, "Name");
    Served(service, uid, es, i, t, l.log, n, l.f[p].context, "Name");
  }

  /** `GetCont` gives the content that the object itself gives, or the text of what that throws. */
  lemma ContIsModels(uid: Obj -> string, es: seq<Event>, i: nat, n: nat, t: nat, lib: Library, service: Service,
                     l: Link, p: nat, x: Obj, known: set<string>, name: string)
    requires UidsOk(uid) && UidsTravel(uid) && Runs(uid, INITIAL, es) && i <= |es| && ServedBy(service, uid, es, i, t)
    requires PlaceOf(uid, es, i, t, l.log) == At(n) && WalksOn(uid, es, n, t, lib)
    requires StandsFor(Trace(uid, INITIAL, es)[n].sessions, t, l.f, p, x, known)
    requires Deliverable(l.f[p].context, "GetCont,1," + name)
    ensures CallIn(uid, es, n, t, l.f[p].context, "GetCont,1," + name).Heard? ==>
      match lib.call(x, "GetCont,1," + name)
      case Text(text) =>
        (text != "" && ReplyFits(text) ==> ContGot(service, l, p, name).1 == text)
        && (text == "" ==> ContGot(service, l, p, name).1 == "OK")
      case Threw(what) => ReplyFits(what) ==> ContGot(service, l, p, name).1 == what
      case Returned(_) => true
  {
    ReadInRun(uid, es, n, t, lib, l.f, p, x, known, "GetCont,1," + name);
    Served(service, uid, es, i, t, l.log, n, l.f[p].context, "GetCont,1," + name);
  }
}
