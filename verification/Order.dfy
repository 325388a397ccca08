/** The order of the registry over runs: sessions stand in it in the order in which they were appended. */
module ServerOrder {
  import opened Wrappers
  import opened Wire
  import opened Sessions
  import opened Server
  import opened ServerRuns
  import opened Remote
  import opened Attachment

  /** The registration of this handler is over. */
  predicate Enrolled(pc: Pc) {
    HasId(pc) && !pc.RegNumbered?
  }

  /** Each session has at most one entry, and only once its registration is over. */
  ghost predicate Once(st: State)
    requires Fits(st)
  {
    && (forall i, j | 0 <= i < j < |st.registry| :: st.registry[i] != st.registry[j])
    && (forall i | 0 <= i < |st.registry| :: Enrolled(st.threads[st.registry[i]].pc))
  }

  /** Session `t` has an entry ahead of one of session `u`. */
  ghost predicate Precedes(registry: seq<nat>, t: nat, u: nat) {
    exists i, j :: 0 <= i < j < |registry| && registry[i] == t && registry[j] == u
  }

  /** Event `e` appends session `t`. */
  predicate Appends(st: State, e: Event, t: nat) {
    e == Inside(t) && t < |st.threads| && st.threads[t].pc.RegNumbered?
  }

  /** What a step may do to the registry: append one session, or take one entry out without moving the others. */
  ghost predicate RegistryStep(st: State, e: Event, registry: seq<nat>) {
    || registry == st.registry
    || (e.Inside? && Appends(st, e, e.t) && registry == st.registry + [e.t])
    || (exists i :: TakenOut(st.registry, i, registry))
  }

  ghost predicate TakenOut(before: seq<nat>, i: nat, after: seq<nat>) {
    && i < |before| && |after| == |before| - 1
    && forall j | 0 <= j < |after| :: after[j] == before[if j < i then j else j + 1]
  }

  lemma StepsRegistry(uid: Obj -> string, st: State, e: Event)
    requires Fits(st) && Enabled(st, e)
    ensures RegistryStep(st, e, Step(uid, st, e).registry)
    ensures forall t | 0 <= t < |st.threads| && Enrolled(st.threads[t].pc) :: Enrolled(Step(uid, st, e).threads[t].pc)
    ensures e.Inside? && Appends(st, e, e.t) ==>
      Step(uid, st, e).registry == st.registry + [e.t] && Enrolled(Step(uid, st, e).threads[e.t].pc)
  {
    if e.Inside? && st.threads[e.t].pc.EraseFound? {
      var i := st.threads[e.t].pc.index;
      if 0 <= i < |st.registry| {
        assert TakenOut(st.registry, i, Step(uid, st, e).registry);
      }
    }
  }

  lemma TakenOutOnce(before: seq<nat>, i: nat, after: seq<nat>)
    requires TakenOut(before, i, after) && forall a, b | 0 <= a < b < |before| :: before[a] != before[b]
    ensures forall a, b | 0 <= a < b < |after| :: after[a] != after[b]
    ensures forall a | 0 <= a < |after| :: after[a] in before
    ensures forall t, u | Precedes(before, t, u) && t in after && u in after :: Precedes(after, t, u)
  {
    forall t, u | Precedes(before, t, u) && t in after && u in after ensures Precedes(after, t, u) {
      var a :| 0 <= a < |after| && after[a] == t;
      var b :| 0 <= b < |after| && after[b] == u;
      var c, d :| 0 <= c < d < |before| && before[c] == t && before[d] == u;
      assert before[if a < i then a else a + 1] == t && before[if b < i then b else b + 1] == u;
    }
  }

  lemma OnceKept(uid: Obj -> string, st: State, e: Event)
    requires Fits(st) && Once(st) && Enabled(st, e)
    ensures Once(Step(uid, st, e))
  {
    var st' := Step(uid, st, e);
    StepsRegistry(uid, st, e);
    if i :| TakenOut(st.registry, i, st'.registry) {
      TakenOutOnce(st.registry, i, st'.registry);
    }
  }

  /** The registry after a step, as far as two enrolled sessions are concerned. */
  lemma StepKeepsOrder(uid: Obj -> string, st: State, e: Event, t: nat, u: nat)
    requires Fits(st) && Once(st) && Enabled(st, e) && t < |st.threads| && u < |st.threads|
    requires Enrolled(st.threads[t].pc) && Enrolled(st.threads[u].pc)
    ensures var registry' := Step(uid, st, e).registry;
      && (t in registry' ==> t in st.registry)
      && (Precedes(st.registry, t, u) && t in registry' && u in registry' ==> Precedes(registry', t, u))
  {
    var registry' := Step(uid, st, e).registry;
    StepsRegistry(uid, st, e);
    if i :| TakenOut(st.registry, i, registry') {
      TakenOutOnce(st.registry, i, registry');
    }
  }

  // ---- over runs

  /** Event `k` of the run appends session `t`. */
  ghost predicate AppendedAt(uid: Obj -> string, es: seq<Event>, k: nat, t: nat)
    requires Runs(uid, INITIAL, es) && k < |es|
  {
    Appends(Trace(uid, INITIAL, es)[k], es[k], t)
  }

  lemma {:induction false} TraceOnce(uid: Obj -> string, es: seq<Event>, j: nat)
    requires UidsOk(uid) && Runs(uid, INITIAL, es) && j <= |es|
    ensures Fits(Trace(uid, INITIAL, es)[j]) && Once(Trace(uid, INITIAL, es)[j])
  {
    if j > 0 {
      TraceOnce(uid, es, j - 1);
      TraceFacts(uid, es, j - 1);
      OnceKept(uid, Trace(uid, INITIAL, es)[j - 1], es[j - 1]);
    }
  }

  ghost predicate EnrolledIn(st: State, t: nat) {
    t < |st.threads| && Enrolled(st.threads[t].pc)
  }

  lemma NextEnrolled(uid: Obj -> string, es: seq<Event>, k: nat, t: nat)
    requires UidsOk(uid) && Runs(uid, INITIAL, es) && k < |es|
    ensures var tr := Trace(uid, INITIAL, es);
      && (EnrolledIn(tr[k], t) ==> EnrolledIn(tr[k + 1], t))
      && (AppendedAt(uid, es, k, t) ==> EnrolledIn(tr[k + 1], t) && tr[k + 1].registry == tr[k].registry + [t])
  {
    TraceFacts(uid, es, k);
    var st, e := Trace(uid, INITIAL, es)[k], es[k];
    StepsRegistry(uid, st, e);
    StepFrame(uid, st, e);
  }

  lemma {:induction false} EnrolledStays(uid: Obj -> string, es: seq<Event>, i: nat, j: nat, t: nat)
    requires UidsOk(uid) && Runs(uid, INITIAL, es) && i <= j <= |es| && EnrolledIn(Trace(uid, INITIAL, es)[i], t)
    ensures EnrolledIn(Trace(uid, INITIAL, es)[j], t)
  {
    if i < j {
      EnrolledStays(uid, es, i, j - 1, t);
      NextEnrolled(uid, es, j - 1, t);
    }
  }

  lemma NextKeepsOrder(uid: Obj -> string, es: seq<Event>, k: nat, t: nat, u: nat)
    requires UidsOk(uid) && Runs(uid, INITIAL, es) && k < |es|
    requires EnrolledIn(Trace(uid, INITIAL, es)[k], t) && EnrolledIn(Trace(uid, INITIAL, es)[k], u)
    ensures var r, r' := Trace(uid, INITIAL, es)[k].registry, Trace(uid, INITIAL, es)[k + 1].registry;
      && (t in r' ==> t in r) && (u in r' ==> u in r)
      && (Precedes(r, t, u) && t in r' && u in r' ==> Precedes(r', t, u))
  {
    TraceFacts(uid, es, k);
    TraceOnce(uid, es, k);
    StepKeepsOrder(uid, Trace(uid, INITIAL, es)[k], es[k], t, u);
    StepKeepsOrder(uid, Trace(uid, INITIAL, es)[k], es[k], u, t);
  }

  /** An entry once taken out never comes back. */
  lemma {:induction false} NeverReturns(uid: Obj -> string, es: seq<Event>, i: nat, j: nat, t: nat)
    requires UidsOk(uid) && Runs(uid, INITIAL, es) && i <= j <= |es|
    requires EnrolledIn(Trace(uid, INITIAL, es)[i], t) && t in Trace(uid, INITIAL, es)[j].registry
    ensures t in Trace(uid, INITIAL, es)[i].registry
    decreases j
  {
    if i < j {
      EnrolledStays(uid, es, i, j - 1, t);
      NextKeepsOrder(uid, es, j - 1, t, t);
      NeverReturns(uid, es, i, j - 1, t);
    }
  }

  /** Of two entries that stay, the one ahead stays ahead. */
  lemma {:induction false} OrderLasts(uid: Obj -> string, es: seq<Event>, i: nat, j: nat, t: nat, u: nat)
    requires UidsOk(uid) && Runs(uid, INITIAL, es) && i <= j <= |es|
    requires EnrolledIn(Trace(uid, INITIAL, es)[i], t) && EnrolledIn(Trace(uid, INITIAL, es)[i], u)
    requires Precedes(Trace(uid, INITIAL, es)[i].registry, t, u)
    ensures var r := Trace(uid, INITIAL, es)[j].registry; t in r && u in r ==> Precedes(r, t, u)
    decreases j
  {
    if i < j {
      EnrolledStays(uid, es, i, j - 1, t);
      EnrolledStays(uid, es, i, j - 1, u);
      OrderLasts(uid, es, i, j - 1, t, u);
      NextKeepsOrder(uid, es, j - 1, t, u);
    }
  }

  /** A session appended stands behind those that have an entry. */
  lemma AppendedBehind(uid: Obj -> string, es: seq<Event>, l: nat, t: nat, u: nat)
    requires UidsOk(uid) && Runs(uid, INITIAL, es) && l < |es| && AppendedAt(uid, es, l, u)
    requires EnrolledIn(Trace(uid, INITIAL, es)[l], t) && t in Trace(uid, INITIAL, es)[l].registry
    ensures var st := Trace(uid, INITIAL, es)[l + 1];
      EnrolledIn(st, t) && EnrolledIn(st, u) && Precedes(st.registry, t, u)
  {
    NextEnrolled(uid, es, l, t);
    NextEnrolled(uid, es, l, u);
    PrecedesLast(Trace(uid, INITIAL, es)[l].registry, t, u);
  }

  /** In every state the session appended first stands first. */
  lemma OlderFirst(uid: Obj -> string, es: seq<Event>, k: nat, l: nat, j: nat, t: nat, u: nat)
    requires UidsOk(uid) && Runs(uid, INITIAL, es) && k < l < j <= |es|
    requires AppendedAt(uid, es, k, t) && AppendedAt(uid, es, l, u)
    requires t in Trace(uid, INITIAL, es)[j].registry && u in Trace(uid, INITIAL, es)[j].registry
    ensures Precedes(Trace(uid, INITIAL, es)[j].registry, t, u)
  {
    NextEnrolled(uid, es, k, t);
    EnrolledStays(uid, es, k + 1, l, t);
    NeverReturns(uid, es, l, j, t);
    AppendedBehind(uid, es, l, t, u);
    OrderLasts(uid, es, l + 1, j, t, u);
  }

  lemma PrecedesLast(registry: seq<nat>, t: nat, u: nat)
    requires t in registry
    ensures Precedes(registry + [u], t, u)
  {
    var i :| 0 <= i < |registry| && registry[i] == t;
    assert (registry + [u])[i] == t && (registry + [u])[|registry|] == u;
  }

  /** Every entry was appended at some point of the run. */
  lemma {:induction false} EntryAppended(uid: Obj -> string, es: seq<Event>, j: nat, t: nat) returns (k: nat)
    requires UidsOk(uid) && Runs(uid, INITIAL, es) && j <= |es| && t in Trace(uid, INITIAL, es)[j].registry
    ensures k < j && AppendedAt(uid, es, k, t)
    decreases j
  {
    var tr := Trace(uid, INITIAL, es);
    TraceFacts(uid, es, j - 1);
    StepsRegistry(uid, tr[j - 1], es[j - 1]);
    if t in tr[j - 1].registry {
      k := EntryAppended(uid, es, j - 1, t);
    } else {
      k := j - 1;
    }
  }

  /** Of the sessions with an entry and this id in state `j`, `owner` was appended first, by event `k`. */
  ghost predicate Oldest(uid: Obj -> string, es: seq<Event>, j: nat, id: nat, owner: nat, k: nat)
    requires Runs(uid, INITIAL, es) && j <= |es|
  {
    var st := Trace(uid, INITIAL, es)[j];
    && HasEntry(st, owner, id) && k < j && AppendedAt(uid, es, k, owner)
    && forall u, l | HasEntry(st, u, id) && u != owner && 0 <= l < j && AppendedAt(uid, es, l, u) :: k < l
  }

  ghost predicate HasEntry(st: State, u: nat, id: nat) {
    u in st.registry && u < |st.sessions| && st.sessions[u].id == Some(id)
  }

  lemma FoundIsOldest(uid: Obj -> string, es: seq<Event>, j: nat, id: nat, u: nat) returns (owner: nat, k: nat)
    requires UidsOk(uid) && Runs(uid, INITIAL, es) && j <= |es| && HasEntry(Trace(uid, INITIAL, es)[j], u, id)
    ensures Oldest(uid, es, j, id, owner, k) && Fits(Trace(uid, INITIAL, es)[j])
    ensures var st := Trace(uid, INITIAL, es)[j];
      var i := FindById(st.sessions, st.registry, id);
      i < |st.registry| && st.registry[i] == owner
  {
    var st := Trace(uid, INITIAL, es)[j];
    TraceOnce(uid, es, j);
    owner := EntryFound(st, id, u);
    k := EntryAppended(uid, es, j, owner);
    forall v, l | HasEntry(st, v, id) && v != owner && 0 <= l < j && AppendedAt(uid, es, l, v) ensures k < l {
      if l < k {
        OlderFirst(uid, es, l, k, j, v, owner);
        FoundIsFirstOf(st, id, v);
      }
    }
  }

  lemma EntryFound(st: State, id: nat, u: nat) returns (owner: nat)
    requires Fits(st) && HasEntry(st, u, id)
    ensures var i := FindById(st.sessions, st.registry, id); i < |st.registry| && st.registry[i] == owner
    ensures HasEntry(st, owner, id)
  {
    owner := st.registry[FindById(st.sessions, st.registry, id)];
  }

  /**
   In every state of every run, attaching by an id that some entry has reaches, of the sessions in the
   registry under that id, the one that was appended first.
  */
  lemma AttachReachesOldest(uid: Obj -> string, es: seq<Event>, j: nat, t: nat, id: nat, u: nat, lib: Library)
      returns (owner: nat, k: nat)
    requires UidsOk(uid) && Runs(uid, INITIAL, es) && j <= |es| && IdLibrary(lib, id)
    requires AloneIn(Trace(uid, INITIAL, es)[j], t) && HasEntry(Trace(uid, INITIAL, es)[j], u, id)
    ensures Oldest(uid, es, j, id, owner, k)
    ensures AttachesTo(uid, Trace(uid, INITIAL, es)[j], t, id, lib, owner)
  {
    TraceInv(uid, INITIAL, es, j);
    owner, k := FoundIsOldest(uid, es, j, id, u);
    AttachFound(uid, Trace(uid, INITIAL, es)[j], t, id, lib);
  }

  ghost predicate AttachesTo(uid: Obj -> string, st: State, t: nat, id: nat, lib: Library, owner: nat) {
    && Fits(st) && t < |st.sessions|
    && RemoteCall(uid, st.sessions, st.registry, t, PROVIDER, "AttachEnv,1," + lib.show(id), lib)
      == Answered(st.sessions[t := st.sessions[t].(attached := Some(owner))], Reply(true, "OK"))
  }

  lemma AttachFound(uid: Obj -> string, st: State, t: nat, id: nat, lib: Library)
    requires Inv(uid, st) && Alone(st, t) && IdLibrary(lib, id)
    ensures var i := FindById(st.sessions, st.registry, id);
      i < |st.registry| ==> AttachesTo(uid, st, t, id, lib, st.registry[i])
  {
    ProviderFound(uid, st, t);
    AttachCall(uid, st, t, lib, id);
  }

  lemma FoundIsFirstOf(st: State, id: nat, u: nat)
    requires Fits(st) && Once(st) && u < |st.sessions| && st.sessions[u].id == Some(id)
    requires FindById(st.sessions, st.registry, id) < |st.registry|
    ensures !Precedes(st.registry, u, st.registry[FindById(st.sessions, st.registry, id)])
  {
  }
}
