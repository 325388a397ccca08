/** What holds over every run of the server. */
module ServerRuns {
  import opened Wrappers
  import opened Sessions
  import opened Ids
  import opened Server

  /** The states a run goes through, from the first to the last. */
  ghost function Trace(uid: Obj -> string, st: State, es: seq<Event>): (tr: seq<State>)
    requires Fits(st) && Runs(uid, st, es)
    ensures |tr| == |es| + 1 && tr[0] == st && tr[|es|] == After(uid, st, es)
    decreases |es|
  {
    if es == [] then [st] else [st] + Trace(uid, Step(uid, st, es[0]), es[1..])
  }

  lemma {:induction false} TraceStep(uid: Obj -> string, st: State, es: seq<Event>, j: nat)
    requires UidsOk(uid) && Inv(uid, st) && Runs(uid, st, es) && j < |es|
    ensures var tr := Trace(uid, st, es);
      Inv(uid, tr[j]) && Enabled(tr[j], es[j]) && tr[j + 1] == Step(uid, tr[j], es[j])
    decreases j
  {
    if j > 0 {
      StepKeepsInv(uid, st, es[0]);
      TraceStep(uid, Step(uid, st, es[0]), es[1..], j - 1);
    }
  }

  lemma {:induction false} TraceInv(uid: Obj -> string, st: State, es: seq<Event>, j: nat)
    requires UidsOk(uid) && Inv(uid, st) && Runs(uid, st, es) && j <= |es|
    ensures Inv(uid, Trace(uid, st, es)[j])
    decreases j
  {
    if j > 0 {
      StepKeepsInv(uid, st, es[0]);
      TraceInv(uid, Step(uid, st, es[0]), es[1..], j - 1);
    }
  }

  /** What a step of a run can rely on, in short. */
  lemma TraceFacts(uid: Obj -> string, es: seq<Event>, j: nat)
    requires UidsOk(uid) && Runs(uid, INITIAL, es) && j < |es|
    ensures var tr := Trace(uid, INITIAL, es);
      && Fits(tr[j]) && TablesOk(uid, tr[j].sessions) && IdInv(tr[j])
      && Enabled(tr[j], es[j]) && tr[j + 1] == Step(uid, tr[j], es[j])
  {
    TraceStep(uid, INITIAL, es, j);
  }

  // ---- the registry

  /**
   In every interleaving the ids in the registry are those of the registered sessions, a leaving
   session finds an entry to erase, and no index or unset number is ever used.
  */
  lemma RegistryConserved(uid: Obj -> string, es: seq<Event>)
    requires UidsOk(uid) && Runs(uid, INITIAL, es)
    ensures var st := After(uid, INITIAL, es);
      && multiset(RegistryIds(st.sessions, st.registry)) == ListedIds(st.sessions, st.threads, |st.sessions|)
      && !st.status.Corrupted?
      && forall t | 0 <= t < |st.threads| && Listed(st.threads[t].pc) :: LookupSucceeds(st, t)
  {
    ReachableInv(uid, es);
    var st := After(uid, INITIAL, es);
    forall t | 0 <= t < |st.threads| && Listed(st.threads[t].pc) ensures LookupSucceeds(st, t) {
      LeaverFindsEntry(st, t);
    }
  }

  /** The statements of the first critical section together, as `SessionServer.Register` does them. */
  lemma RegistrationSteps(st: State, t: nat)
    requires Fits(st) && t < |st.threads| && st.threads[t].pc.RegLocked?
    ensures var st' := StepInside(StepInside(st, t), t);
      && st'.sessions == st.sessions[t := st.sessions[t].(id := Some(|st.registry|))]
      && st'.registry == st.registry + [t] && AtRelease(st'.threads[t].pc)
  {
  }

  /** The statements of the last critical section together, as `SessionServer.Unregister` does them. */
  lemma ErasureSteps(st: State, t: nat)
    requires Fits(st) && t < |st.threads| && st.threads[t].pc.EraseLocked? && st.sessions[t].id.Some?
    ensures var st' := StepInside(StepInside(st, t), t);
      var i := FindById(st.sessions, st.registry, st.sessions[t].id.value);
      && st'.sessions == st.sessions
      && st'.registry == (if i < |st.registry| then Without(st.registry, i) else st.registry)
      && (i < |st.registry| ==>
            && |st'.registry| == |st.registry| - 1
            && forall j | 0 <= j < |st'.registry| :: st'.registry[j] == st.registry[if j < i then j else j + 1])
      && (i == |st.registry| ==> st'.status.Corrupted?)
  {
  }

  /** While the ids cover 0..n-1, each id denotes one registered session, and its entry is that session's own. */
  lemma CoveredIdsFindOwner(uid: Obj -> string, st: State, t: nat)
    requires Inv(uid, st) && Covers(RegistryIds(st.sessions, st.registry))
    requires t < |st.threads| && Listed(st.threads[t].pc)
    ensures LookupSucceeds(st, t)
    ensures st.registry[FindById(st.sessions, st.registry, st.sessions[t].id.value)] == t
  {
    LeaverFindsEntry(st, t);
    var ids := RegistryIds(st.sessions, st.registry);
    var i := FindById(st.sessions, st.registry, st.sessions[t].id.value);
    var u := st.registry[i];
    CoversBounded(ids, i);
    assert !Suspect(st, ids, i);
    if u != t {
      TwoListed(st.sessions, st.threads, t, u, |st.sessions|);
      CoversMultiset(ids);
      UptoDistinct(|ids|, ids[i]);
      assert false;
    }
  }

  lemma {:induction false} TwoListed(ss: seq<Session>, threads: seq<Thread>, t: nat, u: nat, n: nat)
    requires t < n <= |ss| == |threads| && u < n && t != u
    requires Listed(threads[t].pc) && Listed(threads[u].pc) && IdOf(ss[t]) == IdOf(ss[u])
    ensures ListedIds(ss, threads, n)[IdOf(ss[t])] >= 2
  {
    if t == n - 1 {
      ListedIdIn(ss, threads, u, n - 1);
    } else if u == n - 1 {
      ListedIdIn(ss, threads, t, n - 1);
    } else {
      TwoListed(ss, threads, t, u, n - 1);
    }
  }

  /** Attaching by an id below the number of registered sessions reaches its only registered owner. */
  lemma CoveredIdsAttach(uid: Obj -> string, st: State, id: int)
    requires Inv(uid, st) && Covers(RegistryIds(st.sessions, st.registry))
    ensures var i := FindById(st.sessions, st.registry, id);
      && (i < |st.registry| <==> 0 <= id < |st.registry|)
      && (i < |st.registry| ==>
            && Listed(st.threads[st.registry[i]].pc)
            && forall t | 0 <= t < |st.threads| && Listed(st.threads[t].pc) && st.sessions[t].id == Some(id) ::
                 t == st.registry[i])
  {
    var i := FindById(st.sessions, st.registry, id);
    var ids := RegistryIds(st.sessions, st.registry);
    if 0 <= id < |ids| {
      assert id in ids;
      var k :| 0 <= k < |ids| && ids[k] == id;
      assert st.sessions[st.registry[k]].id == Some(id);
    }
    if i < |ids| {
      assert ids[i] == id;
      CoversBounded(ids, i);
      assert !Suspect(st, ids, i);
      forall t | 0 <= t < |st.threads| && Listed(st.threads[t].pc) && st.sessions[t].id == Some(id)
        ensures t == st.registry[i]
      {
        CoveredIdsFindOwner(uid, st, t);
      }
    }
  }

  /** Connecting keeps the ids a permutation of 0..n-1. */
  lemma ConnectKeepsCover(uid: Obj -> string, st: State, t: nat)
    requires Inv(uid, st) && t < |st.threads| && st.threads[t].pc.RegNumbered?
    requires Covers(RegistryIds(st.sessions, st.registry))
    ensures var st' := StepInside(st, t); Covers(RegistryIds(st'.sessions, st'.registry))
  {
    var st' := StepInside(st, t);
    var ids, ids' := RegistryIds(st.sessions, st.registry), RegistryIds(st'.sessions, st'.registry);
    assert ThreadIdInv(st, t);
    assert ids' == ids + [|ids|];
    assert forall j: nat | j < |ids| :: j in ids;
    assert ids'[|ids|] == |ids|;
  }

  /** Leaving keeps it exactly when the leaver holds the largest id. */
  lemma LeaveKeepsCoverIff(uid: Obj -> string, st: State, t: nat)
    requires Inv(uid, st) && t < |st.threads| && st.threads[t].pc.EraseFound?
    requires Covers(RegistryIds(st.sessions, st.registry))
    ensures var st' := StepInside(st, t);
      Covers(RegistryIds(st'.sessions, st'.registry)) <==> IdOf(st.sessions[t]) == |st.registry| - 1
  {
    var st' := StepInside(st, t);
    var ids, ids' := RegistryIds(st.sessions, st.registry), RegistryIds(st'.sessions, st'.registry);
    assert ThreadIdInv(st, t);
    var i: nat := st.threads[t].pc.index;
    assert ids' == Without(ids, i);
    WithoutCoversIff(ids, i);
  }

  lemma WithoutCoversIff(ids: seq<nat>, i: nat)
    requires Covers(ids) && i < |ids|
    ensures Covers(Without(ids, i)) <==> ids[i] == |ids| - 1
  {
    if ids[i] == |ids| - 1 {
      CoversWithoutLast(ids, i);
    } else {
      CoversBounded(ids, i);
      forall j | 0 <= j < |ids| && j != i ensures ids[j] != ids[i] {
        CoversDistinct(ids, if i < j then i else j, if i < j then j else i);
      }
      assert ids[i] !in Without(ids, i);
    }
  }

  /** An id equals the number of registered sessions when it is given, and stays below the peak. */
  lemma IdsBelowPeak(uid: Obj -> string, es: seq<Event>, t: nat)
    requires UidsOk(uid) && Runs(uid, INITIAL, es)
    requires t < |After(uid, INITIAL, es).sessions| && After(uid, INITIAL, es).sessions[t].id.Some?
    ensures var st := After(uid, INITIAL, es);
      if st.threads[t].pc.RegNumbered? then st.sessions[t].id.value == |st.registry|
      else st.sessions[t].id.value < st.peak
  {
    ReachableInv(uid, es);
    assert ThreadIdInv(After(uid, INITIAL, es), t);
  }

  /** The peak of state `n` is the largest size of the registry up to it. */
  ghost predicate IsPeak(tr: seq<State>, n: nat)
    requires n < |tr|
  {
    && (exists j :: 0 <= j <= n && |tr[j].registry| == tr[n].peak)
    && (forall j | 0 <= j <= n :: |tr[j].registry| <= tr[n].peak)
  }

  lemma PeakNext(tr: seq<State>, n: nat)
    requires n + 1 < |tr| && IsPeak(tr, n)
    requires tr[n + 1].peak >= tr[n].peak && |tr[n + 1].registry| <= tr[n + 1].peak
    requires tr[n + 1].peak == tr[n].peak || tr[n + 1].peak == |tr[n + 1].registry|
    ensures IsPeak(tr, n + 1)
  {
  }

  lemma {:induction false} PeakIsLargest(uid: Obj -> string, es: seq<Event>, n: nat)
    requires UidsOk(uid) && Runs(uid, INITIAL, es) && n <= |es|
    ensures IsPeak(Trace(uid, INITIAL, es), n)
  {
    var tr := Trace(uid, INITIAL, es);
    if n == 0 {
      assert |tr[0].registry| == tr[0].peak;
    } else {
      PeakIsLargest(uid, es, n - 1);
      TraceFacts(uid, es, n - 1);
      StepPeak(uid, tr[n - 1], es[n - 1]);
      PeakNext(tr, n - 1);
    }
  }

  lemma StepPeak(uid: Obj -> string, st: State, e: Event)
    requires Fits(st) && Enabled(st, e) && |st.registry| <= st.peak
    ensures var st' := Step(uid, st, e);
      && st'.peak >= st.peak && |st'.registry| <= st'.peak
      && (st'.peak == st.peak || st'.peak == |st'.registry|)
  {
  }

  // ---- the accepting thread and the handlers

  /**
   The constructor installs the provider only after it has started the handler, and still: each
   table is either empty or holds its own provider, providers occur nowhere else, and only the session
   still under construction has an empty table.
  */
  lemma TablesHoldOwnProvider(uid: Obj -> string, es: seq<Event>, t: nat)
    requires UidsOk(uid) && Runs(uid, INITIAL, es) && t < |After(uid, INITIAL, es).sessions|
    ensures var st := After(uid, INITIAL, es); var ctx := st.sessions[t].ctx;
      && (ctx == map[] <==> st.accepting == Some(t))
      && (ctx != map[] ==> PROVIDER in ctx && ctx[PROVIDER] == Provider(t))
      && (forall h | h in ctx && ctx[h].Provider? :: h == PROVIDER)
  {
    ReachableInv(uid, es);
    var st := After(uid, INITIAL, es);
    assert TableOk(uid, st.sessions[t], t);
    assert forall h | h in st.sessions[t].ctx :: EntryOk(uid, st.sessions[t], t, h);
  }

  /** The constructor's late registration never throws. */
  lemma InstallNeverThrows(uid: Obj -> string, es: seq<Event>)
    requires UidsOk(uid) && Runs(uid, INITIAL, es) && Enabled(After(uid, INITIAL, es), Install)
    ensures Step(uid, After(uid, INITIAL, es), Install).status.Running?
  {
    ReachableInv(uid, es);
  }

  /** Until then a request is answered by an error exactly as if the session knew nothing. */
  lemma EmptyTableRefuses(uid: Obj -> string, ss: seq<Session>, registry: seq<nat>, t: nat, msg: string, lib: Library)
    requires t < |ss| && PointersOk(ss, registry) && ss[Effective(ss, t)].ctx == map[]
    ensures var o := Handle(uid, ss, registry, t, msg, lib); o.Replied? && !o.reply.ok && o.ss == ss
  {
  }

  // ---- the mutex

  /**
   At most one handler is in a critical section, it is the one that holds the mutex, and it does not
   ask for the mutex again.
  */
  lemma MutualExclusion(uid: Obj -> string, es: seq<Event>, t: nat, u: nat)
    requires UidsOk(uid) && Runs(uid, INITIAL, es)
    requires t < |After(uid, INITIAL, es).threads| && u < |After(uid, INITIAL, es).threads|
    ensures var st := After(uid, INITIAL, es);
      && (HoldsLock(st.threads[t].pc) && HoldsLock(st.threads[u].pc) ==> t == u)
      && (HoldsLock(st.threads[t].pc) <==> st.lock == Some(t))
      && (Waiting(st.threads[t].pc) ==> st.lock != Some(t))
  {
    ReachableInv(uid, es);
  }

  /** Every write to the registry is made by the holder of the mutex. */
  lemma RegistryWrittenUnderLock(uid: Obj -> string, st: State, e: Event)
    requires Fits(st) && LockInv(st) && Enabled(st, e)
    ensures Step(uid, st, e).registry != st.registry ==> e.Inside? && st.lock == Some(e.t)
  {
  }

  /** The events that bring a handler from within a critical section out of it. */
  function Release(pc: Pc, t: nat): (es: seq<Event>)
    requires HoldsLock(pc)
  {
    match pc
    case RegLocked => [Inside(t), Inside(t), Unlock(t)]
    case EraseLocked => [Inside(t), Inside(t), Unlock(t)]
    case RegNumbered => [Inside(t), Unlock(t)]
    case SendLocked(_) => [Inside(t), Unlock(t)]
    case EraseFound(_) => [Inside(t), Unlock(t)]
    case _ => [Unlock(t)]
  }

  /** The events release the mutex and move no thread but `t`. */
  ghost predicate Releases(uid: Obj -> string, st: State, t: nat, es: seq<Event>)
    requires Fits(st)
  {
    && Runs(uid, st, es)
    && var st' := After(uid, st, es);
    && st'.lock.None? && st'.status.Running? && |st'.threads| == |st.threads|
    && forall u | 0 <= u < |st.threads| && u != t :: st'.threads[u] == st.threads[u]
  }

  lemma UnlockNow(uid: Obj -> string, st: State, t: nat)
    requires Fits(st) && st.status.Running? && t < |st.threads| && AtRelease(st.threads[t].pc)
    ensures Releases(uid, st, t, [Unlock(t)])
  {
    var st' := Step(uid, st, Unlock(t));
    assert [Unlock(t)][1..] == [];
    assert Runs(uid, st', []);
  }

  lemma FirstInside(uid: Obj -> string, st: State, t: nat, es: seq<Event>)
    requires Fits(st) && Enabled(st, Inside(t)) && Releases(uid, Step(uid, st, Inside(t)), t, es)
    ensures Releases(uid, st, t, [Inside(t)] + es)
  {
    StepFrame(uid, st, Inside(t));
    assert ([Inside(t)] + es)[1..] == es;
  }

  /** The holder can always go on to its release, on its own, in at most three steps. */
  lemma {:induction false} HolderReleases(uid: Obj -> string, st: State, t: nat)
    requires UidsOk(uid) && Inv(uid, st) && st.status.Running? && st.lock == Some(t)
    ensures HoldsLock(st.threads[t].pc) && Releases(uid, st, t, Release(st.threads[t].pc, t))
    decreases |Release(st.threads[t].pc, t)|
  {
    assert HoldsLock(st.threads[t].pc);
    if InSection(st.threads[t].pc) {
      var st' := Step(uid, st, Inside(t));
      InsideAdvances(st, t);
      StepKeepsInv(uid, st, Inside(t));
      HolderReleases(uid, st', t);
      FirstInside(uid, st, t, Release(st'.threads[t].pc, t));
    } else {
      UnlockNow(uid, st, t);
    }
  }

  /** The next statement of a critical section brings its handler one event nearer to the release. */
  lemma NextInside(st: State, t: nat)
    requires Fits(st) && IdInv(st) && t < |st.threads| && InSection(st.threads[t].pc)
    requires st.threads[t].pc.EraseLocked? ==> LookupSucceeds(st, t)
    ensures var st' := StepInside(st, t);
      && st'.status == st.status && st'.lock == st.lock && HoldsLock(st'.threads[t].pc)
      && Release(st.threads[t].pc, t) == [Inside(t)] + Release(st'.threads[t].pc, t)
  {
    assert ThreadIdInv(st, t);
  }

  lemma InsideAdvances(st: State, t: nat)
    requires Fits(st) && IdInv(st) && CountInv(st) && t < |st.threads| && InSection(st.threads[t].pc)
    ensures var st' := StepInside(st, t);
      && st'.status == st.status && st'.lock == st.lock && HoldsLock(st'.threads[t].pc)
      && Release(st.threads[t].pc, t) == [Inside(t)] + Release(st'.threads[t].pc, t)
  {
    if st.threads[t].pc.EraseLocked? {
      LeaverFindsEntry(st, t);
    }
    NextInside(st, t);
  }

  /** No deadlock: whoever waits for the mutex has a continuation in which it gets it. */
  lemma WaiterAcquires(uid: Obj -> string, st: State, w: nat) returns (es: seq<Event>)
    requires UidsOk(uid) && Inv(uid, st) && st.status.Running? && w < |st.threads| && Waiting(st.threads[w].pc)
    ensures |es| <= 4 && Runs(uid, st, es) && After(uid, st, es).lock == Some(w)
  {
    if st.lock.None? {
      es := [];
    } else {
      var t := st.lock.value;
      HolderReleases(uid, st, t);
      es := Release(st.threads[t].pc, t);
    }
    LockNext(uid, st, es, w);
    es := es + [Lock(w)];
  }

  lemma LockNext(uid: Obj -> string, st: State, es: seq<Event>, w: nat)
    requires Fits(st) && Runs(uid, st, es) && Enabled(After(uid, st, es), Lock(w))
    ensures Runs(uid, st, es + [Lock(w)]) && After(uid, st, es + [Lock(w)]).lock == Some(w)
  {
    var st' := After(uid, st, es);
    assert [Lock(w)][1..] == [];
    assert Runs(uid, Step(uid, st', Lock(w)), []);
    assert Runs(uid, st', [Lock(w)]);
    RunsConcat(uid, st, es, [Lock(w)]);
  }
}
