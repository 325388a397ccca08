/**
 The server as a state machine over all interleavings of its threads: the accepting thread, which
 constructs sessions, and one handler thread a session. A handler runs its critical sections one
 statement at a time; a message is handled in one step.
*/
module Server {
  import opened Wrappers
  import opened Wire
  import opened Sessions
  import opened Ids

  /** Where the handler thread of a session stands. */
  datatype Pc =
    | Starting               // about to lock, to register
    | RegLocked | RegNumbered | RegPushed
    | Serving                // in recv
    | Answering(reply: Reply) // about to lock, to send
    | SendLocked(reply: Reply) | SendDone
    | Closing                // peer has disconnected, about to lock
    | EraseLocked | EraseFound(index: int) | EraseDone
    | Finished
    | Dying                  // an exception has left the thread function

  datatype Thread = Thread(pc: Pc, asked: seq<string>, answers: seq<Reply>, sent: seq<Reply>)

  datatype Status = Running | Killed | Corrupted

  datatype State = State(
    sessions: seq<Session>,
    threads: seq<Thread>,
    registry: seq<nat>,       // sClients
    lock: Option<nat>,        // the handler that holds the mutex
    accepting: Option<nat>,   // the session whose constructor has started its handler, not yet returned
    peak: nat,                // largest size of the registry so far
    status: Status)

  datatype Event =
    | Accept | Install
    | Lock(t: nat) | Inside(t: nat) | Unlock(t: nat)
    | Receive(t: nat, msg: string, lib: Library)
    | Disconnect(t: nat)

  const INITIAL := State([], [], [], None, None, 0, Running)

  predicate Waiting(pc: Pc) {
    pc.Starting? || pc.Answering? || pc.Closing?
  }

  predicate InSection(pc: Pc) {
    || pc.RegLocked? || pc.RegNumbered? || pc.SendLocked? || pc.EraseLocked? || pc.EraseFound?
  }

  predicate AtRelease(pc: Pc) {
    pc.RegPushed? || pc.SendDone? || pc.EraseDone?
  }

  predicate HoldsLock(pc: Pc) {
    InSection(pc) || AtRelease(pc)
  }

  predicate HasId(pc: Pc) {
    !pc.Starting? && !pc.RegLocked?
  }

  /** Registered and not yet erased. */
  predicate Listed(pc: Pc) {
    HasId(pc) && !pc.RegNumbered? && !pc.EraseDone? && !pc.Finished?
  }

  ghost predicate Fits(st: State) {
    |st.threads| == |st.sessions| && PointersOk(st.sessions, st.registry)
  }

  predicate Enabled(st: State, e: Event)
    requires |st.threads| == |st.sessions|
  {
    && st.status.Running?
    && match e
       case Accept => st.accepting.None?
       case Install => st.accepting.Some? && st.accepting.value < |st.sessions|
       case Lock(t) => t < |st.threads| && Waiting(st.threads[t].pc) && st.lock.None?
       case Inside(t) => t < |st.threads| && InSection(st.threads[t].pc)
       case Unlock(t) => t < |st.threads| && AtRelease(st.threads[t].pc)
       case Receive(t, _, _) => t < |st.threads| && st.threads[t].pc.Serving?
       case Disconnect(t) => t < |st.threads| && st.threads[t].pc.Serving?
  }

  function Goto(st: State, t: nat, pc: Pc): State
    requires t < |st.threads|
  {
    st.(threads := st.threads[t := st.threads[t].(pc := pc)])
  }

  function Step(uid: Obj -> string, st: State, e: Event): (st': State)
    requires Fits(st) && Enabled(st, e)
    ensures Fits(st')
  {
    match e
    case Accept =>
      st.(sessions := st.sessions + [Session(None, None, map[], None)],
          threads := st.threads + [Thread(Starting, [], [], [])],
          accepting := Some(|st.sessions|))
    case Install =>
      var t := st.accepting.value;
      (match AddContext(st.sessions[t], PROVIDER, Provider(t))
       case None => st.(status := Killed)
       case Some(s) => st.(sessions := st.sessions[t := s], accepting := None))
    case Lock(t) =>
      var st' := st.(lock := Some(t));
      (match st.threads[t].pc
       case Answering(r) => Goto(st', t, SendLocked(r))
       case Closing => Goto(st', t, EraseLocked)
       case _ => Goto(st', t, RegLocked))
    case Inside(t) => StepInside(st, t)
    case Unlock(t) =>
      var st' := st.(lock := None);
      Goto(st', t, if st.threads[t].pc.EraseDone? then Finished else Serving)
    case Receive(t, msg, lib) => StepReceive(uid, st, t, msg, lib)
    case Disconnect(t) => Goto(st, t, Closing)
  }

  /** The next statement of a critical section of handler `t`. */
  function StepInside(st: State, t: nat): (st': State)
    requires Fits(st) && t < |st.threads| && InSection(st.threads[t].pc)
    ensures Fits(st')
  {
    match st.threads[t].pc
    case RegLocked =>
      Goto(st, t, RegNumbered)
        .(sessions := st.sessions[t := st.sessions[t].(id := Some(|st.registry|))])
    case RegNumbered =>
      var n := |st.registry| + 1;
      Goto(st, t, RegPushed).(registry := st.registry + [t], peak := if n > st.peak then n else st.peak)
    case SendLocked(r) =>
      st.(threads := st.threads[t := st.threads[t].(pc := SendDone, sent := st.threads[t].sent + [r])])
    case EraseLocked =>
      if st.sessions[t].id.None? then st.(status := Corrupted)
      else
        var i := FindById(st.sessions, st.registry, st.sessions[t].id.value);
        Goto(st, t, EraseFound(if i < |st.registry| then i else -1))
    case EraseFound(i) =>
      if 0 <= i < |st.registry| then Goto(st, t, EraseDone).(registry := Without(st.registry, i))
      else st.(status := Corrupted)
    case _ => st
  }

  function StepReceive(uid: Obj -> string, st: State, t: nat, msg: string, lib: Library): (st': State)
    requires Fits(st) && t < |st.threads|
    ensures Fits(st')
  {
    var th := st.threads[t].(asked := st.threads[t].asked + [msg]);
    match Handle(uid, st.sessions, st.registry, t, msg, lib)
    case Undefined => st.(status := Corrupted)
    case Terminated(ss) =>
      st.(sessions := ss, threads := st.threads[t := th.(pc := Dying)], status := Killed)
    case Replied(ss, reply) =>
      st.(sessions := ss, threads := st.threads[t := th.(pc := Answering(reply), answers := th.answers + [reply])])
  }

  // ---- runs

  ghost predicate Runs(uid: Obj -> string, st: State, es: seq<Event>)
    requires Fits(st)
    decreases |es|
  {
    es == [] || (Enabled(st, es[0]) && Runs(uid, Step(uid, st, es[0]), es[1..]))
  }

  ghost function After(uid: Obj -> string, st: State, es: seq<Event>): (st': State)
    requires Fits(st) && Runs(uid, st, es)
    ensures Fits(st')
    decreases |es|
  {
    if es == [] then st else After(uid, Step(uid, st, es[0]), es[1..])
  }

  lemma {:induction false} RunsConcat(uid: Obj -> string, st: State, es: seq<Event>, fs: seq<Event>)
    requires Fits(st) && Runs(uid, st, es) && Runs(uid, After(uid, st, es), fs)
    ensures Runs(uid, st, es + fs)
    ensures After(uid, st, es + fs) == After(uid, After(uid, st, es), fs)
    decreases |es|
  {
    if es == [] {
      assert es + fs == fs;
    } else {
      assert (es + fs)[1..] == es[1..] + fs;
      RunsConcat(uid, Step(uid, st, es[0]), es[1..], fs);
    }
  }

  // ---- the invariant

  function IdOf(s: Session): nat {
    if s.id.Some? then s.id.value else 0
  }

  /** The ids in the registry, in its order. */
  ghost function RegistryIds(ss: seq<Session>, registry: seq<nat>): (ids: seq<nat>)
    requires PointersOk(ss, registry)
    ensures |ids| == |registry| && forall i | 0 <= i < |ids| :: ids[i] == IdOf(ss[registry[i]])
  {
    seq(|registry|, i requires 0 <= i < |registry| => IdOf(ss[registry[i]]))
  }

  /** The ids of the registered, not yet erased sessions among the first `n`. */
  ghost function ListedIds(ss: seq<Session>, threads: seq<Thread>, n: nat): multiset<nat>
    requires n <= |ss| == |threads|
  {
    if n == 0 then multiset{}
    else
      ListedIds(ss, threads, n - 1)
      + (if Listed(threads[n - 1].pc) then multiset{IdOf(ss[n - 1])} else multiset{})
  }

  ghost predicate AcceptInv(st: State)
    requires Fits(st)
  {
    && (st.accepting.Some? ==> st.accepting.value < |st.sessions|)
    && forall t | 0 <= t < |st.sessions| :: st.sessions[t].ctx == map[] <==> st.accepting == Some(t)
  }

  ghost predicate LockInv(st: State)
    requires Fits(st)
  {
    && (st.lock.Some? ==> st.lock.value < |st.threads|)
    && forall t | 0 <= t < |st.threads| :: HoldsLock(st.threads[t].pc) <==> st.lock == Some(t)
  }

  ghost predicate IdInv(st: State)
    requires Fits(st)
  {
    && |st.registry| <= st.peak
    && (forall t | 0 <= t < |st.threads| :: ThreadIdInv(st, t))
    && (forall i | 0 <= i < |st.registry| :: st.sessions[st.registry[i]].id.Some?)
  }

  ghost predicate ThreadIdInv(st: State, t: nat)
    requires Fits(st) && t < |st.threads|
  {
    var s, pc := st.sessions[t], st.threads[t].pc;
    && (s.id.Some? <==> HasId(pc))
    && (s.attached.Some? ==> st.sessions[s.attached.value].id.Some?)
    && (pc.RegNumbered? ==> s.id == Some(|st.registry|))
    && (s.id.Some? && !pc.RegNumbered? ==> s.id.value < st.peak)
    && (pc.EraseFound? ==> 0 <= pc.index < |st.registry| && st.sessions[st.registry[pc.index]].id == s.id)
  }

  ghost predicate CountInv(st: State)
    requires Fits(st)
  {
    multiset(RegistryIds(st.sessions, st.registry)) == ListedIds(st.sessions, st.threads, |st.sessions|)
  }

  /** Entry `i` shares its id with another one, or its session has already gone. */
  ghost predicate Suspect(st: State, ids: seq<nat>, i: nat)
    requires Fits(st) && i < |st.registry| == |ids|
  {
    || !Listed(st.threads[st.registry[i]].pc)
    || exists j | 0 <= j < |ids| :: j != i && ids[j] == ids[i]
  }

  /** A doubtful entry is only ever seen while a smaller id is missing. */
  ghost predicate HoleInv(st: State)
    requires Fits(st)
  {
    var ids := RegistryIds(st.sessions, st.registry);
    forall i | 0 <= i < |ids| :: Suspect(st, ids, i) ==> Hole(ids, ids[i])
  }

  ghost predicate ReplyInv(th: Thread) {
    && |th.asked| == |th.answers| + (if th.pc.Dying? then 1 else 0)
    && th.answers == th.sent + (if th.pc.Answering? || th.pc.SendLocked? then [th.pc.reply] else [])
  }

  ghost predicate StatusInv(st: State) {
    && !st.status.Corrupted?
    && (st.status.Killed? <==> exists t :: 0 <= t < |st.threads| && st.threads[t].pc.Dying?)
  }

  ghost predicate Inv(uid: Obj -> string, st: State) {
    && Fits(st)
    && TablesOk(uid, st.sessions)
    && AcceptInv(st)
    && LockInv(st)
    && IdInv(st)
    && CountInv(st)
    && HoleInv(st)
    && (forall t | 0 <= t < |st.threads| :: ReplyInv(st.threads[t]))
    && StatusInv(st)
  }

  // ---- the invariant is kept

  lemma {:induction false} ListedIdsSame(ss: seq<Session>, threads: seq<Thread>, ss': seq<Session>,
                                         threads': seq<Thread>, n: nat)
    requires n <= |ss| == |threads| && n <= |ss'| == |threads'|
    requires forall t | 0 <= t < n ::
      Listed(threads[t].pc) == Listed(threads'[t].pc) && (Listed(threads[t].pc) ==> IdOf(ss[t]) == IdOf(ss'[t]))
    ensures ListedIds(ss, threads, n) == ListedIds(ss', threads', n)
  {
    if n > 0 {
      ListedIdsSame(ss, threads, ss', threads', n - 1);
    }
  }

  lemma {:induction false} ListedIdsAt(ss: seq<Session>, threads: seq<Thread>, threads': seq<Thread>, t: nat, n: nat)
    requires t < n <= |ss| == |threads| == |threads'|
    requires forall u | 0 <= u < n && u != t :: Listed(threads[u].pc) == Listed(threads'[u].pc)
    requires !Listed(threads[t].pc) && Listed(threads'[t].pc)
    ensures ListedIds(ss, threads', n) == ListedIds(ss, threads, n) + multiset{IdOf(ss[t])}
  {
    if t == n - 1 {
      ListedIdsSame(ss, threads, ss, threads', n - 1);
    } else {
      ListedIdsAt(ss, threads, threads', t, n - 1);
    }
  }

  lemma {:induction false} ListedIdIn(ss: seq<Session>, threads: seq<Thread>, t: nat, n: nat)
    requires t < n <= |ss| == |threads| && Listed(threads[t].pc)
    ensures IdOf(ss[t]) in ListedIds(ss, threads, n)
  {
    if t < n - 1 {
      ListedIdIn(ss, threads, t, n - 1);
    }
  }

  ghost predicate LookupSucceeds(st: State, t: nat)
    requires Fits(st) && t < |st.sessions|
  {
    var id := st.sessions[t].id;
    id.Some? && FindById(st.sessions, st.registry, id.value) < |st.registry|
  }

  /** The lookup of a leaving session finds an entry with its id. */
  lemma LeaverFindsEntry(st: State, t: nat)
    requires Fits(st) && IdInv(st) && CountInv(st)
    requires t < |st.threads| && Listed(st.threads[t].pc)
    ensures LookupSucceeds(st, t)
  {
    assert ThreadIdInv(st, t);
    ListedIdIn(st.sessions, st.threads, t, |st.threads|);
    var ids := RegistryIds(st.sessions, st.registry);
    assert IdOf(st.sessions[t]) in multiset(ids);
    var i :| 0 <= i < |ids| && ids[i] == IdOf(st.sessions[t]);
    assert st.sessions[st.registry[i]].id == st.sessions[t].id;
  }

  /** All that a step may do to the sessions. */
  ghost predicate SessionsStep(uid: Obj -> string, ss: seq<Session>, ss': seq<Session>, registry: seq<nat>, e: Event,
                               accepting: Option<nat>) {
    match e
    case Accept => ss' == ss + [Session(None, None, map[], None)]
    case Install =>
      && accepting.Some? && accepting.value < |ss|
      && var t := accepting.value;
      if PROVIDER in ss[t].ctx then ss' == ss else ss' == ss[t := ss[t].(ctx := ss[t].ctx[PROVIDER := Provider(t)])]
    case Inside(t) => t < |ss| && (ss' == ss || ss' == ss[t := ss[t].(id := Some(|registry|))])
    case Receive(t, _, _) => t < |ss| && PointersOk(ss, []) && MessageFrame(uid, ss, ss', registry, t, Effective(ss, t))
    case _ => ss' == ss
  }

  lemma StepSessions(uid: Obj -> string, st: State, e: Event)
    requires UidsOk(uid) && Fits(st) && TablesOk(uid, st.sessions) && Enabled(st, e)
    ensures SessionsStep(uid, st.sessions, Step(uid, st, e).sessions, st.registry, e, st.accepting)
    ensures e.Inside? && !st.threads[e.t].pc.RegLocked? ==> Step(uid, st, e).sessions == st.sessions
  {
    if e.Receive? {
      var o := Handle(uid, st.sessions, st.registry, e.t, e.msg, e.lib);
      if !o.Undefined? {
        HandleFrame(uid, st.sessions, st.registry, e.t, e.msg, e.lib);
      }
    }
  }

  lemma SessionsStepKeepsTables(uid: Obj -> string, ss: seq<Session>, ss': seq<Session>, registry: seq<nat>, e: Event,
                                accepting: Option<nat>)
    requires UidsOk(uid) && TablesOk(uid, ss) && PointersOk(ss, registry)
    requires SessionsStep(uid, ss, ss', registry, e, accepting)
    requires forall t | 0 <= t < |ss| :: ss[t].ctx == map[] <==> accepting == Some(t)
    ensures TablesOk(uid, ss')
    ensures forall t | 0 <= t < |ss| && !(e.Install? && accepting == Some(t)) ::
      ss'[t].ctx == map[] <==> ss[t].ctx == map[]
  {
    match e
    case Install =>
      var t := accepting.value;
      assert TableOk(uid, ss[t], t) && TableOk(uid, ss'[t], t);
    case Inside(t) => assert TableOk(uid, ss[t], t) && TableOk(uid, ss'[t], t);
    case Receive(t, _, _) =>
      var e := Effective(ss, t);
      assert TableOk(uid, ss[t], t);
      FrameKeepsTables(uid, ss, ss', registry, t, e);
    case _ =>
  }

  lemma TablesKept(uid: Obj -> string, st: State, e: Event)
    requires UidsOk(uid) && Fits(st) && TablesOk(uid, st.sessions) && AcceptInv(st) && Enabled(st, e)
    ensures TablesOk(uid, Step(uid, st, e).sessions)
    ensures AcceptInv(Step(uid, st, e))
  {
    var st' := Step(uid, st, e);
    StepSessions(uid, st, e);
    SessionsStepKeepsTables(uid, st.sessions, st'.sessions, st.registry, e, st.accepting);
    AcceptKept(uid, st, e, st');
  }

  lemma AcceptKept(uid: Obj -> string, st: State, e: Event, st': State)
    requires Fits(st) && AcceptInv(st) && Enabled(st, e) && Fits(st') && st' == Step(uid, st, e)
    requires |st.sessions| <= |st'.sessions|
    requires forall t | 0 <= t < |st.sessions| && !(e.Install? && st.accepting == Some(t)) ::
      st'.sessions[t].ctx == map[] <==> st.sessions[t].ctx == map[]
    ensures AcceptInv(st')
  {
  }

  function Actor(e: Event): Option<nat> {
    match e
    case Accept => None
    case Install => None
    case Lock(t) => Some(t)
    case Inside(t) => Some(t)
    case Unlock(t) => Some(t)
    case Receive(t, _, _) => Some(t)
    case Disconnect(t) => Some(t)
  }

  /** A step moves no other thread, and the lock only by its own events. */
  lemma StepFrame(uid: Obj -> string, st: State, e: Event)
    requires Fits(st) && Enabled(st, e)
    ensures var st' := Step(uid, st, e);
      && |st'.threads| == |st.threads| + (if e.Accept? then 1 else 0)
      && (e.Accept? ==> st'.threads[|st.threads|].pc.Starting?)
      && (forall u | 0 <= u < |st.threads| && Actor(e) != Some(u) :: st'.threads[u] == st.threads[u])
      && st'.lock == (match e case Lock(t) => Some(t) case Unlock(_) => None case _ => st.lock)
      && (Actor(e).Some? ==>
            (HoldsLock(st'.threads[Actor(e).value].pc) <==>
              e.Lock? || (e.Inside? && HoldsLock(st.threads[Actor(e).value].pc))))
  {
  }

  lemma LockKept(uid: Obj -> string, st: State, e: Event)
    requires Fits(st) && LockInv(st) && Enabled(st, e)
    ensures LockInv(Step(uid, st, e))
  {
    StepFrame(uid, st, e);
    assert Actor(e).Some? ==> (HoldsLock(st.threads[Actor(e).value].pc) <==> e.Inside? || e.Unlock?);
  }

  lemma RepliesKept(uid: Obj -> string, st: State, e: Event)
    requires Fits(st) && Enabled(st, e)
    requires forall t | 0 <= t < |st.threads| :: ReplyInv(st.threads[t])
    ensures forall t | 0 <= t < |Step(uid, st, e).threads| :: ReplyInv(Step(uid, st, e).threads[t])
  {
  }

  /** Apart from the actor's own number, a step leaves ids alone; new attachments go to numbered sessions. */
  lemma SessionIdsKept(uid: Obj -> string, st: State, e: Event)
    requires UidsOk(uid) && Fits(st) && TablesOk(uid, st.sessions) && IdInv(st) && Enabled(st, e) && !e.Inside?
    ensures forall u | 0 <= u < |st.sessions| ::
      var s, s' := st.sessions[u], Step(uid, st, e).sessions[u];
      && s'.id == s.id
      && (s'.attached.Some? ==> s'.attached.value < |st.sessions| && st.sessions[s'.attached.value].id.Some?)
  {
    var st' := Step(uid, st, e);
    if e.Receive? {
      var o := Handle(uid, st.sessions, st.registry, e.t, e.msg, e.lib);
      if !o.Undefined? {
        HandleFrame(uid, st.sessions, st.registry, e.t, e.msg, e.lib);
        FrameKeepsIds(uid, st.sessions, o.ss, st.registry, e.t, Effective(st.sessions, e.t));
      }
    } else {
      assert forall u | 0 <= u < |st.sessions| :: st'.sessions[u].attached == st.sessions[u].attached;
    }
    forall u | 0 <= u < |st.sessions|
      ensures st'.sessions[u].id == st.sessions[u].id
      ensures var a := st'.sessions[u].attached; a.Some? ==> a.value < |st.sessions| && st.sessions[a.value].id.Some?
    {
      assert ThreadIdInv(st, u);
    }
  }

  lemma IdKeptInside(st: State, t: nat)
    requires Fits(st) && LockInv(st) && IdInv(st)
    requires t < |st.threads| && InSection(st.threads[t].pc)
    requires st.threads[t].pc.EraseLocked? ==> LookupSucceeds(st, t)
    ensures IdInv(StepInside(st, t)) && StepInside(st, t).status == st.status
  {
    var st' := StepInside(st, t);
    assert ThreadIdInv(st, t);
    forall u | 0 <= u < |st'.threads| ensures ThreadIdInv(st', u) {
      assert ThreadIdInv(st, u);
      assert HoldsLock(st.threads[u].pc) <==> u == t;
    }
  }

  lemma IdKept(uid: Obj -> string, st: State, e: Event)
    requires UidsOk(uid) && Fits(st) && TablesOk(uid, st.sessions) && IdInv(st) && Enabled(st, e) && !e.Inside?
    ensures IdInv(Step(uid, st, e))
  {
    SessionIdsKept(uid, st, e);
    StepFrame(uid, st, e);
    var st' := Step(uid, st, e);
    assert st'.registry == st.registry && st'.peak == st.peak;
    forall u | 0 <= u < |st'.threads| ensures ThreadIdInv(st', u) {
      if u < |st.threads| {
        assert ThreadIdInv(st, u);
      }
    }
  }

  lemma CountSame(st: State, st': State)
    requires Fits(st) && Fits(st') && CountInv(st) && st'.registry == st.registry
    requires |st.sessions| <= |st'.sessions| <= |st.sessions| + 1
    requires forall u | 0 <= u < |st.sessions| ::
      Listed(st'.threads[u].pc) == Listed(st.threads[u].pc) && (u in st.registry || Listed(st.threads[u].pc) ==>
        IdOf(st'.sessions[u]) == IdOf(st.sessions[u]))
    requires |st'.sessions| > |st.sessions| ==> !Listed(st'.threads[|st.sessions|].pc)
    ensures CountInv(st')
  {
    assert RegistryIds(st'.sessions, st'.registry) == RegistryIds(st.sessions, st.registry);
    ListedIdsSame(st.sessions, st.threads, st'.sessions, st'.threads, |st.sessions|);
  }

  lemma CountKeptPush(st: State, t: nat)
    requires Fits(st) && IdInv(st) && CountInv(st) && t < |st.threads| && st.threads[t].pc.RegNumbered?
    ensures CountInv(StepInside(st, t))
  {
    var st' := StepInside(st, t);
    assert RegistryIds(st'.sessions, st'.registry)
        == RegistryIds(st.sessions, st.registry) + [IdOf(st.sessions[t])];
    ListedIdsAt(st.sessions, st.threads, st'.threads, t, |st.sessions|);
  }

  lemma CountKeptErase(st: State, t: nat)
    requires Fits(st) && IdInv(st) && CountInv(st) && t < |st.threads| && st.threads[t].pc.EraseFound?
    ensures CountInv(StepInside(st, t))
  {
    var st' := StepInside(st, t);
    assert ThreadIdInv(st, t);
    var i: nat := st.threads[t].pc.index;
    var ids := RegistryIds(st.sessions, st.registry);
    assert RegistryIds(st'.sessions, st'.registry) == Without(ids, i);
    WithoutMultiset(ids, i);
    ListedIdsAt(st.sessions, st'.threads, st.threads, t, |st.sessions|);
  }

  lemma CountKeptInside(st: State, t: nat)
    requires Fits(st) && IdInv(st) && CountInv(st) && t < |st.threads| && InSection(st.threads[t].pc)
    ensures CountInv(StepInside(st, t))
  {
    if st.threads[t].pc.RegNumbered? {
      CountKeptPush(st, t);
    } else if st.threads[t].pc.EraseFound? {
      CountKeptErase(st, t);
    } else {
      assert ThreadIdInv(st, t);
      CountSame(st, StepInside(st, t));
    }
  }

  lemma CountKept(uid: Obj -> string, st: State, e: Event)
    requires UidsOk(uid) && Fits(st) && TablesOk(uid, st.sessions) && IdInv(st) && CountInv(st) && Enabled(st, e)
    requires !e.Inside?
    ensures CountInv(Step(uid, st, e))
  {
    SessionIdsKept(uid, st, e);
    StepFrame(uid, st, e);
    ListedSame(uid, st, e);
    CountSame(st, Step(uid, st, e));
  }

  lemma ListedSame(uid: Obj -> string, st: State, e: Event)
    requires Fits(st) && Enabled(st, e) && !e.Inside?
    ensures forall u | 0 <= u < |st.threads| ::
      Listed(Step(uid, st, e).threads[u].pc) == Listed(st.threads[u].pc)
  {
    StepFrame(uid, st, e);
  }

  lemma HoleKeptInside(st: State, t: nat)
    requires Fits(st) && LockInv(st) && IdInv(st) && HoleInv(st) && t < |st.threads| && InSection(st.threads[t].pc)
    ensures HoleInv(StepInside(st, t))
  {
    var st' := StepInside(st, t);
    var ids, ids' := RegistryIds(st.sessions, st.registry), RegistryIds(st'.sessions, st'.registry);
    assert ThreadIdInv(st, t);
    if st.threads[t].pc.RegNumbered? {
      HoleKeptPush(st, t);
    } else if st.threads[t].pc.EraseFound? {
      HoleKeptErase(st, t);
    } else {
      HoleSame(st, st');
    }
  }

  lemma HoleKept(uid: Obj -> string, st: State, e: Event)
    requires UidsOk(uid) && Fits(st) && TablesOk(uid, st.sessions) && IdInv(st) && HoleInv(st) && Enabled(st, e)
    requires !e.Inside?
    ensures HoleInv(Step(uid, st, e))
  {
    SessionIdsKept(uid, st, e);
    StepFrame(uid, st, e);
    ListedSame(uid, st, e);
    HoleSame(st, Step(uid, st, e));
  }

  lemma HoleSame(st: State, st': State)
    requires Fits(st) && Fits(st') && HoleInv(st) && st'.registry == st.registry
    requires forall i | 0 <= i < |st.registry| ::
      && IdOf(st'.sessions[st.registry[i]]) == IdOf(st.sessions[st.registry[i]])
      && (Listed(st.threads[st.registry[i]].pc) ==> Listed(st'.threads[st.registry[i]].pc))
    ensures HoleInv(st')
  {
    var ids, ids' := RegistryIds(st.sessions, st.registry), RegistryIds(st'.sessions, st'.registry);
    assert ids == ids';
    forall i | 0 <= i < |ids'| && Suspect(st', ids', i) ensures Hole(ids', ids'[i]) {
      assert Suspect(st, ids, i);
    }
  }

  /** A number taken from the size of the registry fills no hole below a larger number. */
  lemma HoleKeptPush(st: State, t: nat)
    requires Fits(st) && IdInv(st) && HoleInv(st) && t < |st.threads| && st.threads[t].pc.RegNumbered?
    ensures HoleInv(StepInside(st, t))
  {
    var st' := StepInside(st, t);
    var ids, ids' := RegistryIds(st.sessions, st.registry), RegistryIds(st'.sessions, st'.registry);
    var n := |ids|;
    assert ThreadIdInv(st, t);
    assert ids' == ids + [n];
    forall i | 0 <= i < |ids'| && Suspect(st', ids', i) ensures Hole(ids', ids'[i]) {
      if i < n && ids[i] < n {
        assert Suspect(st, ids, i);
        var j: nat :| j < ids[i] && j !in ids;
        assert j !in ids';
      } else {
        var k: nat;
        if i < n {
          k := i;
        } else {
          k :| 0 <= k < |ids'| && k != n && ids'[k] == n;
        }
        LargeIdLeavesHole(ids, k);
        var j: nat :| j < n && j !in ids;
        assert j !in ids';
      }
    }
  }

  lemma HoleKeptErase(st: State, t: nat)
    requires Fits(st) && IdInv(st) && HoleInv(st) && t < |st.threads| && st.threads[t].pc.EraseFound?
    ensures HoleInv(StepInside(st, t))
  {
    var st' := StepInside(st, t);
    var ids, ids' := RegistryIds(st.sessions, st.registry), RegistryIds(st'.sessions, st'.registry);
    assert ThreadIdInv(st, t);
    var e: nat := st.threads[t].pc.index;
    assert ids' == Without(ids, e);
    forall i | 0 <= i < |ids'| && Suspect(st', ids', i) ensures Hole(ids', ids'[i]) {
      var k := if i < e then i else i + 1;
      assert ids'[i] == ids[k] && st'.registry[i] == st.registry[k];
      if st.registry[k] == t {
        assert ids[k] == ids[e];
      } else if !(exists j | 0 <= j < |ids| :: j != k && ids[j] == ids[k]) {
        assert forall j | 0 <= j < |ids'| :: ids'[j] == ids[if j < e then j else j + 1];
      }
      assert Suspect(st, ids, k);
      var j: nat :| j < ids[k] && j !in ids;
      assert j !in ids';
    }
  }

  /** What a message needs of the session it reaches: its number is set. */
  lemma MessageReadsNumber(uid: Obj -> string, st: State, t: nat, msg: string, lib: Library)
    requires UidsOk(uid) && Fits(st) && TablesOk(uid, st.sessions) && IdInv(st)
    requires t < |st.threads| && st.threads[t].pc.Serving?
    ensures !Handle(uid, st.sessions, st.registry, t, msg, lib).Undefined?
  {
    assert ThreadIdInv(st, t);
    HandleFrame(uid, st.sessions, st.registry, t, msg, lib);
  }

  /** A step that neither reads an unset number nor leaves the registry's range stops the server only by killing it. */
  lemma StepStatus(uid: Obj -> string, st: State, e: Event)
    requires Fits(st) && Enabled(st, e) && AcceptInv(st)
    requires e.Inside? ==> StepInside(st, e.t).status == st.status
    requires e.Receive? ==> !Handle(uid, st.sessions, st.registry, e.t, e.msg, e.lib).Undefined?
    ensures var st' := Step(uid, st, e);
      && !st'.status.Corrupted?
      && (st'.status.Killed? <==> e.Receive? && st'.threads[e.t].pc.Dying?)
      && (Actor(e).Some? && !e.Receive? ==> !st'.threads[Actor(e).value].pc.Dying?)
  {
  }

  lemma StatusKept(uid: Obj -> string, st: State, e: Event)
    requires UidsOk(uid) && Fits(st) && TablesOk(uid, st.sessions) && AcceptInv(st) && IdInv(st) && CountInv(st)
    requires LockInv(st) && StatusInv(st) && Enabled(st, e)
    ensures StatusInv(Step(uid, st, e))
  {
    if e.Inside? {
      if st.threads[e.t].pc.EraseLocked? {
        LeaverFindsEntry(st, e.t);
      }
      IdKeptInside(st, e.t);
    } else if e.Receive? {
      MessageReadsNumber(uid, st, e.t, e.msg, e.lib);
    }
    StepStatus(uid, st, e);
    StepFrame(uid, st, e);
    assert forall t | 0 <= t < |st.threads| :: !st.threads[t].pc.Dying?;
  }

  /** Every step of every thread keeps the invariant. */
  lemma StepKeepsInv(uid: Obj -> string, st: State, e: Event)
    requires UidsOk(uid) && Inv(uid, st) && Enabled(st, e)
    ensures Inv(uid, Step(uid, st, e))
  {
    TablesKept(uid, st, e);
    LockKept(uid, st, e);
    RepliesKept(uid, st, e);
    StatusKept(uid, st, e);
    if e.Inside? {
      if st.threads[e.t].pc.EraseLocked? {
        LeaverFindsEntry(st, e.t);
      }
      IdKeptInside(st, e.t);
      CountKeptInside(st, e.t);
      HoleKeptInside(st, e.t);
    } else {
      IdKept(uid, st, e);
      CountKept(uid, st, e);
      HoleKept(uid, st, e);
    }
  }

  lemma {:induction false} RunKeepsInv(uid: Obj -> string, st: State, es: seq<Event>)
    requires UidsOk(uid) && Inv(uid, st) && Runs(uid, st, es)
    ensures Inv(uid, After(uid, st, es))
    decreases |es|
  {
    if es != [] {
      StepKeepsInv(uid, st, es[0]);
      RunKeepsInv(uid, Step(uid, st, es[0]), es[1..]);
    }
  }

  /** Every reachable state satisfies the invariant. */
  lemma ReachableInv(uid: Obj -> string, es: seq<Event>)
    requires UidsOk(uid) && Runs(uid, INITIAL, es)
    ensures Inv(uid, After(uid, INITIAL, es))
  {
    RunKeepsInv(uid, INITIAL, es);
  }
}
