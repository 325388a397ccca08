/** When each session finds its own entry in the registry, in single states and over runs. */
module ServerOwnership {
  import opened Sessions
  import opened Ids
  import opened Server
  import opened ServerRuns

  /** Session `t` has an entry of its own, and none before it has the same number. */
  ghost predicate FirstWithItsId(st: State, t: nat)
    requires Fits(st) && t < |st.sessions|
  {
    exists k :: 0 <= k < |st.registry| && st.registry[k] == t
      && forall j | 0 <= j < k :: st.sessions[st.registry[j]].id != st.sessions[t].id
  }

  /** The entry that a lookup of the number of session `t` finds is its own. */
  ghost predicate FindsItself(st: State, t: nat)
    requires Fits(st) && t < |st.sessions|
  {
    LookupSucceeds(st, t) && st.registry[FindById(st.sessions, st.registry, st.sessions[t].id.value)] == t
  }

  lemma FindsItselfIff(st: State, t: nat)
    requires Fits(st) && IdInv(st) && CountInv(st) && t < |st.threads| && Listed(st.threads[t].pc)
    ensures LookupSucceeds(st, t)
    ensures FindsItself(st, t) <==> FirstWithItsId(st, t)
  {
    LeaverFindsEntry(st, t);
    var i := FindById(st.sessions, st.registry, st.sessions[t].id.value);
    assert FindsItself(st, t) ==> st.registry[i] == t;
  }

  /** What a leaver erases, in the two statements of its critical section, is its own entry exactly then. */
  lemma LeaverErasesItselfIff(st: State, t: nat)
    requires Fits(st) && IdInv(st) && CountInv(st) && t < |st.threads| && st.threads[t].pc.EraseLocked?
    ensures var st' := StepInside(StepInside(st, t), t);
      multiset(st'.registry) == multiset(st.registry) - multiset{t} <==> FirstWithItsId(st, t)
  {
    FindsItselfIff(st, t);
    ErasureSteps(st, t);
    ErasedEntry(st.registry, FindById(st.sessions, st.registry, st.sessions[t].id.value), t);
  }

  lemma ErasedEntry(registry: seq<nat>, i: nat, t: nat)
    requires i < |registry|
    ensures multiset(Without(registry, i)) == multiset(registry) - multiset{t} <==> registry[i] == t
  {
    WithoutMultiset(registry, i);
    assert registry[i] in multiset(registry);
    if registry[i] != t {
      assert multiset(Without(registry, i))[registry[i]] != (multiset(registry) - multiset{t})[registry[i]];
    }
  }

  // ---- all sessions at once

  /** Every registered session finds itself. */
  ghost predicate Settled(st: State)
    requires Fits(st) && |st.threads| == |st.sessions|
  {
    forall t | 0 <= t < |st.threads| && Listed(st.threads[t].pc) :: FindsItself(st, t)
  }

  ghost predicate Distinct(ids: seq<nat>) {
    forall i, j | 0 <= i < j < |ids| :: ids[i] != ids[j]
  }

  /** The registry lists the registered sessions, under different numbers. */
  ghost predicate Tidy(st: State)
    requires Fits(st)
  {
    && Distinct(RegistryIds(st.sessions, st.registry))
    && (forall i | 0 <= i < |st.registry| :: Listed(st.threads[st.registry[i]].pc))
    && (forall t | 0 <= t < |st.threads| && Listed(st.threads[t].pc) :: t in st.registry)
  }

  lemma {:induction false} SomeListed(ss: seq<Session>, threads: seq<Thread>, x: nat, n: nat) returns (t: nat)
    requires n <= |ss| == |threads| && x in ListedIds(ss, threads, n)
    ensures t < n && Listed(threads[t].pc) && IdOf(ss[t]) == x
  {
    if Listed(threads[n - 1].pc) && IdOf(ss[n - 1]) == x {
      t := n - 1;
    } else {
      t := SomeListed(ss, threads, x, n - 1);
    }
  }

  lemma {:induction false} TwoWithId(ss: seq<Session>, threads: seq<Thread>, x: nat, n: nat) returns (t: nat, u: nat)
    requires n <= |ss| == |threads| && ListedIds(ss, threads, n)[x] >= 2
    ensures t < u < n && Listed(threads[t].pc) && Listed(threads[u].pc) && IdOf(ss[t]) == IdOf(ss[u]) == x
  {
    if Listed(threads[n - 1].pc) && IdOf(ss[n - 1]) == x {
      u := n - 1;
      t := SomeListed(ss, threads, x, n - 1);
    } else {
      t, u := TwoWithId(ss, threads, x, n - 1);
    }
  }

  lemma TwiceInMultiset(ids: seq<nat>, i: nat, j: nat)
    requires i < j < |ids| && ids[i] == ids[j]
    ensures multiset(ids)[ids[i]] >= 2
  {
    assert ids == ids[..j] + [ids[j]] + ids[j + 1..];
    assert ids[..j][i] == ids[i];
    assert ids[i] in multiset(ids[..j]);
  }

  lemma OneFindsItself(st: State, t: nat, u: nat)
    requires Fits(st) && t < u < |st.sessions| && IdOf(st.sessions[t]) == IdOf(st.sessions[u])
    ensures !(FindsItself(st, t) && FindsItself(st, u))
  {
  }

  lemma SettledDistinct(st: State)
    requires Fits(st) && IdInv(st) && CountInv(st) && Settled(st)
    ensures Distinct(RegistryIds(st.sessions, st.registry))
  {
    var ids := RegistryIds(st.sessions, st.registry);
    forall i, j | 0 <= i < j < |ids| ensures ids[i] != ids[j] {
      if ids[i] == ids[j] {
        TwiceInMultiset(ids, i, j);
        var t, u := TwoWithId(st.sessions, st.threads, ids[i], |st.sessions|);
        OneFindsItself(st, t, u);
      }
    }
  }

  lemma SettledIsTidy(st: State)
    requires Fits(st) && IdInv(st) && CountInv(st) && Settled(st)
    ensures Tidy(st)
  {
    var ids := RegistryIds(st.sessions, st.registry);
    SettledDistinct(st);
    forall i | 0 <= i < |st.registry| ensures Listed(st.threads[st.registry[i]].pc) {
      assert ids[i] in multiset(ids);
      var t := SomeListed(st.sessions, st.threads, ids[i], |st.sessions|);
      assert ThreadIdInv(st, t) && FindsItself(st, t);
      assert ids[FindById(st.sessions, st.registry, st.sessions[t].id.value)] == ids[i];
    }
    assert forall t | 0 <= t < |st.threads| && Listed(st.threads[t].pc) :: FindsItself(st, t);
  }

  lemma TidyIsSettled(st: State)
    requires Fits(st) && IdInv(st) && CountInv(st) && Tidy(st)
    ensures Settled(st)
  {
    var ids := RegistryIds(st.sessions, st.registry);
    forall t | 0 <= t < |st.threads| && Listed(st.threads[t].pc) ensures FindsItself(st, t) {
      var k :| 0 <= k < |st.registry| && st.registry[k] == t;
      LeaverFindsEntry(st, t);
      var i := FindById(st.sessions, st.registry, st.sessions[t].id.value);
      assert ids[i] == ids[k];
    }
  }

  /** That all find themselves is a matter of the registry: it lists them, under different numbers. */
  lemma SettledIffTidy(st: State)
    requires Fits(st) && IdInv(st) && CountInv(st)
    ensures Settled(st) <==> Tidy(st)
  {
    if Settled(st) {
      SettledIsTidy(st);
    }
    if Tidy(st) {
      TidyIsSettled(st);
    }
  }

  /** While ids cover 0..n-1 the registry is tidy. */
  lemma CoveredIsSettled(uid: Obj -> string, st: State)
    requires Inv(uid, st) && Covers(RegistryIds(st.sessions, st.registry))
    ensures Settled(st)
  {
    forall t | 0 <= t < |st.threads| && Listed(st.threads[t].pc) ensures FindsItself(st, t) {
      CoveredIdsFindOwner(uid, st, t);
    }
  }

  /** The ids of the registry stay different when a session is appended exactly when its number is new. */
  lemma PushKeepsDistinctIff(st: State, t: nat)
    requires Fits(st) && IdInv(st) && t < |st.threads| && st.threads[t].pc.RegNumbered?
    ensures var ids, st' := RegistryIds(st.sessions, st.registry), StepInside(st, t);
      Distinct(RegistryIds(st'.sessions, st'.registry)) <==> Distinct(ids) && |st.registry| !in ids
  {
    var ids, st' := RegistryIds(st.sessions, st.registry), StepInside(st, t);
    var ids' := RegistryIds(st'.sessions, st'.registry);
    assert ThreadIdInv(st, t);
    assert ids' == ids + [|ids|];
    if |ids| in ids {
      var k :| 0 <= k < |ids| && ids[k] == |ids|;
      assert ids'[k] == ids'[|ids|];
    }
    if Distinct(ids') {
      assert forall i | 0 <= i < |ids| :: ids[i] == ids'[i];
    }
  }

  lemma PushKeepsTidyIff(st: State, t: nat)
    requires Fits(st) && IdInv(st) && Tidy(st) && t < |st.threads| && st.threads[t].pc.RegNumbered?
    ensures Tidy(StepInside(st, t)) <==> |st.registry| !in RegistryIds(st.sessions, st.registry)
  {
    var st' := StepInside(st, t);
    PushKeepsDistinctIff(st, t);
    assert st'.registry == st.registry + [t];
    assert t in st'.registry;
  }

  /** In a tidy registry the entry found is the leaver's. */
  lemma TidyFoundOwn(st: State, t: nat)
    requires Fits(st) && IdInv(st) && Tidy(st) && t < |st.threads| && st.threads[t].pc.EraseFound?
    ensures 0 <= st.threads[t].pc.index < |st.registry| && st.registry[st.threads[t].pc.index] == t
  {
    assert ThreadIdInv(st, t);
    var ids, i: nat := RegistryIds(st.sessions, st.registry), st.threads[t].pc.index;
    var k :| 0 <= k < |st.registry| && st.registry[k] == t;
    assert ids[k] == ids[i];
  }

  lemma DistinctWithout(ids: seq<nat>, i: nat)
    requires Distinct(ids) && i < |ids|
    ensures Distinct(Without(ids, i)) && ids[i] !in Without(ids, i)
  {
    assert forall j | 0 <= j < |ids| - 1 :: Without(ids, i)[j] == ids[if j < i then j else j + 1];
  }

  lemma KeptWithout(s: seq<nat>, i: nat, x: nat)
    requires i < |s| && x in s && x != s[i]
    ensures x in Without(s, i)
  {
    var m :| 0 <= m < |s| && s[m] == x;
    assert Without(s, i)[if m < i then m else m - 1] == x;
  }

  /** Leaving a tidy registry leaves it tidy. */
  lemma EraseKeepsTidy(st: State, t: nat)
    requires Fits(st) && IdInv(st) && Tidy(st) && t < |st.threads| && st.threads[t].pc.EraseFound?
    ensures Tidy(StepInside(st, t))
  {
    var st' := StepInside(st, t);
    TidyFoundOwn(st, t);
    var ids, i: nat := RegistryIds(st.sessions, st.registry), st.threads[t].pc.index;
    var ids' := RegistryIds(st'.sessions, st'.registry);
    assert ids' == Without(ids, i);
    DistinctWithout(ids, i);
    forall j | 0 <= j < |st'.registry| ensures Listed(st'.threads[st'.registry[j]].pc) {
      var m := if j < i then j else j + 1;
      assert st'.registry[j] == st.registry[m] && ids[m] != ids[i];
    }
    forall u | 0 <= u < |st'.threads| && Listed(st'.threads[u].pc) ensures u in st'.registry {
      KeptWithout(st.registry, i, u);
    }
  }

  // ---- over runs

  /** The steps that leave the registry and the numbers in it alone. */
  predicate Quiet(st: State, e: Event) {
    e.Inside? && e.t < |st.threads| ==> !st.threads[e.t].pc.RegNumbered? && !st.threads[e.t].pc.EraseFound?
  }

  lemma QuietStep(uid: Obj -> string, st: State, e: Event)
    requires UidsOk(uid) && Fits(st) && TablesOk(uid, st.sessions) && IdInv(st) && LockInv(st) && Enabled(st, e)
    requires Quiet(st, e)
    requires CountInv(st)
    ensures var st' := Step(uid, st, e);
      && st'.registry == st.registry && |st'.threads| >= |st.threads|
      && RegistryIds(st'.sessions, st'.registry) == RegistryIds(st.sessions, st.registry)
      && forall u | 0 <= u < |st'.threads| ::
           Listed(st'.threads[u].pc) <==> u < |st.threads| && Listed(st.threads[u].pc)
  {
    if e.Inside? {
      assert ThreadIdInv(st, e.t);
    } else {
      SessionIdsKept(uid, st, e);
      StepFrame(uid, st, e);
      ListedSame(uid, st, e);
    }
  }

  lemma QuietKeepsTidy(uid: Obj -> string, st: State, e: Event)
    requires UidsOk(uid) && Fits(st) && TablesOk(uid, st.sessions) && IdInv(st) && LockInv(st) && Enabled(st, e)
    requires Quiet(st, e)
    requires CountInv(st)
    ensures Tidy(Step(uid, st, e)) <==> Tidy(st)
  {
    QuietStep(uid, st, e);
  }

  /** A number is taken that an entry of the registry has. */
  ghost predicate TakesUsedId(st: State, e: Event)
    requires Fits(st)
  {
    e.Inside? && e.t < |st.threads| && st.threads[e.t].pc.RegNumbered?
      && |st.registry| in RegistryIds(st.sessions, st.registry)
  }

  lemma StepKeepsTidyIff(uid: Obj -> string, st: State, e: Event)
    requires UidsOk(uid) && Inv(uid, st) && Enabled(st, e) && Tidy(st)
    ensures Tidy(Step(uid, st, e)) <==> !TakesUsedId(st, e)
  {
    if Quiet(st, e) {
      QuietKeepsTidy(uid, st, e);
    } else if st.threads[e.t].pc.RegNumbered? {
      PushKeepsTidyIff(st, e.t);
    } else {
      EraseKeepsTidy(st, e.t);
    }
  }

  ghost predicate SettledAt(st: State) {
    Fits(st) && Settled(st)
  }

  ghost predicate FreshAt(st: State, e: Event) {
    Fits(st) && !TakesUsedId(st, e)
  }

  lemma SettledStepIff(uid: Obj -> string, es: seq<Event>, n: nat)
    requires UidsOk(uid) && Runs(uid, INITIAL, es) && n < |es| && SettledAt(Trace(uid, INITIAL, es)[n])
    ensures var tr := Trace(uid, INITIAL, es); SettledAt(tr[n + 1]) <==> FreshAt(tr[n], es[n])
  {
    TraceStep(uid, INITIAL, es, n);
    var st, e := Trace(uid, INITIAL, es)[n], es[n];
    StepKeepsInv(uid, st, e);
    SettledIffTidy(st);
    StepKeepsTidyIff(uid, st, e);
    SettledIffTidy(Step(uid, st, e));
  }

  /** A property that each step keeps exactly under a condition lasts exactly while the condition does. */
  lemma {:induction false} LastsIff(good: seq<bool>, kept: seq<bool>, n: nat)
    requires n < |good| && n <= |kept| && good[0]
    requires forall k | 0 <= k < n :: KeptIff(good, kept, k)
    ensures (forall j | 0 <= j <= n :: good[j]) <==> (forall k | 0 <= k < n :: kept[k])
  {
    if n > 0 {
      LastsIff(good, kept, n - 1);
      assert KeptIff(good, kept, n - 1);
    }
  }

  predicate KeptIff(good: seq<bool>, kept: seq<bool>, k: nat)
    requires k + 1 < |good| && k < |kept|
  {
    good[k] ==> (good[k + 1] <==> kept[k])
  }

  ghost function SettledStates(tr: seq<State>): (r: seq<bool>)
    ensures |r| == |tr| && forall j | 0 <= j < |tr| :: r[j] == SettledAt(tr[j])
  {
    seq(|tr|, j requires 0 <= j < |tr| => SettledAt(tr[j]))
  }

  ghost function FreshSteps(tr: seq<State>, es: seq<Event>): (r: seq<bool>)
    requires |tr| > |es|
    ensures |r| == |es| && forall k | 0 <= k < |es| :: r[k] == FreshAt(tr[k], es[k])
  {
    seq(|es|, k requires 0 <= k < |es| => FreshAt(tr[k], es[k]))
  }

  lemma SettledStepKept(uid: Obj -> string, es: seq<Event>, k: nat)
    requires UidsOk(uid) && Runs(uid, INITIAL, es) && k < |es|
    ensures var tr := Trace(uid, INITIAL, es); KeptIff(SettledStates(tr), FreshSteps(tr, es), k)
  {
    if SettledAt(Trace(uid, INITIAL, es)[k]) {
      SettledStepIff(uid, es, k);
    }
  }

  lemma InitiallySettled()
    ensures SettledAt(INITIAL)
  {
  }

  ghost predicate AllSettled(tr: seq<State>) {
    forall j | 0 <= j < |tr| :: SettledAt(tr[j])
  }

  ghost predicate AllFreshSteps(tr: seq<State>, es: seq<Event>)
    requires |tr| > |es|
  {
    forall k | 0 <= k < |es| :: FreshAt(tr[k], es[k])
  }

  lemma SettledTraceIff(tr: seq<State>, es: seq<Event>)
    requires |tr| == |es| + 1 && SettledAt(tr[0])
    requires forall k: nat | k < |es| :: KeptIff(SettledStates(tr), FreshSteps(tr, es), k)
    ensures AllSettled(tr) <==> AllFreshSteps(tr, es)
  {
    LastsIff(SettledStates(tr), FreshSteps(tr, es), |es|);
    assert forall j | 0 <= j <= |es| :: SettledStates(tr)[j] <==> SettledAt(tr[j]);
  }

  /** Every session finds itself all through a run exactly when no number given is in use when it is given. */
  lemma SettledRunIff(uid: Obj -> string, es: seq<Event>)
    requires UidsOk(uid) && Runs(uid, INITIAL, es)
    ensures var tr := Trace(uid, INITIAL, es); AllSettled(tr) <==> AllFreshSteps(tr, es)
  {
    var tr := Trace(uid, INITIAL, es);
    forall k: nat | k < |es| ensures KeptIff(SettledStates(tr), FreshSteps(tr, es), k) {
      SettledStepKept(uid, es, k);
    }
    InitiallySettled();
    SettledTraceIff(tr, es);
  }

  // ---- the ids 0..n-1 over runs

  /** A session leaves that does not hold the largest id. */
  ghost predicate LeavesHole(st: State, e: Event)
    requires Fits(st)
  {
    e.Inside? && e.t < |st.threads| && st.threads[e.t].pc.EraseFound? && IdOf(st.sessions[e.t]) != |st.registry| - 1
  }

  lemma StepKeepsCoverIff(uid: Obj -> string, st: State, e: Event)
    requires UidsOk(uid) && Inv(uid, st) && Enabled(st, e) && Covers(RegistryIds(st.sessions, st.registry))
    ensures var st' := Step(uid, st, e); Covers(RegistryIds(st'.sessions, st'.registry)) <==> !LeavesHole(st, e)
  {
    if Quiet(st, e) {
      QuietStep(uid, st, e);
    } else if st.threads[e.t].pc.RegNumbered? {
      ConnectKeepsCover(uid, st, e.t);
    } else {
      LeaveKeepsCoverIff(uid, st, e.t);
    }
  }

  ghost predicate CoveredAt(st: State) {
    Fits(st) && Covers(RegistryIds(st.sessions, st.registry))
  }

  ghost predicate LargestLeavesAt(st: State, e: Event) {
    Fits(st) && !LeavesHole(st, e)
  }

  lemma CoveredStepIff(uid: Obj -> string, es: seq<Event>, k: nat)
    requires UidsOk(uid) && Runs(uid, INITIAL, es) && k < |es| && CoveredAt(Trace(uid, INITIAL, es)[k])
    ensures var tr := Trace(uid, INITIAL, es); CoveredAt(tr[k + 1]) <==> LargestLeavesAt(tr[k], es[k])
  {
    TraceStep(uid, INITIAL, es, k);
    StepKeepsCoverIff(uid, Trace(uid, INITIAL, es)[k], es[k]);
  }

  lemma CoveredStepKept(uid: Obj -> string, es: seq<Event>, k: nat)
    requires UidsOk(uid) && Runs(uid, INITIAL, es) && k < |es|
    ensures var tr := Trace(uid, INITIAL, es); KeptIff(CoveredStates(tr), LargestSteps(tr, es), k)
  {
    if CoveredAt(Trace(uid, INITIAL, es)[k]) {
      CoveredStepIff(uid, es, k);
    }
  }

  ghost function CoveredStates(tr: seq<State>): (r: seq<bool>)
    ensures |r| == |tr| && forall j | 0 <= j < |tr| :: r[j] == CoveredAt(tr[j])
  {
    seq(|tr|, j requires 0 <= j < |tr| => CoveredAt(tr[j]))
  }

  ghost function LargestSteps(tr: seq<State>, es: seq<Event>): (r: seq<bool>)
    requires |tr| > |es|
    ensures |r| == |es| && forall k | 0 <= k < |es| :: r[k] == LargestLeavesAt(tr[k], es[k])
  {
    seq(|es|, k requires 0 <= k < |es| => LargestLeavesAt(tr[k], es[k]))
  }

  ghost predicate AllCovered(tr: seq<State>) {
    forall j | 0 <= j < |tr| :: CoveredAt(tr[j])
  }

  ghost predicate AllLargestSteps(tr: seq<State>, es: seq<Event>)
    requires |tr| > |es|
  {
    forall k | 0 <= k < |es| :: LargestLeavesAt(tr[k], es[k])
  }

  lemma CoveredTraceIff(tr: seq<State>, es: seq<Event>)
    requires |tr| == |es| + 1 && CoveredAt(tr[0])
    requires forall k: nat | k < |es| :: KeptIff(CoveredStates(tr), LargestSteps(tr, es), k)
    ensures AllCovered(tr) <==> AllLargestSteps(tr, es)
  {
    LastsIff(CoveredStates(tr), LargestSteps(tr, es), |es|);
    assert forall j | 0 <= j <= |es| :: CoveredStates(tr)[j] <==> CoveredAt(tr[j]);
  }

  /** The ids are 0..n-1 all through a run exactly when every leaver holds the largest of them. */
  lemma CoveredRunIff(uid: Obj -> string, es: seq<Event>)
    requires UidsOk(uid) && Runs(uid, INITIAL, es)
    ensures var tr := Trace(uid, INITIAL, es); AllCovered(tr) <==> AllLargestSteps(tr, es)
  {
    var tr := Trace(uid, INITIAL, es);
    forall k: nat | k < |es| ensures KeptIff(CoveredStates(tr), LargestSteps(tr, es), k) {
      CoveredStepKept(uid, es, k);
    }
    assert CoveredAt(tr[0]);
    CoveredTraceIff(tr, es);
  }
}
