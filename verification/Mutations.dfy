/** Which mutations of a specification an agent performs, keeps for later, or drops. */
module Mutations {

  datatype Kind = Node | Change | Cont | Move | Import | Rm | Unknown

  datatype Mutation = Mutation(kind: Kind, inactive: bool, order: int, text: string)

  /** The calls a mutation leads to; the node creation differs between the two agents. */
  datatype Action =
    | AddElemRmt(m: Mutation) | AddElem(m: Mutation)
    | ChangeAttr(m: Mutation) | ChangeCont(m: Mutation) | MoveNode(m: Mutation)
    | ImportNode(m: Mutation) | RmNode(m: Mutation)

  /** What the loop reads from its environment; `limiting` is the build's EN_MUT_LIM. */
  datatype Settings = Settings(optimize: bool, limiting: bool, attached: bool, maxOrder: int, limit: int)

  datatype Mode = Mode(runtime: bool, checkSafety: bool, trial: bool)

  datatype Fate = Performed | Kept | Dropped

  predicate AboveLimit(s: Settings, m: Mutation) {
    s.limiting && s.attached && s.maxOrder > 0 && m.order > s.maxOrder - s.limit
  }

  function FateOf(s: Settings, mode: Mode, m: Mutation): Fate {
    if s.optimize && m.inactive then (if mode.runtime then Dropped else Kept)
    else if AboveLimit(s, m) then (if mode.runtime || mode.trial then Dropped else Kept)
    else if m.kind.Unknown? then Dropped
    else Performed
  }

  /** The mutations with a given fate, in order. */
  function Pick(s: Settings, mode: Mode, ms: seq<Mutation>, fate: Fate): seq<Mutation> {
    if ms == [] then []
    else (if FateOf(s, mode, ms[0]) == fate then [ms[0]] else []) + Pick(s, mode, ms[1..], fate)
  }

  lemma {:induction false} PickConcat(s: Settings, mode: Mode, ms: seq<Mutation>, ns: seq<Mutation>, fate: Fate)
    ensures Pick(s, mode, ms + ns, fate) == Pick(s, mode, ms, fate) + Pick(s, mode, ns, fate)
  {
    if ms == [] {
      assert ms + ns == ns;
    } else {
      assert (ms + ns)[1..] == ms[1..] + ns;
      PickConcat(s, mode, ms[1..], ns, fate);
    }
  }

  lemma PickNext(s: Settings, mode: Mode, ms: seq<Mutation>, i: nat, fate: Fate)
    requires i < |ms|
    ensures var picked := Pick(s, mode, ms[..i], fate);
      Pick(s, mode, ms[..i + 1], fate) == if FateOf(s, mode, ms[i]) == fate then picked + [ms[i]] else picked
  {
    assert ms[..i + 1] == ms[..i] + [ms[i]];
    PickConcat(s, mode, ms[..i], [ms[i]], fate);
  }

  function ActionOf(m: Mutation, remote: bool): Action
    requires !m.kind.Unknown?
  {
    match m.kind
    case Node => if remote then AddElemRmt(m) else AddElem(m)
    case Change => ChangeAttr(m)
    case Cont => ChangeCont(m)
    case Move => MoveNode(m)
    case Import => ImportNode(m)
    case Rm => RmNode(m)
  }

  function Actions(ms: seq<Mutation>, remote: bool): (acts: seq<Action>)
    ensures |acts| <= |ms|
  {
    if ms == [] then []
    else (if ms[0].kind.Unknown? then [] else [ActionOf(ms[0], remote)]) + Actions(ms[1..], remote)
  }

  lemma {:induction false} ActionsNext(ms: seq<Mutation>, m: Mutation, remote: bool)
    requires !m.kind.Unknown?
    ensures Actions(ms + [m], remote) == Actions(ms, remote) + [ActionOf(m, remote)]
  {
    if ms == [] {
      assert ms + [m] == [m];
    } else {
      assert (ms + [m])[1..] == ms[1..] + [m];
      ActionsNext(ms[1..], m, remote);
    }
  }

  /** One more mutation of the specification has met its fate. */
  lemma NextFate(spec: seq<Mutation>, s: Settings, mode: Mode, remote: bool, i: nat, kept: seq<Mutation>,
                 done: seq<Action>)
      returns (kept': seq<Mutation>, done': seq<Action>)
    requires i < |spec| && kept == Pick(s, mode, spec[..i], Kept)
    requires done == Actions(Pick(s, mode, spec[..i], Performed), remote)
    ensures kept' == Pick(s, mode, spec[..i + 1], Kept)
    ensures kept' == kept + if FateOf(s, mode, spec[i]) == Kept then [spec[i]] else []
    ensures done' == Actions(Pick(s, mode, spec[..i + 1], Performed), remote)
    ensures done' == if FateOf(s, mode, spec[i]) == Performed then done + [ActionOf(spec[i], remote)] else done
  {
    PickNext(s, mode, spec, i, Kept);
    PickNext(s, mode, spec, i, Performed);
    if FateOf(s, mode, spec[i]) == Performed {
      ActionsNext(Pick(s, mode, spec[..i], Performed), spec[i], remote);
    }
    kept', done' := Pick(s, mode, spec[..i + 1], Kept), Actions(Pick(s, mode, spec[..i + 1], Performed), remote);
  }

  // ---- what is kept, performed and called

  /** The mutations that pass a test, in order. */
  function Filtered(ms: seq<Mutation>, test: Mutation -> bool): seq<Mutation> {
    if ms == [] then [] else (if test(ms[0]) then [ms[0]] else []) + Filtered(ms[1..], test)
  }

  /**
   Kept are, outside run time, the inactive mutations of an optimising agent, and outside trial mode too
   those of an attached chromo whose order is within the limit of the largest.
  */
  lemma {:induction false} KeptAre(s: Settings, mode: Mode, ms: seq<Mutation>)
    ensures Pick(s, mode, ms, Kept) == Filtered(ms, (m: Mutation) =>
      !mode.runtime
      && ((s.optimize && m.inactive)
          || (!mode.trial && s.limiting && s.attached && s.maxOrder > 0 && m.order + s.limit > s.maxOrder)))
  {
    if ms != [] {
      KeptAre(s, mode, ms[1..]);
    }
  }

  /** Performed are those of a known kind that neither of the two holds back. */
  lemma {:induction false} PerformedAre(s: Settings, mode: Mode, ms: seq<Mutation>)
    ensures Pick(s, mode, ms, Performed) == Filtered(ms, (m: Mutation) =>
      !m.kind.Unknown? && !(s.optimize && m.inactive)
      && !(s.limiting && s.attached && s.maxOrder > 0 && m.order + s.limit > s.maxOrder))
  {
    if ms != [] {
      PerformedAre(s, mode, ms[1..]);
    }
  }

  /** Each call is made for a mutation of the kind it is there for. */
  lemma {:induction false} CallsSuitKinds(ms: seq<Mutation>, remote: bool)
    requires forall i | 0 <= i < |ms| :: !ms[i].kind.Unknown?
    ensures |Actions(ms, remote)| == |ms|
    ensures forall i | 0 <= i < |ms| :: Suits(Actions(ms, remote)[i], ms[i], remote)
  {
    if ms != [] {
      assert !ms[0].kind.Unknown?;
      CallsSuitKinds(ms[1..], remote);
    }
  }

  predicate Suits(a: Action, m: Mutation, remote: bool) {
    && a.m == m
    && (a.AddElemRmt? <==> m.kind == Node && remote) && (a.AddElem? <==> m.kind == Node && !remote)
    && (a.ChangeAttr? <==> m.kind == Change) && (a.ChangeCont? <==> m.kind == Cont)
    && (a.MoveNode? <==> m.kind == Move) && (a.ImportNode? <==> m.kind == Import) && (a.RmNode? <==> m.kind == Rm)
  }

  /** What a loop over `ms` adds to the chromo and to the calls of its agent. */
  ghost predicate Effects(s: Settings, mode: Mode, ms: seq<Mutation>, kept: seq<Mutation>, made: seq<Action>,
                          remote: bool)
  {
    && (mode.runtime ==> kept == [])
    && (!mode.runtime && s.optimize ==> forall m | m in ms && m.inactive :: m in kept)
    && (!mode.runtime && !mode.trial ==> forall m | m in ms && !m.kind.Unknown? :: m in kept || MadeFor(made, m))
    && (forall m | MadeFor(made, m) :: m in ms && m !in kept)
    && (forall i | 0 <= i < |made| :: Suits(made[i], made[i].m, remote))
  }

  ghost predicate MadeFor(made: seq<Action>, m: Mutation) {
    exists i :: 0 <= i < |made| && made[i].m == m
  }

  lemma {:induction false} PickedWhen(s: Settings, mode: Mode, ms: seq<Mutation>, fate: Fate, m: Mutation)
    ensures m in Pick(s, mode, ms, fate) <==> m in ms && FateOf(s, mode, m) == fate
  {
    if ms != [] {
      PickedWhen(s, mode, ms[1..], fate, m);
    }
  }

  /** The calls are made for the mutations performed, and suit them. */
  lemma CallsMadeFor(performed: seq<Mutation>, remote: bool)
    requires forall m | m in performed :: !m.kind.Unknown?
    ensures var made := Actions(performed, remote);
      && (forall m :: MadeFor(made, m) <==> m in performed)
      && (forall i | 0 <= i < |made| :: Suits(made[i], made[i].m, remote))
  {
    assert forall i | 0 <= i < |performed| :: performed[i] in performed;
    CallsSuitKinds(performed, remote);
    var made := Actions(performed, remote);
    assert forall i | 0 <= i < |performed| :: made[i].m == performed[i];
    forall m | m in performed ensures MadeFor(made, m) {
      var i :| 0 <= i < |performed| && performed[i] == m;
      assert made[i].m == m;
    }
  }

  lemma LoopEffects(s: Settings, mode: Mode, ms: seq<Mutation>, remote: bool)
    ensures Effects(s, mode, ms, Pick(s, mode, ms, Kept), Actions(Pick(s, mode, ms, Performed), remote), remote)
  {
    var kept, performed := Pick(s, mode, ms, Kept), Pick(s, mode, ms, Performed);
    forall m ensures m in kept <==> m in ms && FateOf(s, mode, m) == Kept {
      PickedWhen(s, mode, ms, Kept, m);
    }
    forall m ensures m in performed <==> m in ms && FateOf(s, mode, m) == Performed {
      PickedWhen(s, mode, ms, Performed, m);
    }
    CallsMadeFor(performed, remote);
    if kept != [] {
      assert kept[0] in kept;
    }
  }

  // ---- a stable partition

  /** `small` is `big` with some elements left out, at the places `at`. */
  ghost predicate Embeds<T>(small: seq<T>, big: seq<T>, at: seq<nat>) {
    && |at| == |small|
    && (forall i | 0 <= i < |at| :: at[i] < |big| && big[at[i]] == small[i])
    && (forall i, j | 0 <= i < j < |at| :: at[i] < at[j])
  }

  /** The places of the mutations with a given fate. */
  ghost function Places(s: Settings, mode: Mode, ms: seq<Mutation>, fate: Fate, i: nat): seq<nat>
    requires i <= |ms|
    decreases |ms| - i
  {
    if i == |ms| then []
    else (if FateOf(s, mode, ms[i]) == fate then [i] else []) + Places(s, mode, ms, fate, i + 1)
  }

  lemma {:induction false} PlacesExact(s: Settings, mode: Mode, ms: seq<Mutation>, fate: Fate, i: nat)
    requires i <= |ms|
    ensures forall k :: k in Places(s, mode, ms, fate, i) <==> i <= k < |ms| && FateOf(s, mode, ms[k]) == fate
    decreases |ms| - i
  {
    if i < |ms| {
      PlacesExact(s, mode, ms, fate, i + 1);
    }
  }

  lemma {:induction false} PlacesEmbed(s: Settings, mode: Mode, ms: seq<Mutation>, fate: Fate, i: nat)
    requires i <= |ms|
    ensures Embeds(Pick(s, mode, ms[i..], fate), ms, Places(s, mode, ms, fate, i))
    decreases |ms| - i
  {
    if i < |ms| {
      var rest := Places(s, mode, ms, fate, i + 1);
      PlacesEmbed(s, mode, ms, fate, i + 1);
      PlacesExact(s, mode, ms, fate, i + 1);
      assert ms[i..] == [ms[i]] + ms[i + 1..];
      if FateOf(s, mode, ms[i]) == fate {
        assert forall a | 0 <= a < |rest| :: rest[a] in rest;
        EmbedsMore(Pick(s, mode, ms[i + 1..], fate), ms, rest, i);
      }
    }
  }

  lemma EmbedsMore<T>(small: seq<T>, big: seq<T>, at: seq<nat>, i: nat)
    requires Embeds(small, big, at) && i < |big| && forall a | 0 <= a < |at| :: i < at[a]
    ensures Embeds([big[i]] + small, big, [i] + at)
  {
  }

  /**
   Every mutation is performed once, kept once or dropped, in the order of the specification: the
   three lists embed in it, at places that cover it without overlap.
  */
  lemma StablePartition(s: Settings, mode: Mode, ms: seq<Mutation>) returns (p: seq<nat>, k: seq<nat>, d: seq<nat>)
    ensures Embeds(Pick(s, mode, ms, Performed), ms, p)
    ensures Embeds(Pick(s, mode, ms, Kept), ms, k)
    ensures Embeds(Pick(s, mode, ms, Dropped), ms, d)
    ensures forall i | 0 <= i < |ms| :: i in p || i in k || i in d
    ensures forall i | i in p :: i !in k && i !in d
    ensures forall i | i in k :: i !in d
  {
    assert ms[0..] == ms;
    p, k, d := Places(s, mode, ms, Performed, 0), Places(s, mode, ms, Kept, 0), Places(s, mode, ms, Dropped, 0);
    PlacesEmbed(s, mode, ms, Performed, 0);
    PlacesEmbed(s, mode, ms, Kept, 0);
    PlacesEmbed(s, mode, ms, Dropped, 0);
    PlacesExact(s, mode, ms, Performed, 0);
    PlacesExact(s, mode, ms, Kept, 0);
    PlacesExact(s, mode, ms, Dropped, 0);
  }

  /** What is performed does not depend on the runtime, safety and trial flags. */
  lemma {:induction false} PerformedWhateverTheMode(s: Settings, mode: Mode, mode': Mode, ms: seq<Mutation>)
    ensures Pick(s, mode, ms, Performed) == Pick(s, mode', ms, Performed)
  {
    if ms != [] {
      PerformedWhateverTheMode(s, mode, mode', ms[1..]);
    }
  }

  /** Raising the limit only leaves mutations out: what is performed embeds in what was. */
  lemma {:induction false} HigherLimitPerformsLess(s: Settings, limit: int, mode: Mode, ms: seq<Mutation>)
      returns (at: seq<nat>)
    requires s.limit <= limit
    ensures Embeds(Pick(s.(limit := limit), mode, ms, Performed), Pick(s, mode, ms, Performed), at)
  {
    if ms == [] {
      at := [];
    } else {
      at := HigherLimitPerformsLess(s, limit, mode, ms[1..]);
      var small, big := Pick(s.(limit := limit), mode, ms[1..], Performed), Pick(s, mode, ms[1..], Performed);
      if FateOf(s.(limit := limit), mode, ms[0]) == Performed {
        at := EmbedsBoth(small, big, at, ms[0]);
      } else if FateOf(s, mode, ms[0]) == Performed {
        at := EmbedsBig(small, big, at, ms[0]);
      }
    }
  }

  lemma EmbedsBig<T>(small: seq<T>, big: seq<T>, at: seq<nat>, x: T) returns (at': seq<nat>)
    requires Embeds(small, big, at)
    ensures Embeds(small, [x] + big, at') && |at'| == |at| && forall i | 0 <= i < |at'| :: at'[i] == at[i] + 1
  {
    at' := seq(|at|, i requires 0 <= i < |at| => at[i] + 1);
  }

  lemma EmbedsBoth<T>(small: seq<T>, big: seq<T>, at: seq<nat>, x: T) returns (at': seq<nat>)
    requires Embeds(small, big, at)
    ensures Embeds([x] + small, [x] + big, at')
  {
    var later := EmbedsBig(small, big, at, x);
    at' := [0] + later;
  }

  /** The two agents do the same, but for where a node is created. */
  function Localised(acts: seq<Action>): seq<Action> {
    if acts == [] then []
    else [if acts[0].AddElemRmt? then AddElem(acts[0].m) else acts[0]] + Localised(acts[1..])
  }

  lemma {:induction false} AgentsAgree(ms: seq<Mutation>)
    ensures Localised(Actions(ms, true)) == Actions(ms, false)
  {
    if ms != [] {
      AgentsAgree(ms[1..]);
      if !ms[0].kind.Unknown? {
        var acts := Actions(ms, true);
        assert acts[1..] == Actions(ms[1..], true);
      } else {
        assert Actions(ms, true) == Actions(ms[1..], true);
        assert Actions(ms, false) == Actions(ms[1..], false);
      }
    }
  }

  /** The upper agent; `calls` records what it calls in the order of the calls. */
  class ARenvu {
    var iChromo: seq<Mutation>
    var calls: seq<Action>

    constructor ()
      ensures iChromo == [] && calls == []
    {
      iChromo, calls := [], [];
    }

    /** The dispatch on the type of one mutation; an unknown type is only logged. */
    method Perform(rno: Mutation)
      modifies this`calls
      ensures calls == if rno.kind.Unknown? then old(calls) else old(calls) + [ActionOf(rno, false)]
    {
      if rno.kind == Node {
        calls := calls + [AddElem(rno)];
      } else if rno.kind == Change {
        calls := calls + [ChangeAttr(rno)];
      } else if rno.kind == Cont {
        calls := calls + [ChangeCont(rno)];
      } else if rno.kind == Move {
        calls := calls + [MoveNode(rno)];
      } else if rno.kind == Import {
        calls := calls + [ImportNode(rno)];
      } else if rno.kind == Rm {
        calls := calls + [RmNode(rno)];
      }
    }

    method DoMutation(spec: seq<Mutation>, s: Settings, mode: Mode)
      modifies this
      ensures iChromo == old(iChromo) + Pick(s, mode, spec, Kept)
      ensures calls == old(calls) + Actions(Pick(s, mode, spec, Performed), false)
      ensures old(iChromo) <= iChromo && old(calls) <= calls
      ensures Effects(s, mode, spec, iChromo[|old(iChromo)|..], calls[|old(calls)|..], false)
    {
      LoopEffects(s, mode, spec, false);
      if spec == [] {
        return;
      }
      ghost var kept: seq<Mutation>, done: seq<Action> := [], [];
      for i := 0 to |spec|
        invariant kept == Pick(s, mode, spec[..i], Kept) && iChromo == old(iChromo) + kept
        invariant done == Actions(Pick(s, mode, spec[..i], Performed), false) && calls == old(calls) + done
      {
        var rno := spec[i];
        kept, done := NextFate(spec, s, mode, false, i, kept, done);
        if s.optimize && rno.inactive {
          if !mode.runtime {
            iChromo := iChromo + [rno];
          }
          continue;
        }
        if s.limiting && s.attached && s.maxOrder > 0 && rno.order > s.maxOrder - s.limit {
          if !mode.runtime && !mode.trial {
            iChromo := iChromo + [rno];
          }
          continue;
        }
        Perform(rno);
      }
      assert spec[..|spec|] == spec;
      assert iChromo[|old(iChromo)|..] == kept && calls[|old(calls)|..] == done;
    }
  }
}
