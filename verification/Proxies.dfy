/**
 The proxies of one connection as values. A proxy is named by its position in the order of
 construction; its manager is another proxy or, when absent, the connection itself.
*/
module Proxies {
  import opened Wrappers
  import opened Wire

  datatype Proxy = Proxy(context: string, mgr: Option<nat>, name: string, cache: map<string, nat>)

  /** `GetNode` of proxy `p` once the answer `reply` has come. */
  function Fetched(f: seq<Proxy>, p: nat, reply: Reply): (r: (seq<Proxy>, Option<nat>))
    requires p < |f|
    ensures |f| <= |r.0|
  {
    if !reply.ok then (f, None)
    else if reply.text in f[p].cache then (f, Some(f[p].cache[reply.text]))
    else
      (f[p := f[p].(cache := f[p].cache[reply.text := |f|])] + [Proxy(reply.text, Some(p), "", map[])], Some(|f|))
  }

  /** A handle not cached: the new proxy may as well be made first and cached then. */
  lemma FetchedNew(f: seq<Proxy>, p: nat, context: string)
    requires p < |f| && context !in f[p].cache
    ensures var grown := f + [Proxy(context, Some(p), "", map[])];
      Fetched(f, p, Reply(true, context))
        == (grown[p := grown[p].(cache := grown[p].cache[context := |f|])], Some(|f|))
  {
    var child := Proxy(context, Some(p), "", map[]);
    var kept := f[p].(cache := f[p].cache[context := |f|]);
    assert f[p := kept] + [child] == (f + [child])[p := kept];
  }

  /** `Name` of proxy `p`: the name is kept when the request fails. */
  function Renamed(f: seq<Proxy>, p: nat, reply: Reply): seq<Proxy>
    requires p < |f|
  {
    if reply.ok then f[p := f[p].(name := reply.text)] else f
  }

  /** A proxy of the connection itself, as `AddElemRmt` makes one for the remote root. */
  function Rooted(f: seq<Proxy>, context: string): seq<Proxy> {
    f + [Proxy(context, None, "", map[])]
  }

  /** The answer to the request for the remote root: a proxy for it, which becomes the root, or nothing. */
  function Bound(f: seq<Proxy>, root: Option<nat>, reply: Reply): (seq<Proxy>, Option<nat>) {
    if reply.ok then (Rooted(f, reply.text), Some(|f|)) else (f, root)
  }

  ghost predicate Coherent(f: seq<Proxy>) {
    forall p | 0 <= p < |f| :: ProxyOk(f, p)
  }

  /**
   Managers come first; a cache maps each handle to the one proxy that has it as context and the
   owner as manager; and a managed proxy is where its manager keeps it.
  */
  ghost predicate ProxyOk(f: seq<Proxy>, p: nat)
    requires p < |f|
  {
    && (f[p].mgr.Some? ==>
          var m := f[p].mgr.value; m < p && f[p].context in f[m].cache && f[m].cache[f[p].context] == p)
    && (forall h | h in f[p].cache ::
          var c := f[p].cache[h]; p < c < |f| && f[c].context == h && f[c].mgr == Some(p))
  }

  datatype Operation = GetNode(p: nat, reply: Reply) | Name(p: nat, reply: Reply) | NewRoot(context: string)

  predicate Possible(f: seq<Proxy>, op: Operation) {
    op.NewRoot? || op.p < |f|
  }

  function Apply(f: seq<Proxy>, op: Operation): (f': seq<Proxy>)
    requires Possible(f, op)
    ensures |f| <= |f'|
  {
    match op
    case GetNode(p, reply) => Fetched(f, p, reply).0
    case Name(p, reply) => Renamed(f, p, reply)
    case NewRoot(context) => Rooted(f, context)
  }

  predicate AllPossible(f: seq<Proxy>, ops: seq<Operation>)
    decreases |ops|
  {
    ops == [] || (Possible(f, ops[0]) && AllPossible(Apply(f, ops[0]), ops[1..]))
  }

  function ApplyAll(f: seq<Proxy>, ops: seq<Operation>): (f': seq<Proxy>)
    requires AllPossible(f, ops)
    decreases |ops|
  {
    if ops == [] then f else ApplyAll(Apply(f, ops[0]), ops[1..])
  }

  lemma ApplyKeepsCoherent(f: seq<Proxy>, op: Operation)
    requires Coherent(f) && Possible(f, op)
    ensures Coherent(Apply(f, op))
  {
    var f' := Apply(f, op);
    forall q | 0 <= q < |f'| ensures ProxyOk(f', q) {
      if q < |f| {
        assert ProxyOk(f, q);
      }
    }
  }

  /** Cached or new, the proxy `GetNode` gives is a child of its proxy with the answer as context. */
  lemma FetchedIsChild(f: seq<Proxy>, p: nat, reply: Reply)
    requires Coherent(f) && p < |f|
    ensures var (f', r) := Fetched(f, p, reply);
      && Coherent(f') && (r.Some? <==> reply.ok)
      && (r.Some? ==> p < r.value < |f'| && f'[r.value].context == reply.text && f'[r.value].mgr == Some(p))
  {
    ApplyKeepsCoherent(f, GetNode(p, reply));
    assert ProxyOk(f, p);
  }

  /** Cache coherence over all runs: it holds of the proxies any sequence of operations makes. */
  lemma {:induction false} ProxiesCoherent(f: seq<Proxy>, ops: seq<Operation>)
    requires Coherent(f) && AllPossible(f, ops)
    ensures Coherent(ApplyAll(f, ops))
    decreases |ops|
  {
    if ops != [] {
      ApplyKeepsCoherent(f, ops[0]);
      ProxiesCoherent(Apply(f, ops[0]), ops[1..]);
    }
  }

  ghost predicate ForestGrows(f: seq<Proxy>, f': seq<Proxy>) {
    && |f| <= |f'|
    && forall p | 0 <= p < |f| ::
         && f'[p].context == f[p].context && f'[p].mgr == f[p].mgr
         && forall h | h in f[p].cache :: h in f'[p].cache && f'[p].cache[h] == f[p].cache[h]
  }

  lemma {:induction false} ProxiesGrow(f: seq<Proxy>, ops: seq<Operation>)
    requires AllPossible(f, ops)
    ensures ForestGrows(f, ApplyAll(f, ops))
    decreases |ops|
  {
    if ops != [] {
      assert ForestGrows(f, Apply(f, ops[0]));
      ProxiesGrow(Apply(f, ops[0]), ops[1..]);
    }
  }

  /** A `Name` of proxy `p` that succeeds. */
  predicate Renames(op: Operation, p: nat) {
    op.Name? && op.p == p && op.reply.ok
  }

  /** Nothing else changes the name of a proxy. */
  lemma {:induction false} NameStays(f: seq<Proxy>, p: nat, ops: seq<Operation>)
    requires p < |f| && AllPossible(f, ops) && forall i | 0 <= i < |ops| :: !Renames(ops[i], p)
    ensures p < |ApplyAll(f, ops)| && ApplyAll(f, ops)[p].name == f[p].name
    decreases |ops|
  {
    if ops != [] {
      assert !Renames(ops[0], p);
      NameStays(Apply(f, ops[0]), p, ops[1..]);
    }
  }

  /** After a `Name` that succeeds the proxy has that name until another one succeeds. */
  lemma NameIsLast(f: seq<Proxy>, p: nat, text: string, ops: seq<Operation>)
    requires p < |f| && AllPossible(f, [Name(p, Reply(true, text))] + ops)
    requires forall i | 0 <= i < |ops| :: !Renames(ops[i], p)
    ensures var f' := ApplyAll(f, [Name(p, Reply(true, text))] + ops); p < |f'| && f'[p].name == text
  {
    assert ([Name(p, Reply(true, text))] + ops)[1..] == ops;
    NameStays(Apply(f, Name(p, Reply(true, text))), p, ops);
  }

  /**
   Equal handles give the identical proxy and unequal ones distinct proxies, however many
   operations lie between two calls of `GetNode` on the same proxy.
  */
  lemma SameHandleSameProxy(f: seq<Proxy>, p: nat, h: string, ops: seq<Operation>, h': string)
    requires Coherent(f) && p < |f|
    requires AllPossible(Fetched(f, p, Reply(true, h)).0, ops)
    ensures var (f1, r) := Fetched(f, p, Reply(true, h));
      var f2 := ApplyAll(f1, ops);
      p < |f2| && var (f3, r') := Fetched(f2, p, Reply(true, h'));
      && r.Some? && r'.Some? && (r == r' <==> h == h')
      && (h == h' ==> f3 == f2)
      && r.value < |f3| && f3[r.value].context == h && f3[r.value].mgr == Some(p)
  {
    var op := GetNode(p, Reply(true, h));
    var (f1, r) := Fetched(f, p, Reply(true, h));
    ApplyKeepsCoherent(f, op);
    assert ProxyOk(f1, p);
    ProxiesGrow(f1, ops);
    ProxiesCoherent(f1, ops);
    var f2 := ApplyAll(f1, ops);
    assert ProxyOk(f2, p);
    assert f2[p].cache[h] == r.value;
  }

  /** Caches of different proxies have no proxy in common. */
  lemma CachesDisjoint(f: seq<Proxy>, p: nat, q: nat, h: string, k: string)
    requires Coherent(f) && p < |f| && q < |f| && h in f[p].cache && k in f[q].cache
    ensures f[p].cache[h] == f[q].cache[k] <==> p == q && h == k
  {
    assert ProxyOk(f, p) && ProxyOk(f, q);
  }

  /** `p` is reached from `a` through caches, in any number of steps. */
  ghost predicate Below(f: seq<Proxy>, a: nat, p: nat)
    requires Coherent(f) && p < |f|
    decreases p
  {
    a == p || (f[p].mgr.Some? && (assert ProxyOk(f, p); Below(f, a, f[p].mgr.value)))
  }

  /** The subtrees of two proxies are nested or disjoint, those of two children of one always disjoint. */
  lemma {:induction false} SubtreesNestOrDisjoint(f: seq<Proxy>, a: nat, b: nat, p: nat)
    requires Coherent(f) && a < |f| && b < |f| && p < |f| && Below(f, a, p) && Below(f, b, p)
    ensures Below(f, a, b) || Below(f, b, a)
    decreases p
  {
    if a != p && b != p {
      assert ProxyOk(f, p);
      SubtreesNestOrDisjoint(f, a, b, f[p].mgr.value);
    }
  }

  lemma {:induction false} BelowIsLater(f: seq<Proxy>, a: nat, p: nat)
    requires Coherent(f) && p < |f| && Below(f, a, p)
    ensures a <= p
    decreases p
  {
    if a != p {
      assert ProxyOk(f, p);
      BelowIsLater(f, a, f[p].mgr.value);
    }
  }

  lemma SiblingSubtreesDisjoint(f: seq<Proxy>, m: nat, a: nat, b: nat, p: nat)
    requires Coherent(f) && m < |f| && a < |f| && b < |f| && p < |f| && a != b
    requires f[a].mgr == Some(m) && f[b].mgr == Some(m)
    ensures !(Below(f, a, p) && Below(f, b, p))
  {
    assert ProxyOk(f, a) && ProxyOk(f, b);
    if Below(f, a, p) && Below(f, b, p) {
      SubtreesNestOrDisjoint(f, a, b, p);
      if Below(f, a, b) {
        BelowIsLater(f, a, m);
      } else {
        BelowIsLater(f, b, m);
      }
      assert false;
    }
  }

  /** `c` leads from its first proxy through managers to the connection. */
  ghost predicate Climbs(f: seq<Proxy>, c: seq<nat>) {
    && c != []
    && (forall i | 0 <= i < |c| :: c[i] < |f|)
    && (forall i | 0 <= i < |c| - 1 :: f[c[i]].mgr == Some(c[i + 1]) && c[i + 1] < c[i])
    && f[c[|c| - 1]].mgr == None
  }

  /** The managers from `p` up to the connection: a finite, acyclic chain. */
  ghost function Chain(f: seq<Proxy>, p: nat): (c: seq<nat>)
    requires Coherent(f) && p < |f|
    ensures Climbs(f, c) && c[0] == p && |c| <= p + 1
    decreases p
  {
    if f[p].mgr.None? then [p]
    else
      assert ProxyOk(f, p);
      var rest := Chain(f, f[p].mgr.value);
      assert forall i | 0 < i < |rest| + 1 :: ([p] + rest)[i] == rest[i - 1];
      [p] + rest
  }
}
