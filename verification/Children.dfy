/**
 The iterator `CompsIter` of an agent. In its child relation it goes through the inheritance children,
 which are kept in a multimap sorted by name; an element identifier asks for a name or for any, and
 may ask for an owner. In its node relation it goes to the remote root.
*/
module Children {
  import opened Wrappers

  // The separators and the wildcard are GUri's; only that they differ matters here.
  const PARENT_SEP: char := ':'
  const NODE_SEP: char := '/'
  const ANY := "*"

  /** A map entry: the key, and what the iterator asks the child. */
  datatype Child = Child(name: string, removed: bool, owner: string)

  /** `GUri::TElem`: the extension, the relation and the name. */
  datatype ElemId = ElemId(ext: string, rel: char, name: string)

  // ---- the order of the multimap

  /** `std::string` less-than. */
  predicate Less(a: string, b: string) {
    b != "" && (a == "" || a[0] < b[0] || (a[0] == b[0] && Less(a[1..], b[1..])))
  }

  lemma {:induction false} LessIrreflexive(a: string)
    ensures !Less(a, a)
  {
    if a != "" {
      LessIrreflexive(a[1..]);
    }
  }

  lemma {:induction false} LessTrichotomy(a: string, b: string)
    requires !Less(a, b) && !Less(b, a)
    ensures a == b
  {
    if a != "" && b != "" {
      LessTrichotomy(a[1..], b[1..]);
      assert a == [a[0]] + a[1..] && b == [b[0]] + b[1..];
    }
  }

  lemma {:induction false} LessBelow(a: string, b: string, c: string)
    requires Less(a, c) && !Less(b, c)
    ensures Less(a, b)
  {
    if a != "" && b != "" && a[0] == c[0] && b[0] == c[0] {
      LessBelow(a[1..], b[1..], c[1..]);
    }
  }

  /** One string is less when, behind a common beginning, it has ended or has the smaller character. */
  lemma {:induction false} LessIff(a: string, b: string)
    ensures Less(a, b) <==> exists k: nat :: LessAt(a, b, k)
  {
    if a != "" && b != "" && a[0] == b[0] {
      LessIff(a[1..], b[1..]);
      if k: nat :| LessAt(a[1..], b[1..], k) {
        assert a[..k + 1] == [a[0]] + a[1..][..k] && b[..k + 1] == [b[0]] + b[1..][..k];
        assert LessAt(a, b, k + 1);
      }
      if k: nat :| LessAt(a, b, k) {
        assert k > 0;
        assert a[1..][..k - 1] == a[..k][1..] && b[1..][..k - 1] == b[..k][1..];
        assert LessAt(a[1..], b[1..], k - 1);
      }
    } else if Less(a, b) {
      assert LessAt(a, b, 0);
    }
  }

  predicate LessAt(a: string, b: string, k: nat) {
    k <= |a| && k < |b| && a[..k] == b[..k] && (k == |a| || a[k] < b[k])
  }

  ghost predicate Sorted(cs: seq<Child>) {
    forall i, j | 0 <= i < j < |cs| :: !Less(cs[j].name, cs[i].name)
  }

  /** The first entry from `i` on whose key is not less than `key`. */
  function LowerBound(cs: seq<Child>, key: string, i: nat): (r: nat)
    requires i <= |cs|
    ensures i <= r <= |cs| && forall j | i <= j < r :: Less(cs[j].name, key)
    ensures r < |cs| ==> !Less(cs[r].name, key)
    decreases |cs| - i
  {
    if i < |cs| && Less(cs[i].name, key) then LowerBound(cs, key, i + 1) else i
  }

  /** The first entry from `i` on whose key is greater than `key`. */
  function UpperBound(cs: seq<Child>, key: string, i: nat): (r: nat)
    requires i <= |cs|
    ensures i <= r <= |cs| && forall j | i <= j < r :: !Less(key, cs[j].name)
    ensures r < |cs| ==> Less(key, cs[r].name)
    decreases |cs| - i
  {
    if i < |cs| && !Less(key, cs[i].name) then UpperBound(cs, key, i + 1) else i
  }

  /** `equal_range`. */
  function EqualRange(cs: seq<Child>, key: string): (r: (nat, nat))
    ensures r.0 <= r.1 <= |cs|
  {
    var lo := LowerBound(cs, key, 0);
    (lo, UpperBound(cs, key, lo))
  }

  /** In a sorted multimap the equal range is where the key is. */
  lemma EqualRangeHoldsKey(cs: seq<Child>, key: string, i: nat)
    requires Sorted(cs) && i < |cs|
    ensures var (lo, hi) := EqualRange(cs, key); lo <= i < hi <==> cs[i].name == key
  {
    var (lo, hi) := EqualRange(cs, key);
    LessIrreflexive(key);
    if lo <= i < hi {
      if Less(cs[i].name, key) {
        LessBelow(cs[i].name, cs[lo].name, key);
      }
      LessTrichotomy(cs[i].name, key);
    }
  }

  // ---- what an identifier selects

  /** The owner asked for, when one is: a name before a node separator, not the wildcard. */
  predicate Active(id: ElemId) {
    && id.ext != "" && id.ext[|id.ext| - 1] == NODE_SEP
    && Owner(id) != "" && Owner(id) != ANY
  }

  function Owner(id: ElemId): string
    requires id.ext != ""
  {
    id.ext[..|id.ext| - 1]
  }

  /** A child passes the filter of the loops. */
  predicate Passes(id: ElemId, c: Child) {
    !c.removed && (Active(id) ==> c.owner == Owner(id))
  }

  /** The children asked for, by their place in the multimap: the specification of the iteration. */
  ghost function Selected(cs: seq<Child>, id: ElemId, i: nat): seq<nat>
    requires i <= |cs|
    decreases |cs| - i
  {
    if i == |cs| then []
    else
      (if (id.name == ANY || cs[i].name == id.name) && Passes(id, cs[i]) then [i] else [])
      + Selected(cs, id, i + 1)
  }

  // ---- the iterator as a value

  datatype Position = Position(iter: nat, end: bool)

  function Range(cs: seq<Child>, id: ElemId): (r: (nat, nat))
    ensures r.0 <= r.1 <= |cs|
  {
    if id.name == ANY then (0, |cs|) else EqualRange(cs, id.name)
  }

  /** The first passing child from `i` on within a range. */
  function NextPassing(cs: seq<Child>, id: ElemId, i: nat, hi: nat): (r: nat)
    requires i <= hi <= |cs|
    ensures i <= r <= hi && forall j | i <= j < r :: !Passes(id, cs[j])
    ensures r < hi ==> Passes(id, cs[r])
    decreases hi - i
  {
    if i < hi && !Passes(id, cs[i]) then NextPassing(cs, id, i + 1, hi) else i
  }

  lemma NextPassingIs(cs: seq<Child>, id: ElemId, i: nat, hi: nat, r: nat)
    requires i <= r <= hi <= |cs| && forall j | i <= j < r :: !Passes(id, cs[j])
    requires r < hi ==> Passes(id, cs[r])
    ensures NextPassing(cs, id, i, hi) == r
  {
  }

  function Begin(cs: seq<Child>, id: ElemId): Position {
    var (lo, hi) := Range(cs, id);
    Position(NextPassing(cs, id, lo, hi), false)
  }

  function End(cs: seq<Child>, id: ElemId): Position {
    Position(Range(cs, id).1, true)
  }

  function Next(cs: seq<Child>, id: ElemId, p: Position): Position
    requires p.iter < Range(cs, id).1
  {
    p.(iter := NextPassing(cs, id, p.iter + 1, Range(cs, id).1))
  }

  /** The children seen from position `p` until the range is exhausted. */
  ghost function Seen(cs: seq<Child>, id: ElemId, p: Position): seq<nat>
    requires p.iter <= Range(cs, id).1
    decreases Range(cs, id).1 - p.iter
  {
    if p.iter == Range(cs, id).1 then [] else [p.iter] + Seen(cs, id, Next(cs, id, p))
  }

  lemma {:induction false} SelectedSkips(cs: seq<Child>, id: ElemId, i: nat, j: nat)
    requires i <= j <= |cs|
    requires forall k | i <= k < j :: !((id.name == ANY || cs[k].name == id.name) && Passes(id, cs[k]))
    ensures Selected(cs, id, i) == Selected(cs, id, j)
    decreases j - i
  {
    if i < j {
      SelectedSkips(cs, id, i + 1, j);
    }
  }

  lemma RangeHoldsName(cs: seq<Child>, id: ElemId, i: nat)
    requires Sorted(cs) && i < |cs|
    ensures var (lo, hi) := Range(cs, id); lo <= i < hi <==> id.name == ANY || cs[i].name == id.name
  {
    EqualRangeHoldsKey(cs, id.name, i);
  }

  lemma {:induction false} SeenFrom(cs: seq<Child>, id: ElemId, p: Position)
    requires Sorted(cs) && Range(cs, id).0 <= p.iter <= Range(cs, id).1
    requires p.iter < Range(cs, id).1 ==> Passes(id, cs[p.iter])
    ensures Seen(cs, id, p) == Selected(cs, id, p.iter)
    decreases Range(cs, id).1 - p.iter
  {
    var (lo, hi) := Range(cs, id);
    forall k | 0 <= k < |cs| ensures lo <= k < hi <==> id.name == ANY || cs[k].name == id.name {
      RangeHoldsName(cs, id, k);
    }
    if p.iter == hi {
      SelectedSkips(cs, id, hi, |cs|);
    } else {
      var q := Next(cs, id, p);
      SeenFrom(cs, id, q);
      SelectedSkips(cs, id, p.iter + 1, q.iter);
    }
  }

  /**
   Taking the position until it reaches the end of the range visits, in order and once each, exactly
   the children with the requested name that are not removed and have the requested owner.
  */
  lemma IterationSelects(cs: seq<Child>, id: ElemId)
    requires Sorted(cs)
    ensures Begin(cs, id).iter <= Range(cs, id).1
    ensures Seen(cs, id, Begin(cs, id)) == Selected(cs, id, 0)
  {
    var (lo, hi) := Range(cs, id);
    forall k | 0 <= k < |cs| ensures lo <= k < hi <==> id.name == ANY || cs[k].name == id.name {
      RangeHoldsName(cs, id, k);
    }
    SeenFrom(cs, id, Begin(cs, id));
    SelectedSkips(cs, id, 0, Begin(cs, id).iter);
  }

  /** What `Selected` holds: ascending places, of exactly the children asked for. */
  lemma {:induction false} SelectedExact(cs: seq<Child>, id: ElemId, i: nat)
    requires i <= |cs|
    ensures forall k :: k in Selected(cs, id, i) <==>
      i <= k < |cs| && (id.name == ANY || cs[k].name == id.name) && Passes(id, cs[k])
    ensures forall a, b | 0 <= a < b < |Selected(cs, id, i)| :: Selected(cs, id, i)[a] < Selected(cs, id, i)[b]
    decreases |cs| - i
  {
    if i < |cs| {
      SelectedExact(cs, id, i + 1);
      var rest := Selected(cs, id, i + 1);
      assert forall a | 0 <= a < |rest| :: rest[a] in rest;
    }
  }

  /** What an iteration visits, in ascending order and once each, is given by `wanted`. */
  ghost predicate Visits(cs: seq<Child>, id: ElemId, wanted: Child -> bool) {
    var seen := Seen(cs, id, Begin(cs, id));
    && (forall k :: k in seen <==> 0 <= k < |cs| && wanted(cs[k]))
    && (forall a, b | 0 <= a < b < |seen| :: seen[a] < seen[b])
  }

  /**
   An owner before a node separator: the iteration visits the children of the name asked for that are
   not removed and have this owner.
  */
  lemma OwnerAsked(cs: seq<Child>, owner: string, name: string)
    requires Sorted(cs) && owner != "" && owner != ANY
    ensures Visits(cs, ElemId(owner + [NODE_SEP], PARENT_SEP, name), (c: Child) =>
      (name == ANY || c.name == name) && !c.removed && c.owner == owner)
  {
    var id := ElemId(owner + [NODE_SEP], PARENT_SEP, name);
    assert Active(id) && Owner(id) == owner;
    IterationSelects(cs, id);
    SelectedExact(cs, id, 0);
  }

  /** No extension, one that ends otherwise, or one without a name or with the wildcard: the owner does not matter. */
  lemma OwnerNotAsked(cs: seq<Child>, ext: string, name: string)
    requires Sorted(cs)
    requires ext == "" || ext[|ext| - 1] != NODE_SEP || ext == [NODE_SEP] || ext == ANY + [NODE_SEP]
    ensures Visits(cs, ElemId(ext, PARENT_SEP, name), (c: Child) => (name == ANY || c.name == name) && !c.removed)
  {
    var id := ElemId(ext, PARENT_SEP, name);
    assert !Active(id);
    IterationSelects(cs, id);
    SelectedExact(cs, id, 0);
  }

  /** The position `n` steps of PostIncr away, while the range lasts. */
  function Advanced(cs: seq<Child>, id: ElemId, n: nat): (p: Position)
    ensures p.iter <= Range(cs, id).1
  {
    if n == 0 then Begin(cs, id)
    else
      var p := Advanced(cs, id, n - 1);
      if p.iter < Range(cs, id).1 then Next(cs, id, p) else p
  }

  lemma SeenNext(cs: seq<Child>, id: ElemId, p: Position)
    requires p.iter < Range(cs, id).1
    ensures Seen(cs, id, p) == [p.iter] + Seen(cs, id, Next(cs, id, p))
  {
  }

  function From(s: seq<nat>, n: nat): seq<nat> {
    if n < |s| then s[n..] else []
  }

  lemma {:induction false} SeenAfter(cs: seq<Child>, id: ElemId, n: nat)
    ensures Seen(cs, id, Advanced(cs, id, n)) == From(Seen(cs, id, Begin(cs, id)), n)
  {
    var all := Seen(cs, id, Begin(cs, id));
    if n == 0 {
      assert From(all, 0) == all;
    } else {
      SeenAfter(cs, id, n - 1);
      var p := Advanced(cs, id, n - 1);
      if p.iter < Range(cs, id).1 {
        SeenNext(cs, id, p);
        assert From(all, n) == From(all, n - 1)[1..];
      }
    }
  }

  /** After `n` increments the iterator stands at the child that was asked for as number `n`, or at the end. */
  lemma NthElement(cs: seq<Child>, id: ElemId, n: nat)
    requires Sorted(cs)
    ensures var all, p := Selected(cs, id, 0), Advanced(cs, id, n);
      if n < |all| then p.iter == all[n] < Range(cs, id).1 else p.iter == Range(cs, id).1
  {
    IterationSelects(cs, id);
    SeenAfter(cs, id, n);
    var all, p := Selected(cs, id, 0), Advanced(cs, id, n);
    if n < |all| {
      assert Seen(cs, id, p)[0] == all[n];
    }
  }

  /**
   The comparison with the end iterator never succeeds, not even when the range is exhausted: the
   flag of a begin iterator stays false, that of the end iterator is true.
  */
  lemma {:induction false} NeverEqualsEnd(cs: seq<Child>, id: ElemId, n: nat)
    ensures Advanced(cs, id, n) != End(cs, id)
    ensures Begin(cs, id).iter + n >= Range(cs, id).1 ==> Advanced(cs, id, n).iter == End(cs, id).iter
  {
    NeverEqualsEndFrom(cs, id, n);
  }

  lemma {:induction false} NeverEqualsEndFrom(cs: seq<Child>, id: ElemId, n: nat)
    ensures !Advanced(cs, id, n).end
    ensures Advanced(cs, id, n).iter >= 
      if Begin(cs, id).iter + n < Range(cs, id).1 then Begin(cs, id).iter + n else Range(cs, id).1
  {
    if n > 0 {
      NeverEqualsEndFrom(cs, id, n - 1);
    }
  }

  // ---- the node relation

  /** A parent is asked for: a name before a parent separator, not the wildcard. */
  predicate AsksParent(id: ElemId) {
    id.ext != "" && id.ext[|id.ext| - 1] == PARENT_SEP && Owner(id) != "" && Owner(id) != ANY
  }

  /** A parent is asked for exactly by a name before a parent separator. */
  lemma ParentAsked(parent: string, ext: string, name: string)
    requires parent != "" && parent != ANY
    ensures AsksParent(ElemId(parent + [PARENT_SEP], NODE_SEP, name))
    ensures ext == "" || ext[|ext| - 1] != PARENT_SEP || ext == [PARENT_SEP] || ext == ANY + [PARENT_SEP] ==>
      !AsksParent(ElemId(ext, NODE_SEP, name))
  {
    assert Owner(ElemId(parent + [PARENT_SEP], NODE_SEP, name)) == parent;
  }

  /** What GetElem gives. */
  datatype Elem = Null | Root | OfChild(child: Child)

  /** The flag a node iterator is constructed with; `root` is the name of the remote root. */
  function NodeFlag(id: ElemId, root: Option<string>, toEnd: bool): bool {
    toEnd || (AsksParent(id) && root.None?)
  }

  /** The elements a begin iterator gives until its flag is set. */
  function NodeSeen(id: ElemId, root: Option<string>): seq<Elem> {
    if NodeFlag(id, root, false) then [] else [if root.Some? then Root else Null]
  }

  /** What the identifier asks for, parents aside. */
  function NodeAskedFor(id: ElemId, root: Option<string>): seq<Elem> {
    if root.Some? && (id.name == ANY || root.value == id.name) then [Root] else []
  }

  /**
   The name is compared and then overwritten: with a root there, the node relation gives what is asked
   for exactly when the name happens to be right. Without one it gives a null element, unless a parent
   is asked for.
  */
  lemma NodeRelationIff(id: ElemId, root: Option<string>)
    requires root.Some? ==> !AsksParent(id)  // the source asks the null parent of the root for its name
    ensures NodeSeen(id, root) == NodeAskedFor(id, root) <==>
      if root.Some? then id.name == ANY || root.value == id.name else AsksParent(id)
  {
    if NodeSeen(id, root) == NodeAskedFor(id, root) && root.Some? {
      assert NodeSeen(id, root)[0] == Root;
    }
  }

  // ---- the iterator as an object

  class CompsIter {
    const iChilds: seq<Child>
    const iRoot: Option<string>  // the name that mRroot answers with, when there is one
    const iId: ElemId
    var iExtsrel: char
    var iExt: string
    var iChildsIter: nat
    var iChildsRange: (nat, nat)
    var mEnd: bool

    ghost predicate Valid()
      reads this
    {
      && (iId.rel == PARENT_SEP ==> iChildsRange == Range(iChilds, iId) && iChildsIter <= iChildsRange.1)
      && iExt == (if iId.ext != "" && (iExtsrel == NODE_SEP || iExtsrel == PARENT_SEP) then Owner(iId) else "")
      && (iId.ext != "" ==> iExtsrel == iId.ext[|iId.ext| - 1])
    }

    ghost function Value(): Position
      reads this
    {
      Position(iChildsIter, mEnd)
    }

    predicate Filtering()
      reads this
    {
      !(iId.ext == "" || iExtsrel != NODE_SEP || iExt == "" || iExt == ANY)
    }

    predicate FilteringParent()
      reads this
    {
      !(iId.ext == "" || iExtsrel != PARENT_SEP || iExt == "" || iExt == ANY)
    }

    /** In the node relation the source asks the root for its parent, which is null, if the identifier has one. */
    constructor (childs: seq<Child>, root: Option<string>, id: ElemId, toEnd: bool)
      requires id.rel == NODE_SEP && !toEnd && root.Some? ==> !AsksParent(id)
      ensures Valid() && iChilds == childs && iRoot == root && iId == id
      ensures id.rel == PARENT_SEP ==> Value() == if toEnd then End(childs, id) else Begin(childs, id)
      ensures id.rel == NODE_SEP ==> mEnd == NodeFlag(id, root, toEnd)
    {
      iChilds, iRoot, iId, mEnd := childs, root, id, toEnd;
      iExtsrel := '\0';  // not initialised in the source; not read while the extension is empty
      iExt, iChildsIter, iChildsRange := "", 0, (0, 0);
      new;
      if iId.ext != "" {
        iExtsrel := iId.ext[|iId.ext| - 1];
        if iExtsrel == PARENT_SEP || iExtsrel == NODE_SEP {
          iExt := iId.ext[..|iId.ext| - 1];
        }
      }
      if iId.rel == NODE_SEP {
        StartNode(toEnd);
      } else if iId.rel == PARENT_SEP {
        iChildsRange := if iId.name == ANY then (0, |iChilds|) else EqualRange(iChilds, iId.name);
        iChildsIter := if toEnd then iChildsRange.1 else iChildsRange.0;
        if !toEnd {
          if !Filtering() {
            SkipRemoved();
          } else {
            SkipToOwned();
          }
          NextPassingIs(iChilds, iId, iChildsRange.0, iChildsRange.1, iChildsIter);
        }
      }
    }

    /** The branch of the constructor for the node relation. */
    method StartNode(toEnd: bool)
      requires Valid() && iId.rel == NODE_SEP && (!toEnd && iRoot.Some? ==> !AsksParent(iId))
      modifies this`mEnd
      ensures Valid() && mEnd == NodeFlag(iId, iRoot, toEnd)
    {
      if iId.name == ANY {
        mEnd := false;
      } else {
        mEnd := if iRoot.None? then true else iRoot.value == iId.name;
      }
      if toEnd {
        mEnd := toEnd;
      } else if !FilteringParent() {
        mEnd := false;
      } else {
        mEnd := true;  // there is no root
      }
    }

    /** The loop that omits removed children. */
    method SkipRemoved()
      requires Valid() && iId.rel == PARENT_SEP
      modifies this`iChildsIter
      ensures Valid() && old(iChildsIter) <= iChildsIter
      ensures forall j | old(iChildsIter) <= j < iChildsIter :: iChilds[j].removed
      ensures iChildsIter < iChildsRange.1 ==> !iChilds[iChildsIter].removed
    {
      while iChildsIter != iChildsRange.1 && iChilds[iChildsIter].removed
        invariant old(iChildsIter) <= iChildsIter <= iChildsRange.1
        invariant forall j | old(iChildsIter) <= j < iChildsIter :: iChilds[j].removed
        decreases iChildsRange.1 - iChildsIter
      {
        iChildsIter := iChildsIter + 1;
      }
    }

    /** The loop that looks for the owner. */
    method SkipToOwned()
      requires Valid() && iId.rel == PARENT_SEP && Filtering()
      modifies this`iChildsIter
      ensures Valid() && old(iChildsIter) <= iChildsIter
      ensures forall j | old(iChildsIter) <= j < iChildsIter :: !Passes(iId, iChilds[j])
      ensures iChildsIter < iChildsRange.1 ==> Passes(iId, iChilds[iChildsIter])
    {
      while iChildsIter != iChildsRange.1
        invariant old(iChildsIter) <= iChildsIter <= iChildsRange.1
        invariant forall j | old(iChildsIter) <= j < iChildsIter :: !Passes(iId, iChilds[j])
        decreases iChildsRange.1 - iChildsIter
      {
        if iChilds[iChildsIter].owner == iExt && !iChilds[iChildsIter].removed {
          break;
        }
        iChildsIter := iChildsIter + 1;
      }
    }

    method PostIncr()
      requires Valid() && (iId.rel == NODE_SEP || (iId.rel == PARENT_SEP && iChildsIter < iChildsRange.1))
      modifies this`iChildsIter, this`mEnd
      ensures Valid()
      ensures iId.rel == NODE_SEP ==> mEnd && iChildsIter == old(iChildsIter)
      ensures iId.rel == PARENT_SEP ==>
        && Value() == Next(iChilds, iId, old(Value()))
        && iChildsRange.1 - iChildsIter < old(iChildsRange.1 - iChildsIter)
    {
      if iId.rel == NODE_SEP {
        mEnd := true;
      } else {
        ghost var from := iChildsIter + 1;
        iChildsIter := iChildsIter + 1;
        SkipRemoved();
        if Filtering() {
          SkipToOwned();
        }
        NextPassingIs(iChilds, iId, from, iChildsRange.1, iChildsIter);
      }
    }

    /** Iterators of the same agent are equal when identifier, position and flag are. */
    predicate IsEqual(other: CompsIter)
      reads this, other
    {
      iId == other.iId && iChildsIter == other.iChildsIter && mEnd == other.mEnd
    }

    /**
     The element: in the child relation, after `n` increments, the child asked for as number `n`; in the
     node relation what a begin iterator gives, while its flag is not set.
    */
    method GetElem() returns (res: Elem)
      requires Valid() && (iId.rel == PARENT_SEP ==> iChildsIter < iChildsRange.1)
      ensures iId.rel == PARENT_SEP ==> res == OfChild(iChilds[iChildsIter])
      ensures iId.rel == PARENT_SEP && Sorted(iChilds) ==> forall n: nat | Value() == Advanced(iChilds, iId, n) ::
        n < |Selected(iChilds, iId, 0)| && iChildsIter == Selected(iChilds, iId, 0)[n]
      ensures iId.rel == NODE_SEP && !mEnd && (iRoot.Some? ==> !AsksParent(iId)) && !NodeFlag(iId, iRoot, false) ==>
        NodeSeen(iId, iRoot) == [res]
      ensures iId.rel != PARENT_SEP && (iId.rel != NODE_SEP || mEnd) ==> res == Null
    {
      if iId.rel == PARENT_SEP && Sorted(iChilds) {
        forall n: nat | Value() == Advanced(iChilds, iId, n)
          ensures n < |Selected(iChilds, iId, 0)| && iChildsIter == Selected(iChilds, iId, 0)[n]
        {
          NthElement(iChilds, iId, n);
        }
      }
      res := Null;
      if iId.rel == NODE_SEP {
        if !mEnd && iRoot.Some? {
          res := Root;
        }
      } else if iId.rel == PARENT_SEP {
        res := OfChild(iChilds[iChildsIter]);
      }
    }
  }

  /** Two begin iterators of an agent for the same identifier that have been incremented as often are equal. */
  lemma SameStepsEqual(it: CompsIter, other: CompsIter, n: nat)
    requires it.iChilds == other.iChilds && it.iId == other.iId
    requires it.Value() == Advanced(it.iChilds, it.iId, n) && other.Value() == Advanced(other.iChilds, other.iId, n)
    ensures it.IsEqual(other)
  {
  }

  /** The flags decide: no begin iterator of an agent ever equals its end iterator. */
  lemma FlagsDiffer(it: CompsIter, end: CompsIter, n: nat)
    requires it.iChilds == end.iChilds && it.iId == end.iId
    requires it.Value() == Advanced(it.iChilds, it.iId, n) && end.Value() == End(end.iChilds, end.iId)
    ensures !it.IsEqual(end)
  {
    NeverEqualsEnd(it.iChilds, it.iId, n);
  }
}
