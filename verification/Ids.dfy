/** Sequences of small numbers: the session ids of the registry, in registry order. */
module Ids {

  function Upto(n: nat): (s: seq<nat>)
    ensures |s| == n && forall i | 0 <= i < n :: s[i] == i
  {
    seq(n, i => i)
  }

  /** Every id below the number of entries occurs. */
  ghost predicate Covers(ids: seq<nat>) {
    forall j: nat | j < |ids| :: j in ids
  }

  /** Some id below `k` does not occur. */
  ghost predicate Hole(ids: seq<nat>, k: nat) {
    exists j: nat :: j < k && j !in ids
  }

  /** All but entry `i`; the entries behind it move up, and none overtakes another. */
  function Without(s: seq<nat>, i: nat): (r: seq<nat>)
    requires i < |s|
    ensures |r| == |s| - 1 && forall j | 0 <= j < |r| :: r[j] == s[if j < i then j else j + 1]
  {
    s[..i] + s[i + 1..]
  }

  lemma WithoutMultiset(s: seq<nat>, i: nat)
    requires i < |s|
    ensures multiset(Without(s, i)) == multiset(s) - multiset{s[i]}
  {
    assert s == s[..i] + [s[i]] + s[i + 1..];
  }

  /** Without its largest id, a covering sequence still covers. */
  lemma CoversWithoutLast(ids: seq<nat>, i: nat)
    requires Covers(ids) && i < |ids| && ids[i] == |ids| - 1
    ensures Covers(Without(ids, i))
  {
    var rest := Without(ids, i);
    forall j: nat | j < |rest| ensures j in rest {
      assert j in ids;
      var k :| 0 <= k < |ids| && ids[k] == j;
      assert rest[if k < i then k else k - 1] == j;
    }
  }

  lemma {:induction false} CoversMultiset(ids: seq<nat>)
    requires Covers(ids)
    ensures multiset(ids) == multiset(Upto(|ids|))
  {
    if ids != [] {
      var n: nat := |ids| - 1;
      assert n in ids;
      var i :| 0 <= i < |ids| && ids[i] == n;
      CoversWithoutLast(ids, i);
      CoversMultiset(Without(ids, i));
      WithoutMultiset(ids, i);
      UptoNext(n);
      assert ids[i] in multiset(ids);
    }
  }

  lemma UptoNext(n: nat)
    ensures multiset(Upto(n + 1)) == multiset(Upto(n)) + multiset{n}
  {
    assert Upto(n + 1) == Upto(n) + [n];
  }

  /** To cover 0..n-1 is to be a permutation of it. */
  lemma CoversIffPermutation(ids: seq<nat>)
    ensures Covers(ids) <==> multiset(ids) == multiset(Upto(|ids|))
  {
    if Covers(ids) {
      CoversMultiset(ids);
    } else {
      var j: nat :| j < |ids| && j !in ids;
      assert Upto(|ids|)[j] == j;
      assert j in multiset(Upto(|ids|)) && j !in multiset(ids);
    }
  }

  lemma CoversBounded(ids: seq<nat>, i: nat)
    requires Covers(ids) && i < |ids|
    ensures ids[i] < |ids|
  {
    CoversMultiset(ids);
    assert ids[i] in multiset(ids);
    assert ids[i] in Upto(|ids|);
  }

  lemma UptoDistinct(n: nat, k: nat)
    ensures multiset(Upto(n))[k] <= 1
  {
    if n > 0 {
      assert Upto(n) == Upto(n - 1) + [n - 1];
      UptoDistinct(n - 1, k);
      assert n - 1 !in Upto(n - 1);
    }
  }

  lemma CoversDistinct(ids: seq<nat>, i: nat, j: nat)
    requires Covers(ids) && i < j < |ids|
    ensures ids[i] != ids[j]
  {
    CoversMultiset(ids);
    UptoDistinct(|ids|, ids[i]);
    assert ids == ids[..j] + [ids[j]] + ids[j + 1..];
    assert ids[..j][i] == ids[i];
    assert ids[i] in multiset(ids[..j]);
  }

  /** Pigeonhole: an id as large as the number of entries leaves a smaller one out. */
  lemma LargeIdLeavesHole(ids: seq<nat>, i: nat)
    requires i < |ids| && ids[i] >= |ids|
    ensures Hole(ids, |ids|)
  {
    if Covers(ids) {
      CoversBounded(ids, i);
      assert false;
    }
  }
}
