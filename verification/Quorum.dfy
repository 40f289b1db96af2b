/** Quorum arithmetic and the proposer rotation of `src/consensus.rs`. */
module Quorum {
  import opened Words
  import opened Sequences
  import opened Ledger

  /** `quorum_for` */
  function QuorumFor(n: nat): nat {
    (2 * n) / 3 + 1
  }

  /** The most faulty validators among `n` that the protocol is meant for. */
  function Tolerated(n: nat): nat
    requires n >= 1
  {
    (n - 1) / 3
  }

  /** A quorum is everyone but the tolerated faulty ones, so the correct validators
      can always gather one, and no larger group. */
  lemma QuorumLeavesOutTolerated(n: nat)
    requires n >= 1
    ensures QuorumFor(n) == n - Tolerated(n)
  {
    var k := n / 3;
    assert n == 3 * k || n == 3 * k + 1 || n == 3 * k + 2;
  }

  lemma UnionSize<T>(a: set<T>, b: set<T>)
    ensures |a + b| + |a * b| == |a| + |b|
  {
    assert a + b == a + (b - a) && b == (b - a) + (a * b);
  }

  /** Any two quorums of the same validators share more than a third of them. */
  lemma QuorumsIntersect<T>(all: set<T>, a: set<T>, b: set<T>)
    requires a <= all && b <= all
    requires |a| >= QuorumFor(|all|) && |b| >= QuorumFor(|all|)
    ensures |a * b| >= |all| / 3 + 1
  {
    UnionSize(a, b);
    SubsetSize(a + b, all);
  }

  /** Any two groups of at least `q` validators share a correct one. */
  ghost predicate AlwaysMeet<T(!new)>(all: set<T>, faulty: set<T>, q: nat) {
    forall a: set<T>, b: set<T> :: a <= all && b <= all && |a| >= q && |b| >= q ==>
      exists x :: x in a && x in b && x !in faulty
  }

  lemma GroupsShareCorrect<T>(all: set<T>, faulty: set<T>, q: nat, a: set<T>, b: set<T>) returns (x: T)
    requires 2 * q > |all| + |faulty|
    requires a <= all && b <= all && |a| >= q && |b| >= q
    ensures x in a && x in b && x !in faulty
  {
    UnionSize(a, b);
    SubsetSize(a + b, all);
    if a * b <= faulty {
      SubsetSize(a * b, faulty);
    }
    x :| x in a * b && x !in faulty;
  }

  lemma Pick<T>(s: set<T>, k: nat) returns (part: set<T>)
    requires k <= |s|
    ensures part <= s && |part| == k
  {
    if k == 0 {
      part := {};
    } else {
      var x :| x in s;
      var rest := Pick(s - {x}, k - 1);
      part := rest + {x};
    }
  }

  /** Where the threshold is too small, two groups share faulty validators only. */
  lemma DividingGroups<T>(all: set<T>, faulty: set<T>, q: nat) returns (a: set<T>, b: set<T>)
    requires faulty <= all && 2 * q <= |all| + |faulty|
    ensures a <= all && b <= all && |a| >= q && |b| >= q && a * b <= faulty
  {
    if q <= |faulty| {
      a, b := faulty, faulty;
    } else {
      var correct := all - faulty;
      assert all == correct + faulty;
      var half := Pick(correct, q - |faulty|);
      a, b := faulty + half, faulty + (correct - half);
      assert |correct - half| == |correct| - |half|;
    }
  }

  /** The exact size from which two groups always share a correct validator. */
  lemma GroupsMeetExactly<T(!new)>(all: set<T>, faulty: set<T>, q: nat)
    requires faulty <= all
    ensures AlwaysMeet(all, faulty, q) <==> 2 * q > |all| + |faulty|
  {
    if 2 * q > |all| + |faulty| {
      forall a: set<T>, b: set<T> | a <= all && b <= all && |a| >= q && |b| >= q
        ensures exists x :: x in a && x in b && x !in faulty
      {
        var x := GroupsShareCorrect(all, faulty, q, a, b);
      }
    } else {
      var a, b := DividingGroups(all, faulty, q);
      assert forall x :: x in a && x in b ==> x in a * b;
    }
  }

  /** Quorums are large enough for the tolerated number of faulty validators. */
  lemma QuorumSuffices(n: nat, faulty: nat)
    requires n >= 1 && faulty <= Tolerated(n)
    ensures 2 * QuorumFor(n) > n + faulty
  {
    QuorumLeavesOutTolerated(n);
  }

  /** So two quorums share a validator that is not faulty. */
  lemma QuorumsShareCorrect<T>(all: set<T>, faulty: set<T>, a: set<T>, b: set<T>) returns (x: T)
    requires all != {} && |faulty| <= Tolerated(|all|)
    requires a <= all && b <= all
    requires |a| >= QuorumFor(|all|) && |b| >= QuorumFor(|all|)
    ensures x in a && x in b && x !in faulty
  {
    QuorumSuffices(|all|, |faulty|);
    x := GroupsShareCorrect(all, faulty, QuorumFor(|all|), a, b);
  }

  /** One signature less would do exactly when the number of validators is a
      multiple of three. */
  lemma QuorumLeastExactly(n: nat)
    requires n >= 1
    ensures 2 * (QuorumFor(n) - 1) > n + Tolerated(n) <==> n % 3 == 0
  {
    var k := n / 3;
    assert n == 3 * k || n == 3 * k + 1 || n == 3 * k + 2;
  }

  // ----------------------------------------------------------------- rotation

  /** `proposer_for`: round robin over the active validators in key order. */
  function ProposerFor(active: set<Key>, height: nat): Option<Key> {
    if active == {} then None else Some(Ascending(active)[height % |active|])
  }

  lemma SlotHeight(start: nat, n: nat, slot: nat) returns (height: nat)
    requires slot < n
    ensures start <= height < start + n && height % n == slot
    ensures forall h :: start <= h < start + n && h % n == slot ==> h == height
  {
    var q, r := start / n, start % n;
    assert start == q * n + r;
    height := if r <= slot then q * n + slot else (q + 1) * n + slot;
    assert (q + 1) * n == q * n + n by { NextMultiple(q, n); }
    Residue(height, n, if r <= slot then q else q + 1, slot);
    forall h | start <= h < start + n && h % n == slot ensures h == height {
      SameResidue(h, height, n);
    }
  }

  lemma SameResidue(x: nat, y: nat, n: nat)
    requires n > 0 && x % n == y % n && x < y + n && y < x + n
    ensures x == y
  {
    assert x == (x / n) * n + x % n && y == (y / n) * n + y % n;
    assert (x / n - y / n) * n == x - y;
    NoSmallMultiple(x / n - y / n, n);
  }

  /** Among any |active| consecutive heights each active validator is the
      proposer of exactly one. */
  lemma RotationFair(active: set<Key>, start: nat, who: Key) returns (height: nat)
    requires who in active
    ensures start <= height < start + |active| && ProposerFor(active, height) == Some(who)
    ensures forall h :: start <= h < start + |active| && ProposerFor(active, h) == Some(who) ==> h == height
  {
    var order := Ascending(active);
    assert who in order;
    var slot :| 0 <= slot < |order| && order[slot] == who;
    height := SlotHeight(start, |active|, slot);
    forall h | start <= h < start + |active| && ProposerFor(active, h) == Some(who) ensures h == height {
      ModInRange(h, |active|);
      assert order[h % |active|] == order[slot];
    }
  }

  lemma ModInRange(h: nat, n: nat)
    requires n > 0
    ensures 0 <= h % n < n
  {}
}
