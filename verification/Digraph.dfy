/** Paths, closed cycles and finishing orders. */
module Digraph {
  datatype RelationshipEdge = RelationshipEdge(from: string, to: string, relationship: string)

  predicate HasEdge(edges: seq<RelationshipEdge>, u: string, v: string) {
    exists k :: 0 <= k < |edges| && edges[k].from == u && edges[k].to == v
  }

  predicate Linked(edges: seq<RelationshipEdge>, p: seq<string>) {
    forall k :: 0 <= k < |p| - 1 ==> HasEdge(edges, p[k], p[k + 1])
  }

  predicate NoDup<T(==)>(s: seq<T>) {
    forall j, k :: 0 <= j < k < |s| ==> s[j] != s[k]
  }

  /** A simple cycle written with its first node repeated at the end. */
  predicate ClosedCycle(edges: seq<RelationshipEdge>, c: seq<string>) {
    && |c| >= 2 && c[0] == c[|c| - 1]
    && NoDup(c[..|c| - 1])
    && Linked(edges, c)
  }

  /** A closed walk: like a closed cycle, but it may cross itself. */
  predicate ClosedWalk(edges: seq<RelationshipEdge>, c: seq<string>) {
    |c| >= 2 && c[0] == c[|c| - 1] && Linked(edges, c)
  }

  /** A path from one of the starting nodes ends in v. */
  ghost predicate Reached(edges: seq<RelationshipEdge>, starts: set<string>, v: string) {
    exists p: seq<string> :: ReachedBy(edges, starts, v, p)
  }

  ghost predicate ReachedBy(edges: seq<RelationshipEdge>, starts: set<string>, v: string, p: seq<string>) {
    p != [] && p[0] in starts && p[|p| - 1] == v && Linked(edges, p)
  }

  /** Two closed cycles run through the same nodes in the same order, from different starting points. */
  ghost predicate Rotation(c: seq<string>, d: seq<string>) {
    && |c| == |d| >= 2
    && exists k :: 0 <= k < |c| - 1 && d[..|d| - 1] == c[k..|c| - 1] + c[..k]
  }

  /** The edge u -> v is the last one of a listed cycle. */
  ghost predicate Closes(cycles: seq<seq<string>>, u: string, v: string) {
    exists k :: 0 <= k < |cycles| && ClosesOne(cycles[k], u, v)
  }

  predicate ClosesOne(c: seq<string>, u: string, v: string) {
    |c| >= 2 && c[|c| - 2] == u && c[|c| - 1] == v
  }

  lemma LinkedSlice(edges: seq<RelationshipEdge>, p: seq<string>, i: nat)
    requires Linked(edges, p) && i < |p|
    ensures Linked(edges, p[i..])
  {
    forall k | 0 <= k < |p[i..]| - 1 ensures HasEdge(edges, p[i..][k], p[i..][k + 1]) {
      assert HasEdge(edges, p[i + k], p[i + k + 1]);
    }
  }

  lemma LinkedMore(edges: seq<RelationshipEdge>, p: seq<string>, v: string)
    requires p != [] && Linked(edges, p) && HasEdge(edges, p[|p| - 1], v)
    ensures Linked(edges, p + [v])
  {
    var q := p + [v];
    forall k | 0 <= k < |q| - 1 ensures HasEdge(edges, q[k], q[k + 1]) {
      if k < |p| - 1 { assert HasEdge(edges, p[k], p[k + 1]); }
    }
  }

  // ---------------------------------------------------------------- finishing order

  /** Every edge out of a listed node leads to an earlier one, or closes a listed cycle. */
  ghost predicate Settled(edges: seq<RelationshipEdge>, cycles: seq<seq<string>>, finished: seq<string>) {
    forall k, v :: 0 <= k < |finished| && HasEdge(edges, finished[k], v) ==>
      v in finished[..k] || Closes(cycles, finished[k], v)
  }

  ghost predicate SomeEdgeCloses(cycles: seq<seq<string>>, w: seq<string>) {
    exists j :: 0 <= j < |w| - 1 && Closes(cycles, w[j], w[j + 1])
  }

  /** A walk that uses no closing edge only ever moves to earlier finished nodes. */
  lemma {:induction false} WalkDescends(edges: seq<RelationshipEdge>, cycles: seq<seq<string>>,
      finished: seq<string>, w: seq<string>, k: nat)
    requires Settled(edges, cycles, finished) && Linked(edges, w) && w != []
    requires k < |finished| && finished[k] == w[0] && !SomeEdgeCloses(cycles, w)
    ensures exists m :: 0 <= m <= k && finished[m] == w[|w| - 1] && (|w| > 1 ==> m < k)
    decreases |w|
  {
    if |w| > 1 {
      assert HasEdge(edges, w[0], w[1]);
      assert !Closes(cycles, w[0], w[1]);
      var m :| 0 <= m < k && finished[m] == w[1];
      LinkedSlice(edges, w, 1);
      assert forall j :: 0 <= j < |w| - 1 ==> !Closes(cycles, w[j], w[j + 1]);
      forall j | 0 <= j < |w[1..]| - 1 ensures !Closes(cycles, w[1..][j], w[1..][j + 1]) {
        assert !Closes(cycles, w[j + 1], w[j + 2]);
      }
      WalkDescends(edges, cycles, finished, w[1..], m);
    }
  }

  /** Removing the closing edges of the listed cycles leaves the finished part of the graph acyclic. */
  lemma ClosedWalkBroken(edges: seq<RelationshipEdge>, cycles: seq<seq<string>>, finished: seq<string>, w: seq<string>)
    requires Settled(edges, cycles, finished) && NoDup(finished)
    requires ClosedWalk(edges, w) && w[0] in finished
    ensures SomeEdgeCloses(cycles, w)
  {
    if !SomeEdgeCloses(cycles, w) {
      var k :| 0 <= k < |finished| && finished[k] == w[0];
      WalkDescends(edges, cycles, finished, w, k);
    }
  }

  /** The finished nodes are all that can be reached, once they include the starting nodes. */
  lemma {:induction false} FinishedIsClosed(edges: seq<RelationshipEdge>, starts: set<string>,
      finished: set<string>, v: string, p: seq<string>)
    requires starts <= finished
    requires forall e :: e in edges && e.from in finished ==> e.to in finished
    requires ReachedBy(edges, starts, v, p)
    ensures v in finished
    decreases |p|
  {
    if |p| > 1 {
      var n := |p| - 1;
      assert HasEdge(edges, p[n - 1], p[n]);
      forall k | 0 <= k < n - 1 ensures HasEdge(edges, p[..n][k], p[..n][k + 1]) {
        assert HasEdge(edges, p[k], p[k + 1]);
      }
      FinishedIsClosed(edges, starts, finished, p[n - 1], p[..n]);
      var k :| 0 <= k < |edges| && edges[k].from == p[n - 1] && edges[k].to == p[n];
      assert edges[k] in edges;
    }
  }

  // ---------------------------------------------------------------- rotations

  /** The first node has the smallest rank of the cycle. */
  ghost predicate StartsFirst(rank: map<string, nat>, c: seq<string>) {
    && (forall k :: 0 <= k < |c| ==> c[k] in rank)
    && forall k :: 0 < k < |c| - 1 ==> rank[c[0]] < rank[c[k]]
  }

  /** Cycles that start at their lowest-ranked node are rotations of each other only when equal. */
  lemma FirstStartFixesRotation(edges: seq<RelationshipEdge>, rank: map<string, nat>, c: seq<string>, d: seq<string>)
    requires ClosedCycle(edges, c) && ClosedCycle(edges, d) && StartsFirst(rank, c) && StartsFirst(rank, d)
    requires Rotation(c, d)
    ensures c == d
  {
    var n := |c| - 1;
    var k :| 0 <= k < n && d[..n] == c[k..n] + c[..k];
    assert d[..n][0] == d[0] && d[..n][if k > 0 then n - k else 0] == c[0];
    assert k == 0;
    assert d[..n] == c[..n];
    assert d == d[..n] + [d[n]] && c == c[..n] + [c[n]];
    assert d[0] == d[..n][0] && c[0] == c[..n][0];
  }
}
