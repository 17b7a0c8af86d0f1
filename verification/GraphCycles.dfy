/** findCircularDependencies. */
module GraphCycles {
  import opened Delimited
  import opened Digraph
  import opened TextOrder

  function Outgoing(edges: seq<RelationshipEdge>, node: string): (r: seq<RelationshipEdge>)
    ensures forall e :: e in r <==> e in edges && e.from == node
  {
    if edges == [] then []
    else (if edges[0].from == node then [edges[0]] else []) + Outgoing(edges[1..], node)
  }

  function Universe(edges: seq<RelationshipEdge>, starts: set<string>): set<string> {
    starts + (set e | e in edges :: e.to)
  }

  /** The recursion stack is the path: distinct visited nodes, linked, from a start, in discovery order. */
  ghost predicate StackOk(edges: seq<RelationshipEdge>, starts: set<string>, stack: seq<string>,
      recursionStack: set<string>, rank: map<string, nat>)
  {
    && (forall v :: v in recursionStack <==> v in stack)
    && (forall k :: 0 <= k < |stack| ==> stack[k] in rank)
    && (forall j, k :: 0 <= j < k < |stack| ==> rank[stack[j]] < rank[stack[k]])
    && Linked(edges, stack)
    && (stack != [] ==> stack[0] in starts)
  }

  /** Ranks number the visited nodes in discovery order. */
  ghost predicate RankOk(edges: seq<RelationshipEdge>, starts: set<string>, visited: set<string>,
      rank: map<string, nat>)
  {
    && rank.Keys == visited <= Universe(edges, starts)
    && (forall v :: v in rank ==> rank[v] < |rank| && Reached(edges, starts, v))
  }

  /** The finished nodes are the visited ones that are not on the stack, each listed once. */
  ghost predicate FinishedOk(visited: set<string>, stack: seq<string>, finished: seq<string>) {
    && (forall v :: v in finished <==> v in visited && v !in stack)
    && NoDup(finished)
  }

  ghost predicate CyclesOk(edges: seq<RelationshipEdge>, rank: map<string, nat>, cycles: seq<seq<string>>) {
    forall k :: 0 <= k < |cycles| ==> ClosedCycle(edges, cycles[k]) && StartsFirst(rank, cycles[k])
  }

  lemma EnterStack(edges: seq<RelationshipEdge>, starts: set<string>, stack: seq<string>, node: string,
      recursionStack: set<string>, rank: map<string, nat>)
    requires StackOk(edges, starts, stack, recursionStack, rank) && node !in rank
    requires forall v :: v in rank ==> rank[v] < |rank|
    requires Linked(edges, stack + [node]) && (stack + [node])[0] in starts
    ensures StackOk(edges, starts, stack + [node], recursionStack + {node}, rank[node := |rank|])
  {
    var path, after := stack + [node], rank[node := |rank|];
    assert forall k :: 0 <= k < |stack| ==> path[k] == stack[k] && after[path[k]] == rank[stack[k]];
    assert path[|stack|] == node;
  }

  lemma EnterRank(edges: seq<RelationshipEdge>, starts: set<string>, stack: seq<string>, node: string,
      visited: set<string>, rank: map<string, nat>)
    requires RankOk(edges, starts, visited, rank) && node !in visited && node in Universe(edges, starts)
    requires Linked(edges, stack + [node]) && (stack + [node])[0] in starts
    ensures RankOk(edges, starts, visited + {node}, rank[node := |rank|])
  {
    assert ReachedBy(edges, starts, node, stack + [node]);
    var after := rank[node := |rank|];
    assert after.Keys == rank.Keys + {node};
    assert |after| == |after.Keys| && |rank| == |rank.Keys|;
  }

  lemma RanksStay(edges: seq<RelationshipEdge>, cycles: seq<seq<string>>, rank: map<string, nat>, node: string, r: nat)
    requires CyclesOk(edges, rank, cycles) && node !in rank
    ensures CyclesOk(edges, rank[node := r], cycles)
  {
  }

  lemma EnterFinished(visited: set<string>, stack: seq<string>, node: string, finished: seq<string>)
    requires FinishedOk(visited, stack, finished) && node !in visited
    ensures FinishedOk(visited + {node}, stack + [node], finished)
  {
  }

  /** A back edge closes a simple cycle that starts at its earliest node. */
  lemma BackEdge(edges: seq<RelationshipEdge>, starts: set<string>, path: seq<string>,
      recursionStack: set<string>, rank: map<string, nat>, at: nat)
    requires StackOk(edges, starts, path, recursionStack, rank) && at < |path|
    requires HasEdge(edges, path[|path| - 1], path[at])
    ensures var c := path[at..] + [path[at]];
      && ClosedCycle(edges, c) && StartsFirst(rank, c) && ClosesOne(c, path[|path| - 1], path[at])
  {
    var c := path[at..] + [path[at]];
    LinkedSlice(edges, path, at);
    LinkedMore(edges, path[at..], path[at]);
    assert c[..|c| - 1] == path[at..];
  }

  lemma OneMoreCycle(edges: seq<RelationshipEdge>, rank: map<string, nat>, cycles: seq<seq<string>>, c: seq<string>,
      u: string, v: string)
    requires CyclesOk(edges, rank, cycles) && ClosedCycle(edges, c) && StartsFirst(rank, c) && ClosesOne(c, u, v)
    ensures CyclesOk(edges, rank, cycles + [c]) && Closes(cycles + [c], u, v)
  {
    assert ClosesOne((cycles + [c])[|cycles|], u, v);
  }

  lemma ClosesStays(cycles: seq<seq<string>>, more: seq<seq<string>>, u: string, v: string)
    requires Closes(cycles, u, v) && cycles <= more
    ensures Closes(more, u, v)
  {
    var k :| 0 <= k < |cycles| && ClosesOne(cycles[k], u, v);
    assert ClosesOne(more[k], u, v);
  }

  lemma SettledStays(edges: seq<RelationshipEdge>, cycles: seq<seq<string>>, more: seq<seq<string>>,
      finished: seq<string>)
    requires Settled(edges, cycles, finished) && cycles <= more
    ensures Settled(edges, more, finished)
  {
    forall k, v | 0 <= k < |finished| && HasEdge(edges, finished[k], v)
      ensures v in finished[..k] || Closes(more, finished[k], v)
    {
      if v !in finished[..k] { ClosesStays(cycles, more, finished[k], v); }
    }
  }

  /** The edges of `node` handled so far lead to finished nodes or close a cycle. */
  ghost predicate Handled(cycles: seq<seq<string>>, finished: seq<string>, node: string,
      outgoing: seq<RelationshipEdge>)
  {
    forall k :: 0 <= k < |outgoing| ==> outgoing[k].to in finished || Closes(cycles, node, outgoing[k].to)
  }

  lemma HandledNext(cycles: seq<seq<string>>, more: seq<seq<string>>, finished: seq<string>, later: seq<string>,
      node: string, outgoing: seq<RelationshipEdge>, k: nat)
    requires k < |outgoing| && Handled(cycles, finished, node, outgoing[..k]) && cycles <= more && finished <= later
    requires outgoing[k].to in later || Closes(more, node, outgoing[k].to)
    ensures Handled(more, later, node, outgoing[..k + 1])
  {
    assert outgoing[..k + 1] == outgoing[..k] + [outgoing[k]];
    forall j | 0 <= j < k ensures outgoing[j].to in later || Closes(more, node, outgoing[j].to) {
      assert outgoing[..k][j] == outgoing[j];
      if outgoing[j].to !in finished { ClosesStays(cycles, more, node, outgoing[j].to); }
    }
  }

  lemma Finish(edges: seq<RelationshipEdge>, cycles: seq<seq<string>>, finished: seq<string>, node: string)
    requires Settled(edges, cycles, finished) && Handled(cycles, finished, node, Outgoing(edges, node))
    ensures Settled(edges, cycles, finished + [node])
  {
    var all := finished + [node];
    forall k, v | 0 <= k < |all| && HasEdge(edges, all[k], v) ensures v in all[..k] || Closes(cycles, all[k], v) {
      if k < |finished| {
        assert all[..k] == finished[..k];
      } else {
        assert all[..k] == finished;
        var j :| 0 <= j < |edges| && edges[j].from == node && edges[j].to == v;
        assert edges[j] in Outgoing(edges, node);
      }
    }
  }

  lemma LeaveStack(edges: seq<RelationshipEdge>, starts: set<string>, stack: seq<string>, node: string,
      recursionStack: set<string>, rank: map<string, nat>)
    requires StackOk(edges, starts, stack + [node], recursionStack, rank)
    ensures node !in stack
    ensures StackOk(edges, starts, stack, recursionStack - {node}, rank)
  {
    var path := stack + [node];
    assert forall k :: 0 <= k < |stack| ==> path[k] == stack[k] && rank[path[k]] < rank[path[|stack|]];
    forall k | 0 <= k < |stack| - 1 ensures HasEdge(edges, stack[k], stack[k + 1]) {
      assert HasEdge(edges, path[k], path[k + 1]);
    }
  }

  lemma LeaveFinished(visited: set<string>, stack: seq<string>, node: string, finished: seq<string>)
    requires FinishedOk(visited, stack + [node], finished) && node in visited && node !in stack
    ensures FinishedOk(visited, stack, finished + [node])
  {
    assert node !in finished;
  }

  lemma TargetsInUniverse(edges: seq<RelationshipEdge>, starts: set<string>, e: RelationshipEdge)
    requires e in edges
    ensures e.to in Universe(edges, starts)
  {
  }

  /** The variables the search closes over; the ghost ones record discovery ranks and finishing order. */
  class CycleSearch {
    const edges: seq<RelationshipEdge>
    const starts: set<string>
    var visited: set<string>
    var recursionStack: set<string>
    var cycles: seq<seq<string>>
    ghost var rank: map<string, nat>
    ghost var finished: seq<string>

    constructor (edges: seq<RelationshipEdge>, starts: set<string>)
      ensures this.edges == edges && this.starts == starts
      ensures visited == {} && cycles == [] && finished == []
      ensures Inv([])
    {
      this.edges, this.starts := edges, starts;
      visited, recursionStack, cycles := {}, {}, [];
      rank, finished := map[], [];
    }

    ghost predicate Inv(stack: seq<string>)
      reads this
    {
      && StackOk(edges, starts, stack, recursionStack, rank)
      && RankOk(edges, starts, visited, rank)
      && FinishedOk(visited, stack, finished)
      && Settled(edges, cycles, finished)
      && CyclesOk(edges, rank, cycles)
    }

    method Enter(node: string, ghost stack: seq<string>)
      requires Inv(stack) && node !in visited && node in Universe(edges, starts)
      requires Linked(edges, stack + [node]) && (stack + [node])[0] in starts
      modifies this
      ensures Inv(stack + [node])
      ensures visited == old(visited) + {node} && cycles == old(cycles) && finished == old(finished)
    {
      EnterStack(edges, starts, stack, node, recursionStack, rank);
      EnterRank(edges, starts, stack, node, visited, rank);
      EnterFinished(visited, stack, node, finished);
      RanksStay(edges, cycles, rank, node, |rank|);
      visited := visited + {node};
      recursionStack := recursionStack + {node};
      rank := rank[node := |rank|];
    }

    method Report(path: seq<string>, to: string)
      requires Inv(path) && path != [] && to in recursionStack && HasEdge(edges, path[|path| - 1], to)
      modifies this`cycles
      ensures Inv(path) && old(cycles) <= cycles && Closes(cycles, path[|path| - 1], to)
    {
      var cycleStart := IndexOf(path, to);
      var cycle := path[cycleStart..] + [to];
      BackEdge(edges, starts, path, recursionStack, rank, cycleStart);
      OneMoreCycle(edges, rank, cycles, cycle, path[|path| - 1], to);
      SettledStays(edges, cycles, cycles + [cycle], finished);
      cycles := cycles + [cycle];
    }

    method Leave(node: string, ghost stack: seq<string>)
      requires Inv(stack + [node]) && node in visited && Handled(cycles, finished, node, Outgoing(edges, node))
      modifies this`recursionStack, this`finished
      ensures Inv(stack) && finished == old(finished) + [node]
    {
      Finish(edges, cycles, finished, node);
      LeaveStack(edges, starts, stack, node, recursionStack, rank);
      LeaveFinished(visited, stack, node, finished);
      recursionStack := recursionStack - {node};
      finished := finished + [node];
    }

    /** `stack` is the path without its last node. */
    method Dfs(node: string, path: seq<string>, ghost stack: seq<string>)
      requires path == stack + [node] && Linked(edges, path) && path[0] in starts
      requires Inv(stack) && node !in visited && node in Universe(edges, starts)
      modifies this
      decreases Universe(edges, starts) - visited, 0
      ensures Inv(stack) && node in visited
      ensures old(visited) <= visited && old(cycles) <= cycles && old(finished) <= finished && node in finished
    {
      Enter(node, stack);
      var outgoing := Outgoing(edges, node);
      FollowAll(outgoing, path);
      Leave(node, stack);
    }

    /** The loop over the outgoing edges. */
    method FollowAll(outgoing: seq<RelationshipEdge>, path: seq<string>)
      requires Inv(path) && path != [] && outgoing == Outgoing(edges, path[|path| - 1])
      modifies this
      decreases Universe(edges, starts) - visited, 2
      ensures Inv(path) && old(visited) <= visited && old(cycles) <= cycles && old(finished) <= finished
      ensures Handled(cycles, finished, path[|path| - 1], outgoing)
    {
      for i := 0 to |outgoing|
        invariant Inv(path) && old(visited) <= visited && old(cycles) <= cycles && old(finished) <= finished
        invariant Handled(cycles, finished, path[|path| - 1], outgoing[..i])
      {
        assert outgoing[i] in outgoing;
        ghost var cyclesBefore, finishedBefore := cycles, finished;
        Follow(outgoing[i], path);
        HandledNext(cyclesBefore, cycles, finishedBefore, finished, path[|path| - 1], outgoing, i);
      }
      assert outgoing[..|outgoing|] == outgoing;
    }

    /** The search from one listed entity, if it was not reached before. */
    method SearchFrom(name: string)
      requires Inv([]) && name in starts
      modifies this
      ensures Inv([]) && name in visited && old(visited) <= visited
    {
      if name !in visited { Dfs(name, [name], []); }
    }

    /** One turn of the loop: search deeper, report a cycle, or pass over a finished target. */
    method Follow(edge: RelationshipEdge, path: seq<string>)
      requires Inv(path) && path != [] && edge in edges && edge.from == path[|path| - 1]
      modifies this
      decreases Universe(edges, starts) - visited, 1
      ensures Inv(path) && old(visited) <= visited && old(cycles) <= cycles && old(finished) <= finished
      ensures edge.to in finished || Closes(cycles, edge.from, edge.to)
    {
      EdgeOf(edges, edge);
      if edge.to !in visited {
        LinkedMore(edges, path, edge.to);
        TargetsInUniverse(edges, starts, edge);
        Dfs(edge.to, path + [edge.to], path);
      } else if edge.to in recursionStack {
        Report(path, edge.to);
      }
    }

    method SearchAll(entities: seq<string>)
      requires Inv([]) && forall k :: 0 <= k < |entities| ==> entities[k] in starts
      modifies this
      ensures Inv([]) && forall k :: 0 <= k < |entities| ==> entities[k] in visited
    {
      for i := 0 to |entities|
        invariant Inv([]) && forall k :: 0 <= k < i ==> entities[k] in visited
      {
        SearchFrom(entities[i]);
      }
    }
  }

  lemma EdgeOf(edges: seq<RelationshipEdge>, e: RelationshipEdge)
    requires e in edges
    ensures HasEdge(edges, e.from, e.to)
  {
    var k :| 0 <= k < |edges| && edges[k] == e;
  }

  /** path.indexOf of a node known to be on the path: the -1 branch of the search is never taken. */
  function IndexOf(path: seq<string>, node: string): (i: nat)
    requires node in path
    ensures i < |path| && path[i] == node && node !in path[..i]
  {
    if path[0] == node then 0 else
      var i := 1 + IndexOf(path[1..], node);
      assert path[..i] == [path[0]] + path[1..][..i - 1];
      i
  }

  // ---------------------------------------------------------------- deduplication

  const ARROW := Delimiter('-', '>')

  /** The reduce over `val < min`. */
  function SmallestName(c: seq<string>): (m: string)
    requires c != []
    ensures m in c && forall v :: v in c ==> !Less(v, m)
  {
    var n := |c| - 1;
    if n == 0 then (Trichotomy(c[0], c[0]); c[0])
    else
      var m := SmallestName(c[..n]);
      assert c == c[..n] + [c[n]];
      Trichotomy(c[n], m); Trichotomy(c[n], c[n]);
      if Less(c[n], m) then
        assert forall v :: v in c[..n] ==> !Less(v, c[n]) by {
          forall v | v in c[..n] ensures !Less(v, c[n]) { if Less(v, c[n]) { Transitive(v, c[n], m); } }
        }
        c[n]
      else m
  }

  /** The closed list, rotated to start at the first occurrence of its smallest name. */
  function Normalized(c: seq<string>): (r: seq<string>)
    requires c != []
    ensures |r| == |c| && forall v :: v in r <==> v in c
  {
    var i := IndexOf(c, SmallestName(c));
    assert c == c[..i] + c[i..];
    c[i..] + c[..i]
  }

  function CycleKey(c: seq<string>): string
    requires c != []
  {
    Join(Normalized(c), ARROW)
  }

  /** Where the two equal entries of a rotated closed cycle stand tells how far it was rotated. */
  lemma RotatedTwins(edges: seq<RelationshipEdge>, c: seq<string>, i: nat, r: seq<string>, j: nat, k: nat)
    requires ClosedCycle(edges, c) && i < |c| - 1 && r == c[i..] + c[..i]
    requires 0 <= j < k < |c|
    ensures r[j] == r[k] <==> if i == 0 then j == 0 && k == |c| - 1 else j == |c| - 1 - i && k == |c| - i
  {
    var n := |c| - 1;
    var x, y := if j < |c| - i then i + j else i + j - |c|, if k < |c| - i then i + k else i + k - |c|;
    assert r[j] == c[x] && r[k] == c[y];
    assert c[n] == c[0];
    assert forall u :: 0 <= u < n ==> c[u] == c[..n][u];
  }

  /** The rotation can be read off the result. */
  lemma SameOffset(edges: seq<RelationshipEdge>, c: seq<string>, i: nat, d: seq<string>, j: nat)
    requires ClosedCycle(edges, c) && ClosedCycle(edges, d) && i < |c| - 1 && j < |d| - 1
    requires c[i..] + c[..i] == d[j..] + d[..j]
    ensures i == j
  {
    var r, n := c[i..] + c[..i], |c| - 1;
    var a, b := if i == 0 then 0 else n - i, if i == 0 then n else n - i + 1;
    assert |r| == |c| == |d|;
    RotatedTwins(edges, c, i, r, a, b);
    RotatedTwins(edges, d, j, r, a, b);
  }

  lemma RotatedBack(c: seq<string>, i: nat, r: seq<string>)
    requires i <= |c| && r == c[i..] + c[..i]
    ensures c == r[|c| - i..] + r[..|c| - i]
  {
  }

  lemma NormalizedInjective(edges: seq<RelationshipEdge>, c: seq<string>, d: seq<string>)
    requires ClosedCycle(edges, c) && ClosedCycle(edges, d) && Normalized(c) == Normalized(d)
    ensures c == d
  {
    var i, j := IndexOf(c, SmallestName(c)), IndexOf(d, SmallestName(d));
    BeforeClosing(c, i);
    BeforeClosing(d, j);
    SameOffset(edges, c, i, d, j);
    RotatedBack(c, i, Normalized(c));
    RotatedBack(d, j, Normalized(d));
  }

  lemma BeforeClosing(c: seq<string>, i: nat)
    requires |c| >= 2 && c[0] == c[|c| - 1] && i < |c| && c[i] !in c[..i]
    ensures i < |c| - 1
  {
    assert c[0] in c[..|c| - 1];
  }

  /** Entity names match ^[a-z][a-z0-9_]*$, so none holds the arrow that joins a key. */
  ghost predicate NamesFree(edges: seq<RelationshipEdge>) {
    forall e :: e in edges ==> Free(e.from, ARROW)
  }

  lemma CycleNamesFree(edges: seq<RelationshipEdge>, c: seq<string>)
    requires NamesFree(edges) && ClosedCycle(edges, c)
    ensures forall v :: v in c ==> Free(v, ARROW)
  {
    forall k | 0 <= k < |c| ensures Free(c[k], ARROW) {
      var at := if k < |c| - 1 then k else 0;
      assert HasEdge(edges, c[at], c[at + 1]);
      var e :| 0 <= e < |edges| && edges[e].from == c[at] && edges[e].to == c[at + 1];
      assert edges[e] in edges;
    }
  }

  /** Different cycles have different keys. */
  lemma KeyInjective(edges: seq<RelationshipEdge>, c: seq<string>, d: seq<string>)
    requires NamesFree(edges) && ClosedCycle(edges, c) && ClosedCycle(edges, d) && CycleKey(c) == CycleKey(d)
    ensures c == d
  {
    CycleNamesFree(edges, c);
    CycleNamesFree(edges, d);
    forall k | 0 <= k < |c| ensures Free(Normalized(c)[k], ARROW) { assert Normalized(c)[k] in c; }
    forall k | 0 <= k < |d| ensures Free(Normalized(d)[k], ARROW) { assert Normalized(d)[k] in d; }
    JoinInjective(Normalized(c), Normalized(d), ARROW);
    NormalizedInjective(edges, c, d);
  }

  ghost predicate KeyIn(cycles: seq<seq<string>>, key: string) {
    exists k :: 0 <= k < |cycles| && cycles[k] != [] && CycleKey(cycles[k]) == key
  }

  lemma KeyStays(cycles: seq<seq<string>>, c: seq<string>, key: string)
    requires c != [] && (KeyIn(cycles, key) || key == CycleKey(c))
    ensures KeyIn(cycles + [c], key)
  {
    var all := cycles + [c];
    if KeyIn(cycles, key) {
      var k :| 0 <= k < |cycles| && cycles[k] != [] && CycleKey(cycles[k]) == key;
      assert all[k] == cycles[k];
    } else {
      assert all[|cycles|] == c;
    }
  }

  /** The kept lists are distinct and have exactly the seen keys. */
  ghost predicate Keeps(unique: seq<seq<string>>, seen: set<string>) {
    && NoDup(unique)
    && (forall k :: 0 <= k < |unique| ==> unique[k] != [] && CycleKey(unique[k]) in seen)
    && forall key :: key in seen ==> KeyIn(unique, key)
  }

  lemma KeepOne(unique: seq<seq<string>>, seen: set<string>, c: seq<string>)
    requires Keeps(unique, seen) && c != [] && CycleKey(c) !in seen
    ensures Keeps(unique + [c], seen + {CycleKey(c)})
  {
    var all, key := unique + [c], CycleKey(c);
    assert forall k :: 0 <= k < |unique| ==> unique[k] != c;
    forall k | 0 <= k < |all| ensures all[k] != [] && CycleKey(all[k]) in seen + {key} {
      if k < |unique| { assert all[k] == unique[k]; }
    }
    forall other | other in seen + {key} ensures KeyIn(all, other) { KeyStays(unique, c, other); }
  }

  /** Keeps the first cycle of each key. */
  method Deduplicate(cycles: seq<seq<string>>) returns (unique: seq<seq<string>>)
    requires forall k :: 0 <= k < |cycles| ==> cycles[k] != []
    ensures NoDup(unique) && forall k :: 0 <= k < |unique| ==> unique[k] in cycles
    ensures forall k :: 0 <= k < |cycles| ==> KeyIn(unique, CycleKey(cycles[k]))
  {
    unique := [];
    var seen: set<string> := {};
    for i := 0 to |cycles|
      invariant Keeps(unique, seen)
      invariant forall k :: 0 <= k < |unique| ==> unique[k] in cycles
      invariant forall k :: 0 <= k < i ==> CycleKey(cycles[k]) in seen
    {
      var key := CycleKey(cycles[i]);
      if key !in seen {
        KeepOne(unique, seen, cycles[i]);
        seen := seen + {key};
        unique := unique + [cycles[i]];
      }
    }
  }

  // ---------------------------------------------------------------- the result

  /** Some closed walk can be reached from the listed entities. */
  ghost predicate Cyclic(edges: seq<RelationshipEdge>, starts: set<string>) {
    exists w :: ReachedWalk(edges, starts, w)
  }

  ghost predicate ReachedWalk(edges: seq<RelationshipEdge>, starts: set<string>, w: seq<string>) {
    ClosedWalk(edges, w) && Reached(edges, starts, w[0])
  }

  /** The search proper, with what its ghost records say when it is over. */
  method Search(edges: seq<RelationshipEdge>, starts: set<string>, entities: seq<string>)
    returns (cycles: seq<seq<string>>, ghost visited: set<string>, ghost rank: map<string, nat>,
      ghost finished: seq<string>)
    requires forall k :: 0 <= k < |entities| ==> entities[k] in starts
    ensures RankOk(edges, starts, visited, rank) && FinishedOk(visited, [], finished)
    ensures Settled(edges, cycles, finished) && CyclesOk(edges, rank, cycles)
    ensures forall k :: 0 <= k < |entities| ==> entities[k] in visited
  {
    var search := new CycleSearch(edges, starts);
    search.SearchAll(entities);
    cycles, visited, rank, finished := search.cycles, search.visited, search.rank, search.finished;
  }

  lemma EveryKeptKey(edges: seq<RelationshipEdge>, cycles: seq<seq<string>>, unique: seq<seq<string>>, k: nat)
    requires NamesFree(edges) && k < |cycles|
    requires forall j :: 0 <= j < |cycles| ==> ClosedCycle(edges, cycles[j])
    requires forall j :: 0 <= j < |unique| ==> unique[j] in cycles
    requires cycles[k] != [] && KeyIn(unique, CycleKey(cycles[k]))
    ensures cycles[k] in unique
  {
    var j :| 0 <= j < |unique| && unique[j] != [] && CycleKey(unique[j]) == CycleKey(cycles[k]);
    KeyInjective(edges, unique[j], cycles[k]);
  }

  lemma NoRotations(edges: seq<RelationshipEdge>, rank: map<string, nat>, unique: seq<seq<string>>)
    requires NoDup(unique) && CyclesOk(edges, rank, unique)
    ensures forall j, k :: 0 <= j < |unique| && 0 <= k < |unique| && j != k ==> !Rotation(unique[j], unique[k])
  {
    forall j, k | 0 <= j < |unique| && 0 <= k < |unique| && j != k ensures !Rotation(unique[j], unique[k]) {
      if Rotation(unique[j], unique[k]) { FirstStartFixesRotation(edges, rank, unique[j], unique[k]); }
    }
  }

  lemma VisitedIsClosed(edges: seq<RelationshipEdge>, rank: map<string, nat>, visited: set<string>,
      finished: seq<string>, cycles: seq<seq<string>>, e: RelationshipEdge)
    requires rank.Keys == visited && (forall v :: v in finished <==> v in visited)
    requires Settled(edges, cycles, finished) && CyclesOk(edges, rank, cycles)
    requires e in edges && e.from in visited
    ensures e.to in visited
  {
    var k :| 0 <= k < |finished| && finished[k] == e.from;
    EdgeOf(edges, e);
    if e.to !in finished[..k] {
      var j :| 0 <= j < |cycles| && ClosesOne(cycles[j], e.from, e.to);
      assert StartsFirst(rank, cycles[j]) && cycles[j][|cycles[j]| - 1] in rank;
    }
  }

  lemma SearchBreaks(edges: seq<RelationshipEdge>, starts: set<string>, visited: set<string>,
      rank: map<string, nat>, finished: seq<string>, cycles: seq<seq<string>>, w: seq<string>)
    requires rank.Keys == visited && FinishedOk(visited, [], finished)
    requires Settled(edges, cycles, finished) && CyclesOk(edges, rank, cycles)
    requires starts <= visited
    requires ReachedWalk(edges, starts, w)
    ensures SomeEdgeCloses(cycles, w)
  {
    forall e | e in edges && e.from in visited ensures e.to in visited {
      VisitedIsClosed(edges, rank, visited, finished, cycles, e);
    }
    var p :| ReachedBy(edges, starts, w[0], p);
    FinishedIsClosed(edges, starts, visited, w[0], p);
    ClosedWalkBroken(edges, cycles, finished, w);
  }

  /** Terminates; returns simple cycles only, no two of them rotations of each other, and at least one
      exactly when a cycle can be reached. Every reachable cycle uses the closing edge of a
      returned one, so cutting those edges leaves none. */
  method FindCircularDependencies(edges: seq<RelationshipEdge>, entities: seq<string>)
    returns (unique: seq<seq<string>>)
    ensures forall k :: 0 <= k < |unique| ==>
      ClosedCycle(edges, unique[k]) && Reached(edges, Names(entities), unique[k][0])
    ensures forall j, k :: 0 <= j < |unique| && 0 <= k < |unique| && j != k ==> !Rotation(unique[j], unique[k])
    ensures unique != [] <==> Cyclic(edges, Names(entities))
    ensures NamesFree(edges) ==> forall w :: ReachedWalk(edges, Names(entities), w) ==> SomeEdgeCloses(unique, w)
  {
    ghost var visited, rank, finished;
    var cycles;
    var starts := Names(entities);
    cycles, visited, rank, finished := Search(edges, starts, entities);
    unique := Deduplicate(cycles);
    KeptAreCycles(edges, rank, cycles, unique);
    NoRotations(edges, rank, unique);
    StartsReached(edges, starts, visited, rank, unique);
    AllNames(entities, visited);
    AllBroken(edges, starts, visited, rank, finished, cycles);
    WitnessCyclic(edges, starts, cycles, unique);
    if NamesFree(edges) { KeptBreak(edges, starts, cycles, unique); }
  }

  /** The keys of the entity map, whatever their order. */
  function Names(entities: seq<string>): set<string> {
    set s | s in entities
  }

  lemma AllNames(entities: seq<string>, visited: set<string>)
    requires forall k :: 0 <= k < |entities| ==> entities[k] in visited
    ensures Names(entities) <= visited
  {
  }

  lemma AllBroken(edges: seq<RelationshipEdge>, starts: set<string>, visited: set<string>,
      rank: map<string, nat>, finished: seq<string>, cycles: seq<seq<string>>)
    requires RankOk(edges, starts, visited, rank) && FinishedOk(visited, [], finished)
    requires Settled(edges, cycles, finished) && CyclesOk(edges, rank, cycles)
    requires starts <= visited
    ensures forall w :: ReachedWalk(edges, starts, w) ==> SomeEdgeCloses(cycles, w)
  {
    forall w | ReachedWalk(edges, starts, w) ensures SomeEdgeCloses(cycles, w) {
      SearchBreaks(edges, starts, visited, rank, finished, cycles, w);
    }
  }

  lemma KeptAreCycles(edges: seq<RelationshipEdge>, rank: map<string, nat>, cycles: seq<seq<string>>,
      unique: seq<seq<string>>)
    requires CyclesOk(edges, rank, cycles) && forall k :: 0 <= k < |unique| ==> unique[k] in cycles
    ensures CyclesOk(edges, rank, unique)
  {
    forall k | 0 <= k < |unique| ensures ClosedCycle(edges, unique[k]) && StartsFirst(rank, unique[k]) {
      assert unique[k] in cycles;
      var j :| 0 <= j < |cycles| && cycles[j] == unique[k];
    }
  }

  lemma StartsReached(edges: seq<RelationshipEdge>, starts: set<string>, visited: set<string>,
      rank: map<string, nat>, unique: seq<seq<string>>)
    requires RankOk(edges, starts, visited, rank) && CyclesOk(edges, rank, unique)
    ensures forall k :: 0 <= k < |unique| ==> ClosedCycle(edges, unique[k]) && Reached(edges, starts, unique[k][0])
  {
    forall k | 0 <= k < |unique| ensures ClosedCycle(edges, unique[k]) && Reached(edges, starts, unique[k][0]) {
      assert StartsFirst(rank, unique[k]) && unique[k][0] in rank;
    }
  }

  lemma WitnessCyclic(edges: seq<RelationshipEdge>, starts: set<string>, cycles: seq<seq<string>>,
      unique: seq<seq<string>>)
    requires forall k :: 0 <= k < |unique| ==> ClosedCycle(edges, unique[k]) && Reached(edges, starts, unique[k][0])
    requires forall w :: ReachedWalk(edges, starts, w) ==> SomeEdgeCloses(cycles, w)
    requires forall k :: 0 <= k < |cycles| ==> cycles[k] != [] && KeyIn(unique, CycleKey(cycles[k]))
    ensures unique != [] <==> Cyclic(edges, starts)
  {
    if unique != [] { assert ReachedWalk(edges, starts, unique[0]); }
    if Cyclic(edges, starts) {
      var w :| ReachedWalk(edges, starts, w);
      var j :| 0 <= j < |w| - 1 && Closes(cycles, w[j], w[j + 1]);
      assert KeyIn(unique, CycleKey(cycles[0]));
    }
  }

  lemma KeptBreak(edges: seq<RelationshipEdge>, starts: set<string>, cycles: seq<seq<string>>, unique: seq<seq<string>>)
    requires NamesFree(edges)
    requires forall w :: ReachedWalk(edges, starts, w) ==> SomeEdgeCloses(cycles, w)
    requires forall k :: 0 <= k < |cycles| ==> ClosedCycle(edges, cycles[k])
    requires forall k :: 0 <= k < |unique| ==> unique[k] in cycles
    requires forall k :: 0 <= k < |cycles| ==> cycles[k] != [] && KeyIn(unique, CycleKey(cycles[k]))
    ensures forall w :: ReachedWalk(edges, starts, w) ==> SomeEdgeCloses(unique, w)
  {
    forall w | ReachedWalk(edges, starts, w) ensures SomeEdgeCloses(unique, w) {
      var j :| 0 <= j < |w| - 1 && Closes(cycles, w[j], w[j + 1]);
      var k :| 0 <= k < |cycles| && ClosesOne(cycles[k], w[j], w[j + 1]);
      EveryKeptKey(edges, cycles, unique, k);
      var m :| 0 <= m < |unique| && unique[m] == cycles[k];
      assert ClosesOne(unique[m], w[j], w[j + 1]);
      assert Closes(unique, w[j], w[j + 1]);
    }
  }

  /** buildDomainGraph only makes edges out of listed entities, so nothing cyclic is out of reach. */
  lemma CyclicOnDomainGraph(edges: seq<RelationshipEdge>, starts: set<string>)
    requires forall e :: e in edges ==> e.from in starts
    ensures Cyclic(edges, starts) <==> exists c :: ClosedWalk(edges, c)
  {
    if c :| ClosedWalk(edges, c) {
      assert HasEdge(edges, c[0], c[1]);
      var k :| 0 <= k < |edges| && edges[k].from == c[0] && edges[k].to == c[1];
      assert edges[k] in edges;
      assert ReachedBy(edges, starts, c[0], [c[0]]);
      assert ReachedWalk(edges, starts, c);
    }
    if Cyclic(edges, starts) {
      var w :| ReachedWalk(edges, starts, w);
      assert ClosedWalk(edges, w);
    }
  }
}
