/** The search for transitive relationships. */
module TransitivePaths {
  datatype RelationshipType = BelongsTo | HasMany | HasOne

  /** `through` is empty when the relationship is not transitive itself. */
  datatype Relationship = Relationship(
    name: string,
    kind: RelationshipType,
    target: string,
    foreignKey: string,
    through: string)

  /** Each entity's relationships in declaration order. */
  type Graph = map<string, seq<Relationship>>

  datatype SuggesterOptions = SuggesterOptions(
    maxDepth: int,
    excludeEntities: seq<string>,
    excludePatterns: seq<string -> bool>)

  datatype PathHop = PathHop(via: string, relationship: string, foreignKey: string)

  datatype TransitivePath = TransitivePath(source: string, target: string, hops: seq<PathHop>)

  datatype BFSNode = BFSNode(entity: string, depth: int, path: seq<PathHop>, visited: set<string>)

  /** An entity's relationships are a map keyed by name. */
  ghost predicate KeyedByName(g: Graph) {
    forall e, j, k :: e in g && 0 <= j < k < |g[e]| ==> g[e][j].name != g[e][k].name
  }

  predicate ShouldExclude(entity: string, opts: SuggesterOptions) {
    entity in opts.excludeEntities || exists k :: 0 <= k < |opts.excludePatterns| && opts.excludePatterns[k](entity)
  }

  predicate Walkable(rel: Relationship) {
    rel.through == "" && (rel.kind == HasMany || rel.kind == HasOne)
  }

  /** Any direct relationship counts, belongs_to included; transitive ones do not. */
  predicate HasDirectRelationship(rels: seq<Relationship>, target: string) {
    exists k :: 0 <= k < |rels| && rels[k].target == target && rels[k].through == ""
  }

  // ---------------------------------------------------------------- what is looked for

  predicate Declares(g: Graph, h: PathHop, target: string) {
    h.via in g && exists k :: 0 <= k < |g[h.via]| && IsHop(g[h.via][k], h, target)
  }

  predicate IsHop(rel: Relationship, h: PathHop, target: string) {
    Walkable(rel) && rel.name == h.relationship && rel.foreignKey == h.foreignKey && rel.target == target
  }

  function Front(hops: seq<PathHop>): seq<PathHop>
    requires hops != []
  {
    hops[..|hops| - 1]
  }

  /** The entities a path leaves from. */
  function Vias(path: seq<PathHop>): set<string> {
    set h | h in path :: h.via
  }

  /** A simple chain of declared hops out of `source` that enters no excluded entity. */
  predicate Chain(g: Graph, opts: SuggesterOptions, source: string, hops: seq<PathHop>, target: string)
    decreases |hops|
  {
    if hops == [] then target == source
    else
      var h := hops[|hops| - 1];
      && Chain(g, opts, source, Front(hops), h.via)
      && Declares(g, h, target) && !ShouldExclude(target, opts) && target !in Vias(hops)
  }

  function Nodes(hops: seq<PathHop>, target: string): seq<string> {
    seq(|hops|, k requires 0 <= k < |hops| => hops[k].via) + [target]
  }

  ghost predicate Simple(nodes: seq<string>) {
    forall j, k :: 0 <= j < k < |nodes| ==> nodes[j] != nodes[k]
  }

  ghost predicate AllDeclared(g: Graph, hops: seq<PathHop>, nodes: seq<string>)
    requires |nodes| == |hops| + 1
  {
    forall k, next :: 0 <= k < |hops| && next == k + 1 ==> Declares(g, hops[k], nodes[next])
  }

  ghost predicate NoneExcluded(opts: SuggesterOptions, nodes: seq<string>) {
    forall k :: 0 < k < |nodes| ==> !ShouldExclude(nodes[k], opts)
  }

  /** A chain is a path from the source over declared relationships, through pairwise different
      entities of which none after the source is excluded. */
  lemma {:induction false} ChainMeans(g: Graph, opts: SuggesterOptions, source: string, hops: seq<PathHop>,
      target: string)
    ensures var nodes := Nodes(hops, target);
      Chain(g, opts, source, hops, target) <==>
        nodes[0] == source && AllDeclared(g, hops, nodes) && NoneExcluded(opts, nodes) && Simple(nodes)
    decreases |hops|
  {
    if hops != [] {
      var n := |hops| - 1;
      ChainMeans(g, opts, source, Front(hops), hops[n].via);
      var before, nodes := Nodes(Front(hops), hops[n].via), Nodes(hops, target);
      assert nodes == before + [target];
      NodesAreVias(hops, target);
      DeclaredStep(g, hops, target);
      SimpleStep(before, target);
      NoneExcludedStep(opts, before, target);
      assert nodes[0] == before[0];
    }
  }

  lemma SimpleStep(nodes: seq<string>, last: string)
    ensures Simple(nodes + [last]) <==> Simple(nodes) && last !in nodes
  {
    var all := nodes + [last];
    assert all[|nodes|] == last && forall k :: 0 <= k < |nodes| ==> all[k] == nodes[k];
    if Simple(all) {
      forall k | 0 <= k < |nodes| ensures nodes[k] != last { assert all[k] != all[|nodes|]; }
      forall j, k | 0 <= j < k < |nodes| ensures nodes[j] != nodes[k] { assert all[j] != all[k]; }
    }
  }

  lemma NoneExcludedStep(opts: SuggesterOptions, nodes: seq<string>, last: string)
    requires nodes != []
    ensures NoneExcluded(opts, nodes + [last]) <==> NoneExcluded(opts, nodes) && !ShouldExclude(last, opts)
  {
    var all := nodes + [last];
    assert all[|nodes|] == last && forall k :: 0 <= k < |nodes| ==> all[k] == nodes[k];
    if NoneExcluded(opts, all) {
      assert !ShouldExclude(all[|nodes|], opts);
      forall k | 0 < k < |nodes| ensures !ShouldExclude(nodes[k], opts) { assert !ShouldExclude(all[k], opts); }
    }
  }

  lemma NodesAreVias(hops: seq<PathHop>, target: string)
    requires hops != []
    ensures target in Vias(hops) <==> target in Nodes(Front(hops), hops[|hops| - 1].via)
  {
    var before := Nodes(Front(hops), hops[|hops| - 1].via);
    assert forall k :: 0 <= k < |hops| ==> before[k] == hops[k].via;
    if target in Vias(hops) {
      var h :| h in hops && h.via == target;
      var k :| 0 <= k < |hops| && hops[k] == h;
      assert before[k] == target;
    }
    if target in before {
      var k :| 0 <= k < |before| && before[k] == target;
      assert hops[k] in hops;
    }
  }

  lemma DeclaredStep(g: Graph, hops: seq<PathHop>, target: string)
    requires hops != []
    ensures AllDeclared(g, hops, Nodes(hops, target)) <==>
      AllDeclared(g, Front(hops), Nodes(Front(hops), hops[|hops| - 1].via)) && Declares(g, hops[|hops| - 1], target)
  {
    var n := |hops| - 1;
    var before, nodes := Nodes(Front(hops), hops[n].via), Nodes(hops, target);
    assert nodes[n + 1] == target && forall k :: 0 <= k <= n ==> nodes[k] == before[k];
    if AllDeclared(g, hops, nodes) {
      assert Declares(g, hops[n], nodes[n + 1]);
      forall k, next | 0 <= k < n && next == k + 1 ensures Declares(g, Front(hops)[k], before[next]) {
        assert Declares(g, hops[k], nodes[next]);
      }
    }
    if AllDeclared(g, Front(hops), before) && Declares(g, hops[n], target) {
      forall k, next | 0 <= k <= n && next == k + 1 ensures Declares(g, hops[k], nodes[next]) {
        if k < n { assert Declares(g, Front(hops)[k], before[next]); }
      }
    }
  }

  /** The chains worth suggesting. */
  predicate Suggestion(g: Graph, opts: SuggesterOptions, source: string, p: TransitivePath) {
    && p.source == source && source in g
    && Chain(g, opts, source, p.hops, p.target)
    && 2 <= |p.hops| <= opts.maxDepth
    && !HasDirectRelationship(g[source], p.target)
  }

  /** The k-th entity along a path. */
  function EntityAt(p: TransitivePath, k: int): string
    requires 0 <= k <= |p.hops|
  {
    if k < |p.hops| then p.hops[k].via else p.target
  }

  /** A hop follows a has_many or has_one relationship that is not transitive itself. */
  ghost predicate Follows(g: Graph, h: PathHop, next: string) {
    && h.via in g
    && exists rel ::
        && rel in g[h.via] && rel.through == "" && (rel.kind.HasMany? || rel.kind.HasOne?)
        && rel.name == h.relationship && rel.foreignKey == h.foreignKey && rel.target == next
  }

  ghost predicate Allowed(opts: SuggesterOptions, entity: string) {
    && entity !in opts.excludeEntities
    && forall m :: 0 <= m < |opts.excludePatterns| ==> !opts.excludePatterns[m](entity)
  }

  /** A path worth suggesting: two to maxDepth hops from the source through different entities, none but
      the source excluded, to one the source has no relationship of its own with. */
  ghost predicate Qualifies(g: Graph, opts: SuggesterOptions, source: string, p: TransitivePath) {
    && source in g && p.source == source && 2 <= |p.hops| <= opts.maxDepth && p.hops[0].via == source
    && (forall k :: 0 <= k < |p.hops| ==> Follows(g, p.hops[k], EntityAt(p, k + 1)))
    && (forall j, k :: 0 <= j < k <= |p.hops| ==> EntityAt(p, j) != EntityAt(p, k))
    && (forall k :: 0 < k <= |p.hops| ==> Allowed(opts, EntityAt(p, k)))
    && forall rel :: rel in g[source] ==> rel.target != p.target || rel.through != ""
  }

  lemma FollowsMeans(g: Graph, h: PathHop, next: string)
    ensures Follows(g, h, next) <==> Declares(g, h, next)
  {
    if Declares(g, h, next) {
      var k :| 0 <= k < |g[h.via]| && IsHop(g[h.via][k], h, next);
      assert g[h.via][k] in g[h.via];
    }
    if Follows(g, h, next) {
      var rel :|
        && rel in g[h.via] && rel.through == "" && (rel.kind.HasMany? || rel.kind.HasOne?)
        && rel.name == h.relationship && rel.foreignKey == h.foreignKey && rel.target == next;
      var k :| 0 <= k < |g[h.via]| && g[h.via][k] == rel;
      assert IsHop(g[h.via][k], h, next);
    }
  }

  lemma NoneDirectMeans(rels: seq<Relationship>, target: string)
    ensures HasDirectRelationship(rels, target) <==>
      exists rel :: rel in rels && rel.target == target && rel.through == ""
  {
    if k :| 0 <= k < |rels| && rels[k].target == target && rels[k].through == "" { assert rels[k] in rels; }
  }

  lemma ChainSpelledOut(g: Graph, opts: SuggesterOptions, source: string, p: TransitivePath)
    requires p.hops != []
    ensures Chain(g, opts, source, p.hops, p.target) <==>
      && p.hops[0].via == source
      && (forall k :: 0 <= k < |p.hops| ==> Follows(g, p.hops[k], EntityAt(p, k + 1)))
      && (forall j, k :: 0 <= j < k <= |p.hops| ==> EntityAt(p, j) != EntityAt(p, k))
      && (forall k :: 0 < k <= |p.hops| ==> Allowed(opts, EntityAt(p, k)))
  {
    var nodes := Nodes(p.hops, p.target);
    ChainMeans(g, opts, source, p.hops, p.target);
    assert forall k :: 0 <= k <= |p.hops| ==> nodes[k] == EntityAt(p, k);
    forall k | 0 <= k < |p.hops|
      ensures Follows(g, p.hops[k], EntityAt(p, k + 1)) <==> Declares(g, p.hops[k], nodes[k + 1])
    {
      FollowsMeans(g, p.hops[k], nodes[k + 1]);
    }
    forall x ensures Allowed(opts, x) <==> !ShouldExclude(x, opts) {}
    SpelledSame(g, opts, p, nodes);
  }

  lemma SpelledSame(g: Graph, opts: SuggesterOptions, p: TransitivePath, nodes: seq<string>)
    requires |nodes| == |p.hops| + 1 && forall k :: 0 <= k <= |p.hops| ==> nodes[k] == EntityAt(p, k)
    requires forall x :: Allowed(opts, x) <==> !ShouldExclude(x, opts)
    requires forall k :: 0 <= k < |p.hops| ==>
      (Follows(g, p.hops[k], EntityAt(p, k + 1)) <==> Declares(g, p.hops[k], nodes[k + 1]))
    ensures AllDeclared(g, p.hops, nodes) <==>
      forall k :: 0 <= k < |p.hops| ==> Follows(g, p.hops[k], EntityAt(p, k + 1))
    ensures Simple(nodes) <==> forall j, k :: 0 <= j < k <= |p.hops| ==> EntityAt(p, j) != EntityAt(p, k)
    ensures NoneExcluded(opts, nodes) <==> forall k :: 0 < k <= |p.hops| ==> Allowed(opts, EntityAt(p, k))
  {
    if AllDeclared(g, p.hops, nodes) {
      forall k | 0 <= k < |p.hops| ensures Follows(g, p.hops[k], EntityAt(p, k + 1)) {
        var next := k + 1;
        assert Declares(g, p.hops[k], nodes[next]);
      }
    }
    if Simple(nodes) {
      forall j, k | 0 <= j < k <= |p.hops| ensures EntityAt(p, j) != EntityAt(p, k) { assert nodes[j] != nodes[k]; }
    }
    if forall j, k :: 0 <= j < k <= |p.hops| ==> EntityAt(p, j) != EntityAt(p, k) {
      forall j, k | 0 <= j < k < |nodes| ensures nodes[j] != nodes[k] { assert EntityAt(p, j) != EntityAt(p, k); }
    }
    if NoneExcluded(opts, nodes) {
      forall k | 0 < k <= |p.hops| ensures Allowed(opts, EntityAt(p, k)) { assert !ShouldExclude(nodes[k], opts); }
    }
  }

  lemma SuggestionMeans(g: Graph, opts: SuggesterOptions, source: string, p: TransitivePath)
    ensures Suggestion(g, opts, source, p) <==> Qualifies(g, opts, source, p)
  {
    if p.hops != [] { ChainSpelledOut(g, opts, source, p); }
    if source in g { NoneDirectMeans(g[source], p.target); }
  }

  lemma ViasStep(path: seq<PathHop>, h: PathHop)
    ensures Vias(path + [h]) == Vias(path) + {h.via}
  {
    assert forall x :: x in path + [h] <==> x in path || x == h;
  }

  lemma ChainStep(g: Graph, opts: SuggesterOptions, source: string, hops: seq<PathHop>, h: PathHop, target: string)
    ensures Chain(g, opts, source, hops + [h], target) <==>
      && Chain(g, opts, source, hops, h.via) && Declares(g, h, target)
      && !ShouldExclude(target, opts) && target !in Vias(hops) + {h.via}
  {
    ViasStep(hops, h);
    assert Front(hops + [h]) == hops;
  }

  /** The hops of a chain determine where it ends. */
  lemma HopsFixTarget(g: Graph, opts: SuggesterOptions, source: string, hops: seq<PathHop>, a: string, b: string)
    requires KeyedByName(g) && Chain(g, opts, source, hops, a) && Chain(g, opts, source, hops, b)
    ensures a == b
  {
    if hops != [] {
      var h := hops[|hops| - 1];
      assert Declares(g, h, a) && Declares(g, h, b);
    }
  }

  // ---------------------------------------------------------------- one queue entry

  predicate Eligible(opts: SuggesterOptions, visited: set<string>, rel: Relationship) {
    Walkable(rel) && !ShouldExclude(rel.target, opts) && rel.target !in visited
  }

  function Hop(q: BFSNode, rel: Relationship): PathHop {
    PathHop(q.entity, rel.name, rel.foreignKey)
  }

  function Child(q: BFSNode, rel: Relationship): BFSNode {
    BFSNode(rel.target, q.depth + 1, q.path + [Hop(q, rel)], q.visited + {rel.target})
  }

  function Children(opts: SuggesterOptions, q: BFSNode, rels: seq<Relationship>): (r: seq<BFSNode>)
    ensures q.depth + 1 >= opts.maxDepth ==> r == []
    ensures forall c :: c in r <==>
      && q.depth + 1 < opts.maxDepth
      && exists k :: 0 <= k < |rels| && Eligible(opts, q.visited, rels[k]) && c == Child(q, rels[k])
  {
    if rels == [] then []
    else
      var n := |rels| - 1;
      var before := Children(opts, q, rels[..n]);
      assert forall k :: 0 <= k < n ==> rels[..n][k] == rels[k];
      if Eligible(opts, q.visited, rels[n]) && q.depth + 1 < opts.maxDepth then before + [Child(q, rels[n])] else before
  }

  predicate Reports(opts: SuggesterOptions, direct: seq<Relationship>, q: BFSNode, rel: Relationship) {
    Eligible(opts, q.visited, rel) && q.depth >= 1 && !HasDirectRelationship(direct, rel.target)
  }

  function Report(source: string, q: BFSNode, rel: Relationship): TransitivePath {
    TransitivePath(source, rel.target, q.path + [Hop(q, rel)])
  }

  function Reported(opts: SuggesterOptions, source: string, direct: seq<Relationship>, q: BFSNode,
      rels: seq<Relationship>): (r: seq<TransitivePath>)
    ensures forall p :: p in r <==>
      exists k :: 0 <= k < |rels| && Reports(opts, direct, q, rels[k]) && p == Report(source, q, rels[k])
  {
    if rels == [] then []
    else
      var n := |rels| - 1;
      var before := Reported(opts, source, direct, q, rels[..n]);
      assert forall k :: 0 <= k < n ==> rels[..n][k] == rels[k];
      if Reports(opts, direct, q, rels[n]) then before + [Report(source, q, rels[n])] else before
  }

  /** The relationships a queue entry goes on to explore. */
  function Explored(g: Graph, opts: SuggesterOptions, q: BFSNode): seq<Relationship> {
    if q.depth < opts.maxDepth && q.entity in g then g[q.entity] else []
  }

  ghost predicate NodeOk(g: Graph, opts: SuggesterOptions, source: string, q: BFSNode) {
    && q.depth == |q.path| && (q.path != [] ==> q.depth < opts.maxDepth)
    && Chain(g, opts, source, q.path, q.entity)
    && q.visited == Vias(q.path) + {q.entity}
  }

  lemma DeclaresOwn(g: Graph, q: BFSNode, rel: Relationship)
    requires q.entity in g && rel in g[q.entity]
    ensures Walkable(rel) ==> Declares(g, Hop(q, rel), rel.target)
  {
    var k :| 0 <= k < |g[q.entity]| && g[q.entity][k] == rel;
    assert Walkable(rel) ==> IsHop(g[q.entity][k], Hop(q, rel), rel.target);
  }

  /** Extending an entry by a relationship makes a chain exactly when the relationship is eligible. */
  lemma ExtendsExactly(g: Graph, opts: SuggesterOptions, source: string, q: BFSNode, rel: Relationship)
    requires NodeOk(g, opts, source, q) && q.entity in g && rel in g[q.entity]
    ensures Eligible(opts, q.visited, rel) <==>
      Walkable(rel) && Chain(g, opts, source, q.path + [Hop(q, rel)], rel.target)
  {
    ChainStep(g, opts, source, q.path, Hop(q, rel), rel.target);
    DeclaresOwn(g, q, rel);
  }

  lemma ChildOk(g: Graph, opts: SuggesterOptions, source: string, q: BFSNode, rel: Relationship)
    requires NodeOk(g, opts, source, q) && q.entity in g && rel in g[q.entity] && KeyedByName(g)
    requires Eligible(opts, q.visited, rel) && q.depth + 1 < opts.maxDepth
    ensures NodeOk(g, opts, source, Child(q, rel))
  {
    ExtendsExactly(g, opts, source, q, rel);
    ViasStep(q.path, Hop(q, rel));
  }

  // ---------------------------------------------------------------- invariants of the queue loop

  ghost predicate AllNodesOk(g: Graph, opts: SuggesterOptions, source: string, queue: seq<BFSNode>) {
    forall k :: 0 <= k < |queue| ==> NodeOk(g, opts, source, queue[k])
  }

  /** No entry is listed twice or was expanded before, and each was made from an expanded one. */
  ghost predicate QueueFresh(queue: seq<BFSNode>, expanded: set<seq<PathHop>>) {
    && (forall k :: 0 <= k < |queue| ==> queue[k].path !in expanded)
    && (forall k :: 0 <= k < |queue| && queue[k].path != [] ==> Front(queue[k].path) in expanded)
    && (forall j, k :: 0 <= j < k < |queue| ==> queue[j].path != queue[k].path)
  }

  ghost predicate ExpandedOk(expanded: set<seq<PathHop>>) {
    forall p :: p in expanded && p != [] ==> Front(p) in expanded
  }

  ghost predicate AllSuggestions(g: Graph, opts: SuggesterOptions, source: string, paths: seq<TransitivePath>) {
    forall k :: 0 <= k < |paths| ==> Suggestion(g, opts, source, paths[k])
  }

  ghost predicate PathsFresh(paths: seq<TransitivePath>, expanded: set<seq<PathHop>>) {
    && (forall k :: 0 <= k < |paths| ==> paths[k].hops != [] && Front(paths[k].hops) in expanded)
    && (forall j, k :: 0 <= j < k < |paths| ==> paths[j] != paths[k])
  }

  ghost predicate Queued(queue: seq<BFSNode>, hops: seq<PathHop>) {
    exists k :: 0 <= k < |queue| && queue[k].path == hops
  }

  /** Every chain one hop longer than an expanded one was handled. */
  ghost predicate Complete(g: Graph, opts: SuggesterOptions, source: string, queue: seq<BFSNode>,
      paths: seq<TransitivePath>, expanded: set<seq<PathHop>>)
  {
    && ([] in expanded || Queued(queue, []))
    && forall hops, target :: ToHandle(g, opts, source, expanded, hops, target) ==>
      Handled(g, opts, source, queue, paths, expanded, hops, target)
  }

  ghost predicate ToHandle(g: Graph, opts: SuggesterOptions, source: string, expanded: set<seq<PathHop>>,
      hops: seq<PathHop>, target: string)
  {
    hops != [] && |hops| <= opts.maxDepth && Chain(g, opts, source, hops, target) && Front(hops) in expanded
  }

  ghost predicate Handled(g: Graph, opts: SuggesterOptions, source: string, queue: seq<BFSNode>,
      paths: seq<TransitivePath>, expanded: set<seq<PathHop>>, hops: seq<PathHop>, target: string)
  {
    && (|hops| < opts.maxDepth ==> hops in expanded || Queued(queue, hops))
    && (Suggestion(g, opts, source, TransitivePath(source, target, hops)) ==>
          TransitivePath(source, target, hops) in paths)
  }

  /** Lengths never decrease, neither along the queue nor along the result. */
  ghost predicate InOrder(queue: seq<BFSNode>, paths: seq<TransitivePath>) {
    && (forall j, k :: 0 <= j < k < |queue| ==> queue[j].depth <= queue[k].depth <= queue[j].depth + 1)
    && (forall j, k :: 0 <= j < k < |paths| ==> |paths[j].hops| <= |paths[k].hops|)
    && (forall j, k :: 0 <= j < |paths| && 0 <= k < |queue| ==> |paths[j].hops| <= queue[k].depth + 1)
  }

  // ---------------------------------------------------------------- finitely many chains

  ghost function AllHops(g: Graph): set<PathHop> {
    set e, k | e in g && 0 <= k < |g[e]| :: PathHop(e, g[e][k].name, g[e][k].foreignKey)
  }

  ghost function AllPaths(hops: set<PathHop>, n: nat): set<seq<PathHop>> {
    if n == 0 then {[]} else AllPaths(hops, n - 1) + set h, p | h in hops && p in AllPaths(hops, n - 1) :: p + [h]
  }

  lemma HopListed(g: Graph, h: PathHop, target: string)
    requires Declares(g, h, target)
    ensures h in AllHops(g)
  {
    var k :| 0 <= k < |g[h.via]| && IsHop(g[h.via][k], h, target);
    assert h == PathHop(h.via, g[h.via][k].name, g[h.via][k].foreignKey);
  }

  lemma LongerListed(hops: set<PathHop>, n: nat, p: seq<PathHop>, h: PathHop)
    requires n > 0 && h in hops && p in AllPaths(hops, n - 1)
    ensures p + [h] in AllPaths(hops, n)
  {
  }

  lemma {:induction false} ChainsAreListed(g: Graph, opts: SuggesterOptions, source: string,
      hops: seq<PathHop>, target: string, n: nat)
    requires Chain(g, opts, source, hops, target) && |hops| <= n
    ensures hops in AllPaths(AllHops(g), n)
  {
    if hops == [] {
      if n > 0 { ChainsAreListed(g, opts, source, hops, target, n - 1); }
    } else {
      var m := |hops| - 1;
      assert hops == Front(hops) + [hops[m]];
      ChainStep(g, opts, source, Front(hops), hops[m], target);
      ChainsAreListed(g, opts, source, Front(hops), hops[m].via, n - 1);
      HopListed(g, hops[m], target);
      LongerListed(AllHops(g), n, Front(hops), hops[m]);
    }
  }

  // ---------------------------------------------------------------- one turn of the loop

  lemma HopsDiffer(path: seq<PathHop>, a: PathHop, b: PathHop)
    requires a != b
    ensures path + [a] != path + [b]
  {
    assert (path + [a])[|path|] == a && (path + [b])[|path|] == b;
  }

  /** Distinct entries one hop longer than q. */
  ghost predicate Offspring(q: BFSNode, c: seq<BFSNode>) {
    && (forall k :: 0 <= k < |c| ==> c[k].path != [] && Front(c[k].path) == q.path && c[k].depth == q.depth + 1)
    && (forall j, k :: 0 <= j < k < |c| ==> c[j].path != c[k].path)
  }

  ghost predicate Extensions(q: BFSNode, r: seq<TransitivePath>) {
    && (forall k :: 0 <= k < |r| ==> r[k].hops != [] && Front(r[k].hops) == q.path)
    && (forall j, k :: 0 <= j < k < |r| ==> r[j] != r[k])
  }

  lemma {:induction false} ChildrenShape(opts: SuggesterOptions, q: BFSNode, rels: seq<Relationship>)
    requires forall j, k :: 0 <= j < k < |rels| ==> rels[j].name != rels[k].name
    ensures Offspring(q, Children(opts, q, rels))
  {
    if rels != [] {
      var n := |rels| - 1;
      ChildrenShape(opts, q, rels[..n]);
      var before := Children(opts, q, rels[..n]);
      forall k | 0 <= k < |before| ensures before[k].path != q.path + [Hop(q, rels[n])] {
        assert before[k] in before;
        var m :| 0 <= m < |rels[..n]| && Eligible(opts, q.visited, rels[..n][m]) && before[k] == Child(q, rels[..n][m]);
        HopsDiffer(q.path, Hop(q, rels[m]), Hop(q, rels[n]));
      }
      assert Front(q.path + [Hop(q, rels[n])]) == q.path;
      assert Children(opts, q, rels) ==
        if Eligible(opts, q.visited, rels[n]) && q.depth + 1 < opts.maxDepth then before + [Child(q, rels[n])]
        else before;
    }
  }

  lemma {:induction false} ReportsShape(opts: SuggesterOptions, source: string, direct: seq<Relationship>,
      q: BFSNode, rels: seq<Relationship>)
    requires forall j, k :: 0 <= j < k < |rels| ==> rels[j].name != rels[k].name
    ensures Extensions(q, Reported(opts, source, direct, q, rels))
  {
    if rels != [] {
      var n := |rels| - 1;
      ReportsShape(opts, source, direct, q, rels[..n]);
      var before := Reported(opts, source, direct, q, rels[..n]);
      forall k | 0 <= k < |before| ensures before[k] != Report(source, q, rels[n]) {
        assert before[k] in before;
        var m :| 0 <= m < |rels[..n]| && Reports(opts, direct, q, rels[..n][m]) &&
          before[k] == Report(source, q, rels[..n][m]);
        HopsDiffer(q.path, Hop(q, rels[m]), Hop(q, rels[n]));
      }
      assert Front(q.path + [Hop(q, rels[n])]) == q.path;
      assert Reported(opts, source, direct, q, rels) ==
        if Reports(opts, direct, q, rels[n]) then before + [Report(source, q, rels[n])] else before;
    }
  }

  lemma NodesStep(g: Graph, opts: SuggesterOptions, source: string, q: BFSNode, rest: seq<BFSNode>)
    requires KeyedByName(g) && AllNodesOk(g, opts, source, rest) && NodeOk(g, opts, source, q)
    ensures AllNodesOk(g, opts, source, rest + Children(opts, q, Explored(g, opts, q)))
  {
    var c := Children(opts, q, Explored(g, opts, q));
    forall k | 0 <= k < |c| ensures NodeOk(g, opts, source, c[k]) { ChildNode(g, opts, source, q, c[k]); }
  }

  lemma ChildNode(g: Graph, opts: SuggesterOptions, source: string, q: BFSNode, c: BFSNode)
    requires NodeOk(g, opts, source, q) && KeyedByName(g) && c in Children(opts, q, Explored(g, opts, q))
    ensures NodeOk(g, opts, source, c)
  {
    var rels := Explored(g, opts, q);
    var k :| 0 <= k < |rels| && Eligible(opts, q.visited, rels[k]) && c == Child(q, rels[k]);
    ChildOk(g, opts, source, q, rels[k]);
  }

  lemma SuggestionsStep(g: Graph, opts: SuggesterOptions, source: string, q: BFSNode, paths: seq<TransitivePath>)
    requires KeyedByName(g) && source in g && NodeOk(g, opts, source, q) && AllSuggestions(g, opts, source, paths)
    ensures AllSuggestions(g, opts, source, paths + Reported(opts, source, g[source], q, Explored(g, opts, q)))
  {
    var r := Reported(opts, source, g[source], q, Explored(g, opts, q));
    forall k | 0 <= k < |r| ensures Suggestion(g, opts, source, r[k]) { ReportedSuggestion(g, opts, source, q, r[k]); }
  }

  lemma ReportedSuggestion(g: Graph, opts: SuggesterOptions, source: string, q: BFSNode, p: TransitivePath)
    requires NodeOk(g, opts, source, q) && KeyedByName(g) && source in g
    requires p in Reported(opts, source, g[source], q, Explored(g, opts, q))
    ensures Suggestion(g, opts, source, p)
  {
    var rels := Explored(g, opts, q);
    var k :| 0 <= k < |rels| && Reports(opts, g[source], q, rels[k]) && p == Report(source, q, rels[k]);
    ExtendsExactly(g, opts, source, q, rels[k]);
  }

  lemma QueueStep(q: BFSNode, rest: seq<BFSNode>, c: seq<BFSNode>, expanded: set<seq<PathHop>>)
    requires QueueFresh([q] + rest, expanded) && ExpandedOk(expanded)
    requires Offspring(q, c)
    ensures QueueFresh(rest + c, expanded + {q.path})
    ensures ExpandedOk(expanded + {q.path})
  {
    assert ([q] + rest)[0] == q && forall k :: 0 <= k < |rest| ==> rest[k] == ([q] + rest)[k + 1];
    forall k | 0 <= k < |c| ensures c[k].path != q.path { assert |Front(c[k].path)| < |c[k].path|; }
  }

  lemma PathsStep(q: BFSNode, paths: seq<TransitivePath>, r: seq<TransitivePath>, expanded: set<seq<PathHop>>)
    requires PathsFresh(paths, expanded) && q.path !in expanded
    requires Extensions(q, r)
    ensures PathsFresh(paths + r, expanded + {q.path})
  {
  }

  /** The last hop of a chain one longer than the entry leaves from the entry's entity. */
  lemma LastHop(g: Graph, opts: SuggesterOptions, source: string, q: BFSNode, hops: seq<PathHop>, target: string)
    requires KeyedByName(g) && NodeOk(g, opts, source, q)
    requires hops != [] && Chain(g, opts, source, hops, target) && Front(hops) == q.path
    ensures hops[|hops| - 1].via == q.entity && Declares(g, hops[|hops| - 1], target)
  {
    var h := hops[|hops| - 1];
    assert hops == q.path + [h];
    ChainStep(g, opts, source, q.path, h, target);
    HopsFixTarget(g, opts, source, q.path, h.via, q.entity);
  }

  lemma HopOf(g: Graph, h: PathHop, target: string) returns (rel: Relationship)
    requires Declares(g, h, target)
    ensures rel in g[h.via] && IsHop(rel, h, target)
  {
    var k :| 0 <= k < |g[h.via]| && IsHop(g[h.via][k], h, target);
    rel := g[h.via][k];
  }

  /** A chain one hop longer than the entry being expanded takes one of its eligible relationships. */
  lemma NextHop(g: Graph, opts: SuggesterOptions, source: string, q: BFSNode, hops: seq<PathHop>, target: string)
    returns (rel: Relationship)
    requires KeyedByName(g) && NodeOk(g, opts, source, q)
    requires hops != [] && |hops| <= opts.maxDepth && Chain(g, opts, source, hops, target) && Front(hops) == q.path
    ensures rel in Explored(g, opts, q) && Eligible(opts, q.visited, rel)
    ensures hops == q.path + [Hop(q, rel)] && rel.target == target
  {
    var h := hops[|hops| - 1];
    LastHop(g, opts, source, q, hops, target);
    rel := HopOf(g, h, target);
    assert hops == q.path + [h] && h == Hop(q, rel);
    ExtendsExactly(g, opts, source, q, rel);
  }

  lemma HandledNow(g: Graph, opts: SuggesterOptions, source: string, q: BFSNode, hops: seq<PathHop>, target: string)
    requires KeyedByName(g) && NodeOk(g, opts, source, q)
    requires hops != [] && |hops| <= opts.maxDepth && Chain(g, opts, source, hops, target) && Front(hops) == q.path
    ensures |hops| < opts.maxDepth ==> Queued(Children(opts, q, Explored(g, opts, q)), hops)
    ensures Suggestion(g, opts, source, TransitivePath(source, target, hops)) ==>
      TransitivePath(source, target, hops) in Reported(opts, source, g[source], q, Explored(g, opts, q))
  {
    var rel := NextHop(g, opts, source, q, hops, target);
    InChildren(opts, q, Explored(g, opts, q), rel);
    if Suggestion(g, opts, source, TransitivePath(source, target, hops)) {
      var rels := Explored(g, opts, q);
      var k :| 0 <= k < |rels| && rels[k] == rel;
      assert Reports(opts, g[source], q, rels[k]);
      assert TransitivePath(source, target, hops) == Report(source, q, rels[k]);
    }
  }

  lemma InChildren(opts: SuggesterOptions, q: BFSNode, rels: seq<Relationship>, rel: Relationship)
    requires rel in rels && Eligible(opts, q.visited, rel)
    ensures q.depth + 1 < opts.maxDepth ==> Queued(Children(opts, q, rels), q.path + [Hop(q, rel)])
  {
    var c := Children(opts, q, rels);
    var k :| 0 <= k < |rels| && rels[k] == rel;
    if q.depth + 1 < opts.maxDepth {
      assert Child(q, rels[k]) in c;
      var m :| 0 <= m < |c| && c[m] == Child(q, rels[k]);
    }
  }

  lemma QueuedStays(queue: seq<BFSNode>, q: BFSNode, rest: seq<BFSNode>, c: seq<BFSNode>, hops: seq<PathHop>)
    requires Queued([q] + rest, hops) || Queued(c, hops)
    ensures hops == q.path || Queued(rest + c, hops)
  {
    if Queued(c, hops) {
      var k :| 0 <= k < |c| && c[k].path == hops;
      assert (rest + c)[|rest| + k].path == hops;
    } else {
      var k :| 0 <= k < |[q] + rest| && ([q] + rest)[k].path == hops;
      if k > 0 { assert (rest + c)[k - 1].path == hops; }
    }
  }

  lemma CompleteStep(g: Graph, opts: SuggesterOptions, source: string, q: BFSNode, rest: seq<BFSNode>,
      paths: seq<TransitivePath>, expanded: set<seq<PathHop>>)
    requires KeyedByName(g) && source in g && NodeOk(g, opts, source, q)
    requires Complete(g, opts, source, [q] + rest, paths, expanded)
    ensures Complete(g, opts, source, rest + Children(opts, q, Explored(g, opts, q)),
                     paths + Reported(opts, source, g[source], q, Explored(g, opts, q)), expanded + {q.path})
  {
    var rels := Explored(g, opts, q);
    var c, r := Children(opts, q, rels), Reported(opts, source, g[source], q, rels);
    if [] !in expanded { QueuedStays([q] + rest, q, rest, c, []); }
    forall hops, target | ToHandle(g, opts, source, expanded + {q.path}, hops, target)
      ensures Handled(g, opts, source, rest + c, paths + r, expanded + {q.path}, hops, target)
    {
      if Front(hops) == q.path {
        HandledNow(g, opts, source, q, hops, target);
        if |hops| < opts.maxDepth { QueuedStays([q] + rest, q, rest, c, hops); }
      } else {
        assert ToHandle(g, opts, source, expanded, hops, target);
        assert Handled(g, opts, source, [q] + rest, paths, expanded, hops, target);
        if |hops| < opts.maxDepth && hops !in expanded { QueuedStays([q] + rest, q, rest, c, hops); }
      }
    }
  }

  lemma OrderStep(q: BFSNode, rest: seq<BFSNode>, c: seq<BFSNode>, paths: seq<TransitivePath>, r: seq<TransitivePath>)
    requires InOrder([q] + rest, paths) && q.depth == |q.path|
    requires Offspring(q, c) && Extensions(q, r)
    ensures InOrder(rest + c, paths + r)
  {
    var queue := [q] + rest;
    assert queue[0] == q;
    forall k | 0 <= k < |rest| ensures rest[k] == queue[k + 1] && q.depth <= rest[k].depth <= q.depth + 1 {}
    forall k | 0 <= k < |r| ensures |r[k].hops| == q.depth + 1 { assert |Front(r[k].hops)| + 1 == |r[k].hops|; }
    forall j | 0 <= j < |paths| ensures |paths[j].hops| <= q.depth + 1 { assert |paths[j].hops| <= queue[0].depth + 1; }
  }

  /** Once the queue is empty every chain short enough has been expanded. */
  lemma {:induction false} AllExpanded(g: Graph, opts: SuggesterOptions, source: string,
      paths: seq<TransitivePath>, expanded: set<seq<PathHop>>, hops: seq<PathHop>, target: string)
    requires Complete(g, opts, source, [], paths, expanded) && Chain(g, opts, source, hops, target)
    requires hops != [] ==> |hops| < opts.maxDepth
    ensures hops in expanded
    decreases |hops|
  {
    if hops != [] {
      var h := hops[|hops| - 1];
      assert hops == Front(hops) + [h];
      ChainStep(g, opts, source, Front(hops), h, target);
      AllExpanded(g, opts, source, paths, expanded, Front(hops), h.via);
      assert ToHandle(g, opts, source, expanded, hops, target);
    }
  }

  lemma AllSuggested(g: Graph, opts: SuggesterOptions, source: string, paths: seq<TransitivePath>,
      expanded: set<seq<PathHop>>, p: TransitivePath)
    requires Complete(g, opts, source, [], paths, expanded) && Suggestion(g, opts, source, p)
    ensures p in paths
  {
    var h := p.hops[|p.hops| - 1];
    assert p.hops == Front(p.hops) + [h];
    ChainStep(g, opts, source, Front(p.hops), h, p.target);
    AllExpanded(g, opts, source, paths, expanded, Front(p.hops), h.via);
    assert ToHandle(g, opts, source, expanded, p.hops, p.target);
  }

  lemma NotYetExpanded(g: Graph, opts: SuggesterOptions, source: string, queue: seq<BFSNode>,
      paths: seq<TransitivePath>, expanded: set<seq<PathHop>>)
    requires LoopOk(g, opts, source, queue, paths, expanded) && queue != []
    ensures queue[0].path in AllPaths(AllHops(g), DepthBound(opts)) - expanded
  {
    ChainsAreListed(g, opts, source, queue[0].path, queue[0].entity, DepthBound(opts));
  }

  function DepthBound(opts: SuggesterOptions): nat {
    if opts.maxDepth > 0 then opts.maxDepth else 0
  }

  lemma Started(g: Graph, opts: SuggesterOptions, source: string, q: BFSNode)
    requires q == BFSNode(source, 0, [], {source})
    ensures LoopOk(g, opts, source, [q], [], {})
  {
    assert Queued([q], []) by { assert [q][0].path == []; }
  }

  lemma TurnChains(g: Graph, opts: SuggesterOptions, source: string, q: BFSNode, rest: seq<BFSNode>,
      paths: seq<TransitivePath>, expanded: set<seq<PathHop>>)
    requires KeyedByName(g) && source in g
    requires AllNodesOk(g, opts, source, [q] + rest) && AllSuggestions(g, opts, source, paths)
    requires Complete(g, opts, source, [q] + rest, paths, expanded)
    ensures q.depth == |q.path|
    ensures AllNodesOk(g, opts, source, rest + Children(opts, q, Explored(g, opts, q)))
    ensures AllSuggestions(g, opts, source, paths + Reported(opts, source, g[source], q, Explored(g, opts, q)))
    ensures Complete(g, opts, source, rest + Children(opts, q, Explored(g, opts, q)),
                     paths + Reported(opts, source, g[source], q, Explored(g, opts, q)), expanded + {q.path})
  {
    Tail(g, opts, source, q, rest);
    NodesStep(g, opts, source, q, rest);
    SuggestionsStep(g, opts, source, q, paths);
    CompleteStep(g, opts, source, q, rest, paths, expanded);
  }

  lemma TurnShape(opts: SuggesterOptions, source: string, direct: seq<Relationship>, q: BFSNode,
      rels: seq<Relationship>, rest: seq<BFSNode>, paths: seq<TransitivePath>, expanded: set<seq<PathHop>>)
    requires forall j, k :: 0 <= j < k < |rels| ==> rels[j].name != rels[k].name
    requires QueueFresh([q] + rest, expanded) && ExpandedOk(expanded) && PathsFresh(paths, expanded)
    requires InOrder([q] + rest, paths) && q.depth == |q.path|
    ensures QueueFresh(rest + Children(opts, q, rels), expanded + {q.path}) && ExpandedOk(expanded + {q.path})
    ensures PathsFresh(paths + Reported(opts, source, direct, q, rels), expanded + {q.path})
    ensures InOrder(rest + Children(opts, q, rels), paths + Reported(opts, source, direct, q, rels))
  {
    assert ([q] + rest)[0].path !in expanded;
    ChildrenShape(opts, q, rels);
    ReportsShape(opts, source, direct, q, rels);
    QueueStep(q, rest, Children(opts, q, rels), expanded);
    PathsStep(q, paths, Reported(opts, source, direct, q, rels), expanded);
    OrderStep(q, rest, Children(opts, q, rels), paths, Reported(opts, source, direct, q, rels));
  }

  lemma Tail(g: Graph, opts: SuggesterOptions, source: string, q: BFSNode, rest: seq<BFSNode>)
    requires AllNodesOk(g, opts, source, [q] + rest)
    ensures NodeOk(g, opts, source, q) && AllNodesOk(g, opts, source, rest)
  {
    assert ([q] + rest)[0] == q && forall k :: 0 <= k < |rest| ==> rest[k] == ([q] + rest)[k + 1];
  }

  /** The invariant of the queue loop. */
  ghost predicate LoopOk(g: Graph, opts: SuggesterOptions, source: string, queue: seq<BFSNode>,
      paths: seq<TransitivePath>, expanded: set<seq<PathHop>>)
  {
    && AllNodesOk(g, opts, source, queue) && AllSuggestions(g, opts, source, paths)
    && QueueFresh(queue, expanded) && ExpandedOk(expanded) && PathsFresh(paths, expanded)
    && Complete(g, opts, source, queue, paths, expanded) && InOrder(queue, paths)
  }

  lemma Turn(g: Graph, opts: SuggesterOptions, source: string, q: BFSNode, rest: seq<BFSNode>,
      paths: seq<TransitivePath>, expanded: set<seq<PathHop>>)
    requires KeyedByName(g) && source in g && LoopOk(g, opts, source, [q] + rest, paths, expanded)
    ensures LoopOk(g, opts, source, rest + Children(opts, q, Explored(g, opts, q)),
                   paths + Reported(opts, source, g[source], q, Explored(g, opts, q)), expanded + {q.path})
  {
    TurnChains(g, opts, source, q, rest, paths, expanded);
    TurnShape(opts, source, g[source], q, Explored(g, opts, q), rest, paths, expanded);
  }

  lemma Exhausted(g: Graph, opts: SuggesterOptions, source: string, paths: seq<TransitivePath>,
      expanded: set<seq<PathHop>>)
    requires LoopOk(g, opts, source, [], paths, expanded)
    ensures forall p :: p in paths <==> Suggestion(g, opts, source, p)
    ensures forall j, k :: 0 <= j < k < |paths| ==> paths[j] != paths[k] && |paths[j].hops| <= |paths[k].hops|
  {
    forall p | Suggestion(g, opts, source, p) ensures p in paths { AllSuggested(g, opts, source, paths, expanded, p); }
    forall p | p in paths ensures Suggestion(g, opts, source, p) {
      var k :| 0 <= k < |paths| && paths[k] == p;
    }
  }

  /** Returns each suggestion once, nothing else, and shorter ones first. */
  method FindTransitivePaths(g: Graph, source: string, opts: SuggesterOptions) returns (paths: seq<TransitivePath>)
    requires KeyedByName(g)
    ensures forall p :: p in paths <==> Qualifies(g, opts, source, p)
    ensures forall j, k :: 0 <= j < k < |paths| ==> paths[j] != paths[k] && |paths[j].hops| <= |paths[k].hops|
  {
    paths := [];
    if source !in g { return; }
    var queue := [BFSNode(source, 0, [], {source})];
    ghost var expanded: set<seq<PathHop>> := {};
    Started(g, opts, source, queue[0]);
    while queue != []
      invariant LoopOk(g, opts, source, queue, paths, expanded)
      decreases AllPaths(AllHops(g), DepthBound(opts)) - expanded
    {
      NotYetExpanded(g, opts, source, queue, paths, expanded);
      var current, rest := queue[0], queue[1..];
      assert queue == [current] + rest;
      Turn(g, opts, source, current, rest, paths, expanded);
      queue, paths := Explore(g, source, opts, current, rest, paths);
      expanded := expanded + {current.path};
    }
    Exhausted(g, opts, source, paths, expanded);
    forall p ensures Suggestion(g, opts, source, p) <==> Qualifies(g, opts, source, p) {
      SuggestionMeans(g, opts, source, p);
    }
  }

  /** The inner loop over the relationships of one entry. */
  method Explore(g: Graph, source: string, opts: SuggesterOptions, current: BFSNode, rest: seq<BFSNode>,
      found: seq<TransitivePath>)
    returns (queue: seq<BFSNode>, paths: seq<TransitivePath>)
    requires source in g
    ensures queue == rest + Children(opts, current, Explored(g, opts, current))
    ensures paths == found + Reported(opts, source, g[source], current, Explored(g, opts, current))
  {
    queue, paths := rest, found;
    if current.depth >= opts.maxDepth || current.entity !in g { return; }
    var rels := g[current.entity];
    for i := 0 to |rels|
      invariant queue == rest + Children(opts, current, rels[..i])
      invariant paths == found + Reported(opts, source, g[source], current, rels[..i])
    {
      var rel := rels[i];
      assert rels[..i + 1][..i] == rels[..i];
      if rel.through != "" || (rel.kind != HasMany && rel.kind != HasOne) { continue; }
      if ShouldExclude(rel.target, opts) || rel.target in current.visited { continue; }
      var newPath := current.path + [PathHop(current.entity, rel.name, rel.foreignKey)];
      if current.depth >= 1 && !HasDirectRelationship(g[source], rel.target) {
        paths := paths + [TransitivePath(source, rel.target, newPath)];
      }
      if current.depth + 1 < opts.maxDepth {
        queue := queue + [BFSNode(rel.target, current.depth + 1, newPath, current.visited + {rel.target})];
      }
    }
    assert rels[..|rels|] == rels;
  }
}
