/** buildDomainGraph: entities become edges. */
module DomainGraph {
  import opened Digraph
  import opened GraphCycles

  datatype ParsedRelationship = ParsedRelationship(name: string, target: string, resolved: bool)

  datatype ParsedEntity = ParsedEntity(name: string, relationships: seq<ParsedRelationship>)

  /** A first-class relationship between two entities, kept in a junction. */
  datatype RelationshipDefinition = RelationshipDefinition(name: string, from: string, to: string)

  /** One edge per resolved relationship, in declaration order. */
  function EntityEdges(entity: string, rels: seq<ParsedRelationship>): seq<RelationshipEdge> {
    if rels == [] then []
    else
      var n := |rels| - 1;
      var before := EntityEdges(entity, rels[..n]);
      if rels[n].resolved then before + [RelationshipEdge(entity, rels[n].target, rels[n].name)] else before
  }

  function InlineEdges(entities: seq<ParsedEntity>): seq<RelationshipEdge> {
    if entities == [] then []
    else
      var n := |entities| - 1;
      InlineEdges(entities[..n]) + EntityEdges(entities[n].name, entities[n].relationships)
  }

  /** One edge per definition whose two ends are both entities. */
  function DefinitionEdges(defs: seq<RelationshipDefinition>, names: set<string>): seq<RelationshipEdge> {
    if defs == [] then []
    else
      var n := |defs| - 1;
      var before := DefinitionEdges(defs[..n], names);
      if defs[n].from in names && defs[n].to in names then
        before + [RelationshipEdge(defs[n].from, defs[n].to, defs[n].name)]
      else before
  }

  predicate Listed(entities: seq<ParsedEntity>, name: string) {
    exists k :: 0 <= k < |entities| && entities[k].name == name
  }

  lemma {:induction false} EntityEdgesStart(entity: string, rels: seq<ParsedRelationship>, e: RelationshipEdge)
    requires e in EntityEdges(entity, rels)
    ensures e.from == entity
  {
    if rels != [] && e in EntityEdges(entity, rels[..|rels| - 1]) { EntityEdgesStart(entity, rels[..|rels| - 1], e); }
  }

  lemma {:induction false} InlineEdgesStart(entities: seq<ParsedEntity>, e: RelationshipEdge)
    requires e in InlineEdges(entities)
    ensures Listed(entities, e.from)
  {
    var n := |entities| - 1;
    if e in InlineEdges(entities[..n]) {
      InlineEdgesStart(entities[..n], e);
      var k :| 0 <= k < n && entities[..n][k].name == e.from;
      assert entities[k].name == e.from;
    } else {
      EntityEdgesStart(entities[n].name, entities[n].relationships, e);
      assert entities[n].name == e.from;
    }
  }

  lemma {:induction false} DefinitionEdgesStart(defs: seq<RelationshipDefinition>, names: set<string>,
      e: RelationshipEdge)
    requires e in DefinitionEdges(defs, names)
    ensures e.from in names && e.to in names
  {
    var n := |defs| - 1;
    if e in DefinitionEdges(defs[..n], names) { DefinitionEdgesStart(defs[..n], names, e); }
  }

  /** An entity of the edge's origin declares a resolved relationship of this name to its target. */
  ghost predicate Declared(entities: seq<ParsedEntity>, e: RelationshipEdge) {
    exists i, j :: 0 <= i < |entities| && 0 <= j < |entities[i].relationships| && entities[i].name == e.from
      && entities[i].relationships[j] == ParsedRelationship(e.relationship, e.to, true)
  }

  /** A definition of this name runs between the two, both of them entities. */
  ghost predicate Defined(entities: seq<ParsedEntity>, defs: seq<RelationshipDefinition>, e: RelationshipEdge) {
    && (exists k :: 0 <= k < |defs| && defs[k] == RelationshipDefinition(e.relationship, e.from, e.to))
    && (exists i :: 0 <= i < |entities| && entities[i].name == e.from)
    && (exists i :: 0 <= i < |entities| && entities[i].name == e.to)
  }

  lemma {:induction false} OwnEdgesExactly(entity: string, rels: seq<ParsedRelationship>, e: RelationshipEdge)
    ensures e in EntityEdges(entity, rels) <==>
      e.from == entity && exists j :: 0 <= j < |rels| && rels[j] == ParsedRelationship(e.relationship, e.to, true)
  {
    if rels != [] {
      var n := |rels| - 1;
      OwnEdgesExactly(entity, rels[..n], e);
      if j :| 0 <= j < |rels| && rels[j] == ParsedRelationship(e.relationship, e.to, true) {
        if j < n { assert rels[..n][j] == rels[j]; }
      }
      if j :| 0 <= j < n && rels[..n][j] == ParsedRelationship(e.relationship, e.to, true) {
        assert rels[j] == rels[..n][j];
      }
    }
  }

  lemma {:induction false} InlineExactly(entities: seq<ParsedEntity>, e: RelationshipEdge)
    ensures e in InlineEdges(entities) <==> Declared(entities, e)
  {
    if entities != [] {
      var n := |entities| - 1;
      InlineExactly(entities[..n], e);
      OwnEdgesExactly(entities[n].name, entities[n].relationships, e);
      if Declared(entities, e) {
        var i, j :| 0 <= i < |entities| && 0 <= j < |entities[i].relationships| && entities[i].name == e.from
          && entities[i].relationships[j] == ParsedRelationship(e.relationship, e.to, true);
        if i < n { assert entities[..n][i] == entities[i]; }
      }
      if Declared(entities[..n], e) {
        var i, j :| 0 <= i < n && 0 <= j < |entities[..n][i].relationships| && entities[..n][i].name == e.from
          && entities[..n][i].relationships[j] == ParsedRelationship(e.relationship, e.to, true);
        assert entities[i] == entities[..n][i];
      }
    }
  }

  lemma {:induction false} DefinedExactly(entities: seq<ParsedEntity>, defs: seq<RelationshipDefinition>,
      names: set<string>, e: RelationshipEdge)
    requires forall name :: name in names <==> Listed(entities, name)
    ensures e in DefinitionEdges(defs, names) <==> Defined(entities, defs, e)
  {
    if defs != [] {
      var n := |defs| - 1;
      DefinedExactly(entities, defs[..n], names, e);
      assert Listed(entities, e.from) <==> exists i :: 0 <= i < |entities| && entities[i].name == e.from;
      assert Listed(entities, e.to) <==> exists i :: 0 <= i < |entities| && entities[i].name == e.to;
      if k :| 0 <= k < |defs| && defs[k] == RelationshipDefinition(e.relationship, e.from, e.to) {
        if k < n { assert defs[..n][k] == defs[k]; }
      }
      if k :| 0 <= k < n && defs[..n][k] == RelationshipDefinition(e.relationship, e.from, e.to) {
        assert defs[k] == defs[..n][k];
      }
    }
  }

  /** Every edge starts at an entity of the graph, so nothing cyclic is out of reach of the search. */
  method BuildDomainGraph(entities: seq<ParsedEntity>, defs: seq<RelationshipDefinition>)
    returns (names: seq<string>, edges: seq<RelationshipEdge>)
    ensures NoDup(names) && forall name :: name in names <==> Listed(entities, name)
    ensures edges == InlineEdges(entities) + DefinitionEdges(defs, Names(names))
    ensures forall e :: e in edges ==> e.from in names
    ensures forall e :: e in edges <==> Declared(entities, e) || Defined(entities, defs, e)
    ensures Cyclic(edges, Names(names)) <==> exists c :: ClosedWalk(edges, c)
  {
    names, edges := [], [];
    for i := 0 to |entities|
      invariant NoDup(names) && forall name :: name in names <==> Listed(entities[..i], name)
    {
      assert forall name :: Listed(entities[..i + 1], name) <==>
        Listed(entities[..i], name) || name == entities[i].name by {
        OneMoreName(entities, i);
      }
      if entities[i].name !in names { names := names + [entities[i].name]; }
    }
    assert entities[..|entities|] == entities;
    for i := 0 to |entities|
      invariant edges == InlineEdges(entities[..i])
    {
      var rels := entities[i].relationships;
      assert entities[..i + 1][..i] == entities[..i];
      ghost var before := edges;
      for j := 0 to |rels|
        invariant edges == before + EntityEdges(entities[i].name, rels[..j])
      {
        assert rels[..j + 1][..j] == rels[..j];
        if !rels[j].resolved { continue; }
        edges := edges + [RelationshipEdge(entities[i].name, rels[j].target, rels[j].name)];
      }
      assert rels[..|rels|] == rels;
    }
    ghost var inline := edges;
    for i := 0 to |defs|
      invariant edges == inline + DefinitionEdges(defs[..i], Names(names))
    {
      assert defs[..i + 1][..i] == defs[..i];
      var fromExists := defs[i].from in names;
      var toExists := defs[i].to in names;
      if fromExists && toExists {
        edges := edges + [RelationshipEdge(defs[i].from, defs[i].to, defs[i].name)];
      }
    }
    assert defs[..|defs|] == defs;
    forall e | e in edges ensures e.from in names {
      if e in inline { InlineEdgesStart(entities, e); } else { DefinitionEdgesStart(defs, Names(names), e); }
    }
    forall e ensures e in edges <==> Declared(entities, e) || Defined(entities, defs, e) {
      InlineExactly(entities, e);
      DefinedExactly(entities, defs, Names(names), e);
    }
    CyclicOnDomainGraph(edges, Names(names));
  }

  lemma OneMoreName(entities: seq<ParsedEntity>, i: nat)
    requires i < |entities|
    ensures forall name :: Listed(entities[..i + 1], name) <==> Listed(entities[..i], name) || name == entities[i].name
  {
    forall name ensures Listed(entities[..i + 1], name) <==> Listed(entities[..i], name) || name == entities[i].name {
      if Listed(entities[..i], name) {
        var k :| 0 <= k < i && entities[..i][k].name == name;
        assert entities[..i + 1][k].name == name;
      }
      assert entities[..i + 1][i] == entities[i];
      if Listed(entities[..i + 1], name) {
        var k :| 0 <= k < i + 1 && entities[..i + 1][k].name == name;
        if k < i { assert entities[..i][k].name == name; }
      }
    }
  }
}
