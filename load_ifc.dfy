/**
 * code/load_ifc.py: `IFC_BRICK`, `entity_relationship_map`, and the graph-building loops of `main`,
 * which turn the entities and relationships of a model into Brick triples through `BrickAPI`.
 */
module LoadIfc {
  import opened Wrappers
  import opened Strings
  import opened PyDict
  import opened IfcData
  import opened TypeResolution
  import opened Properties
  import opened Relationships
  import opened BrickGraph

  /** `IFC_BRICK`: Brick classes fixed in advance for some IFC types. */
  const IfcBrick: map<string, string> := map[
    "IfcWallStandardCase" := "Wall",
    "IfcBuildingStorey" := "Level",
    "IfcFurnishingElement" := "Furniture"
  ]

  /** The class of an entity nothing else classifies. */
  const DefaultClass := "BuildingElement"

  /** An entry of `data['entities']`: the entity's `get_info()` with its `properties` added. */
  datatype EntityRecord = EntityRecord(info: Info, properties: PropertyMap)

  /** The value `entity_relationship_map` returns. */
  datatype BrickData = BrickData(entities: seq<EntityRecord>, relationships: RelMap)

  /** The records of a sequence of objects, in order; the first failing `get_properties` stops it. */
  function EntityRecords(objs: seq<IfcObject>): Result<seq<EntityRecord>, Error>
    decreases |objs|
  {
    if objs == [] then Ok([])
    else
      var n := |objs| - 1;
      match EntityRecords(objs[..n])
      case Err(e) => Err(e)
      case Ok(es) =>
        match PropertiesOf(objs[n])
        case Err(e) => Err(e)
        case Ok(props) => Ok(es + [EntityRecord(objs[n].info, props)])
  }

  lemma {:induction false} EntityRecordsErrPropagates(objs: seq<IfcObject>, n: nat)
    requires n <= |objs| && EntityRecords(objs[..n]).Err?
    ensures EntityRecords(objs) == EntityRecords(objs[..n])
    decreases |objs|
  {
    if n < |objs| {
      var m := |objs| - 1;
      assert objs[..m][..n] == objs[..n];
      EntityRecordsErrPropagates(objs[..m], n);
    } else {
      assert objs[..n] == objs;
    }
  }

  /** One more object whose `get_properties` succeeds appends its record. */
  lemma EntityRecordsStep(objs: seq<IfcObject>, i: nat, entities: seq<EntityRecord>, props: PropertyMap)
    requires i < |objs| && EntityRecords(objs[..i]) == Ok(entities) && PropertiesOf(objs[i]) == Ok(props)
    ensures EntityRecords(objs[..i + 1]) == Ok(entities + [EntityRecord(objs[i].info, props)])
  {
    assert objs[..i + 1][..i] == objs[..i];
  }

  /** An object whose `get_properties` fails is the failure of the whole sequence. */
  lemma EntityRecordsFails(objs: seq<IfcObject>, i: nat, entities: seq<EntityRecord>)
    requires i < |objs| && EntityRecords(objs[..i]) == Ok(entities) && PropertiesOf(objs[i]).Err?
    ensures EntityRecords(objs) == Err(PropertiesOf(objs[i]).error)
  {
    assert objs[..i + 1][..i] == objs[..i];
    EntityRecordsErrPropagates(objs, i + 1);
  }

  /** What `entity_relationship_map` returns: the spatial structure elements, then the elements, then the relationships. */
  function ModelData(model: IfcModel): Result<BrickData, Error>
  {
    match EntityRecords(model.spatialElements + model.elements)
    case Err(e) => Err(e)
    case Ok(es) => Ok(BrickData(es, RelationshipsOf(model.relationships)))
  }

  /** `entity_relationship_map`: two loops appending to `data['entities']`, then `get_relationships`. */
  method EntityRelationshipMap(model: IfcModel) returns (r: Result<BrickData, Error>)
    ensures r == ModelData(model)
  {
    var spatial := model.spatialElements;
    var all := spatial + model.elements;
    var entities: seq<EntityRecord> := [];
    for i := 0 to |spatial|
      invariant EntityRecords(all[..i]) == Ok(entities)
    {
      assert all[i] == spatial[i];
      var props := GetProperties(spatial[i]);
      if props.Err? {
        EntityRecordsFails(all, i, entities);
        return Err(props.error);
      }
      EntityRecordsStep(all, i, entities, props.value);
      entities := entities + [EntityRecord(spatial[i].info, props.value)];
    }
    for j := 0 to |model.elements|
      invariant EntityRecords(all[..|spatial| + j]) == Ok(entities)
    {
      var k := |spatial| + j;
      assert all[k] == model.elements[j];
      var props := GetProperties(model.elements[j]);
      if props.Err? {
        EntityRecordsFails(all, k, entities);
        return Err(props.error);
      }
      EntityRecordsStep(all, k, entities, props.value);
      entities := entities + [EntityRecord(model.elements[j].info, props.value)];
    }
    assert all[..|all|] == all;
    var relationships := GetRelationships(model.relationships);
    return Ok(BrickData(entities, relationships));
  }

  /** The records follow the objects one for one, each with that object's `get_properties`. */
  lemma {:induction false} EntityRecordsShape(objs: seq<IfcObject>)
    ensures EntityRecords(objs).Ok? <==> forall i :: 0 <= i < |objs| ==> PropertiesOf(objs[i]).Ok?
    ensures EntityRecords(objs).Ok? ==>
      var es := EntityRecords(objs).value;
      |es| == |objs| && forall i :: 0 <= i < |objs| ==> es[i] == EntityRecord(objs[i].info, PropertiesOf(objs[i]).value)
    decreases |objs|
  {
    if objs != [] {
      var n := |objs| - 1;
      EntityRecordsShape(objs[..n]);
      assert forall i :: 0 <= i < n ==> objs[..n][i] == objs[i];
    }
  }

  /** Spatial structure elements come first, then elements, each in order; an object in both groups is listed twice. */
  lemma EntitiesInOrder(model: IfcModel)
    requires ModelData(model).Ok?
    ensures var es := ModelData(model).value.entities;
      var ns := |model.spatialElements|;
      |es| == ns + |model.elements|
      && (forall i :: 0 <= i < ns ==> es[i].info == model.spatialElements[i].info)
      && (forall j :: 0 <= j < |model.elements| ==> es[ns + j].info == model.elements[j].info)
    ensures ModelData(model).value.relationships == RelationshipsOf(model.relationships)
  {
    var all := model.spatialElements + model.elements;
    EntityRecordsShape(all);
    assert forall j :: 0 <= j < |model.elements| ==> all[|model.spatialElements| + j] == model.elements[j];
  }

  /** The union of a sequence of triple sets; the first failure stops it. */
  function UnionAll(parts: seq<Result<set<Triple>, Error>>): Result<set<Triple>, Error>
    decreases |parts|
  {
    if parts == [] then Ok({})
    else
      var n := |parts| - 1;
      match UnionAll(parts[..n])
      case Err(e) => Err(e)
      case Ok(acc) =>
        match parts[n]
        case Err(e) => Err(e)
        case Ok(ts) => Ok(acc + ts)
  }

  /** One more successful part adds its triples. */
  lemma UnionAllStep(parts: seq<Result<set<Triple>, Error>>, i: nat, acc: set<Triple>)
    requires i < |parts| && UnionAll(parts[..i]) == Ok(acc) && parts[i].Ok?
    ensures UnionAll(parts[..i + 1]) == Ok(acc + parts[i].value)
  {
    assert parts[..i + 1][..i] == parts[..i];
  }

  /** A failing part is the failure of the whole union. */
  lemma UnionAllFails(parts: seq<Result<set<Triple>, Error>>, i: nat, acc: set<Triple>)
    requires i < |parts| && UnionAll(parts[..i]) == Ok(acc) && parts[i].Err?
    ensures UnionAll(parts) == Err(parts[i].error)
  {
    assert parts[..i + 1][..i] == parts[..i];
    UnionAllErrPropagates(parts, i + 1);
  }

  lemma {:induction false} UnionAllErrPropagates(parts: seq<Result<set<Triple>, Error>>, n: nat)
    requires n <= |parts| && UnionAll(parts[..n]).Err?
    ensures UnionAll(parts) == UnionAll(parts[..n])
    decreases |parts|
  {
    if n < |parts| {
      var m := |parts| - 1;
      assert parts[..m][..n] == parts[..n];
      UnionAllErrPropagates(parts[..m], n);
    } else {
      assert parts[..n] == parts;
    }
  }

  /** The union succeeds exactly when every part does, and then holds exactly the triples of the parts. */
  lemma {:induction false} UnionAllMeaning(parts: seq<Result<set<Triple>, Error>>)
    ensures UnionAll(parts).Ok? <==> forall i :: 0 <= i < |parts| ==> parts[i].Ok?
    ensures UnionAll(parts).Ok? ==>
      forall x :: x in UnionAll(parts).value <==> exists i :: 0 <= i < |parts| && x in parts[i].value
    decreases |parts|
  {
    if parts != [] {
      var n := |parts| - 1;
      UnionAllMeaning(parts[..n]);
      assert forall i :: 0 <= i < n ==> parts[..n][i] == parts[i];
      if UnionAll(parts).Ok? {
        forall x | x in UnionAll(parts).value ensures exists i :: 0 <= i < |parts| && x in parts[i].value {
          if x !in parts[n].value {
            var i :| 0 <= i < n && x in parts[..n][i].value;
          }
        }
      }
    }
  }

  /** The node id of an entity: `entity['type'] + str(entity['id'])`. */
  function EntityId(info: Info): string
  {
    EntityKey(EntityRef(info.ifcType, info.id))
  }

  /** The Brick class of an entity: `get_brick_from_ifc_type(type, IFC_BRICK, 'BuildingElement', True)`. */
  function EntityClass(ifcType: string, tables: Tables): string
  {
    var r := Resolve(ifcType, IfcBrick, Some(DefaultClass), tables.classes, true);
    r.value
  }

  /** The triples one property entry adds: none without a strict match in the property table, else a quantity node with its two literals and the edge to it. */
  function PropertyTriples(entId: string, name: string, props: Record, tables: Tables): (r: Result<set<Triple>, Error>)
  {
    match Resolve(name, map[], None, tables.properties, true)
    case None => Ok({})
    case Some(brickProp) =>
      match Get(props, "id")
      case None => Err(MissingKey("id"))
      case Some(id) =>
        var propsId := name + PyStr(id);
        match Get(props, "value")
        case None => Err(MissingKey("value"))
        case Some(v) =>
          match Get(props, "Unit")
          case None => Err(MissingKey("Unit"))
          case Some(unit) =>
            Ok({NodeTriple(propsId, "Quantity"), PropertyTriple(propsId, v, "value"),
                PropertyTriple(propsId, unit, "hasUnit"), EdgeTriple(entId, propsId, brickProp)})
  }

  /** The triple sets of the property entries of an entity, in order. */
  function PropertyParts(entId: string, properties: PropertyMap, tables: Tables): seq<Result<set<Triple>, Error>>
  {
    seq(|properties|, i requires 0 <= i < |properties| => PropertyTriples(entId, properties[i].0, properties[i].1, tables))
  }

  /** The triples one entity adds: its node with its class, and those of its properties. */
  function EntityTriples(e: EntityRecord, tables: Tables): Result<set<Triple>, Error>
  {
    var entId := EntityId(e.info);
    match UnionAll(PropertyParts(entId, e.properties, tables))
    case Err(err) => Err(err)
    case Ok(ps) => Ok({NodeTriple(entId, EntityClass(e.info.ifcType, tables))} + ps)
  }

  function EntityParts(es: seq<EntityRecord>, tables: Tables): seq<Result<set<Triple>, Error>>
  {
    seq(|es|, i requires 0 <= i < |es| => EntityTriples(es[i], tables))
  }

  /** One edge per (source, predicate, target) of the relationship map. */
  function RelationTriples(rels: RelMap): set<Triple>
  {
    set s, p, t | s in rels && p in rels[s] && t in rels[s][p] :: EdgeTriple(s, t, p)
  }

  /** The triples `main` adds for the data: those of every entity, then one edge per relationship entry. */
  function GraphOf(data: BrickData, tables: Tables): Result<set<Triple>, Error>
  {
    match UnionAll(EntityParts(data.entities, tables))
    case Err(e) => Err(e)
    case Ok(ts) => Ok(ts + RelationTriples(data.relationships))
  }

  /** The edges of the sources in `done`. */
  function EdgesOf(rels: RelMap, done: set<string>): set<Triple>
  {
    set s, p, t | s in done && s in rels && p in rels[s] && t in rels[s][p] :: EdgeTriple(s, t, p)
  }

  /** The edges of source `s` for the predicates in `done`. */
  function SourceEdgesOf(s: string, inner: map<string, set<string>>, done: set<string>): set<Triple>
  {
    set p, t | p in done && p in inner && t in inner[p] :: EdgeTriple(s, t, p)
  }

  lemma EdgesOfStep(rels: RelMap, done: set<string>, s: string)
    requires s in rels
    ensures EdgesOf(rels, done + {s}) == EdgesOf(rels, done) + SourceEdgesOf(s, rels[s], rels[s].Keys)
  {
  }

  lemma SourceEdgesOfStep(s: string, inner: map<string, set<string>>, done: set<string>, p: string)
    requires p in inner
    ensures SourceEdgesOf(s, inner, done + {p}) == SourceEdgesOf(s, inner, done) + set t | t in inner[p] :: EdgeTriple(s, t, p)
  {
  }

  /** The innermost loop of lines 117-118: one edge per target of one predicate. */
  method AddTargetEdges(api: BrickAPI, source: string, relationshipType: string, targets: set<string>)
    modifies api
    ensures api.g == old(api.g) + set t | t in targets :: EdgeTriple(source, t, relationshipType)
  {
    var remaining := targets;
    while remaining != {}
      invariant remaining <= targets
      invariant api.g == old(api.g) + set t | t in targets - remaining :: EdgeTriple(source, t, relationshipType)
      decreases remaining
    {
      var target :| target in remaining;
      api.AddEdge(source, target, relationshipType);
      remaining := remaining - {target};
    }
  }

  /** The middle loop of lines 116-118: the edges of one source. */
  method AddSourceEdges(api: BrickAPI, source: string, relationship: map<string, set<string>>)
    modifies api
    ensures api.g == old(api.g) + SourceEdgesOf(source, relationship, relationship.Keys)
  {
    var types := relationship.Keys;
    while types != {}
      invariant types <= relationship.Keys
      invariant api.g == old(api.g) + SourceEdgesOf(source, relationship, relationship.Keys - types)
      decreases types
    {
      var relationshipType :| relationshipType in types;
      AddTargetEdges(api, source, relationshipType, relationship[relationshipType]);
      SourceEdgesOfStep(source, relationship, relationship.Keys - types, relationshipType);
      assert relationship.Keys - (types - {relationshipType}) == (relationship.Keys - types) + {relationshipType};
      types := types - {relationshipType};
    }
    assert relationship.Keys - types == relationship.Keys;
  }

  /** The relationship loop of `main` (lines 115-118): every (source, predicate, target) becomes an edge. */
  method AddRelationshipEdges(api: BrickAPI, rels: RelMap)
    modifies api
    ensures api.g == old(api.g) + RelationTriples(rels)
  {
    var sources := rels.Keys;
    while sources != {}
      invariant sources <= rels.Keys
      invariant api.g == old(api.g) + EdgesOf(rels, rels.Keys - sources)
      decreases sources
    {
      var source :| source in sources;
      AddSourceEdges(api, source, rels[source]);
      EdgesOfStep(rels, rels.Keys - sources, source);
      assert rels.Keys - (sources - {source}) == (rels.Keys - sources) + {source};
      sources := sources - {source};
    }
    assert rels.Keys - sources == rels.Keys;
    assert EdgesOf(rels, rels.Keys) == RelationTriples(rels);
  }

  /** The error a failed computation raised, none for a success. */
  function ErrorOf<T>(r: Result<T, Error>): Option<Error>
  {
    if r.Err? then Some(r.error) else None
  }

  /** Lines 100-112 for one property entry: skipped without a match, else a quantity node, two literals and an edge. */
  method AddPropertyEntry(api: BrickAPI, entId: string, propertyName: string, props: Record, tables: Tables)
    returns (err: Option<Error>)
    modifies api
    ensures err == ErrorOf(PropertyTriples(entId, propertyName, props, tables))
    ensures err.None? ==> api.g == old(api.g) + PropertyTriples(entId, propertyName, props, tables).value
  {
    var brickProp := GetBrickFromIfcType(propertyName, map[], None, false, true, tables);
    if brickProp.None? {
      return None;
    }
    var id := Get(props, "id");
    if id.None? {
      return Some(MissingKey("id"));
    }
    var propsId := propertyName + PyStr(id.value);
    api.AddNode(propsId, "Quantity");
    var value := Get(props, "value");
    if value.None? {
      return Some(MissingKey("value"));
    }
    api.AddProperty(propsId, value.value, "value");
    var unit := Get(props, "Unit");
    if unit.None? {
      return Some(MissingKey("Unit"));
    }
    api.AddProperty(propsId, unit.value, "hasUnit");
    api.AddEdge(entId, propsId, brickProp.value);
    return None;
  }

  /** Lines 94-112 for one entity: its node, then its property entries in order. */
  method AddEntity(api: BrickAPI, entity: EntityRecord, tables: Tables) returns (err: Option<Error>)
    modifies api
    ensures err == ErrorOf(EntityTriples(entity, tables))
    ensures err.None? ==> api.g == old(api.g) + EntityTriples(entity, tables).value
  {
    var entId := EntityKey(EntityRef(entity.info.ifcType, entity.info.id));
    var brickClass := GetBrickFromIfcType(entity.info.ifcType, IfcBrick, Some(DefaultClass), true, true, tables);
    api.AddNode(entId, brickClass.value);
    ghost var withNode := api.g;
    ghost var parts := PropertyParts(entId, entity.properties, tables);
    ghost var acc: set<Triple> := {};
    for j := 0 to |entity.properties|
      invariant UnionAll(parts[..j]) == Ok(acc)
      invariant api.g == withNode + acc
    {
      var (propertyName, props) := entity.properties[j];
      var e := AddPropertyEntry(api, entId, propertyName, props, tables);
      if e.Some? {
        UnionAllFails(parts, j, acc);
        return e;
      }
      UnionAllStep(parts, j, acc);
      acc := acc + PropertyTriples(entId, propertyName, props, tables).value;
    }
    assert parts[..|parts|] == parts;
    return None;
  }

  /** The entity loop of `main` (lines 92-112). */
  method AddEntities(api: BrickAPI, entities: seq<EntityRecord>, tables: Tables) returns (err: Option<Error>)
    modifies api
    ensures err == ErrorOf(UnionAll(EntityParts(entities, tables)))
    ensures err.None? ==> api.g == old(api.g) + UnionAll(EntityParts(entities, tables)).value
  {
    ghost var parts := EntityParts(entities, tables);
    ghost var acc: set<Triple> := {};
    for i := 0 to |entities|
      invariant UnionAll(parts[..i]) == Ok(acc)
      invariant api.g == old(api.g) + acc
    {
      var e := AddEntity(api, entities[i], tables);
      if e.Some? {
        UnionAllFails(parts, i, acc);
        return e;
      }
      UnionAllStep(parts, i, acc);
      acc := acc + EntityTriples(entities[i], tables).value;
    }
    assert parts[..|parts|] == parts;
    return None;
  }

  /** The graph-building part of `main` (lines 91-118): entities, then relationship edges. */
  method BuildGraph(api: BrickAPI, data: BrickData, tables: Tables) returns (err: Option<Error>)
    modifies api
    ensures err == ErrorOf(GraphOf(data, tables))
    ensures err.None? ==> api.g == old(api.g) + GraphOf(data, tables).value
  {
    err := AddEntities(api, data.entities, tables);
    if err.Some? {
      return;
    }
    AddRelationshipEdges(api, data.relationships);
  }

  /** What `main` would write for a model: the triples of its entities and relationships, or the exception raised. */
  function Conversion(model: IfcModel, tables: Tables): Result<set<Triple>, Error>
  {
    match ModelData(model)
    case Err(e) => Err(e)
    case Ok(data) => GraphOf(data, tables)
  }

  /** `main` without opening the file and writing Turtle: the graph starts empty, so it holds exactly the converted triples. */
  method Convert(model: IfcModel, tables: Tables) returns (r: Result<set<Triple>, Error>)
    ensures r == Conversion(model, tables)
  {
    var brickData := EntityRelationshipMap(model);
    if brickData.Err? {
      return Err(brickData.error);
    }
    var rdfGraph := new BrickAPI();
    var err := BuildGraph(rdfGraph, brickData.value, tables);
    if err.Some? {
      return Err(err.value);
    }
    assert GraphOf(brickData.value, tables).Ok?;
    assert rdfGraph.g == GraphOf(brickData.value, tables).value;
    return Ok(rdfGraph.g);
  }

  /** The class of an entity is its `IFC_BRICK` entry, else the first strictly matching class name, else `BuildingElement` (lines 9-11, 95). */
  lemma EntityClassChoice(ifcType: string, tables: Tables)
    ensures ifcType in IfcBrick ==> EntityClass(ifcType, tables) == IfcBrick[ifcType]
    ensures ifcType !in IfcBrick ==>
      EntityClass(ifcType, tables) == DefaultClass ||
      exists i :: 0 <= i < |tables.classes| && tables.classes[i] == EntityClass(ifcType, tables) && Matches(tables.classes[i], ifcType, true)
    ensures ifcType !in IfcBrick && FirstMatch(tables.classes, ifcType, true).Some? ==>
      EntityClass(ifcType, tables) == tables.classes[FirstMatch(tables.classes, ifcType, true).value]
    ensures ifcType !in IfcBrick && (forall i :: 0 <= i < |tables.classes| ==> !Matches(tables.classes[i], ifcType, true)) ==>
      EntityClass(ifcType, tables) == DefaultClass
  {
    var c := EntityClass(ifcType, tables);
    if ifcType !in IfcBrick && c != DefaultClass {
      ResolveFromTable(ifcType, IfcBrick, Some(DefaultClass), tables.classes, true, c);
    }
  }

  /** Walls, storeys and furnishing elements get exactly `Wall`, `Level` and `Furniture`, whatever the class table holds (lines 9-11). */
  lemma KnownEntityClasses(tables: Tables)
    ensures EntityClass("IfcWallStandardCase", tables) == "Wall"
    ensures EntityClass("IfcBuildingStorey", tables) == "Level"
    ensures EntityClass("IfcFurnishingElement", tables) == "Furniture"
  {
    EntityClassChoice("IfcWallStandardCase", tables);
    EntityClassChoice("IfcBuildingStorey", tables);
    EntityClassChoice("IfcFurnishingElement", tables);
  }

  /** A property with no strict match in the property table adds no triples, and cannot fail (lines 100-102). */
  lemma UnmatchedPropertyDropped(entId: string, propertyName: string, props: Record, tables: Tables)
    requires forall j :: 0 <= j < |tables.properties| ==> !Matches(tables.properties[j], propertyName, true)
    ensures PropertyTriples(entId, propertyName, props, tables) == Ok({})
  {
    ResolveFallback(propertyName, map[], None, tables.properties, true);
  }

  /**
   * A property whose first strict match is `tables.properties[i]` and whose record has `id`, `value` and `Unit`
   * adds exactly four distinct triples: a `Quantity` node named `propertyName + str(id)`, its `value` and `hasUnit`
   * literals, and an edge from the entity labelled with the matched name (lines 104-112).
   */
  lemma MatchedPropertyTriples(entId: string, propertyName: string, props: Record, tables: Tables, i: nat, id: Value, v: Value, unit: Value)
    requires i < |tables.properties| && Matches(tables.properties[i], propertyName, true)
    requires forall j :: 0 <= j < i ==> !Matches(tables.properties[j], propertyName, true)
    requires Get(props, "id") == Some(id) && Get(props, "value") == Some(v) && Get(props, "Unit") == Some(unit)
    ensures var propsId := propertyName + PyStr(id);
      var ts := {NodeTriple(propsId, "Quantity"), PropertyTriple(propsId, v, "value"),
                 PropertyTriple(propsId, unit, "hasUnit"), EdgeTriple(entId, propsId, tables.properties[i])};
      PropertyTriples(entId, propertyName, props, tables) == Ok(ts) && |ts| == 4
  {
    ResolveFirstMatch(propertyName, map[], None, tables.properties, true, i);
    var propsId := propertyName + PyStr(id);
    var t1, t2 := NodeTriple(propsId, "Quantity"), PropertyTriple(propsId, v, "value");
    var t3, t4 := PropertyTriple(propsId, unit, "hasUnit"), EdgeTriple(entId, propsId, tables.properties[i]);
    assert t2 != t3 by { assert t2.pred != t3.pred by { assert "value" != "hasUnit"; } }
    assert |{t1, t2, t3, t4}| == 4;
  }

  /** A matched property fails exactly when its record lacks `id`, `value` or `Unit`; the first missing key is reported. */
  lemma PropertyFailure(entId: string, propertyName: string, props: Record, tables: Tables)
    ensures PropertyTriples(entId, propertyName, props, tables).Err? <==>
      Resolve(propertyName, map[], None, tables.properties, true).Some? &&
      !("id" in KeySet(props) && "value" in KeySet(props) && "Unit" in KeySet(props))
    ensures PropertyTriples(entId, propertyName, props, tables).Err? ==>
      var k := PropertyTriples(entId, propertyName, props, tables).error.key;
      k !in KeySet(props) && (k == "id" || k == "value" || k == "Unit")
  {
  }

  /** Each (source, predicate, target) of the map yields exactly the edge `(Site(source), Brick(predicate), Site(target))`, and nothing else is added (lines 115-118). */
  lemma RelationTriplesExact(rels: RelMap)
    ensures forall s, p, t :: EdgeTriple(s, t, p) in RelationTriples(rels) <==> Has(rels, s, p, t)
    ensures forall x :: x in RelationTriples(rels) ==> x.subj.Site? && x.pred.Brick? && x.obj.Site?
  {
  }

  /**
   * What a successful build contains: a node with its class for every entity, the triples of every property
   * entry of every entity, and an edge for every relationship entry.
   */
  lemma GraphContents(data: BrickData, tables: Tables)
    requires GraphOf(data, tables).Ok?
    ensures var g := GraphOf(data, tables).value;
      forall i :: 0 <= i < |data.entities| ==>
        NodeTriple(EntityId(data.entities[i].info), EntityClass(data.entities[i].info.ifcType, tables)) in g
    ensures var g := GraphOf(data, tables).value;
      forall i, j :: 0 <= i < |data.entities| && 0 <= j < |data.entities[i].properties| ==>
        var e := data.entities[i];
        PropertyTriples(EntityId(e.info), e.properties[j].0, e.properties[j].1, tables).Ok? &&
        PropertyTriples(EntityId(e.info), e.properties[j].0, e.properties[j].1, tables).value <= g
    ensures var g := GraphOf(data, tables).value;
      forall s, p, t :: Has(data.relationships, s, p, t) ==> EdgeTriple(s, t, p) in g
  {
    var parts := EntityParts(data.entities, tables);
    UnionAllMeaning(parts);
    var g := GraphOf(data, tables).value;
    forall i, j | 0 <= i < |data.entities| && 0 <= j < |data.entities[i].properties|
      ensures var e := data.entities[i];
        PropertyTriples(EntityId(e.info), e.properties[j].0, e.properties[j].1, tables).Ok? &&
        PropertyTriples(EntityId(e.info), e.properties[j].0, e.properties[j].1, tables).value <= g
    {
      var e := data.entities[i];
      var pparts := PropertyParts(EntityId(e.info), e.properties, tables);
      assert parts[i].Ok?;
      UnionAllMeaning(pparts);
      assert pparts[j].Ok?;
      forall x | x in pparts[j].value ensures x in g {
        assert x in UnionAll(pparts).value;
        assert x in parts[i].value;
      }
    }
    forall i | 0 <= i < |data.entities|
      ensures NodeTriple(EntityId(data.entities[i].info), EntityClass(data.entities[i].info.ifcType, tables)) in g
    {
      assert parts[i].Ok?;
    }
  }

  /** Conversely, every triple of a built graph is an entity's node, a triple of one of its property entries, or a relationship edge (lines 92-118). */
  lemma GraphOnlyFrom(data: BrickData, tables: Tables, x: Triple)
    requires GraphOf(data, tables).Ok? && x in GraphOf(data, tables).value
    ensures x in RelationTriples(data.relationships) ||
      exists i :: 0 <= i < |data.entities| &&
        (x == NodeTriple(EntityId(data.entities[i].info), EntityClass(data.entities[i].info.ifcType, tables)) ||
         exists j :: 0 <= j < |data.entities[i].properties| &&
           var e := data.entities[i];
           PropertyTriples(EntityId(e.info), e.properties[j].0, e.properties[j].1, tables).Ok? &&
           x in PropertyTriples(EntityId(e.info), e.properties[j].0, e.properties[j].1, tables).value)
  {
    var parts := EntityParts(data.entities, tables);
    UnionAllMeaning(parts);
    if x !in RelationTriples(data.relationships) {
      var i :| 0 <= i < |parts| && x in parts[i].value;
      var e := data.entities[i];
      var entId := EntityId(e.info);
      if x != NodeTriple(entId, EntityClass(e.info.ifcType, tables)) {
        var pparts := PropertyParts(entId, e.properties, tables);
        UnionAllMeaning(pparts);
        var j :| 0 <= j < |pparts| && x in pparts[j].value;
        assert pparts[j] == PropertyTriples(entId, e.properties[j].0, e.properties[j].1, tables);
      }
    }
  }

  /** Every target a recognised relationship of the model names becomes an edge of the converted graph. */
  lemma ConvertedRelationshipEdges(model: IfcModel, tables: Tables, i: nat, s: string, p: string, t: string)
    requires Conversion(model, tables).Ok?
    requires i < |model.relationships| && Contributes(model.relationships[i], s, p, t)
    ensures EdgeTriple(s, t, p) in Conversion(model, tables).value
  {
    var data := ModelData(model).value;
    RelationshipTargets(model.relationships);
    assert Has(data.relationships, s, p, t);
    GraphContents(data, tables);
  }

  /** Two entities whose property entries all convert give a graph. */
  lemma TwoEntitiesConvert(first: EntityRecord, second: EntityRecord, rels: RelMap, tables: Tables)
    requires UnionAll(PropertyParts(EntityId(first.info), first.properties, tables)).Ok?
    requires UnionAll(PropertyParts(EntityId(second.info), second.properties, tables)).Ok?
    ensures GraphOf(BrickData([first, second], rels), tables).Ok?
  {
    var parts := EntityParts([first, second], tables);
    assert parts[0].Ok? && parts[1].Ok?;
    UnionAllMeaning(parts);
  }

  /** A single containment relationship from `a` to `b` and `c` gives `{a: {hasPart: {b, c}}}` and nothing else. */
  lemma SingleContainment(a: EntityRef, b: EntityRef, c: EntityRef)
    ensures RelationshipsOf([Relationship("IfcRelContainedInSpatialStructure", a, TargetList([b, c]))])
      == map[EntityKey(a) := map[HasPart := {EntityKey(b), EntityKey(c)}]]
  {
    var rel := Relationship("IfcRelContainedInSpatialStructure", a, TargetList([b, c]));
    var ka := EntityKey(a);
    assert IfcRelNaming["IfcRelContainedInSpatialStructure"].brickType == HasPart;
    assert [rel][..0] == [];
    var created: RelMap := map[ka := map[]];
    assert [b, c][..1] == [b] && [b][..0] == [];
    var m1 := AddTarget(created, ka, HasPart, EntityKey(b));
    assert m1.Keys == {ka} && m1[ka].Keys == {HasPart} && m1[ka][HasPart] == {EntityKey(b)};
    var m2 := AddTarget(m1, ka, HasPart, EntityKey(c));
    assert m2.Keys == {ka} && m2[ka].Keys == {HasPart} && m2[ka][HasPart] == {EntityKey(b), EntityKey(c)};
    assert AddTargets(created, ka, HasPart, [b]) == m1;
    assert AddTargets(created, ka, HasPart, [b, c]) == m2;
    assert m2[ka] == map[HasPart := {EntityKey(b), EntityKey(c)}];
  }

  /**
   * A storey containing a wall that carries a `Length` quantity of 5.0 metres, with relationships holding the
   * storey-to-wall containment (as `SingleContainment` shows one containment relationship yields): the graph has
   * a `Level` node, a `Wall` node, the `hasPart` edge between them, a `Quantity` node with its value and unit
   * literals, and the edge from the wall to it labelled with the matched property name.
   */
  lemma StoreyWallScenario(tables: Tables, storey: Info, wall: Info, length: Record, id: Value, k: nat, rels: RelMap)
    requires storey.ifcType == "IfcBuildingStorey" && wall.ifcType == "IfcWallStandardCase"
    requires k < |tables.properties| && Matches(tables.properties[k], "Length", true)
    requires forall j :: 0 <= j < k ==> !Matches(tables.properties[j], "Length", true)
    requires Get(length, "id") == Some(id) && Get(length, "value") == Some(FloatV("5.0"))
    requires Get(length, "Unit") == Some(StrV("METRE"))
    requires Has(rels, EntityId(storey), HasPart, EntityId(wall))
    ensures var data := BrickData([EntityRecord(storey, []), EntityRecord(wall, [("Length", length)])], rels);
      var propsId := "Length" + PyStr(id);
      GraphOf(data, tables).Ok? &&
      {NodeTriple(EntityId(storey), "Level"), NodeTriple(EntityId(wall), "Wall"),
       EdgeTriple(EntityId(storey), EntityId(wall), HasPart),
       NodeTriple(propsId, "Quantity"), PropertyTriple(propsId, FloatV("5.0"), "value"),
       PropertyTriple(propsId, StrV("METRE"), "hasUnit"), EdgeTriple(EntityId(wall), propsId, tables.properties[k])}
      <= GraphOf(data, tables).value
  {
    var first, second := EntityRecord(storey, []), EntityRecord(wall, [("Length", length)]);
    var data := BrickData([first, second], rels);
    var wallId := EntityId(wall);

    MatchedPropertyTriples(wallId, "Length", length, tables, k, id, FloatV("5.0"), StrV("METRE"));
    var pparts := PropertyParts(wallId, second.properties, tables);
    UnionAllMeaning(pparts);
    TwoEntitiesConvert(first, second, rels, tables);
    KnownEntityClasses(tables);
    GraphContents(data, tables);
    var g := GraphOf(data, tables).value;
    assert data.entities[0] == first && data.entities[1] == second;
    assert NodeTriple(EntityId(storey), "Level") in g;
    assert NodeTriple(EntityId(wall), "Wall") in g;
    assert second.properties[0] == ("Length", length);
    assert PropertyTriples(wallId, "Length", length, tables).value <= g;
  }

  /** The `Length` quantity of the storey and wall example, as `get_info()` shows an `IfcQuantityLength`. */
  function LengthQuantity(qid: nat): Quantity
  {
    Quantity("Length", Info(qid, "IfcQuantityLength",
      [("Name", StrV("Length")), ("Unit", StrV("METRE")), ("LengthValue", FloatV("5.0"))]))
  }

  /** The storey and wall example as a whole model: a storey, a wall carrying the `Length` quantity set, and the containment between them. */
  function StoreyWallModel(sid: nat, wid: nat, qid: nat): IfcModel
  {
    IfcModel(
      [IfcObject(Info(sid, "IfcBuildingStorey", []), [])],
      [IfcObject(Info(wid, "IfcWallStandardCase", []), [DefinesByProperties(ElementQuantity([LengthQuantity(qid)]))])],
      [Relationship("IfcRelContainedInSpatialStructure", EntityRef("IfcBuildingStorey", sid),
                    TargetList([EntityRef("IfcWallStandardCase", wid)]))])
  }

  /** `LengthValue` is the first key of the quantity's `get_info()` whose name contains "value". */
  lemma LengthValueKey(qid: nat)
    ensures ValueKeyIndex(InfoDict(LengthQuantity(qid).info)) == Some(4)
  {
    var info := InfoDict(LengthQuantity(qid).info);
    assert IsValueKey("LengthValue") by {
      assert Lower("LengthValue")[6..] == "value";
      assert IsPrefix("value", Lower("LengthValue")[6..]);
    }
    assert !IsValueKey("id") && !IsValueKey("type") && !IsValueKey("Name") && !IsValueKey("Unit");
    assert info[4].0 == "LengthValue";
    assert info[1..][1..][1..][1..] == [info[4]];
  }

  /** What the quantity's `get_info()` holds under `id`, `LengthValue` and `Unit`. */
  lemma LengthInfo(qid: nat)
    ensures var info := InfoDict(LengthQuantity(qid).info);
      Get(info, "id") == Some(IntV(qid)) && Get(info, "LengthValue") == Some(FloatV("5.0"))
      && Get(info, "Unit") == Some(StrV("METRE"))
  {
    var info := InfoDict(LengthQuantity(qid).info);
    assert Get(info[4..], "LengthValue") == Some(FloatV("5.0"));
    assert Get(info[3..], "Unit") == Some(StrV("METRE"));
    assert info[3..] == info[1..][1..][1..] && info[4..] == info[3..][1..];
    assert Get(info[2..], "Unit") == Some(StrV("METRE")) && Get(info[2..], "LengthValue") == Some(FloatV("5.0"));
    assert info[2..] == info[1..][1..];
    assert Get(info[1..], "Unit") == Some(StrV("METRE")) && Get(info[1..], "LengthValue") == Some(FloatV("5.0"));
  }

  /** The record of the `Length` quantity: `LengthValue` moved to `value`, its `id` and `Unit` kept. */
  lemma LengthRecord(qid: nat)
    ensures var r := QuantityRecord(LengthQuantity(qid));
      r.Ok? && Get(r.value, "id") == Some(IntV(qid)) && Get(r.value, "value") == Some(FloatV("5.0"))
      && Get(r.value, "Unit") == Some(StrV("METRE"))
  {
    LengthValueKey(qid);
    LengthInfo(qid);
    QuantityRecordShape(LengthQuantity(qid));
  }

  /** `entity_relationship_map` of the example: the storey's record, the wall's record with the `Length` entry, and the containment stored. */
  lemma StoreyWallData(sid: nat, wid: nat, qid: nat)
    requires QuantityRecord(LengthQuantity(qid)).Ok?
    ensures var model := StoreyWallModel(sid, wid, qid);
      var storey, wall := model.spatialElements[0].info, model.elements[0].info;
      var rels := RelationshipsOf(model.relationships);
      ModelData(model) == Ok(BrickData([EntityRecord(storey, []),
                                        EntityRecord(wall, [("Length", QuantityRecord(LengthQuantity(qid)).value)])], rels))
      && Has(rels, EntityId(storey), HasPart, EntityId(wall))
  {
    var model := StoreyWallModel(sid, wid, qid);
    var storey, wall := model.spatialElements[0].info, model.elements[0].info;
    var q := LengthQuantity(qid);
    var rec := QuantityRecord(q).value;
    var props: PropertyMap := [("Length", rec)];
    var entries := QuantityEntries([q]);
    assert entries == [("Length", QuantityRecord(q))] && entries[..0] == [];
    assert AssignAll(entries) == Ok(Set([], "Length", rec));
    assert QuantitiesOf([q]) == Ok(props);
    assert Update([], props) == props;
    assert DefinitionProperties(ElementQuantity([q])) == Ok(Some(props));
    var defs := model.elements[0].isDefinedBy;
    assert defs[..0] == [] && DefinitionsProperties(defs[..0]) == Ok([]);
    assert DefinitionsProperties(defs) == UpdateWith([], DefinitionProperties(ElementQuantity([q])));
    assert PropertiesOf(model.elements[0]) == Ok(props);
    var objs := model.spatialElements + model.elements;
    assert objs[..0] == [] && objs[..1] == model.spatialElements && objs[..2] == objs;
    assert objs[0] == model.spatialElements[0] && objs[1] == model.elements[0];
    EntityRecordsStep(objs, 0, [], []);
    assert [] + [EntityRecord(storey, [])] == [EntityRecord(storey, [])];
    assert EntityRecords(objs[..1]) == Ok([EntityRecord(storey, [])]);
    EntityRecordsStep(objs, 1, [EntityRecord(storey, [])], props);
    assert [EntityRecord(storey, [])] + [EntityRecord(wall, props)] == [EntityRecord(storey, []), EntityRecord(wall, props)];
    assert EntityRecords(objs) == Ok([EntityRecord(storey, []), EntityRecord(wall, props)]);

    var rel := model.relationships[0];
    assert IfcRelNaming[rel.ifcType].brickType == HasPart;
    assert EntityRef("IfcWallStandardCase", wid) in rel.targets.targets;
    assert Contributes(rel, EntityId(storey), HasPart, EntityId(wall));
    RelationshipTargets(model.relationships);
  }

  /**
   * The storey and wall example end to end, from the model through `entity_relationship_map` and `main`:
   * the converted graph holds the `Level` and `Wall` nodes, the `hasPart` edge, the `Quantity` node with
   * `value` 5.0 and `hasUnit` METRE, and the edge from the wall to that node labelled with the matched name.
   */
  lemma StoreyWallConversion(tables: Tables, sid: nat, wid: nat, qid: nat, k: nat)
    requires k < |tables.properties| && Matches(tables.properties[k], "Length", true)
    requires forall j :: 0 <= j < k ==> !Matches(tables.properties[j], "Length", true)
    ensures var storeyId, wallId, propsId := "IfcBuildingStorey" + NatToString(sid),
                                             "IfcWallStandardCase" + NatToString(wid), "Length" + NatToString(qid);
      var r := Conversion(StoreyWallModel(sid, wid, qid), tables);
      r.Ok? &&
      {NodeTriple(storeyId, "Level"), NodeTriple(wallId, "Wall"), EdgeTriple(storeyId, wallId, HasPart),
       NodeTriple(propsId, "Quantity"), PropertyTriple(propsId, FloatV("5.0"), "value"),
       PropertyTriple(propsId, StrV("METRE"), "hasUnit"), EdgeTriple(wallId, propsId, tables.properties[k])}
      <= r.value
  {
    var model := StoreyWallModel(sid, wid, qid);
    var storey, wall := model.spatialElements[0].info, model.elements[0].info;
    LengthRecord(qid);
    StoreyWallData(sid, wid, qid);
    var rec := QuantityRecord(LengthQuantity(qid)).value;
    assert Get(rec, "id") == Some(IntV(qid)) && Get(rec, "value") == Some(FloatV("5.0"));
    assert Get(rec, "Unit") == Some(StrV("METRE"));
    StoreyWallScenario(tables, storey, wall, rec, IntV(qid), k, RelationshipsOf(model.relationships));
  }
}
