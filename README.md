# IFC to Brick conversion, modelled in Dafny

The converter reads an IFC building model and writes a Brick RDF graph. This project models its core in
Dafny and proves properties of that model:

- **Type resolution** (`replace_all`, `get_brick_from_ifc_type`). An IFC type name or property name becomes a Brick name.
  The steps are: an exact override; otherwise the first name in an ordered Brick table whose normalised form
  matches (equal in strict mode, a substring otherwise); otherwise a fallback.
- **Property extraction** (`extract_quantities`, `extract_single_value`, `map_properties`, `get_properties`).
  A recursive walk over an object's property definitions builds one flat dictionary from property name to
  record. Later names overwrite earlier ones.
- **Relationship extraction** (`IFC_REL_NAMING`, `get_relationships`). Every relationship of a recognised kind
  is folded into a map from source id to (Brick predicate → set of target ids).
- **Graph construction** (`entity_relationship_map`, the loops of `main`, and `BrickAPI`). Every entity becomes a
  typed node, every matched property becomes a quantity node with two literals and an edge to it, and every
  relationship entry becomes an edge, in a graph held as a set of triples.

Modules:

| module | file | models |
|---|---|---|
| `Wrappers` | wrappers.dfy | `Option` and `Result` |
| `Strings` | strings.dfy | ASCII `str.lower`, substring test, `str.replace(pat, '')`, `str(int)` |
| `PyDict` | py_dict.dfy | a Python `dict` as an ordered list of (key, value) pairs |
| `IfcData` | ifc_data.dfy | the IFC entities as values and the exceptions as an `Error` datatype |
| `TypeResolution` | type_resolution.dfy | code/utils.py `replace_all`, `get_brick_from_ifc_type` |
| `Properties` | properties.dfy | code/utils.py property extraction |
| `Relationships` | relationships.dfy | code/utils.py `IFC_REL_NAMING`, code/load_ifc.py `get_relationships` |
| `BrickGraph` | brick_api.dfy | code/BrickAPI.py |
| `LoadIfc` | load_ifc.dfy | code/load_ifc.py `IFC_BRICK`, `entity_relationship_map`, `main` |

Every loop of the source becomes a Dafny method with a loop, except the list comprehension of
code/utils.py:39, which becomes the recursive function `Properties.ValueKeyIndex`. Each such method is
proved equal to a specification function of its inputs, and lemmas state the properties of those functions. A Python
exception becomes an `Err` result that carries which exception it is:

- `TypeError` from `dict.update(None)`
- `IndexError` when no key names a value
- `AttributeError` from `None.wrappedValue`
- `KeyError`

The first exception ends the computation, as it does in the source.

`BrickAPI` is a class whose field `g` is the set of triples. Its `add_*` methods insert into that field.

Four behaviours of the code, stated here because a reader may expect otherwise:

- An unrecognised property definition makes `map_properties` return `None`. The caller then passes `None` to
  `dict.update`, so `get_properties` raises. The definition is not silently skipped
  (`Properties.UnrecognisedChildFails`).
- A recognised relationship whose target attribute is empty still creates its source's entry, with no
  predicates (`Relationships.SourceWithoutTargets`).
- Node ids `type + str(id)` of different types can coincide when a type name ends in a digit, e.g.
  `IfcA1` with id 2 and `IfcA` with id 12 (`Relationships.EntityKeyCollision`). Ids of the same type cannot
  (`Relationships.EntityKeyInjective`).
- The tag existence check in `add_tag` asks for class `Tag`, but the class inserted is `brick:Tag`. The check
  therefore never finds an earlier declaration. Only set semantics keep the declaration single
  (`BrickGraph.TagCheckBlind`, `BrickGraph.TagSameTagTwice`).

## Model

| member | source | states |
|---|---|---|
| `TypeResolution.ReplaceAll` | code/utils.py:102-113 | the loop's result is one `replace` per character to replace, applied in order |
| `TypeResolution.ReplaceAllDeletes` | code/utils.py:102-113 | with an empty replacement the result is the input with exactly the characters of `to_replace` deleted, the rest kept in order |
| `TypeResolution.ReplaceAllIdempotent` | code/utils.py:102-113 | with an empty replacement no character of `to_replace` is left, and applying it twice equals applying it once |
| `TypeResolution.StripRemovesExactly` | code/utils.py:110-111 | the reference deletion leaves none of the deleted characters and keeps a string that has none of them |
| `TypeResolution.FirstMatch` | code/utils.py:137-142 | the index found matches and no earlier name matches; no index means no name matches |
| `TypeResolution.Resolve` | code/utils.py:116-144 | a base case given means a result is always produced |
| `TypeResolution.GetBrickFromIfcType` | code/utils.py:116-144 | the override check and the scan with early return compute exactly override, first match, else base case |
| `TypeResolution.ResolveOverride` | code/utils.py:133-134 | a type in `defined_map` resolves to its entry whatever the table holds |
| `TypeResolution.ResolveFirstMatch` | code/utils.py:137-142 | without an override, the first matching table name is the result |
| `TypeResolution.ResolveFromTable` | code/utils.py:137-142 | a result that is neither override nor base case is a table name that matches and has no matching predecessor |
| `TypeResolution.ResolveFallback` | code/utils.py:144 | with no override and no matching name the result is the base case |
| `TypeResolution.StrictMatchMeaning` | code/utils.py:139-141 | strict match iff the lower-cased name with ` _.` deleted equals the lower-cased type with every `ifc` removed |
| `TypeResolution.FuzzyMatchMeaning` | code/utils.py:139-141 | non-strict match iff that cleaned name is a substring of that cleaned type |
| `Strings.RemoveAllSplit` | code/utils.py:140 | for all strings, removing `ifc` around one occurrence is removing it from each side: the occurrence goes and none straddles it |
| `Strings.RemoveAllNoOccurrence` | code/utils.py:140 | a string with no `ifc` in it is returned unchanged |
| `Strings.RemoveAllEverywhere` | code/utils.py:140 | example: occurrences at the start and at the end are both removed, `ifcwallifc` becomes `wall` |
| `Strings.RemoveAllSinglePass` | code/utils.py:140 | removal is one left-to-right pass: `iifcfc` becomes `ifc` |
| `Strings.NatToString` | code/load_ifc.py:27 | `str(n)` is one or more decimal digits, a single one exactly below ten |
| `Strings.NatToStringInjective` | code/load_ifc.py:27 | distinct numbers have distinct decimal renderings |
| `PyDict.Get` | code/utils.py:41 | a lookup succeeds exactly for a key present, with a value stored under it |
| `PyDict.GetSet` | code/utils.py:38 | after assigning a key, that key reads the new value and every other key is unchanged |
| `PyDict.GetDel` | code/utils.py:42 | after `del`, the key is gone and every other key is unchanged |
| `PyDict.GetUpdate` | code/utils.py:70 | after `update`, a key of the argument reads the argument's value, any other key the old one |
| `PyDict.AssignAllKeys` | code/utils.py:37-38 | assigning entries in turn gives one key per distinct entry key |
| `PyDict.AssignAllLastWins` | code/utils.py:37-38 | the last entry with a key decides that key's value |
| `Properties.ValueKeyIndex` | code/utils.py:39 | the index found is the first key whose lower-cased name contains `value`; none means no key does |
| `Properties.ExtractQuantities` | code/utils.py:30-43 | the loop with assignment and `del` computes exactly the quantities' records by name |
| `Properties.ExtractSingleValue` | code/utils.py:46-56 | the assignments and `del` compute exactly the single value's map |
| `Properties.DefinitionProperties` | code/utils.py:59-85 | every map produced has one key per name |
| `Properties.MergeDefinitions` | code/utils.py:68-70 | the merged map of a property set has one key per name |
| `Properties.MapProperties` | code/utils.py:59-85 | the recursive walk computes exactly the definition's map, `None` for an unrecognised definition |
| `Properties.GetProperties` | code/utils.py:88-99 | the loop computes exactly the merge of the object's definitions |
| `Properties.SingleValueNumericOnly` | code/utils.py:73-76 | a single value gives an entry only for an exact `int` or `float`; strings and booleans give an empty map |
| `Properties.SingleValueRecordShape` | code/utils.py:52-56 | one key, the property name; `value` is the wrapped value, `NominalValue` is gone, other keys unchanged; no `NominalValue` raises |
| `Properties.QuantityRecordShape` | code/utils.py:39-42 | `value` holds the first value-named attribute, that key is removed, other keys unchanged; no such key raises |
| `Properties.QuantitiesSucceed` | code/utils.py:39 | extraction succeeds exactly when every quantity has a value-named key |
| `Properties.QuantitiesKeys` | code/utils.py:37-38 | one key per distinct quantity name |
| `Properties.QuantitiesLastWins` | code/utils.py:37-42 | a later same-named quantity overwrites an earlier one |
| `Properties.PropertySetSucceeds` | code/utils.py:68-70 | a property set succeeds exactly when every child yields a map |
| `Properties.UnrecognisedChildFails` | code/utils.py:68-85 | one unrecognised child makes the whole property set fail |
| `Properties.PropertySetLaterWins` | code/utils.py:69-70 | a property set is the left-to-right merge: a later child's keys win |
| `Properties.ByProperties` | code/utils.py:95-96 | keeps exactly the definitions of kind `IfcRelDefinesByProperties`, all of them and no other |
| `Properties.OnlyDefinesByProperties` | code/utils.py:95-97 | definitions of other kinds contribute nothing to `get_properties` |
| `Relationships.GetRelationships` | code/load_ifc.py:14-50 | the nested loops compute exactly the fold of all relationships |
| `Relationships.AddTargetAdds` | code/load_ifc.py:44 | `.add` on the `defaultdict` stores exactly one more target and creates only the predicate it names |
| `Relationships.AddTargetsAdds` | code/load_ifc.py:40-44 | a collection of targets adds exactly their ids under (source, predicate) |
| `Relationships.AddRelationshipAdds` | code/load_ifc.py:23-48 | one relationship adds exactly its own contributions and creates its source entry when recognised |
| `Relationships.RelationshipSources` | code/load_ifc.py:24-34 | a source id is a key exactly when some recognised relationship has that source, even with no targets |
| `Relationships.RelationshipTargets` | code/load_ifc.py:39-48 | the target set under (source, predicate) is the union of the ids all recognised relationships contribute |
| `Relationships.RelationshipsNoEmptySets` | code/load_ifc.py:33-48 | no predicate is stored with an empty target set |
| `Relationships.TablePredicates` | code/utils.py:5-24 | every predicate in `IFC_REL_NAMING` is `hasPart` or `feeds` |
| `Relationships.RelationshipPredicates` | code/load_ifc.py:30 | every predicate in the relationship map is `hasPart` or `feeds` |
| `Relationships.UnrecognisedIgnored` | code/load_ifc.py:23-24 | a relationship kind outside the table changes nothing |
| `Relationships.EntityKeyInjective` | code/load_ifc.py:27 | for one type, distinct numeric ids give distinct keys |
| `Relationships.EntityKeyCollision` | code/load_ifc.py:27 | two distinct entities of different types can share a key |
| `Relationships.SourceWithoutTargets` | code/load_ifc.py:33-37 | a source whose only relationship has no targets appears with no predicates |
| `Relationships.TargetsUnite` | code/load_ifc.py:39-48 | a single target and a collection under the same source and predicate are united |
| `BrickGraph.BrickAPI.constructor` | code/BrickAPI.py:5-17 | a new graph holds no triples |
| `BrickGraph.BrickAPI.GetTag` | code/BrickAPI.py:29-37 | at most one row, and one exactly when `(Site(tag), rdf:type, Brick("Tag"))` is present |
| `BrickGraph.BrickAPI.AddNode` | code/BrickAPI.py:39-45 | inserts exactly the node's type triple and changes nothing else |
| `BrickGraph.BrickAPI.AddTag` | code/BrickAPI.py:47-56 | inserts the `hasTag` triple, and the tag's declaration only when the query finds none |
| `BrickGraph.BrickAPI.AddEdge` | code/BrickAPI.py:58-65 | inserts exactly `(Site(source), Brick(type), Site(target))` |
| `BrickGraph.BrickAPI.AddProperty` | code/BrickAPI.py:67-74 | inserts exactly `(Site(source), Brick(type), Literal(property))` |
| `BrickGraph.TagCheckBlind` | code/BrickAPI.py:34-36 | the declaration `add_tag` inserts, class `brick:Tag`, is never the triple its query asks for |
| `BrickGraph.TagSameTagTwice` | code/BrickAPI.py:47-56 | tagging two different nodes with one tag gives exactly one declaration and two `hasTag` triples |
| `BrickGraph.RepeatAdds` | code/BrickAPI.py:45-74 | repeating the add operations leaves the graph unchanged, and none removes a triple |
| `LoadIfc.EntityRelationshipMap` | code/load_ifc.py:53-82 | the two appending loops and the relationship call compute exactly the entities and relationships |
| `LoadIfc.EntityRecordsShape` | code/load_ifc.py:66-76 | one record per object, in order, with that object's properties; success exactly when every object's properties succeed |
| `LoadIfc.EntitiesInOrder` | code/load_ifc.py:66-80 | spatial structure elements first, then elements, each in order; relationships from `get_relationships` |
| `LoadIfc.UnionAllMeaning` | code/load_ifc.py:92-112 | the triples added by a run of steps are exactly the union of each step's triples |
| `LoadIfc.EntityClassChoice` | code/load_ifc.py:95 | an entity's class is its `IFC_BRICK` entry; otherwise the first strictly matching class name; `BuildingElement` when no class name matches |
| `LoadIfc.KnownEntityClasses` | code/load_ifc.py:9-11 | walls, storeys and furnishing elements get exactly `Wall`, `Level` and `Furniture` |
| `LoadIfc.UnmatchedPropertyDropped` | code/load_ifc.py:100-102 | a property with no strict match adds no triples |
| `LoadIfc.MatchedPropertyTriples` | code/load_ifc.py:104-112 | a matched property adds exactly four triples: the quantity node, its `value` and `hasUnit` literals, and the edge labelled with the match |
| `LoadIfc.PropertyFailure` | code/load_ifc.py:104-109 | a matched property fails exactly when `id`, `value` or `Unit` is missing, naming a missing key |
| `LoadIfc.RelationTriplesExact` | code/load_ifc.py:115-118 | each (source, predicate, target) yields exactly its edge, and only edges are added |
| `LoadIfc.GraphContents` | code/load_ifc.py:92-118 | a built graph holds every entity node, every property's triples and every relationship edge |
| `LoadIfc.GraphOnlyFrom` | code/load_ifc.py:92-118 | every triple of a built graph is an entity node, a triple of one of its property entries, or a relationship edge |
| `LoadIfc.AddPropertyEntry` | code/load_ifc.py:99-112 | one property entry adds exactly its specified triples or raises the specified `KeyError` |
| `LoadIfc.AddEntity` | code/load_ifc.py:92-112 | one entity adds exactly its node and its properties' triples |
| `LoadIfc.AddEntities` | code/load_ifc.py:92-112 | the entity loop adds exactly the union of the entities' triples |
| `LoadIfc.AddTargetEdges` | code/load_ifc.py:117-118 | one edge per target of one predicate |
| `LoadIfc.AddSourceEdges` | code/load_ifc.py:116-118 | one edge per (predicate, target) of one source |
| `LoadIfc.AddRelationshipEdges` | code/load_ifc.py:115-118 | the relationship loops add exactly one edge per map entry |
| `LoadIfc.BuildGraph` | code/load_ifc.py:91-118 | the loops of `main` add exactly the graph of the data, or raise its first exception |
| `LoadIfc.Convert` | code/load_ifc.py:85-118 | a run on a model yields exactly the converted triples, or the first exception raised |
| `LoadIfc.ConvertedRelationshipEdges` | code/load_ifc.py:114-118 | every target of a recognised relationship becomes an edge of the converted graph |
| `LoadIfc.SingleContainment` | code/load_ifc.py:21-48 | one containment relationship from A to B and C gives exactly `{A: {hasPart: {B, C}}}` |
| `LoadIfc.StoreyWallScenario` | code/load_ifc.py:92-118 | a storey containing a wall with a 5.0 m `Length`: `Level`, `Wall`, `hasPart` edge, `Quantity` node with value and unit, and the edge to it |
| `LoadIfc.LengthRecord` | code/utils.py:36-43 | a `Length` quantity whose value attribute is `LengthValue` yields a record with that value under `value` and its `id` and `Unit` kept |
| `LoadIfc.StoreyWallConversion` | code/load_ifc.py:66-118 | the same example from the model itself, through `entity_relationship_map` and `main`: the converted graph holds the seven expected triples |

## Left out

- Reading the IFC file with ifcopenshell (`open`, `by_type`, `is_a`, `get_info`) is not modelled. The model
  starts from datatype values: `IfcModel`, `IfcObject`, `Definition`, `Relationship`.
- `getattr(rel, scheme['source'])` and `getattr(rel, scheme['target'])` are not modelled. A `Relationship`
  already holds its source and its targets, and the attribute names of `IFC_REL_NAMING` are carried but not
  used. A relationship whose source attribute is unset (an `AttributeError` in the source) cannot be expressed.
- rdflib is not modelled: namespace binding (`add_namespace`, code/BrickAPI.py:16-27), SPARQL parsing in
  `get_tag`, and Turtle serialisation in `write_ttl`. `get_tag` is a membership test.
- Names in the site and Brick namespaces are terms `Site(name)` and `Brick(name)`, not concatenated URIs.
  URIs that coincide after concatenation are therefore not modelled. Neither is `getattr(self.BRICK, type)`
  returning a `str` method for a type such as `count`.
- Loading the Brick CSV tables with pandas (code/utils.py:26-27) is not modelled. Their `name` columns are
  the `Tables` parameter.
- code/brick_ont_scrape.py (HTTP fetch and HTML scraping) and the argparse `__main__` block are not part of
  this model.
- Floats are opaque: a float is carried as its `repr` text and never computed on. The exact `Literal`
  rendering of values and units, including a `None` unit, is not modelled: a literal holds the value itself.
- `str.lower` is ASCII lower-casing only.
- Iteration order over the relationship dictionary and its target sets is free in the model. Only sets are
  built from it, so the resulting graph does not depend on it.
- The `properties` key that `entity_relationship_map` adds to an entity's `get_info()` dictionary is a
  separate field of `EntityRecord`, so it cannot overwrite an attribute of that name.
- `LoadIfc.BuildGraph`: on an exception the contract states only which exception it is, not the partly
  built graph, because `main` then stops before writing anything.
- `LoadIfc.AddPropertyEntry`: on a `KeyError` the contract says nothing about the triples already inserted
  for that property, for the same reason.
