/**
 * Relationship extraction: the `IFC_REL_NAMING` table and `get_relationships`, which folds every
 * relationship of a recognised kind into a map from source id to (Brick predicate -> set of target ids).
 */
module Relationships {
  import opened Strings
  import opened IfcData

  /** How one relationship kind is read: which attribute holds the source, which the targets, and the Brick predicate. */
  datatype RelScheme = RelScheme(source: string, target: string, brickType: string)

  const HasPart := "hasPart"
  const Feeds := "feeds"

  /** `IFC_REL_NAMING`. */
  const IfcRelNaming: map<string, RelScheme> := map[
    "IfcRelContainedInSpatialStructure" := RelScheme("RelatingStructure", "RelatedElements", HasPart),
    "IfcRelFillsElement" := RelScheme("RelatingOpeningElement", "RelatedBuildingElement", HasPart),
    "IfcRelSequence" := RelScheme("RelatingProcess", "RelatedProcess", Feeds),
    "IfcRelSpaceBoundary" := RelScheme("RelatingSpace", "RelatedBuildingElement", HasPart),
    "IfcRelAdheresToElement" := RelScheme("RelatingElement", "RelatedSurfaceFeatures", HasPart),
    "IfcRelAggregates" := RelScheme("RelatingObject", "RelatedObjects", HasPart),
    "IfcRelNests" := RelScheme("RelatingObject", "RelatedObjects", HasPart),
    "IfcRelProjectsElement" := RelScheme("RelatingElement", "RelatedFeatureElement", HasPart),
    "IfcRelVoidsElement" := RelScheme("RelatingBuildingElement", "RelatedOpeningElement", HasPart)
  ]

  /** The id of a graph node: `info['type'] + str(info['id'])`. */
  function EntityKey(e: EntityRef): string
  {
    e.ifcType + NatToString(e.id)
  }

  /** `rels`: source id -> predicate -> target ids (the inner `defaultdict(set)` as a map). */
  type RelMap = map<string, map<string, set<string>>>

  /** Target `t` is stored under source `s` and predicate `p`. */
  predicate Has(rels: RelMap, s: string, p: string, t: string)
  {
    s in rels && p in rels[s] && t in rels[s][p]
  }

  /** The ids a relationship's target attribute names. */
  function TargetKeys(targets: Targets): set<string>
  {
    match targets
    case NoTargets => {}
    case SingleTarget(e) => {EntityKey(e)}
    case TargetList(ts) => KeysOf(ts)
  }

  /** The relationship is of a recognised kind and contributes target `t` under source `s` and predicate `p`. */
  predicate Contributes(rel: Relationship, s: string, p: string, t: string)
  {
    rel.ifcType in IfcRelNaming && EntityKey(rel.source) == s
    && IfcRelNaming[rel.ifcType].brickType == p && t in TargetKeys(rel.targets)
  }

  /** `rels[s][p].add(t)`: the `defaultdict` creates the predicate's set on first use. */
  function AddTarget(rels: RelMap, s: string, p: string, t: string): RelMap
    requires s in rels
  {
    rels[s := rels[s][p := (if p in rels[s] then rels[s][p] else {}) + {t}]]
  }

  /** The loop over a collection of targets. */
  function AddTargets(rels: RelMap, s: string, p: string, ts: seq<EntityRef>): (r: RelMap)
    requires s in rels
    ensures s in r
    decreases |ts|
  {
    if ts == [] then rels
    else
      var n := |ts| - 1;
      AddTarget(AddTargets(rels, s, p, ts[..n]), s, p, EntityKey(ts[n]))
  }

  /** One iteration of the relationship loop: unknown kinds are skipped; the source entry is created before targets are looked at. */
  function AddRelationship(rels: RelMap, rel: Relationship): RelMap
  {
    if rel.ifcType !in IfcRelNaming then rels
    else
      var p := IfcRelNaming[rel.ifcType].brickType;
      var s := EntityKey(rel.source);
      var created := if s in rels then rels else rels[s := map[]];
      match rel.targets
      case NoTargets => created
      case SingleTarget(e) => AddTarget(created, s, p, EntityKey(e))
      case TargetList(ts) => AddTargets(created, s, p, ts)
  }

  /** The map `get_relationships` returns for the relationships of a model, in loop order. */
  function RelationshipsOf(rs: seq<Relationship>): RelMap
    decreases |rs|
  {
    if rs == [] then map[] else AddRelationship(RelationshipsOf(rs[..|rs| - 1]), rs[|rs| - 1])
  }

  lemma RelationshipsOfStep(rs: seq<Relationship>, i: nat)
    requires i < |rs|
    ensures RelationshipsOf(rs[..i + 1]) == AddRelationship(RelationshipsOf(rs[..i]), rs[i])
  {
    assert rs[..i + 1][..i] == rs[..i];
  }

  lemma AddTargetsStep(rels: RelMap, s: string, p: string, ts: seq<EntityRef>, j: nat)
    requires s in rels && j < |ts|
    ensures AddTargets(rels, s, p, ts[..j + 1]) == AddTarget(AddTargets(rels, s, p, ts[..j]), s, p, EntityKey(ts[j]))
  {
    assert ts[..j + 1][..j] == ts[..j];
  }

  /** `get_relationships`: nested loops updating `rels` in place. */
  method GetRelationships(relationships: seq<Relationship>) returns (rels: RelMap)
    ensures rels == RelationshipsOf(relationships)
  {
    rels := map[];
    for i := 0 to |relationships|
      invariant rels == RelationshipsOf(relationships[..i])
    {
      var rel := relationships[i];
      RelationshipsOfStep(relationships, i);
      if rel.ifcType in IfcRelNaming {
        var scheme := IfcRelNaming[rel.ifcType];
        var sourceId := EntityKey(rel.source);
        var brickType := scheme.brickType;
        if sourceId !in rels {
          rels := rels[sourceId := map[]];
        }
        match rel.targets {
          case NoTargets =>
          case SingleTarget(e) =>
            rels := AddTarget(rels, sourceId, brickType, EntityKey(e));
          case TargetList(ts) =>
            ghost var created := rels;
            for j := 0 to |ts|
              invariant sourceId in created
              invariant rels == AddTargets(created, sourceId, brickType, ts[..j])
            {
              AddTargetsStep(created, sourceId, brickType, ts, j);
              var targetId := EntityKey(ts[j]);
              var inner := rels[sourceId];
              var current := if brickType in inner then inner[brickType] else {};
              rels := rels[sourceId := inner[brickType := current + {targetId}]];
            }
            assert ts[..|ts|] == ts;
        }
      }
    }
    assert relationships[..|relationships|] == relationships;
  }

  /** No predicate is stored with an empty target set. */
  predicate NoEmptySets(rels: RelMap)
  {
    forall s, p :: s in rels && p in rels[s] ==> rels[s][p] != {}
  }

  /** The ids of a sequence of targets. */
  function KeysOf(ts: seq<EntityRef>): set<string>
  {
    set e | e in ts :: EntityKey(e)
  }

  lemma KeysOfSnoc(ts: seq<EntityRef>, e: EntityRef)
    ensures KeysOf(ts + [e]) == KeysOf(ts) + {EntityKey(e)}
  {
    assert forall x :: x in ts + [e] <==> x in ts || x == e;
  }

  /** `.add` stores exactly one more target, creates only the predicate it names and keeps every set non-empty. */
  lemma AddTargetAdds(rels: RelMap, s: string, p: string, t: string)
    requires s in rels
    ensures forall s', p', t' :: Has(AddTarget(rels, s, p, t), s', p', t') <==> Has(rels, s', p', t') || (s' == s && p' == p && t' == t)
    ensures AddTarget(rels, s, p, t).Keys == rels.Keys
    ensures AddTarget(rels, s, p, t)[s].Keys == rels[s].Keys + {p}
    ensures NoEmptySets(rels) ==> NoEmptySets(AddTarget(rels, s, p, t))
  {
  }

  /** Adding a list of targets adds exactly their ids under (s, p). */
  lemma {:induction false} AddTargetsAdds(rels: RelMap, s: string, p: string, ts: seq<EntityRef>)
    requires s in rels
    ensures forall s', p', t :: Has(AddTargets(rels, s, p, ts), s', p', t) <==>
      Has(rels, s', p', t) || (s' == s && p' == p && t in KeysOf(ts))
    ensures AddTargets(rels, s, p, ts).Keys == rels.Keys
    ensures AddTargets(rels, s, p, ts)[s].Keys == rels[s].Keys + (if ts == [] then {} else {p})
    ensures NoEmptySets(rels) ==> NoEmptySets(AddTargets(rels, s, p, ts))
    decreases |ts|
  {
    if ts != [] {
      var n := |ts| - 1;
      var prev := AddTargets(rels, s, p, ts[..n]);
      AddTargetsAdds(rels, s, p, ts[..n]);
      AddTargetAdds(prev, s, p, EntityKey(ts[n]));
      KeysOfSnoc(ts[..n], ts[n]);
      assert ts[..n] + [ts[n]] == ts;
    }
  }

  /** One loop iteration adds exactly the contributions of that relationship, and creates the source entry of a recognised one. */
  lemma AddRelationshipAdds(rels: RelMap, rel: Relationship)
    ensures forall s :: s in AddRelationship(rels, rel) <==>
      s in rels || (rel.ifcType in IfcRelNaming && s == EntityKey(rel.source))
    ensures forall s, p, t :: Has(AddRelationship(rels, rel), s, p, t) <==> Has(rels, s, p, t) || Contributes(rel, s, p, t)
    ensures NoEmptySets(rels) ==> NoEmptySets(AddRelationship(rels, rel))
  {
    if rel.ifcType in IfcRelNaming {
      var p := IfcRelNaming[rel.ifcType].brickType;
      var s := EntityKey(rel.source);
      var created := if s in rels then rels else rels[s := map[]];
      assert forall s', p', t :: Has(created, s', p', t) <==> Has(rels, s', p', t);
      assert NoEmptySets(rels) ==> NoEmptySets(created);
      match rel.targets
      case NoTargets =>
      case SingleTarget(e) =>
        AddTargetAdds(created, s, p, EntityKey(e));
      case TargetList(ts) =>
        AddTargetsAdds(created, s, p, ts);
    }
  }

  /** A source id is a key exactly when some relationship of a recognised kind has that source, even one without targets. */
  lemma {:induction false} RelationshipSources(rs: seq<Relationship>)
    ensures forall s :: s in RelationshipsOf(rs) <==>
      exists i :: 0 <= i < |rs| && rs[i].ifcType in IfcRelNaming && EntityKey(rs[i].source) == s
    decreases |rs|
  {
    if rs != [] {
      var n := |rs| - 1;
      var prefix := rs[..n];
      RelationshipSources(prefix);
      AddRelationshipAdds(RelationshipsOf(prefix), rs[n]);
      forall s | s in RelationshipsOf(rs)
        ensures exists i :: 0 <= i < |rs| && rs[i].ifcType in IfcRelNaming && EntityKey(rs[i].source) == s
      {
        if s in RelationshipsOf(prefix) {
          var i :| 0 <= i < n && prefix[i].ifcType in IfcRelNaming && EntityKey(prefix[i].source) == s;
          assert rs[i] == prefix[i];
        } else {
          assert rs[n].ifcType in IfcRelNaming && EntityKey(rs[n].source) == s;
        }
      }
      forall s | exists i :: 0 <= i < |rs| && rs[i].ifcType in IfcRelNaming && EntityKey(rs[i].source) == s
        ensures s in RelationshipsOf(rs)
      {
        var i :| 0 <= i < |rs| && rs[i].ifcType in IfcRelNaming && EntityKey(rs[i].source) == s;
        if i < n {
          assert prefix[i] == rs[i];
        }
      }
    }
  }

  /** A target is stored under (source, predicate) exactly when some relationship of a recognised kind contributes it: the union of all of them. */
  lemma {:induction false} RelationshipTargets(rs: seq<Relationship>)
    ensures forall s, p, t :: Has(RelationshipsOf(rs), s, p, t) <==> exists i :: 0 <= i < |rs| && Contributes(rs[i], s, p, t)
    decreases |rs|
  {
    if rs != [] {
      var n := |rs| - 1;
      var prefix := rs[..n];
      RelationshipTargets(prefix);
      AddRelationshipAdds(RelationshipsOf(prefix), rs[n]);
      forall s, p, t | Has(RelationshipsOf(rs), s, p, t) ensures exists i :: 0 <= i < |rs| && Contributes(rs[i], s, p, t) {
        if !Contributes(rs[n], s, p, t) {
          var i :| 0 <= i < n && Contributes(prefix[i], s, p, t);
          assert rs[i] == prefix[i];
        }
      }
      forall s, p, t | exists i :: 0 <= i < |rs| && Contributes(rs[i], s, p, t) ensures Has(RelationshipsOf(rs), s, p, t) {
        var i :| 0 <= i < |rs| && Contributes(rs[i], s, p, t);
        if i < n {
          assert prefix[i] == rs[i];
        }
      }
    }
  }

  /** No predicate is stored with an empty set: the `defaultdict` creates a predicate's set only to add to it. */
  lemma {:induction false} RelationshipsNoEmptySets(rs: seq<Relationship>)
    ensures NoEmptySets(RelationshipsOf(rs))
    decreases |rs|
  {
    if rs != [] {
      var n := |rs| - 1;
      RelationshipsNoEmptySets(rs[..n]);
      AddRelationshipAdds(RelationshipsOf(rs[..n]), rs[n]);
    }
  }

  /** Every predicate in the table is `hasPart` or `feeds`. */
  lemma TablePredicates()
    ensures forall k :: k in IfcRelNaming ==> IfcRelNaming[k].brickType == HasPart || IfcRelNaming[k].brickType == Feeds
  {
  }

  /** Every predicate in the relationship map is one of the table's: `hasPart` or `feeds`. */
  lemma RelationshipPredicates(rs: seq<Relationship>)
    ensures forall s, p :: s in RelationshipsOf(rs) && p in RelationshipsOf(rs)[s] ==> p == HasPart || p == Feeds
  {
    RelationshipTargets(rs);
    RelationshipsNoEmptySets(rs);
    TablePredicates();
    var m := RelationshipsOf(rs);
    forall s, p | s in m && p in m[s] ensures p == HasPart || p == Feeds {
      var t :| t in m[s][p];
      assert Has(m, s, p, t);
    }
  }

  /** A relationship kind outside the table changes nothing. */
  lemma UnrecognisedIgnored(rs: seq<Relationship>, rel: Relationship)
    requires rel.ifcType !in IfcRelNaming
    ensures RelationshipsOf(rs + [rel]) == RelationshipsOf(rs)
  {
    assert (rs + [rel])[..|rs|] == rs;
  }

  /** For the same type, distinct step ids give distinct node ids. */
  lemma EntityKeyInjective(a: EntityRef, b: EntityRef)
    requires a.ifcType == b.ifcType && EntityKey(a) == EntityKey(b)
    ensures a.id == b.id
  {
    var n := |a.ifcType|;
    assert EntityKey(a)[n..] == NatToString(a.id);
    assert EntityKey(b)[n..] == NatToString(b.id);
    NatToStringInjective(a.id, b.id);
  }

  /** Ids of different types can coincide when a type name ends in a digit. */
  lemma EntityKeyCollision()
    ensures EntityRef("IfcA1", 2) != EntityRef("IfcA", 12)
    ensures EntityKey(EntityRef("IfcA1", 2)) == EntityKey(EntityRef("IfcA", 12))
  {
    assert NatToString(2) == "2";
    assert NatToString(12) == NatToString(1) + "2";
  }

  /** A source whose only relationship has no targets appears with no predicates. */
  lemma SourceWithoutTargets(a: EntityRef)
    ensures RelationshipsOf([Relationship("IfcRelAggregates", a, NoTargets)]) == map[EntityKey(a) := map[]]
  {
    var rs := [Relationship("IfcRelAggregates", a, NoTargets)];
    assert rs[..0] == [];
  }

  /** A single target and a collection of targets under the same source and predicate are united. */
  lemma TargetsUnite(a: EntityRef, b: EntityRef, c: EntityRef, d: EntityRef)
    ensures RelationshipsOf([Relationship("IfcRelAggregates", a, SingleTarget(b)),
                             Relationship("IfcRelNests", a, TargetList([c, d]))])
      == map[EntityKey(a) := map[HasPart := {EntityKey(b), EntityKey(c), EntityKey(d)}]]
  {
    var r1 := Relationship("IfcRelAggregates", a, SingleTarget(b));
    var r2 := Relationship("IfcRelNests", a, TargetList([c, d]));
    var ka := EntityKey(a);
    assert IfcRelNaming["IfcRelAggregates"].brickType == HasPart;
    assert IfcRelNaming["IfcRelNests"].brickType == HasPart;
    assert [r1, r2][..1] == [r1] && [r1][..0] == [];
    var created: RelMap := map[ka := map[]];
    var m1 := AddTarget(created, ka, HasPart, EntityKey(b));
    assert m1.Keys == {ka} && m1[ka].Keys == {HasPart} && m1[ka][HasPart] == {EntityKey(b)};
    assert m1 == map[ka := map[HasPart := {EntityKey(b)}]];
    assert RelationshipsOf([r1]) == m1;
    assert [c, d][..1] == [c] && [c][..0] == [];
    var m2 := AddTarget(m1, ka, HasPart, EntityKey(c));
    assert m2.Keys == {ka} && m2[ka].Keys == {HasPart} && m2[ka][HasPart] == {EntityKey(b), EntityKey(c)};
    var m3 := AddTarget(m2, ka, HasPart, EntityKey(d));
    assert m3.Keys == {ka} && m3[ka].Keys == {HasPart} && m3[ka][HasPart] == {EntityKey(b), EntityKey(c), EntityKey(d)};
    assert AddTargets(m1, ka, HasPart, [c]) == m2;
    assert AddTargets(m1, ka, HasPart, [c, d]) == m3;
    assert m3[ka] == map[HasPart := {EntityKey(b), EntityKey(c), EntityKey(d)}];
    assert m3 == map[ka := map[HasPart := {EntityKey(b), EntityKey(c), EntityKey(d)}]];
  }
}
