/**
 * Property extraction (code/utils.py: `extract_quantities`, `extract_single_value`, `map_properties`,
 * `get_properties`): a walk over an object's property definitions that builds one flat dictionary
 * from property name to its record, later names overwriting earlier ones.
 */
module Properties {
  import opened Wrappers
  import opened Strings
  import opened PyDict
  import opened IfcData

  /** `{<property name>: <record>}`. */
  type PropertyMap = Dict<Record>

  /** `'value' in k.lower()`. */
  predicate IsValueKey(k: string)
  {
    IsSubstring("value", Lower(k))
  }

  /** The position of the first key of `rec` that names a value. */
  function ValueKeyIndex(rec: Record): (r: Option<nat>)
    ensures r.Some? ==> r.value < |rec| && IsValueKey(rec[r.value].0)
    ensures r.Some? ==> forall j :: 0 <= j < r.value ==> !IsValueKey(rec[j].0)
    ensures r.None? ==> forall j :: 0 <= j < |rec| ==> !IsValueKey(rec[j].0)
  {
    if rec == [] then None
    else if IsValueKey(rec[0].0) then Some(0)
    else match ValueKeyIndex(rec[1..])
      case None => None
      case Some(i) => Some(i + 1)
  }

  /** The record one quantity contributes: its info with the value attribute moved to `value` (lines 38-42). */
  function QuantityRecord(q: Quantity): Result<Record, Error>
  {
    var info := InfoDict(q.info);
    match ValueKeyIndex(info)
    case None => Err(NoValueKey(q.name))
    case Some(i) =>
      var valueKey := info[i].0;
      assert valueKey in KeySet(info);
      Ok(Del(Set(info, "value", Get(info, valueKey).value), valueKey))
  }

  /** Each quantity's name with its record, in order. */
  function QuantityEntries(qs: seq<Quantity>): seq<(string, Result<Record, Error>)>
  {
    seq(|qs|, i requires 0 <= i < |qs| => (qs[i].name, QuantityRecord(qs[i])))
  }

  /** What `extract_quantities` returns. */
  function QuantitiesOf(qs: seq<Quantity>): Result<PropertyMap, Error>
  {
    AssignAll(QuantityEntries(qs))
  }

  /**
   * `extract_quantities`: stores each quantity's info dictionary under its name, then moves the
   * value attribute of that same dictionary to `value`.
   */
  method ExtractQuantities(quantities: seq<Quantity>) returns (r: Result<PropertyMap, Error>)
    ensures r == QuantitiesOf(quantities)
  {
    var out: PropertyMap := [];
    ghost var entries := QuantityEntries(quantities);
    for i := 0 to |quantities|
      invariant AssignAll(entries[..i]) == Ok(out)
    {
      assert entries[..i + 1][..i] == entries[..i];
      var quantity := quantities[i];
      var info := InfoDict(quantity.info);
      var before := out;
      out := Set(out, quantity.name, info);
      var k := ValueKeyIndex(info);
      if k.None? {
        AssignAllErrPropagates(entries, i + 1);
        return Err(NoValueKey(quantity.name));
      }
      var valueKey := info[k.value].0;
      assert valueKey in KeySet(info);
      info := Set(info, "value", Get(info, valueKey).value);
      info := Del(info, valueKey);
      // `out[quantity.Name]` is the dictionary just changed
      out := Set(out, quantity.name, info);
      SetSet(before, quantity.name, InfoDict(quantity.info), info);
    }
    assert entries[..|quantities|] == entries;
    return Ok(out);
  }

  /** What `extract_single_value` returns. */
  function SingleValueMap(name: string, info: Info, nominalValue: Option<Value>): Result<PropertyMap, Error>
  {
    var d := InfoDict(info);
    if "NominalValue" !in KeySet(d) then Err(MissingKey("NominalValue"))
    else if nominalValue.None? then Err(NoNominalValue(name))
    else Ok([(name, Set(Del(d, "NominalValue"), "value", nominalValue.value))])
  }

  /** `extract_single_value`: `{Name: info}`, then `NominalValue` removed and `value` set to the wrapped value. */
  method ExtractSingleValue(name: string, info: Info, nominalValue: Option<Value>) returns (r: Result<PropertyMap, Error>)
    ensures r == SingleValueMap(name, info, nominalValue)
  {
    var record := InfoDict(info);
    var out: PropertyMap := [(name, record)];
    if "NominalValue" !in KeySet(record) {
      return Err(MissingKey("NominalValue"));
    }
    record := Del(record, "NominalValue");
    if nominalValue.None? {
      return Err(NoNominalValue(name));
    }
    record := Set(record, "value", nominalValue.value);
    out := Set(out, name, record);
    assert out == [(name, record)];
    return Ok(out);
  }

  /** `acc.update(result)` where `result` is what `map_properties` returned; `None` makes `update` raise. */
  function UpdateWith(acc: PropertyMap, result: Result<Option<PropertyMap>, Error>): Result<PropertyMap, Error>
  {
    match result
    case Err(e) => Err(e)
    case Ok(None) => Err(UpdateWithNone)
    case Ok(Some(m)) => Ok(Update(acc, m))
  }

  lemma UpdateWithUnique(acc: PropertyMap, result: Result<Option<PropertyMap>, Error>)
    requires UniqueKeys(acc)
    ensures UpdateWith(acc, result).Ok? ==> UniqueKeys(UpdateWith(acc, result).value)
  {
    if result.Ok? && result.value.Some? {
      UpdateUnique(acc, result.value.value);
    }
  }

  /** What `map_properties` returns: `Ok(None)` is its bare `return` for an unrecognised definition. */
  function DefinitionProperties(d: Definition): (r: Result<Option<PropertyMap>, Error>)
    ensures r.Ok? && r.value.Some? ==> UniqueKeys(r.value.value)
    decreases d
  {
    match d
    case PropertySet(children) =>
      (match MergeDefinitions(children)
       case Err(e) => Err(e)
       case Ok(m) => Ok(Some(m)))
    case SingleValue(name, info, nominalValue) =>
      if nominalValue.None? then Err(NoNominalValue(name))
      else if IsNumeric(nominalValue.value) then
        (match SingleValueMap(name, info, nominalValue)
         case Err(e) => Err(e)
         case Ok(m) => UpdateUnique([], m); Ok(Some(Update([], m))))
      else Ok(Some([]))
    case ElementQuantity(qs) =>
      (match QuantitiesOf(qs)
       case Err(e) => Err(e)
       case Ok(m) => UpdateUnique([], m); Ok(Some(Update([], m))))
    case OtherDefinition(_) => Ok(None)
  }

  /** The loop of line 69: the children's maps merged left to right. */
  function MergeDefinitions(children: seq<Definition>): (r: Result<PropertyMap, Error>)
    ensures r.Ok? ==> UniqueKeys(r.value)
    decreases children
  {
    if children == [] then Ok([])
    else
      var n := |children| - 1;
      match MergeDefinitions(children[..n])
      case Err(e) => Err(e)
      case Ok(acc) => UpdateWithUnique(acc, DefinitionProperties(children[n])); UpdateWith(acc, DefinitionProperties(children[n]))
  }

  lemma {:induction false} MergeErrPropagates(children: seq<Definition>, n: nat)
    requires n <= |children| && MergeDefinitions(children[..n]).Err?
    ensures MergeDefinitions(children) == MergeDefinitions(children[..n])
    decreases |children|
  {
    if n < |children| {
      var m := |children| - 1;
      assert children[..m][..n] == children[..n];
      MergeErrPropagates(children[..m], n);
    } else {
      assert children[..n] == children;
    }
  }

  /** `map_properties`: recursion into property sets, a numeric check on single values, quantities copied in. */
  method MapProperties(d: Definition) returns (r: Result<Option<PropertyMap>, Error>)
    ensures r == DefinitionProperties(d)
    decreases d
  {
    var propertyMap: PropertyMap := [];
    match d {
      case PropertySet(children) =>
        for i := 0 to |children|
          invariant MergeDefinitions(children[..i]) == Ok(propertyMap)
        {
          assert children[..i + 1][..i] == children[..i];
          var child := MapProperties(children[i]);
          var merged := UpdateWith(propertyMap, child);
          if merged.Err? {
            MergeErrPropagates(children, i + 1);
            return Err(merged.error);
          }
          propertyMap := merged.value;
        }
        assert children[..|children|] == children;
      case SingleValue(name, info, nominalValue) =>
        if nominalValue.None? {
          return Err(NoNominalValue(name));
        }
        var value := nominalValue.value;
        if IsNumeric(value) {
          var single := ExtractSingleValue(name, info, nominalValue);
          if single.Err? {
            return Err(single.error);
          }
          propertyMap := Update(propertyMap, single.value);
        }
      case ElementQuantity(quantities) =>
        var extracted := ExtractQuantities(quantities);
        if extracted.Err? {
          return Err(extracted.error);
        }
        propertyMap := Update(propertyMap, extracted.value);
      case OtherDefinition(_) =>
        return Ok(None);
    }
    return Ok(Some(propertyMap));
  }

  /** The loop of lines 95-97 over `IsDefinedBy`. */
  function DefinitionsProperties(defs: seq<RelDefinition>): Result<PropertyMap, Error>
    decreases |defs|
  {
    if defs == [] then Ok([])
    else
      var n := |defs| - 1;
      match DefinitionsProperties(defs[..n])
      case Err(e) => Err(e)
      case Ok(acc) =>
        match defs[n]
        case DefinesByProperties(def) => UpdateWith(acc, DefinitionProperties(def))
        case OtherRelDefinition(_) => Ok(acc)
  }

  /** What `get_properties` returns. */
  function PropertiesOf(obj: IfcObject): Result<PropertyMap, Error>
  {
    DefinitionsProperties(obj.isDefinedBy)
  }

  lemma {:induction false} DefinitionsErrPropagates(defs: seq<RelDefinition>, n: nat)
    requires n <= |defs| && DefinitionsProperties(defs[..n]).Err?
    ensures DefinitionsProperties(defs) == DefinitionsProperties(defs[..n])
    decreases |defs|
  {
    if n < |defs| {
      var m := |defs| - 1;
      assert defs[..m][..n] == defs[..n];
      DefinitionsErrPropagates(defs[..m], n);
    } else {
      assert defs[..n] == defs;
    }
  }

  /** `get_properties`: merges the maps of the `IfcRelDefinesByProperties` definitions. */
  method GetProperties(obj: IfcObject) returns (r: Result<PropertyMap, Error>)
    ensures r == PropertiesOf(obj)
  {
    var defs := obj.isDefinedBy;
    var properties: PropertyMap := [];
    for i := 0 to |defs|
      invariant DefinitionsProperties(defs[..i]) == Ok(properties)
    {
      assert defs[..i + 1][..i] == defs[..i];
      match defs[i] {
        case DefinesByProperties(def) =>
          var mapped := MapProperties(def);
          var merged := UpdateWith(properties, mapped);
          if merged.Err? {
            DefinitionsErrPropagates(defs, i + 1);
            return Err(merged.error);
          }
          properties := merged.value;
        case OtherRelDefinition(_) =>
      }
    }
    assert defs[..|defs|] == defs;
    return Ok(properties);
  }

  /** A single value yields an entry only when its wrapped value is an `int` or a `float` (lines 73-76). */
  lemma SingleValueNumericOnly(name: string, info: Info, v: Value)
    requires "NominalValue" in KeySet(InfoDict(info))
    ensures !IsNumeric(v) ==> DefinitionProperties(SingleValue(name, info, Some(v))) == Ok(Some([]))
    ensures IsNumeric(v) ==>
      var r := DefinitionProperties(SingleValue(name, info, Some(v)));
      r.Ok? && r.value.Some? && |r.value.value| == 1 && r.value.value[0].0 == name
  {
    if IsNumeric(v) {
      var m := SingleValueMap(name, info, Some(v)).value;
      assert Update([], m) == Set([], m[0].0, m[0].1);
    }
  }

  /**
   * `extract_single_value`: one key, the property name; its record has `value` set to the wrapped value,
   * no `NominalValue`, and every other info key unchanged (lines 52-56). Without `NominalValue` it raises.
   */
  lemma SingleValueRecordShape(name: string, info: Info, v: Value)
    ensures "NominalValue" !in KeySet(InfoDict(info)) ==> SingleValueMap(name, info, Some(v)) == Err(MissingKey("NominalValue"))
    ensures "NominalValue" in KeySet(InfoDict(info)) ==>
      var r := SingleValueMap(name, info, Some(v));
      r.Ok? && |r.value| == 1 && r.value[0].0 == name &&
      Get(r.value[0].1, "value") == Some(v) &&
      "NominalValue" !in KeySet(r.value[0].1) &&
      forall k :: k != "value" && k != "NominalValue" ==> Get(r.value[0].1, k) == Get(InfoDict(info), k)
  {
    var d := InfoDict(info);
    if "NominalValue" in KeySet(d) {
      var rec := Set(Del(d, "NominalValue"), "value", v);
      GetSet(Del(d, "NominalValue"), "value", v, "value");
      GetSet(Del(d, "NominalValue"), "value", v, "NominalValue");
      GetDel(d, "NominalValue", "NominalValue");
      forall k | k != "value" && k != "NominalValue" ensures Get(rec, k) == Get(d, k) {
        GetSet(Del(d, "NominalValue"), "value", v, k);
        GetDel(d, "NominalValue", k);
      }
    }
  }

  /**
   * A quantity's record: `value` holds the attribute of the first key naming a value and that key is gone,
   * every other key is unchanged; without such a key the quantity raises (lines 39-42). A key spelled
   * exactly `value` is deleted by line 42 after line 41 rewrote it.
   */
  lemma QuantityRecordShape(q: Quantity)
    ensures QuantityRecord(q).Err? <==> forall j :: 0 <= j < |InfoDict(q.info)| ==> !IsValueKey(InfoDict(q.info)[j].0)
    ensures QuantityRecord(q).Ok? ==>
      var info := InfoDict(q.info);
      var valueKey := info[ValueKeyIndex(info).value].0;
      var rec := QuantityRecord(q).value;
      valueKey !in KeySet(rec) &&
      (valueKey != "value" ==> Get(rec, "value") == Get(info, valueKey)) &&
      forall k :: k != "value" && k != valueKey ==> Get(rec, k) == Get(info, k)
  {
    var info := InfoDict(q.info);
    if ValueKeyIndex(info).Some? {
      var valueKey := info[ValueKeyIndex(info).value].0;
      assert valueKey in KeySet(info);
      var v := Get(info, valueKey).value;
      var rec := Del(Set(info, "value", v), valueKey);
      GetDel(Set(info, "value", v), valueKey, valueKey);
      if valueKey != "value" {
        GetDel(Set(info, "value", v), valueKey, "value");
        GetSet(info, "value", v, "value");
      }
      forall k | k != "value" && k != valueKey ensures Get(rec, k) == Get(info, k) {
        GetDel(Set(info, "value", v), valueKey, k);
        GetSet(info, "value", v, k);
      }
    }
  }

  /** `extract_quantities` succeeds exactly when every quantity has a key naming a value. */
  lemma QuantitiesSucceed(qs: seq<Quantity>)
    ensures QuantitiesOf(qs).Ok? <==> forall i :: 0 <= i < |qs| ==> QuantityRecord(qs[i]).Ok?
  {
    var entries := QuantityEntries(qs);
    AssignAllSucceeds(entries);
    assert forall i :: 0 <= i < |qs| ==> entries[i].1 == QuantityRecord(qs[i]);
  }

  /** `extract_quantities` has one key per distinct quantity name (lines 37-38). */
  lemma QuantitiesKeys(qs: seq<Quantity>, m: PropertyMap)
    requires QuantitiesOf(qs) == Ok(m)
    ensures UniqueKeys(m)
    ensures forall k :: k in KeySet(m) <==> exists i :: 0 <= i < |qs| && qs[i].name == k
  {
    var entries := QuantityEntries(qs);
    AssignAllKeys(entries, m);
    assert forall i :: 0 <= i < |qs| ==> entries[i].0 == qs[i].name;
  }

  /** A later quantity overwrites an earlier one of the same name (line 38). */
  lemma QuantitiesLastWins(qs: seq<Quantity>, m: PropertyMap, i: nat)
    requires QuantitiesOf(qs) == Ok(m)
    requires i < |qs| && forall j :: i < j < |qs| ==> qs[j].name != qs[i].name
    ensures QuantityRecord(qs[i]).Ok? && Get(m, qs[i].name) == Some(QuantityRecord(qs[i]).value)
  {
    var entries := QuantityEntries(qs);
    assert forall j :: 0 <= j < |qs| ==> entries[j] == (qs[j].name, QuantityRecord(qs[j]));
    AssignAllLastWins(entries, m, i);
  }

  /** A property set succeeds exactly when every child yields a map (lines 68-70). */
  lemma {:induction false} PropertySetSucceeds(children: seq<Definition>)
    ensures MergeDefinitions(children).Ok? <==>
      forall i :: 0 <= i < |children| ==> DefinitionProperties(children[i]).Ok? && DefinitionProperties(children[i]).value.Some?
    decreases |children|
  {
    if children != [] {
      var n := |children| - 1;
      var prefix := children[..n];
      PropertySetSucceeds(prefix);
      assert forall i :: 0 <= i < n ==> prefix[i] == children[i];
      var d := DefinitionProperties(children[n]);
      assert MergeDefinitions(children) == match MergeDefinitions(prefix) case Err(e) => Err(e) case Ok(acc) => UpdateWith(acc, d);
    }
  }

  /** One unrecognised child, whose `None` reaches `dict.update`, makes the whole property set fail (lines 70, 82-83). */
  lemma UnrecognisedChildFails(children: seq<Definition>, i: nat)
    requires i < |children| && children[i].OtherDefinition?
    ensures MergeDefinitions(children).Err?
    ensures DefinitionProperties(PropertySet(children)).Err?
  {
    PropertySetSucceeds(children);
    assert DefinitionProperties(children[i]) == Ok(None);
  }

  /** A property set is the left-to-right merge of its children: a later child's keys win (line 70). */
  lemma PropertySetLaterWins(children: seq<Definition>, child: Definition, acc: PropertyMap, m: PropertyMap, k: string)
    requires MergeDefinitions(children) == Ok(acc)
    requires DefinitionProperties(child) == Ok(Some(m))
    ensures MergeDefinitions(children + [child]).Ok?
    ensures Get(MergeDefinitions(children + [child]).value, k) == if k in KeySet(m) then Get(m, k) else Get(acc, k)
  {
    assert (children + [child])[..|children|] == children;
    GetUpdate(acc, m, k);
  }

  /** The `IsDefinedBy` entries that `get_properties` reads. */
  function ByProperties(defs: seq<RelDefinition>): (r: seq<RelDefinition>)
    ensures forall i :: 0 <= i < |r| ==> r[i].DefinesByProperties?
    ensures forall x :: x in r <==> x in defs && x.DefinesByProperties?
    decreases |defs|
  {
    if defs == [] then []
    else
      var n := |defs| - 1;
      assert defs == defs[..n] + [defs[n]];
      ByProperties(defs[..n]) + if defs[n].DefinesByProperties? then [defs[n]] else []
  }

  /** `get_properties` reads only `IfcRelDefinesByProperties` entries; the others contribute nothing (lines 95-97). */
  lemma {:induction false} OnlyDefinesByProperties(defs: seq<RelDefinition>)
    ensures DefinitionsProperties(defs) == DefinitionsProperties(ByProperties(defs))
    decreases |defs|
  {
    if defs != [] {
      var n := |defs| - 1;
      OnlyDefinesByProperties(defs[..n]);
      var kept := ByProperties(defs[..n]);
      if defs[n].DefinesByProperties? {
        assert (kept + [defs[n]])[..|kept|] == kept;
        assert ByProperties(defs) == kept + [defs[n]];
      } else {
        assert ByProperties(defs) == kept;
      }
    }
  }
}
