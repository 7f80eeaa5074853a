/**
 * The IFC object model as plain values: what the converter reads through ifcopenshell
 * (`get_info()`, `IsDefinedBy`, `HasProperties`, `Quantities`, relationship attributes),
 * and the Python exceptions the conversion can raise.
 */
module IfcData {
  import opened Wrappers
  import opened Strings
  import opened PyDict

  /** A scalar or attribute value. Floats are kept as their Python `repr` text and never computed on. */
  datatype Value =
    | IntV(intValue: int)
    | FloatV(floatRepr: string)
    | StrV(strValue: string)
    | BoolV(boolValue: bool)
    | NoneV
    | OtherV(repr: string)  // entity instances, enumerations, lists: carried, shown by their `str()`

  /** Python's `type(v) == float or type(v) == int`; `bool` is a different type. */
  predicate IsNumeric(v: Value)
  {
    v.IntV? || v.FloatV?
  }

  /** Python's `str(v)`. */
  function PyStr(v: Value): string
  {
    match v
    case IntV(i) => IntToString(i)
    case FloatV(r) => r
    case StrV(s) => s
    case BoolV(b) => if b then "True" else "False"
    case NoneV => "None"
    case OtherV(r) => r
  }

  /** A `get_info()` dictionary, or a record derived from one. */
  type Record = Dict<Value>

  /** What `get_info()` returns for an entity: its step id, its type name and its remaining attributes. */
  datatype Info = Info(id: nat, ifcType: string, attributes: Record)

  /** The `get_info()` dictionary: `id` and `type` first, then the attributes in schema order. */
  function InfoDict(info: Info): Record
  {
    [("id", IntV(info.id)), ("type", StrV(info.ifcType))] + info.attributes
  }

  /** An `IfcPhysicalQuantity` of an element quantity set. */
  datatype Quantity = Quantity(name: string, info: Info)

  /** A property definition reached from `RelatingPropertyDefinition` or `HasProperties`. */
  datatype Definition =
    | PropertySet(hasProperties: seq<Definition>)
    | SingleValue(name: string, info: Info, nominalValue: Option<Value>)  // None: NominalValue is unset
    | ElementQuantity(quantities: seq<Quantity>)
    | OtherDefinition(ifcType: string)

  /** An entry of `IsDefinedBy`. */
  datatype RelDefinition =
    | DefinesByProperties(relatingPropertyDefinition: Definition)
    | OtherRelDefinition(ifcType: string)

  datatype IfcObject = IfcObject(info: Info, isDefinedBy: seq<RelDefinition>)

  /** The `type` and `id` of a related entity. */
  datatype EntityRef = EntityRef(ifcType: string, id: nat)

  /** The value of a relationship's target attribute. */
  datatype Targets = NoTargets | SingleTarget(target: EntityRef) | TargetList(targets: seq<EntityRef>)

  /** An `IfcRelationship` instance: its `is_a()` name, its source entity and its targets. */
  datatype Relationship = Relationship(ifcType: string, source: EntityRef, targets: Targets)

  /** The results of `by_type('IfcSpatialStructureElement')`, `by_type('IfcElement')` and `by_type('IfcRelationship')`. */
  datatype IfcModel = IfcModel(spatialElements: seq<IfcObject>, elements: seq<IfcObject>, relationships: seq<Relationship>)

  /** The exceptions the conversion can raise. */
  datatype Error =
    | UpdateWithNone             // TypeError: `dict.update(None)` after an unrecognised definition
    | NoValueKey(quantity: string) // IndexError: no attribute name of a quantity contains "value"
    | NoNominalValue(property: string) // AttributeError: `None.wrappedValue`
    | MissingKey(key: string)    // KeyError
}
