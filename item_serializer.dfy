/**
 * The conversion engine: `serialize` flattens an object into a string-keyed
 * array by walking its properties mapping in order, and `hydrateObject`
 * builds a constructor-less instance back from such an array.
 *
 * The reflection the engine relies on is modelled on values: an object is its
 * map of initialised properties. Calls the engine makes into code it does not
 * see (date formatting, the dynamically named nested-item methods) are the
 * uninterpreted functions of a `Host`.
 */
module Serializer {
  import opened PhpValues
  import opened Configuration
  import opened Mapping

  const SerializeNotImplemented := "Getting nested items value via annotation not implemented yet"
  const DeserializeNotImplemented := "Deserializing nested items value via annotation not implemented yet"

  /** Why a conversion aborts. Every error aborts the whole call. */
  datatype Error =
      /** Thrown by the engine itself. */
    | DynamiteException(message: string)
      /** Reflection could not read the named property: undeclared, uninitialised, or read on a non-object. */
    | ReflectionException(property: string)
      /** A method was called on null or on a value that is not an object. */
    | CallOnNonObject(subject: string)

  datatype Result<+T> = Ok(value: T) | Err(error: Error)

  /**
   * The foreign calls: `DateTimeInterface::format`, `$value->$method()` and
   * `$class::$method($value)`.
   */
  datatype Host = Host(
    format: (Object, string) -> string,
    callMethod: (Object, string) -> Value,
    callStatic: (string, string, Value) -> Value)

  type Entries = seq<(string, AttributeInterface)>

  /** The attribute names of a mapping, in mapping order. */
  function Names(entries: Entries): seq<string> {
    seq(|entries|, i requires 0 <= i < |entries| => entries[i].1.name)
  }

  /** The property names of a mapping, in mapping order. */
  function PropertyNames(entries: Entries): seq<string> {
    seq(|entries|, i requires 0 <= i < |entries| => entries[i].0)
  }

  /** `hydrateObject` reads `$data[name]` for every mapped attribute. */
  predicate HasAttributes(entries: Entries, data: map<string, Value>) {
    forall i | 0 <= i < |entries| :: entries[i].1.name in data
  }

  /** The value `serialize` stores for one mapped property of `item`. */
  function SerializeProperty(item: Object, propertyName: string, attribute: AttributeInterface,
                             nestedItems: map<string, NestedItem>, host: Host): Result<Value>
  {
    if propertyName !in item.props then Err(ReflectionException(propertyName))
    else
      var propertyValue := item.props[propertyName];
      match attribute
      case Attribute(_, dateTimeRelated, format) =>
        if !dateTimeRelated || propertyValue == Null then Ok(propertyValue)
        else if propertyValue.Obj? then Ok(Str(host.format(propertyValue.obj, format)))
        else Err(CallOnNonObject(propertyName))
      case NestedValueObjectAttribute(_, property, _) =>
        if propertyValue.Obj? && property in propertyValue.obj.props then Ok(propertyValue.obj.props[property])
        else Err(ReflectionException(property))
      case NestedItemAttribute(_, _) =>
        if propertyName !in nestedItems then Err(CallOnNonObject(propertyName))
        else match nestedItems[propertyName].serializeMethod
          case None => Err(DynamiteException(SerializeNotImplemented))
          case Some(serializeMethod) =>
            if propertyValue.Obj? then Ok(host.callMethod(propertyValue.obj, serializeMethod))
            else Err(CallOnNonObject(propertyName))
  }

  /**
   * What `serialize` returns for the mapping `entries`: the entries are
   * converted in order into one array, and the first failure aborts.
   */
  function SerializeAll(item: Object, entries: Entries, nestedItems: map<string, NestedItem>, host: Host): (r: Result<Record>)
    ensures r.Ok? ==> r.value.Valid()
  {
    if entries == [] then Ok(EmptyRecord)
    else
      var n := |entries| - 1;
      match SerializeAll(item, entries[..n], nestedItems, host)
      case Err(e) => Err(e)
      case Ok(values) =>
        match SerializeProperty(item, entries[n].0, entries[n].1, nestedItems, host)
        case Err(e) => Err(e)
        case Ok(v) => Ok(Put(values, entries[n].1.name, v))
  }

  /** The value `hydrateObject` sets one mapped property to, from the record `data`. */
  function HydrateProperty(attribute: AttributeInterface, data: map<string, Value>,
                           reader: map<string, NestedItem>, host: Host): Result<Value>
    requires attribute.name in data
  {
    var propValue := data[attribute.name];
    match attribute
    case Attribute(_, _, _) => Ok(propValue)
    case NestedValueObjectAttribute(_, property, className) =>
      Ok(Obj(Object(className, map[property := propValue])))
    case NestedItemAttribute(_, className) =>
      if className !in reader then Err(CallOnNonObject(className))
      else match reader[className].deserializeMethod
        case None => Err(DynamiteException(DeserializeNotImplemented))
        case Some(deserializeMethod) => Ok(host.callStatic(className, deserializeMethod, propValue))
  }

  /**
   * What `hydrateObject` returns: an instance of `className` made without its
   * constructor, whose mapped properties are set in order; the first failure
   * aborts.
   */
  function HydrateAll(className: string, entries: Entries, data: map<string, Value>,
                      reader: map<string, NestedItem>, host: Host): Result<Object>
    requires HasAttributes(entries, data)
  {
    if entries == [] then Ok(Object(className, map[]))
    else
      var n := |entries| - 1;
      match HydrateAll(className, entries[..n], data, reader, host)
      case Err(e) => Err(e)
      case Ok(instance) =>
        match HydrateProperty(entries[n].1, data, reader, host)
        case Err(e) => Err(e)
        case Ok(v) => Ok(instance.(props := instance.props[entries[n].0 := v]))
  }

  /** One more entry of the mapping converted: the array gains that entry's value, or the call fails with its error. */
  lemma SerializeExtend(item: Object, entries: Entries, k: nat, values: Record, converted: Result<Value>,
                        nestedItems: map<string, NestedItem>, host: Host)
    requires k < |entries|
    requires SerializeAll(item, entries[..k], nestedItems, host) == Ok(values)
    requires SerializeProperty(item, entries[k].0, entries[k].1, nestedItems, host) == converted
    ensures SerializeAll(item, entries[..k + 1], nestedItems, host) ==
      if converted.Err? then Err(converted.error) else Ok(Put(values, entries[k].1.name, converted.value))
  {
    assert entries[..k + 1][..k] == entries[..k];
  }

  /** Once a prefix of the mapping fails, the whole conversion fails with the same error. */
  lemma {:induction false} SerializeErrorPersists(item: Object, entries: Entries, k: nat,
                                                   nestedItems: map<string, NestedItem>, host: Host)
    requires k <= |entries|
    requires SerializeAll(item, entries[..k], nestedItems, host).Err?
    ensures SerializeAll(item, entries, nestedItems, host) == SerializeAll(item, entries[..k], nestedItems, host)
    decreases |entries|
  {
    if k < |entries| {
      var n := |entries| - 1;
      assert entries[..n][..k] == entries[..k];
      SerializeErrorPersists(item, entries[..n], k, nestedItems, host);
    } else {
      assert entries[..k] == entries;
    }
  }

  /** Once a prefix of the mapping fails, the whole hydration fails with the same error. */
  lemma {:induction false} HydrateErrorPersists(className: string, entries: Entries, k: nat, data: map<string, Value>,
                                                 reader: map<string, NestedItem>, host: Host)
    requires k <= |entries|
    requires HasAttributes(entries, data)
    requires HasAttributes(entries[..k], data)
    requires HydrateAll(className, entries[..k], data, reader, host).Err?
    ensures HydrateAll(className, entries, data, reader, host) == HydrateAll(className, entries[..k], data, reader, host)
    decreases |entries|
  {
    if k < |entries| {
      var n := |entries| - 1;
      assert entries[..n][..k] == entries[..k];
      HydrateErrorPersists(className, entries[..n], k, data, reader, host);
    } else {
      assert entries[..k] == entries;
    }
  }

  class ItemSerializer {
    /** The `NestedItem` class annotations the annotation reader finds, by class name. */
    const reader: map<string, NestedItem>

    constructor(reader: map<string, NestedItem>)
      ensures this.reader == reader
    {
      this.reader := reader;
    }

    /**
     * The body of `serialize`'s loop for one mapped property: the value to
     * store, or why the call aborts. Kept apart from the loop so that the
     * loop's proof does not unfold the dispatch.
     */
    method SerializeValue(item: Object, propertyName: string, attribute: AttributeInterface,
                          nestedItems: map<string, NestedItem>, host: Host)
      returns (r: Result<Value>)
      ensures r == SerializeProperty(item, propertyName, attribute, nestedItems, host)
    {
      if propertyName !in item.props {
        return Err(ReflectionException(propertyName));
      }
      var propertyValue := item.props[propertyName];
      match attribute {
        case Attribute(_, dateTimeRelated, format) =>
          if !dateTimeRelated {
            return Ok(propertyValue);
          }
          if propertyValue == Null {
            return Ok(propertyValue);
          }
          if !propertyValue.Obj? {
            return Err(CallOnNonObject(propertyName));
          }
          return Ok(Str(host.format(propertyValue.obj, format)));
        case NestedValueObjectAttribute(_, property, _) =>
          if !propertyValue.Obj? || property !in propertyValue.obj.props {
            return Err(ReflectionException(property));
          }
          return Ok(propertyValue.obj.props[property]);
        case NestedItemAttribute(_, _) =>
          if propertyName !in nestedItems {
            return Err(CallOnNonObject(propertyName));
          }
          var serializeMethod := nestedItems[propertyName].serializeMethod;
          if serializeMethod.Some? {
            if !propertyValue.Obj? {
              return Err(CallOnNonObject(propertyName));
            }
            return Ok(host.callMethod(propertyValue.obj, serializeMethod.value));
          }
          return Err(DynamiteException(SerializeNotImplemented));
      }
    }

    /**
     * Flattens `item` into an array. `nestedItems` is the nested-item
     * configuration of the mapping, by property name.
     */
    method Serialize(item: Object, itemMapping: ItemMapping, nestedItems: map<string, NestedItem>, host: Host)
      returns (r: Result<Record>)
      ensures r == SerializeAll(item, itemMapping.GetPropertiesMapping(), nestedItems, host)
    {
      var entries := itemMapping.GetPropertiesMapping();
      var values := EmptyRecord;
      var i := 0;
      while i < |entries|
        invariant 0 <= i <= |entries|
        invariant SerializeAll(item, entries[..i], nestedItems, host) == Ok(values)
      {
        var (propertyName, attribute) := entries[i];
        var converted := SerializeValue(item, propertyName, attribute, nestedItems, host);
        SerializeExtend(item, entries, i, values, converted, nestedItems, host);
        if converted.Err? {
          SerializeErrorPersists(item, entries, i + 1, nestedItems, host);
          return Err(converted.error);
        }
        values := Put(values, attribute.name, converted.value);
        i := i + 1;
      }
      assert entries[..i] == entries;
      return Ok(values);
    }

    /**
     * Builds an instance of `className` without running its constructor and
     * sets each mapped property from `data`.
     */
    method HydrateObject(className: string, itemMapping: ItemMapping, data: map<string, Value>, host: Host)
      returns (r: Result<Object>)
      requires HasAttributes(itemMapping.GetPropertiesMapping(), data)
      ensures r == HydrateAll(className, itemMapping.GetPropertiesMapping(), data, reader, host)
    {
      var entries := itemMapping.GetPropertiesMapping();
      var instantiatedObject := Object(className, map[]);
      var i := 0;
      while i < |entries|
        invariant 0 <= i <= |entries|
        invariant HasAttributes(entries[..i], data)
        invariant HydrateAll(className, entries[..i], data, reader, host) == Ok(instantiatedObject)
      {
        var (propertyName, attribute) := entries[i];
        assert entries[..i + 1][..i] == entries[..i];
        assert HasAttributes(entries[..i + 1], data);
        var propValue := data[attribute.name];
        match attribute {
          case Attribute(_, _, _) =>
            instantiatedObject := instantiatedObject.(props := instantiatedObject.props[propertyName := propValue]);
          case NestedValueObjectAttribute(_, property, valueObjectClass) =>
            var valueObjectInstance := Object(valueObjectClass, map[]);
            valueObjectInstance := valueObjectInstance.(props := valueObjectInstance.props[property := propValue]);
            instantiatedObject := instantiatedObject.(props := instantiatedObject.props[propertyName := Obj(valueObjectInstance)]);
          case NestedItemAttribute(_, nestedItemClass) =>
            if nestedItemClass !in reader {
              HydrateErrorPersists(className, entries, i + 1, data, reader, host);
              return Err(CallOnNonObject(nestedItemClass));
            }
            var deserializeMethod := reader[nestedItemClass].deserializeMethod;
            if deserializeMethod.None? {
              HydrateErrorPersists(className, entries, i + 1, data, reader, host);
              return Err(DynamiteException(DeserializeNotImplemented));
            }
            var nested := host.callStatic(nestedItemClass, deserializeMethod.value, propValue);
            instantiatedObject := instantiatedObject.(props := instantiatedObject.props[propertyName := nested]);
        }
        i := i + 1;
      }
      assert entries[..i] == entries;
      return Ok(instantiatedObject);
    }
  }
}
