/**
 * What `serialize` and `hydrateObject` promise: when they fail, which keys
 * the array gets and in which order, what value each key and each property
 * gets, and how far hydrating a serialized object restores it.
 */
module SerializerProperties {
  import opened PhpValues
  import opened Configuration
  import opened Mapping
  import opened Serializer

  /** The names of a mapping are those of all but its last entry, then the last entry's. */
  lemma NamesSnoc(entries: Entries)
    requires entries != []
    ensures var n := |entries| - 1;
      && Names(entries) == Names(entries[..n]) + [entries[n].1.name]
      && PropertyNames(entries) == PropertyNames(entries[..n]) + [entries[n].0]
  {
  }

  // ---------------------------------------------------------------- serialize

  /**
   * `serialize` fails exactly when one of the mapped properties cannot be
   * converted, and then with the error of the first such property.
   */
  lemma {:induction false} SerializeFailure(item: Object, entries: Entries, nestedItems: map<string, NestedItem>, host: Host)
    ensures SerializeAll(item, entries, nestedItems, host).Err? <==>
      exists i | 0 <= i < |entries| :: SerializeProperty(item, entries[i].0, entries[i].1, nestedItems, host).Err?
    ensures SerializeAll(item, entries, nestedItems, host).Err? ==>
      exists i | 0 <= i < |entries| ::
        && SerializeProperty(item, entries[i].0, entries[i].1, nestedItems, host) == Err(SerializeAll(item, entries, nestedItems, host).error)
        && forall j | 0 <= j < i :: SerializeProperty(item, entries[j].0, entries[j].1, nestedItems, host).Ok?
  {
    if entries != [] {
      var n := |entries| - 1;
      SerializeFailure(item, entries[..n], nestedItems, host);
      if SerializeAll(item, entries[..n], nestedItems, host).Err? {
        SerializeFailurePrefix(item, entries, nestedItems, host);
      } else {
        SerializeFailureLast(item, entries, nestedItems, host);
      }
    }
  }

  /** The failure case where all but the last entry already fail. */
  lemma SerializeFailurePrefix(item: Object, entries: Entries, nestedItems: map<string, NestedItem>, host: Host)
    requires entries != []
    requires var prefix := entries[..|entries| - 1];
      && SerializeAll(item, prefix, nestedItems, host).Err?
      && exists i | 0 <= i < |prefix| ::
           && SerializeProperty(item, prefix[i].0, prefix[i].1, nestedItems, host) == Err(SerializeAll(item, prefix, nestedItems, host).error)
           && forall j | 0 <= j < i :: SerializeProperty(item, prefix[j].0, prefix[j].1, nestedItems, host).Ok?
    ensures SerializeAll(item, entries, nestedItems, host) == SerializeAll(item, entries[..|entries| - 1], nestedItems, host)
    ensures exists i | 0 <= i < |entries| ::
      && SerializeProperty(item, entries[i].0, entries[i].1, nestedItems, host) == Err(SerializeAll(item, entries, nestedItems, host).error)
      && forall j | 0 <= j < i :: SerializeProperty(item, entries[j].0, entries[j].1, nestedItems, host).Ok?
  {
  }

  /** The case where all but the last entry convert: the result is decided by the last one. */
  lemma SerializeFailureLast(item: Object, entries: Entries, nestedItems: map<string, NestedItem>, host: Host)
    requires entries != []
    requires var prefix := entries[..|entries| - 1];
      && SerializeAll(item, prefix, nestedItems, host).Ok?
      && forall i | 0 <= i < |prefix| :: SerializeProperty(item, prefix[i].0, prefix[i].1, nestedItems, host).Ok?
    ensures var n := |entries| - 1;
      SerializeAll(item, entries, nestedItems, host).Err? <==> SerializeProperty(item, entries[n].0, entries[n].1, nestedItems, host).Err?
    ensures var n := |entries| - 1;
      SerializeAll(item, entries, nestedItems, host).Err? ==>
        SerializeProperty(item, entries[n].0, entries[n].1, nestedItems, host) == Err(SerializeAll(item, entries, nestedItems, host).error)
    ensures forall i | 0 <= i < |entries| - 1 :: SerializeProperty(item, entries[i].0, entries[i].1, nestedItems, host).Ok?
  {
    var prefix := entries[..|entries| - 1];
    assert forall i | 0 <= i < |prefix| :: prefix[i] == entries[i];
  }

  /** One step of `serialize`: the array for the whole mapping is the prefix's array with the last entry put in. */
  lemma SerializeStep(item: Object, entries: Entries, nestedItems: map<string, NestedItem>, host: Host)
    requires entries != []
    requires SerializeAll(item, entries, nestedItems, host).Ok?
    ensures var n := |entries| - 1;
      && SerializeAll(item, entries[..n], nestedItems, host).Ok?
      && SerializeProperty(item, entries[n].0, entries[n].1, nestedItems, host).Ok?
      && SerializeAll(item, entries, nestedItems, host).value ==
           Put(SerializeAll(item, entries[..n], nestedItems, host).value, entries[n].1.name,
               SerializeProperty(item, entries[n].0, entries[n].1, nestedItems, host).value)
  {
  }

  /**
   * The keys of the array `serialize` returns are exactly the mapped
   * attribute names, each once, in the order in which each name first
   * appears in the mapping.
   */
  lemma {:induction false} SerializedKeys(item: Object, entries: Entries, nestedItems: map<string, NestedItem>, host: Host)
    requires SerializeAll(item, entries, nestedItems, host).Ok?
    ensures var values := SerializeAll(item, entries, nestedItems, host).value;
      && values.Valid()
      && (forall k :: k in values.vals <==> k in Names(entries))
      && (forall i, j | 0 <= i < j < |values.keys| ::
            FirstIndex(Names(entries), values.keys[i]) < FirstIndex(Names(entries), values.keys[j]))
  {
    if entries != [] {
      var n := |entries| - 1;
      var prefix := entries[..n];
      SerializeStep(item, entries, nestedItems, host);
      SerializedKeys(item, prefix, nestedItems, host);
      NamesSnoc(entries);
      KeysAfterPut(SerializeAll(item, prefix, nestedItems, host).value, Names(prefix), entries[n].1.name,
                   SerializeAll(item, entries, nestedItems, host).value);
    }
  }

  /** Putting `name` into an array whose keys are `names` in first-occurrence order keeps that order for `names + [name]`. */
  lemma KeysAfterPut(values: Record, names: seq<string>, name: string, out: Record)
    requires values.Valid()
    requires forall k :: k in values.vals <==> k in names
    requires forall i, j | 0 <= i < j < |values.keys| :: FirstIndex(names, values.keys[i]) < FirstIndex(names, values.keys[j])
    requires name in out.vals && out == Put(values, name, out.vals[name])
    ensures out.Valid()
    ensures forall k :: k in out.vals <==> k in names + [name]
    ensures forall i, j | 0 <= i < j < |out.keys| ::
      FirstIndex(names + [name], out.keys[i]) < FirstIndex(names + [name], out.keys[j])
  {
    if name in values.vals {
      assert out.keys == values.keys;
      OrderKept(values.keys, names, name);
    } else {
      assert out.keys == values.keys + [name];
      OrderAppended(values.keys, names, name);
    }
  }

  /** Appending a name the keys already hold leaves their first-occurrence order as it was. */
  lemma OrderKept(keys: seq<string>, names: seq<string>, name: string)
    requires forall k | k in keys :: k in names
    requires forall i, j | 0 <= i < j < |keys| :: FirstIndex(names, keys[i]) < FirstIndex(names, keys[j])
    ensures forall i, j | 0 <= i < j < |keys| :: FirstIndex(names + [name], keys[i]) < FirstIndex(names + [name], keys[j])
  {
    forall i | 0 <= i < |keys|
      ensures FirstIndex(names + [name], keys[i]) == FirstIndex(names, keys[i])
    {
      FirstIndexAppend(names, [name], keys[i]);
    }
  }

  /** A name new to `names`, appended to the keys, comes after all of them in first-occurrence order. */
  lemma OrderAppended(keys: seq<string>, names: seq<string>, name: string)
    requires name !in names
    requires forall k | k in keys :: k in names
    requires forall i, j | 0 <= i < j < |keys| :: FirstIndex(names, keys[i]) < FirstIndex(names, keys[j])
    ensures forall i, j | 0 <= i < j < |keys + [name]| ::
      FirstIndex(names + [name], (keys + [name])[i]) < FirstIndex(names + [name], (keys + [name])[j])
  {
    OrderKept(keys, names, name);
    assert FirstIndex(names + [name], name) == |names|;
    forall i | 0 <= i < |keys|
      ensures FirstIndex(names + [name], keys[i]) < |names|
    {
      FirstIndexAppend(names, [name], keys[i]);
    }
  }

  /**
   * Each key of the array holds the value converted from the LAST mapped
   * property with that attribute name: a later entry overwrites an earlier one.
   */
  lemma {:induction false} SerializedValues(item: Object, entries: Entries, nestedItems: map<string, NestedItem>, host: Host)
    requires SerializeAll(item, entries, nestedItems, host).Ok?
    ensures var values := SerializeAll(item, entries, nestedItems, host).value;
      forall k | k in values.vals ::
        && 0 <= LastIndex(Names(entries), k)
        && SerializeProperty(item, entries[LastIndex(Names(entries), k)].0, entries[LastIndex(Names(entries), k)].1, nestedItems, host)
           == Ok(values.vals[k])
  {
    if entries != [] {
      var n := |entries| - 1;
      var prefix := entries[..n];
      SerializeStep(item, entries, nestedItems, host);
      SerializedValues(item, prefix, nestedItems, host);
      NamesSnoc(entries);
      var names := Names(entries);
      var out := SerializeAll(item, entries, nestedItems, host).value;
      forall k | k in out.vals
        ensures 0 <= LastIndex(names, k)
        ensures SerializeProperty(item, entries[LastIndex(names, k)].0, entries[LastIndex(names, k)].1, nestedItems, host)
                == Ok(out.vals[k])
      {
        if k != entries[n].1.name {
          assert LastIndex(names, k) == LastIndex(Names(prefix), k);
          assert prefix[LastIndex(names, k)] == entries[LastIndex(names, k)];
        }
      }
    }
  }

  /**
   * The value `serialize` stores under an attribute name, by descriptor kind,
   * for a property that no later entry overwrites:
   * - a plain attribute: the property's value, unchanged;
   * - a date-time attribute: null when the value is null, otherwise the value
   *   formatted with the attribute's format;
   * - a value object: the value of its named inner property;
   * - a nested item: what its configured serialize method returns.
   */
  lemma {:induction false} SerializedAttribute(item: Object, entries: Entries, nestedItems: map<string, NestedItem>, host: Host, i: nat)
    requires i < |entries|
    requires LastIndex(Names(entries), entries[i].1.name) == i
    requires SerializeAll(item, entries, nestedItems, host).Ok?
    ensures var values := SerializeAll(item, entries, nestedItems, host).value.vals;
      var propertyName := entries[i].0;
      var name := entries[i].1.name;
      && propertyName in item.props
      && name in values
      && var v := item.props[propertyName];
         match entries[i].1
         case Attribute(_, dateTimeRelated, format) =>
           if !dateTimeRelated || v == Null then values[name] == v
           else v.Obj? && values[name] == Str(host.format(v.obj, format))
         case NestedValueObjectAttribute(_, property, _) =>
           v.Obj? && property in v.obj.props && values[name] == v.obj.props[property]
         case NestedItemAttribute(_, _) =>
           && propertyName in nestedItems
           && nestedItems[propertyName].serializeMethod.Some?
           && v.Obj?
           && values[name] == host.callMethod(v.obj, nestedItems[propertyName].serializeMethod.value)
  {
    SerializeFailure(item, entries, nestedItems, host);
    SerializedKeys(item, entries, nestedItems, host);
    SerializedValues(item, entries, nestedItems, host);
    var name := entries[i].1.name;
    assert Names(entries)[i] == name;
    assert SerializeProperty(item, entries[i].0, entries[i].1, nestedItems, host).Ok?;
  }

  /**
   * A nested item without a configured serialize method makes `serialize`
   * fail; when no earlier property failed, it fails with the engine's
   * not-implemented exception.
   */
  lemma {:induction false} NestedItemWithoutSerializeMethod(item: Object, entries: Entries, nestedItems: map<string, NestedItem>,
                                                          host: Host, i: nat)
    requires i < |entries| && entries[i].1.NestedItemAttribute?
    requires entries[i].0 !in nestedItems || nestedItems[entries[i].0].serializeMethod.None?
    ensures SerializeAll(item, entries, nestedItems, host).Err?
    ensures (forall j | 0 <= j < i :: SerializeProperty(item, entries[j].0, entries[j].1, nestedItems, host).Ok?)
            && entries[i].0 in item.props && entries[i].0 in nestedItems ==>
            SerializeAll(item, entries, nestedItems, host) == Err(DynamiteException(SerializeNotImplemented))
  {
    SerializeFailure(item, entries, nestedItems, host);
    assert SerializeProperty(item, entries[i].0, entries[i].1, nestedItems, host).Err?;
    if && (forall j | 0 <= j < i :: SerializeProperty(item, entries[j].0, entries[j].1, nestedItems, host).Ok?)
       && entries[i].0 in item.props && entries[i].0 in nestedItems
    {
      var e := SerializeAll(item, entries, nestedItems, host).error;
      var f :| 0 <= f < |entries|
        && SerializeProperty(item, entries[f].0, entries[f].1, nestedItems, host) == Err(e)
        && forall j | 0 <= j < f :: SerializeProperty(item, entries[j].0, entries[j].1, nestedItems, host).Ok?;
      assert f == i;
    }
  }

  // ---------------------------------------------------------------- hydrateObject

  /**
   * `hydrateObject` fails exactly when some nested item's class has no
   * annotation or an annotation without a deserialize method, and then with
   * the error of the first such property.
   */
  lemma {:induction false} HydrateFailure(className: string, entries: Entries, data: map<string, Value>,
                                          reader: map<string, NestedItem>, host: Host)
    requires HasAttributes(entries, data)
    ensures HydrateAll(className, entries, data, reader, host).Err? <==>
      exists i | 0 <= i < |entries| :: HydrateProperty(entries[i].1, data, reader, host).Err?
    ensures HydrateAll(className, entries, data, reader, host).Err? ==>
      exists i | 0 <= i < |entries| ::
        && entries[i].1.NestedItemAttribute?
        && (|| (entries[i].1.className !in reader
                && HydrateAll(className, entries, data, reader, host).error == CallOnNonObject(entries[i].1.className))
            || (entries[i].1.className in reader && reader[entries[i].1.className].deserializeMethod.None?
                && HydrateAll(className, entries, data, reader, host).error == DynamiteException(DeserializeNotImplemented)))
        && forall j | 0 <= j < i :: HydrateProperty(entries[j].1, data, reader, host).Ok?
  {
    if entries != [] {
      var n := |entries| - 1;
      var prefix := entries[..n];
      assert forall i | 0 <= i < n :: prefix[i] == entries[i];
      HydrateFailure(className, prefix, data, reader, host);
      var last := HydrateProperty(entries[n].1, data, reader, host);
      if HydrateAll(className, prefix, data, reader, host).Err? {
        var i :| 0 <= i < n && HydrateProperty(prefix[i].1, data, reader, host).Err?;
        assert HydrateProperty(entries[i].1, data, reader, host).Err?;
      } else if last.Err? {
        assert forall j | 0 <= j < n :: HydrateProperty(entries[j].1, data, reader, host).Ok?;
      } else {
        forall i | 0 <= i < |entries|
          ensures HydrateProperty(entries[i].1, data, reader, host).Ok?
        {
          if i < n {
            assert HydrateProperty(prefix[i].1, data, reader, host).Ok?;
          }
        }
      }
    }
  }

  /**
   * The object `hydrateObject` returns is of class `className`, has exactly
   * the mapped properties set, and each is set, by descriptor kind:
   * - any attribute, date-time or not: to the raw record value, unparsed;
   * - a value object: to a fresh instance of its class whose only set
   *   property is the inner one, holding the record value;
   * - a nested item: to what the configured static deserialize method
   *   returns for the record value.
   */
  lemma {:induction false} HydratedObject(className: string, entries: PropertiesMapping, data: map<string, Value>,
                                          reader: map<string, NestedItem>, host: Host)
    requires HasAttributes(entries, data)
    requires HydrateAll(className, entries, data, reader, host).Ok?
    ensures var instance := HydrateAll(className, entries, data, reader, host).value;
      && instance.cls == className
      && (forall p :: p in instance.props <==> p in PropertyNames(entries))
      && (forall i | 0 <= i < |entries| :: entries[i].0 in instance.props)
      && (forall i | 0 <= i < |entries| && entries[i].1.Attribute? ::
            instance.props[entries[i].0] == data[entries[i].1.name])
      && (forall i | 0 <= i < |entries| && entries[i].1.NestedValueObjectAttribute? ::
            instance.props[entries[i].0] ==
              Obj(Object(entries[i].1.className, map[entries[i].1.property := data[entries[i].1.name]])))
      && (forall i | 0 <= i < |entries| && entries[i].1.NestedItemAttribute? ::
            && entries[i].1.className in reader
            && reader[entries[i].1.className].deserializeMethod.Some?
            && instance.props[entries[i].0] ==
                 host.callStatic(entries[i].1.className, reader[entries[i].1.className].deserializeMethod.value,
                                 data[entries[i].1.name]))
  {
    HydrateFailure(className, entries, data, reader, host);
    HydrateSetsEachProperty(className, entries, data, reader, host);
    forall i | 0 <= i < |entries|
      ensures HydrateProperty(entries[i].1, data, reader, host).Ok?
    {
    }
  }

  /** One step of `hydrateObject`: the object for the whole mapping is the prefix's object with the last property set. */
  lemma HydrateStep(className: string, entries: Entries, data: map<string, Value>, reader: map<string, NestedItem>, host: Host)
    requires entries != []
    requires HasAttributes(entries, data)
    requires HydrateAll(className, entries, data, reader, host).Ok?
    ensures var n := |entries| - 1;
      && HasAttributes(entries[..n], data)
      && HydrateAll(className, entries[..n], data, reader, host).Ok?
      && HydrateProperty(entries[n].1, data, reader, host).Ok?
      && var instance := HydrateAll(className, entries[..n], data, reader, host).value;
         HydrateAll(className, entries, data, reader, host).value ==
           instance.(props := instance.props[entries[n].0 := HydrateProperty(entries[n].1, data, reader, host).value])
  {
  }

  /** Each mapped property of the hydrated object holds its own converted value. */
  lemma {:induction false} HydrateSetsEachProperty(className: string, entries: PropertiesMapping, data: map<string, Value>,
                                                   reader: map<string, NestedItem>, host: Host)
    requires HasAttributes(entries, data)
    requires HydrateAll(className, entries, data, reader, host).Ok?
    ensures var instance := HydrateAll(className, entries, data, reader, host).value;
      && instance.cls == className
      && (forall p :: p in instance.props <==> p in PropertyNames(entries))
      && forall i | 0 <= i < |entries| ::
           entries[i].0 in instance.props
           && HydrateProperty(entries[i].1, data, reader, host) == Ok(instance.props[entries[i].0])
  {
    if entries != [] {
      var n := |entries| - 1;
      var prefix: PropertiesMapping := entries[..n];
      HydrateStep(className, entries, data, reader, host);
      HydrateSetsEachProperty(className, prefix, data, reader, host);
      NamesSnoc(entries);
      var instance := HydrateAll(className, entries, data, reader, host).value;
      forall i | 0 <= i < |entries|
        ensures entries[i].0 in instance.props
        ensures HydrateProperty(entries[i].1, data, reader, host) == Ok(instance.props[entries[i].0])
      {
        if i < n {
          assert prefix[i] == entries[i];
          assert entries[i].0 != entries[n].0;
        }
      }
    }
  }

  // ---------------------------------------------------------------- round trips

  /** No two mapped properties share an attribute name. */
  predicate DistinctAttributeNames(entries: Entries) {
    forall i, j | 0 <= i < j < |entries| :: entries[i].1.name != entries[j].1.name
  }

  /**
   * Hydrating what `serialize` returned, for a mapping of attributes and value
   * objects with distinct attribute names: a plain attribute gets its value
   * back and a value object gets its inner property back. A date-time
   * attribute is not parsed back: it gets null back for null, and the
   * formatted text otherwise.
   */
  lemma {:induction false} SerializeThenHydrate(className: string, item: Object, entries: PropertiesMapping,
                                                nestedItems: map<string, NestedItem>, reader: map<string, NestedItem>, host: Host)
    requires DistinctAttributeNames(entries)
    requires forall i | 0 <= i < |entries| :: !entries[i].1.NestedItemAttribute?
    requires SerializeAll(item, entries, nestedItems, host).Ok?
    ensures var data := SerializeAll(item, entries, nestedItems, host).value.vals;
      && HasAttributes(entries, data)
      && HydrateAll(className, entries, data, reader, host).Ok?
      && var restored := HydrateAll(className, entries, data, reader, host).value;
         forall i | 0 <= i < |entries| ::
           && entries[i].0 in item.props
           && entries[i].0 in restored.props
           && var v, w := item.props[entries[i].0], restored.props[entries[i].0];
              match entries[i].1
              case Attribute(_, dateTimeRelated, format) =>
                if !dateTimeRelated || v == Null then w == v
                else v.Obj? && w == Str(host.format(v.obj, format))
              case NestedValueObjectAttribute(_, property, _) =>
                && v.Obj? && w.Obj?
                && property in v.obj.props && property in w.obj.props
                && w.obj.props[property] == v.obj.props[property]
              case NestedItemAttribute(_, _) => false
  {
    var data := SerializeAll(item, entries, nestedItems, host).value.vals;
    SerializedKeys(item, entries, nestedItems, host);
    forall i | 0 <= i < |entries|
      ensures entries[i].1.name in data
      ensures LastIndex(Names(entries), entries[i].1.name) == i
    {
      assert forall l | 0 <= l < |entries| :: Names(entries)[l] == entries[l].1.name;
    }
    HydrateFailure(className, entries, data, reader, host);
    HydratedObject(className, entries, data, reader, host);
    forall i | 0 <= i < |entries|
      ensures entries[i].0 in item.props
      ensures match entries[i].1
              case Attribute(_, dateTimeRelated, format) =>
                var v := item.props[entries[i].0];
                if !dateTimeRelated || v == Null then data[entries[i].1.name] == v
                else v.Obj? && data[entries[i].1.name] == Str(host.format(v.obj, format))
              case NestedValueObjectAttribute(_, property, _) =>
                var v := item.props[entries[i].0];
                v.Obj? && property in v.obj.props && data[entries[i].1.name] == v.obj.props[property]
              case NestedItemAttribute(_, _) => false
    {
      SerializedAttribute(item, entries, nestedItems, host, i);
    }
  }

  /**
   * Serializing what `hydrateObject` built from a record, for a mapping of
   * plain attributes and value objects, gives back the record restricted to
   * the mapped attribute names.
   */
  lemma {:induction false} HydrateThenSerialize(className: string, entries: PropertiesMapping, data: map<string, Value>,
                                                nestedItems: map<string, NestedItem>, reader: map<string, NestedItem>, host: Host)
    requires forall i | 0 <= i < |entries| ::
      (entries[i].1.Attribute? && !entries[i].1.dateTimeRelated) || entries[i].1.NestedValueObjectAttribute?
    requires HasAttributes(entries, data)
    ensures HydrateAll(className, entries, data, reader, host).Ok?
    ensures var instance := HydrateAll(className, entries, data, reader, host).value;
      var r := SerializeAll(instance, entries, nestedItems, host);
      && r.Ok?
      && (forall k :: k in r.value.vals <==> k in Names(entries))
      && (forall k | k in r.value.vals :: k in data && r.value.vals[k] == data[k])
  {
    HydrateFailure(className, entries, data, reader, host);
    var instance := HydrateAll(className, entries, data, reader, host).value;
    HydratedObject(className, entries, data, reader, host);
    forall i | 0 <= i < |entries|
      ensures SerializeProperty(instance, entries[i].0, entries[i].1, nestedItems, host) == Ok(data[entries[i].1.name])
    {
    }
    SerializeFailure(instance, entries, nestedItems, host);
    SerializedKeys(instance, entries, nestedItems, host);
    SerializedValues(instance, entries, nestedItems, host);
    var values := SerializeAll(instance, entries, nestedItems, host).value.vals;
  }
}
