# Dynamite item serializer: a Dafny model

Dynamite maps PHP domain objects to flat DynamoDB-style attribute arrays and back. This project models the two parts of it that do the conversion:

- **`ItemMapping`**: the immutable per-class metadata. It holds the `Item` annotation (object type and optional custom repository class), the partition key, the optional sort key, and the ordered properties mapping from property name to attribute descriptor.
- **`ItemSerializer`**: the conversion engine.
  - `serialize` walks the properties mapping in order and fills an array keyed by attribute name.
  - `hydrateObject` creates an instance without running its constructor and sets each mapped property from an array.

## Modules

- `php_values.dfy` (`PhpValues`): PHP values.
  - An object is its class name plus a map of its initialised properties. An instance made without its constructor starts with an empty map; declared default values are not modelled (see "## Left out").
  - The array that `serialize` returns is a `Record`: the keys in insertion order and the value under each. `Put` is `$array[$k] = $v`, where an existing key keeps its position.
- `configuration.dfy` (`Configuration`): the annotations.
  - `Item`.
  - The three descriptor kinds `Attribute`, `NestedValueObjectAttribute` and `NestedItemAttribute`, as one datatype `AttributeInterface`.
  - The `NestedItem` annotation with its optional serialize and deserialize method names.
- `item_mapping.dfy` (`Mapping`): `Key`, and `ItemMapping` as an immutable datatype with its accessors.
  - The properties mapping is a sequence of (property name, descriptor) pairs, which keeps the PHP array's order.
  - A subset type keeps property names unique, as the keys of a PHP array are.
- `item_serializer.dfy` (`Serializer`): the engine.
  - The specification functions:
    - `SerializeProperty` and `HydrateProperty`: one property's conversion.
    - `SerializeAll` and `HydrateAll`: the whole mapping in order, where the first failure aborts.
  - The class `ItemSerializer`:
    - Its `reader` stands for the injected annotation reader: the `NestedItem` annotation of each class, by class name.
    - Its methods `Serialize` and `HydrateObject` are the loops of the PHP code. `SerializeValue` is the body of `serialize`'s loop, split into its own method so that each proof about the loop stays small. Each method is proved equal to its specification function.
- `serializer_properties.dfy` (`SerializerProperties`): the properties of the two conversions.

## Errors

Every error aborts the whole call, with no partial array or object. `Error` has three kinds:
- `DynamiteException(message)`: the engine's own "not implemented yet" exceptions. Serialize throws one for a nested item without a serialize method, and hydrate throws one for a nested item without a deserialize method.
- `ReflectionException(property)`: reflection cannot read a property. The property is undeclared or uninitialised on the item, or a value object is not an object or lacks its inner property.
- `CallOnNonObject(subject)`: a method is called on null or on a non-object. This happens when a non-null date-time value is not an object, when a nested item's value is not an object, or when a nested-item configuration or annotation lookup yields null.

## Model

| member | source | states |
|---|---|---|
| `Mapping.AccessorsReturnConstructorArguments` | src/Dynamite/Mapping/ItemMapping.php:23-68 | The object type, repository class, partition key property and format, and properties map (in its order) that the accessors return are exactly what the constructor was given. |
| `Mapping.ItemMapping.GetSortKeyFormat` | src/Dynamite/Mapping/ItemMapping.php:70-77 | Null exactly when there is no sort key; otherwise the sort key's format. |
| `Mapping.ItemMapping.GetSortKeyProperty` | src/Dynamite/Mapping/ItemMapping.php:79-86 | Null exactly when there is no sort key; otherwise the sort key's property. |
| `Mapping.UserActivityMapping` | src/Dynamite/Tests/Mapping/ItemMappingReaderTest.php:53-71 | Scenario, an instance of `AccessorsReturnConstructorArguments` (the annotation reading the test goes through is not modelled): a mapping built with the `UserActivity` keys gives back 'USERACTIVITY#{userId}' / 'pk', 'ACT#{activityId}' / 'sk' and object type 'USERACTIVITY'. |
| `Serializer.SerializeAll` | src/Dynamite/ItemSerializer.php:26-74 | A successful serialization yields a well-formed array: its keys are distinct and are exactly the keys of its map. |
| `Serializer.SerializeErrorPersists` | src/Dynamite/ItemSerializer.php:61-70 | Once some entry of the mapping throws, later entries cannot change the outcome. The call fails with that error. |
| `Serializer.HydrateErrorPersists` | src/Dynamite/ItemSerializer.php:101-113 | Once some entry of the mapping throws during hydration, the whole hydration fails with that error. |
| `Serializer.ItemSerializer.constructor` | src/Dynamite/ItemSerializer.php:21-24 | The serializer keeps the annotation reader it is given. |
| `Serializer.ItemSerializer.SerializeValue` | src/Dynamite/ItemSerializer.php:31-70 | The per-property dispatch of the loop returns exactly the specified conversion of that property, or the specified error. |
| `Serializer.ItemSerializer.Serialize` | src/Dynamite/ItemSerializer.php:26-74 | The loop returns exactly the specified array, or the error of the first property that fails. |
| `Serializer.ItemSerializer.HydrateObject` | src/Dynamite/ItemSerializer.php:76-118 | The loop over a constructor-less instance returns exactly the specified object, or the error of the first nested item that fails. |
| `SerializerProperties.SerializeFailure` | src/Dynamite/ItemSerializer.php:30-70 | `serialize` fails if and only if some mapped property cannot be converted. It then fails with the error of the first such property in mapping order. |
| `SerializerProperties.SerializedKeys` | src/Dynamite/ItemSerializer.php:28-73 | On success, the array's keys are exactly the mapped attribute names, each once. They are ordered by where each name first appears in the mapping. |
| `SerializerProperties.SerializedValues` | src/Dynamite/ItemSerializer.php:30-72 | On success, every key holds the conversion of the last mapped property with that attribute name, so a later entry overwrites an earlier one. |
| `SerializerProperties.SerializedAttribute` | src/Dynamite/ItemSerializer.php:36-66 | What each kind stores under its attribute name. A plain attribute stores its value verbatim. A date-time stores null for null and otherwise the value formatted with the attribute's format. A value object stores its named inner property. A nested item stores the result of its configured serialize method. |
| `SerializerProperties.NestedItemWithoutSerializeMethod` | src/Dynamite/ItemSerializer.php:61-69 | A nested item with no configured serialize method makes `serialize` fail and return no array. If no earlier property failed, the error is the engine's "not implemented yet" exception. |
| `SerializerProperties.HydrateFailure` | src/Dynamite/ItemSerializer.php:101-113 | `hydrateObject` fails if and only if some nested item's class has no annotation, or an annotation without a deserialize method. It fails with the first such item's error: call on null, or the "not implemented yet" exception. |
| `SerializerProperties.HydrateSetsEachProperty` | src/Dynamite/ItemSerializer.php:78-115 | The hydrated object has the requested class and exactly the mapped properties set. Each property holds its own converted record value. |
| `SerializerProperties.HydratedObject` | src/Dynamite/ItemSerializer.php:84-112 | Every attribute, date-time or not, gets the raw record value without parsing. A value object gets a fresh instance whose only set property is the inner one, holding the record value. A nested item gets what its static deserialize method returns. |
| `SerializerProperties.SerializeThenHydrate` | src/Dynamite/ItemSerializer.php:36-98 | Take a mapping of attributes and value objects with distinct attribute names, and hydrate what `serialize` returned. Plain attributes get their values back, and value objects get their inner property back. Date-time attributes get null back for null, and otherwise the formatted text, not the original value. |
| `SerializerProperties.HydrateThenSerialize` | src/Dynamite/ItemSerializer.php:36-98 | Take a mapping of plain attributes and value objects, and serialize what `hydrateObject` built from a record. The result is the record restricted to the mapped attribute names. |

## Left out

- Reflection.
  - `ReflectionClass`, `setAccessible` and `newInstanceWithoutConstructor` are replaced by objects as maps of initialised properties.
  - Class declarations are not modelled. The model does not capture that `getProperty` throws for an undeclared property on the hydrated class or on a value-object class.
  - Typed-property checks are not modelled either. PHP rejects a value of the wrong type on `setValue`, for example the formatted date text written back into a `DateTimeInterface` property.
- HydrateSetsEachProperty / HydratedObject: default property values are not modelled. `newInstanceWithoutConstructor` sets a property with a declared default to that default, and an untyped property to null; the model starts the instance with no property set. So "exactly the mapped properties set" holds only for classes whose unmapped properties are typed and have no default.
- HydrateObject: a record that lacks a mapped attribute name is excluded by a precondition. PHP would emit a warning and read null.
- SerializeThenHydrate: says the date-time property gets the formatted text back. With a `DateTimeInterface`-typed property, PHP throws a `TypeError` at that write instead.
- The nested-items table.
  - `serialize` reads it through `getNestedItems()`, which `ItemMapping` does not define. It is the `nestedItems` parameter, keyed by property name.
  - The annotation lookup in `hydrateObject` uses the Doctrine `Reader`. It is the serializer's `reader` map, keyed by class name.
- Foreign calls.
  - `DateTimeInterface::format`, the dynamically named serialize method and the static deserialize method are uninterpreted functions of `Host`.
  - Any exceptions they raise themselves, and whether the named method exists, are not modelled.
- Error classes. PHP's `Error`, `TypeError` and `ReflectionException` classes are merged into the three `Error` kinds. The model keeps only that the call aborts and why.
- Behaviour the code does not have:
  - `hydrateObject` does not parse date-time attributes and does not convert them to immutable dates.
  - Neither direction supports collection-valued value objects, so there is no shape-mismatch error.
- `ItemMappingReader` (the annotation-driven builder of `ItemMapping`), `PartitionKeyFormat` and key-format placeholder substitution are not part of this model.
- Concurrency: the engine is synchronous and keeps no state between calls, so there is nothing to model.
