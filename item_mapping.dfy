/**
 * `ItemMapping`: the per-class metadata, immutable once built. Its fields are
 * set by the constructor only, and every accessor reads them.
 */
module Mapping {
  import opened PhpValues
  import opened Configuration

  /** A primary-key component: the property holding it and its key format. */
  datatype Key = Key(property: string, keyFormat: string)

  /** Property names are the keys of a PHP array, so no two entries share one. */
  predicate UniqueProperties(entries: seq<(string, AttributeInterface)>) {
    forall i, j | 0 <= i < j < |entries| :: entries[i].0 != entries[j].0
  }

  /** The ordered map from property name to descriptor. */
  type PropertiesMapping = entries: seq<(string, AttributeInterface)> | UniqueProperties(entries) witness []

  datatype ItemMapping = ItemMapping(
    item: Item,
    partitionKey: Key,
    propertiesMapping: PropertiesMapping,
    sortKey: Option<Key> := None)
  {
    function GetObjectType(): string {
      item.objectType
    }

    function GetPartitionKeyProperty(): string {
      partitionKey.property
    }

    function GetPartitionKeyFormat(): string {
      partitionKey.keyFormat
    }

    function GetPropertiesMapping(): PropertiesMapping {
      propertiesMapping
    }

    function GetCustomItemRepositoryClass(): Option<string> {
      item.repositoryClass
    }

    /** Null exactly when the mapping has no sort key. */
    function GetSortKeyFormat(): (r: Option<string>)
      ensures r.None? <==> sortKey.None?
      ensures sortKey.Some? ==> r == Some(sortKey.value.keyFormat)
    {
      if sortKey.None? then None else Some(sortKey.value.keyFormat)
    }

    /** Null exactly when the mapping has no sort key. */
    function GetSortKeyProperty(): (r: Option<string>)
      ensures r.None? <==> sortKey.None?
      ensures sortKey.Some? ==> r == Some(sortKey.value.property)
    {
      if sortKey.None? then None else Some(sortKey.value.property)
    }
  }

  /** Every accessor gives back what the constructor was given, the properties map in its order. */
  lemma AccessorsReturnConstructorArguments(item: Item, partitionKey: Key, propertiesMapping: PropertiesMapping, sortKey: Option<Key>)
    ensures var m := ItemMapping(item, partitionKey, propertiesMapping, sortKey);
      && m.GetObjectType() == item.objectType
      && m.GetCustomItemRepositoryClass() == item.repositoryClass
      && m.GetPartitionKeyProperty() == partitionKey.property
      && m.GetPartitionKeyFormat() == partitionKey.keyFormat
      && m.GetPropertiesMapping() == propertiesMapping
      && (sortKey.None? ==> m.GetSortKeyFormat().None? && m.GetSortKeyProperty().None?)
      && (sortKey.Some? ==>
            m.GetSortKeyFormat() == Some(sortKey.value.keyFormat) && m.GetSortKeyProperty() == Some(sortKey.value.property))
  {
  }

  /**
   * Scenario: the `UserActivity` mapping, an instance of
   * `AccessorsReturnConstructorArguments`. Its keys and object type read back
   * as declared.
   */
  lemma UserActivityMapping(propertiesMapping: PropertiesMapping)
    ensures var m := ItemMapping(Item("USERACTIVITY", None), Key("pk", "USERACTIVITY#{userId}"),
                                 propertiesMapping, Some(Key("sk", "ACT#{activityId}")));
      && m.GetPartitionKeyFormat() == "USERACTIVITY#{userId}"
      && m.GetPartitionKeyProperty() == "pk"
      && m.GetSortKeyFormat() == Some("ACT#{activityId}")
      && m.GetSortKeyProperty() == Some("sk")
      && m.GetObjectType() == "USERACTIVITY"
  {
  }
}
