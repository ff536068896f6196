/**
 * The annotation values the conversion engine consumes: the `Item`
 * annotation of a mapped class, the three attribute descriptors a property
 * can carry, and the `NestedItem` annotation of a delegated class.
 */
module Configuration {
  import opened PhpValues

  /** The `Item` class annotation: the object type tag and an optional custom repository class. */
  datatype Item = Item(objectType: string, repositoryClass: Option<string>)

  /**
   * A property's descriptor. Every kind names the record attribute it is
   * stored under.
   * - `Attribute`: the value itself, or a date-time formatted with `format`.
   * - `NestedValueObjectAttribute`: one inner `property` of a value object of
   *   class `className`.
   * - `NestedItemAttribute`: conversion delegated to methods named by the
   *   `NestedItem` annotation of class `className`.
   */
  datatype AttributeInterface =
    | Attribute(name: string, dateTimeRelated: bool, format: string)
    | NestedValueObjectAttribute(name: string, property: string, className: string)
    | NestedItemAttribute(name: string, className: string)

  /** The `NestedItem` annotation: the instance serialize method and the static deserialize method, each optional. */
  datatype NestedItem = NestedItem(serializeMethod: Option<string>, deserializeMethod: Option<string>)
}
