/**
 * The PHP values the serializer moves around: scalars, lists, objects seen
 * through reflection as a map from property name to value, and the ordered
 * string-keyed array that `serialize` fills.
 */
module PhpValues {

  datatype Option<+T> = None | Some(value: T)

  /** A PHP value. Objects (including date-time objects) are `Obj`. */
  datatype Value =
    | Null
    | Bool(b: bool)
    | Int(i: int)
    | Str(s: string)
    | List(items: seq<Value>)
    | Obj(obj: Object)

  /**
   * An object of class `cls`. A property is present in `props` when it is
   * initialised; an instance made without its constructor starts empty.
   */
  datatype Object = Object(cls: string, props: map<string, Value>)

  /**
   * A PHP array with string keys: the keys in insertion order and the value
   * stored under each.
   */
  datatype Record = Record(keys: seq<string>, vals: map<string, Value>) {
    ghost predicate Valid() {
      && (forall i, j | 0 <= i < j < |keys| :: keys[i] != keys[j])
      && (forall k :: k in vals <==> k in keys)
    }
  }

  const EmptyRecord := Record([], map[])

  /**
   * `$array[$k] = $v`: an existing key keeps its position and gets the new
   * value; a new key goes to the end.
   */
  function Put(r: Record, k: string, v: Value): (r': Record)
    ensures r.Valid() ==> r'.Valid()
    ensures k in r'.vals && r'.vals[k] == v
    ensures r'.keys == if k in r.vals then r.keys else r.keys + [k]
  {
    if k in r.vals then Record(r.keys, r.vals[k := v])
    else Record(r.keys + [k], r.vals[k := v])
  }

  /** `Put` leaves every other key as it was: present or absent, with the same value. */
  lemma PutKeepsOtherKeys(r: Record, k: string, v: Value, k': string)
    requires k' != k
    ensures k' in Put(r, k, v).vals <==> k' in r.vals
    ensures k' in r.vals ==> Put(r, k, v).vals[k'] == r.vals[k']
  {
  }

  /** The position of the first occurrence of `x` in `s`, or `|s|` when there is none. */
  function FirstIndex<T(==)>(s: seq<T>, x: T): (r: nat)
    ensures r <= |s|
    ensures r < |s| <==> x in s
    ensures r < |s| ==> s[r] == x
    ensures forall j | 0 <= j < r :: s[j] != x
  {
    if s == [] then 0
    else if s[0] == x then 0
    else 1 + FirstIndex(s[1..], x)
  }

  /** The position of the last occurrence of `x` in `s`, or -1 when there is none. */
  function LastIndex<T(==)>(s: seq<T>, x: T): (r: int)
    ensures -1 <= r < |s|
    ensures 0 <= r <==> x in s
    ensures 0 <= r ==> s[r] == x
    ensures forall j | r < j < |s| :: s[j] != x
  {
    if s == [] then -1
    else if s[|s| - 1] == x then |s| - 1
    else LastIndex(s[..|s| - 1], x)
  }

  /** Appending after the first occurrence of `x` does not move it. */
  lemma FirstIndexAppend<T>(s: seq<T>, t: seq<T>, x: T)
    requires x in s
    ensures FirstIndex(s + t, x) == FirstIndex(s, x)
  {
    var r, r' := FirstIndex(s, x), FirstIndex(s + t, x);
    assert (s + t)[r] == x;
    if r' < r {
      assert s[r'] == x;
    }
  }
}
