/**
 * The serialized form of tasks and payloads: the plain values a Python
 * `dict` built by `serialize()` can hold, and the `dict` itself as a map
 * from key strings to values.
 */
module Records {

  datatype Value =
    | Null
    | Bool(b: bool)
    | Int(i: int)
    | Str(s: string)
    | List(items: seq<Value>)
    | Dict(fields: Record)

  type Record = map<string, Value>

  /** A list all of whose elements are integers, such as a resolution `[1920, 1080]`. */
  predicate IsIntList(v: Value) {
    v.List? && forall k :: 0 <= k < |v.items| ==> v.items[k].Int?
  }

  /** The list value that stores `xs`. */
  function FromInts(xs: seq<int>): (v: Value)
    ensures IsIntList(v)
    ensures ToInts(v) == xs
  {
    List(seq(|xs|, k requires 0 <= k < |xs| => Int(xs[k])))
  }

  /** The integers stored in an integer list. */
  function ToInts(v: Value): (xs: seq<int>)
    requires IsIntList(v)
    ensures |xs| == |v.items|
    ensures forall k :: 0 <= k < |xs| ==> v.items[k] == Int(xs[k])
  {
    seq(|v.items|, k requires 0 <= k < |v.items| => v.items[k].i)
  }

  /** Reading an integer list back and storing it again gives the same value. */
  lemma FromToInts(v: Value)
    requires IsIntList(v)
    ensures FromInts(ToInts(v)) == v
  {
  }
}
