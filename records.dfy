/**
 * JSON records as the crawlers and the analyzer exchange them: an object whose
 * values are strings, or some other JSON value where an object was expected.
 */
module Records {
  import opened Wrappers

  type Record = map<string, string>

  /** An element of a JSON list: an object, or any non-object value. */
  datatype Item = Dict(fields: Record) | NonDict

  /** `record.get(key)`. */
  function Get(r: Record, key: string): (v: Option<string>)
    ensures v.Some? <==> key in r
    ensures v.Some? ==> v.value == r[key]
  {
    if key in r then Some(r[key]) else None
  }

  /** `record.get(key, default)`. */
  function GetOr(r: Record, key: string, default: string): (v: string)
    ensures key in r ==> v == r[key]
    ensures key !in r ==> v == default
  {
    if key in r then r[key] else default
  }

  /** The object elements of a JSON list, in order. */
  function Dicts(xs: seq<Item>): (ds: seq<Record>)
    ensures |ds| <= |xs|
  {
    if xs == [] then []
    else
      var rest := Dicts(xs[1..]);
      match xs[0]
      case Dict(r) => [r] + rest
      case NonDict => rest
  }

  /** `Dicts` keeps every object of the list and nothing else. */
  lemma {:induction false} DictsMembers(xs: seq<Item>)
    ensures forall r :: r in Dicts(xs) <==> Dict(r) in xs
  {
    if xs != [] {
      DictsMembers(xs[1..]);
      assert forall r :: Dict(r) in xs <==> Dict(r) == xs[0] || Dict(r) in xs[1..];
    }
  }
}
