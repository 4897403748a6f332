/** A parsed JSON value as Python holds it: dictionaries remember insertion order. */
module Json {

  datatype Number = Int(i: int) | Finite(r: real) | NonFinite

  datatype Json =
    | Null
    | Bool(b: bool)
    | Num(n: Number)
    | Str(s: string)
    | Arr(items: seq<Json>)
    | Obj(dict: Dict)

  datatype Dict = Dict(order: seq<string>, entries: map<string, Json>) {

    /** `d.get(key)`: a missing key and a JSON null are the same `None`. */
    function Get(key: string): Json {
      if key in entries then entries[key] else Null
    }

    /** `d[key] = value`: a known key keeps its place, a new key goes last. */
    function Set(key: string, value: Json): (d: Dict)
      ensures d.Get(key) == value
      ensures forall k :: k != key ==> d.Get(k) == Get(k)
    {
      Dict(if key in entries then order else order + [key], entries[key := value])
    }

    lemma {:induction false} SetSame(key: string)
      requires key in entries
      ensures Set(key, entries[key]) == this
    {
    }
  }

  const EMPTY := Dict([], map[])
}
