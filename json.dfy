/** JSON-shaped values as the route handlers see them in a parsed request
    body or query, with JavaScript's truthiness, and the payload object as an
    ordered list of (key, value) pairs in the order Object.keys reports. */
module Json {

  /** A value a request can carry or a stored document can hold.
      `Undefined` is what reading a missing key yields; `Date` only ever comes
      from the server's clock (timestamps are abstract natural numbers). */
  datatype Value =
    | Undefined
    | Null
    | Bool(b: bool)
    | Num(n: int)
    | Str(s: string)
    | Date(time: nat)

  /** JavaScript truthiness: `''`, `false`, `0`, `null` and `undefined` are falsy. */
  predicate Truthy(v: Value)
  {
    match v
    case Undefined => false
    case Null => false
    case Bool(b) => b
    case Num(n) => n != 0
    case Str(s) => s != ""
    case Date(_) => true
  }

  /** A parsed object: its own properties in enumeration order. */
  type Payload = seq<(string, Value)>

  /** A stored document: field name to value. */
  type Record = map<string, Value>

  /** A JavaScript object never holds the same key twice. */
  ghost predicate UniqueKeys(p: Payload)
  {
    forall i, j :: 0 <= i < j < |p| ==> p[i].0 != p[j].0
  }

  /** `Object.keys(p)` */
  function Keys(p: Payload): (ks: seq<string>)
    ensures |ks| == |p|
    ensures forall i :: 0 <= i < |p| ==> ks[i] == p[i].0
  {
    seq(|p|, i requires 0 <= i < |p| => p[i].0)
  }

  /** `Object.values(p)` */
  function Values(p: Payload): (vs: seq<Value>)
    ensures |vs| == |p|
    ensures forall i :: 0 <= i < |p| ==> vs[i] == p[i].1
  {
    seq(|p|, i requires 0 <= i < |p| => p[i].1)
  }

  /** `p[k]`: the value stored under `k`, or `undefined` when there is none. */
  function Lookup(p: Payload, k: string): Value
  {
    if p == [] then Undefined
    else if p[0].0 == k then p[0].1
    else Lookup(p[1..], k)
  }

  /** In an object with distinct keys, reading the key at position `i`
      gives the value at position `i`. */
  lemma {:induction false} LookupAt(p: Payload, i: nat)
    requires UniqueKeys(p)
    requires i < |p|
    ensures Lookup(p, p[i].0) == p[i].1
  {
    if i > 0 {
      assert p[0].0 != p[i].0;
      assert p[1..][i - 1] == p[i];
      LookupAt(p[1..], i - 1);
    }
  }

  /** A defined value read from an object sits under that key at some position. */
  lemma {:induction false} LookupFound(p: Payload, k: string) returns (i: nat)
    requires Lookup(p, k) != Undefined
    ensures i < |p| && p[i].0 == k && p[i].1 == Lookup(p, k)
  {
    if p[0].0 == k {
      i := 0;
    } else {
      var j := LookupFound(p[1..], k);
      i := j + 1;
    }
  }
}
