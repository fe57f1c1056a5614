/** JSON values of request bodies, with JavaScript's truthiness and the
    object spread `{ ...v }`. Numbers are integers; the floating-point
    representation and the key order of objects are not modelled. */
module JsonValues {
  import opened Wrappers
  import opened Text

  datatype Json =
    | JNull
    | JBool(b: bool)
    | JNum(n: int)
    | JStr(s: string)
    | JArr(items: seq<Json>)
    | JObj(fields: map<string, Json>)

  /** JavaScript's truthiness: `null`, `false`, `0` and `""` are falsy,
      every array and object is truthy. */
  predicate Truthy(j: Json) {
    match j
    case JNull => false
    case JBool(b) => b
    case JNum(n) => n != 0
    case JStr(s) => s != ""
    case JArr(_) => true
    case JObj(_) => true
  }

  /** A body key, absent or present: `undefined` is falsy too. */
  predicate TruthyKey(j: Option<Json>) {
    j.Some? && Truthy(j.value)
  }

  /** The elements of a sequence under their indices as property names. */
  function Indexed<X>(xs: seq<X>): (m: map<string, X>)
    ensures forall i :: 0 <= i < |xs| ==> NatToString(i) in m && m[NatToString(i)] == xs[i]
    ensures forall k :: k in m ==> exists i :: 0 <= i < |xs| && k == NatToString(i)
  {
    map i | 0 <= i < |xs| :: NatToString(i) := xs[i]
  }

  /** The characters of a string, each as a one-character string. */
  function Chars(s: string): (cs: seq<Json>)
    ensures |cs| == |s| && forall i :: 0 <= i < |s| ==> cs[i] == JStr([s[i]])
  {
    seq(|s|, i requires 0 <= i < |s| => JStr([s[i]]))
  }

  /** The own enumerable properties `{ ...v }` copies: an object's fields,
      the elements of an array and the characters of a string under their
      indices, nothing for `null`, booleans and numbers. */
  function Spread(j: Json): (m: map<string, Json>)
    ensures j.JObj? ==> m == j.fields
    ensures j.JArr? ==> m == Indexed(j.items)
    ensures j.JStr? ==> m == Indexed(Chars(j.s))
    ensures j.JNull? || j.JBool? || j.JNum? ==> m == map[]
  {
    match j
    case JObj(fields) => fields
    case JArr(items) => Indexed(items)
    case JStr(s) => Indexed(Chars(s))
    case _ => map[]
  }

  /** Spreading an array or a string gives exactly its indices as keys, each
      holding the element or the one-character string at that index. */
  lemma SpreadIndices(j: Json)
    ensures j.JArr? ==> forall i :: 0 <= i < |j.items| ==> NatToString(i) in Spread(j) && Spread(j)[NatToString(i)] == j.items[i]
    ensures j.JArr? ==> forall k :: k in Spread(j) ==> exists i :: 0 <= i < |j.items| && k == NatToString(i)
    ensures j.JStr? ==> forall i :: 0 <= i < |j.s| ==> NatToString(i) in Spread(j) && Spread(j)[NatToString(i)] == JStr([j.s[i]])
    ensures j.JStr? ==> forall k :: k in Spread(j) ==> exists i :: 0 <= i < |j.s| && k == NatToString(i)
  {
    if j.JStr? {
      var cs := Chars(j.s);
      assert Spread(j) == Indexed(cs);
    }
  }
}
