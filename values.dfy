/** Python-shaped values shared by every component: optional and failing
    results, the dynamically typed values that provider records and graph
    properties hold, dictionary reads, truthiness and the string helpers the
    rules and the extension lookup use. */
module Values {

  datatype Option<+T> = None | Some(value: T)

  /** The exceptions the modelled code can raise or report. */
  datatype Error =
    | KeyError(key: string)
    | TypeError
    | AttributeError
    | ValueError(message: string)
    | StoreError

  datatype Result<+T> = Ok(value: T) | Err(error: Error)

  /** A dynamically typed value: what a provider dictionary or a graph
      property can hold. `Null` is Python's None and Cypher's null. */
  datatype Value =
    | Null
    | Bool(b: bool)
    | Int(i: int)
    | Str(s: string)
    | List(items: seq<Value>)
    | Dict(entries: map<string, Value>)

  /** A flat record with string keys, as a Python dict. */
  type Record = map<string, Value>

  /** `d.get(k)`: the stored value, or None when the key is absent. */
  function Get(d: Record, k: string): (v: Value)
    ensures k !in d ==> v == Null
    ensures k in d ==> v == d[k]
  {
    if k in d then d[k] else Null
  }

  /** `d.get(k, default)`. */
  function GetOr(d: Record, k: string, default: Value): (v: Value)
    ensures k !in d ==> v == default
    ensures k in d ==> v == d[k]
  {
    if k in d then d[k] else default
  }

  /** Python truthiness: None, False, 0, "" and empty containers are false. */
  predicate Truthy(v: Value) {
    match v
    case Null => false
    case Bool(b) => b
    case Int(i) => i != 0
    case Str(s) => s != ""
    case List(xs) => xs != []
    case Dict(m) => m != map[]
  }

  /** What a `for x in v` loop visits when every visited element must then be
      used as a dictionary: the elements of a list; nothing for an empty
      string or dictionary; and a raise for anything else (a number or None is
      not iterable, and the elements of a non-empty string or dictionary are
      strings, on which the loop body's `.get` or `[...]` raises). */
  function Elements(v: Value): (r: Result<seq<Value>>)
    ensures v.List? ==> r == Ok(v.items)
    ensures r.Ok? && !v.List? ==> r.value == []
  {
    match v
    case List(xs) => Ok(xs)
    case Str(s) => if s == "" then Ok([]) else Err(TypeError)
    case Dict(m) => if m == map[] then Ok([]) else Err(AttributeError)
    case _ => Err(TypeError)
  }

  /** ASCII lower-casing of one character. */
  function LowerChar(c: char): char {
    if 'A' <= c <= 'Z' then (c as int - 'A' as int + 'a' as int) as char else c
  }

  /** `s.lower()`, restricted to ASCII letters. */
  function Lower(s: string): string {
    if s == [] then [] else [LowerChar(s[0])] + Lower(s[1..])
  }

  /** Lowering keeps the length and works character by character. */
  lemma {:induction false} LowerMeaning(s: string)
    ensures |Lower(s)| == |s|
    ensures forall i :: 0 <= i < |s| ==> Lower(s)[i] == LowerChar(s[i])
  {
    if s != [] {
      LowerMeaning(s[1..]);
    }
  }

  /** `needle in hay` for strings (Cypher's CONTAINS), computed by trying
      every start position in turn. */
  predicate Contains(hay: string, needle: string)
    decreases |hay|
  {
    if |needle| > |hay| then false
    else hay[..|needle|] == needle || (hay != [] && Contains(hay[1..], needle))
  }

  /** The declarative meaning of Contains: some window of `hay` is `needle`. */
  ghost predicate OccursAt(hay: string, needle: string, k: int) {
    0 <= k && k + |needle| <= |hay| && hay[k..k + |needle|] == needle
  }

  lemma {:induction false} ContainsIffOccurs(hay: string, needle: string)
    ensures Contains(hay, needle) <==> exists k :: OccursAt(hay, needle, k)
    decreases |hay|
  {
    if |needle| > |hay| {
      assert forall k :: !OccursAt(hay, needle, k);
    } else if hay[..|needle|] == needle {
      assert OccursAt(hay, needle, 0);
    } else {
      ContainsIffOccurs(hay[1..], needle);
      forall k | OccursAt(hay, needle, k) ensures OccursAt(hay[1..], needle, k - 1) {
        assert k != 0;
        assert hay[1..][k - 1..k - 1 + |needle|] == hay[k..k + |needle|];
      }
      forall k | OccursAt(hay[1..], needle, k) ensures OccursAt(hay, needle, k + 1) {
        assert hay[1..][k..k + |needle|] == hay[k + 1..k + 1 + |needle|];
      }
    }
  }

  /** The number of elements of `xs` equal to `x`. */
  function Count<T(==)>(xs: seq<T>, x: T): (n: nat)
    ensures n <= |xs|
    ensures n == 0 <==> x !in xs
  {
    if xs == [] then 0 else (if xs[0] == x then 1 else 0) + Count(xs[1..], x)
  }

  /** The elements of a sequence are pairwise distinct. */
  predicate Distinct<T(==)>(xs: seq<T>) {
    forall i, j :: 0 <= i < j < |xs| ==> xs[i] != xs[j]
  }
}
