/**
 * JSON values as `JSON.parse` produces them, and the few JavaScript operations
 * on them that the configuration code relies on: truthiness, `typeof`,
 * property access and object spread (`{ ...v }`).
 */
module Json {
  import opened Wrappers

  /** A parsed JSON value. Numbers are modelled as integers. */
  datatype Value =
    | Null
    | Bool(b: bool)
    | Num(n: int)
    | Str(s: string)
    | Arr(items: seq<Value>)
    | Obj(fields: map<string, Value>)

  /** JavaScript truthiness: `null`, `false`, `0` and `""` are falsy. */
  predicate Truthy(v: Value) {
    match v
    case Null => false
    case Bool(b) => b
    case Num(n) => n != 0
    case Str(s) => s != ""
    case Arr(_) => true
    case Obj(_) => true
  }

  /** `typeof v === "object"`, which holds for `null` and arrays too. */
  predicate IsObjectType(v: Value) {
    v.Null? || v.Arr? || v.Obj?
  }

  /**
   * `v.key` for a key that names no array index and no built-in property of
   * strings or arrays (the code only reads `mcpServers`). On `null` the access
   * throws; callers test for `Null` first, and here it yields `None`.
   */
  function Property(v: Value, key: string): Option<Value> {
    if v.Obj? && key in v.fields then Some(v.fields[key]) else None
  }

  /** The decimal digit `d` as a character. */
  function Digit(d: nat): (c: char)
    requires d < 10
    ensures c as int == '0' as int + d
  {
    ('0' as int + d) as char
  }

  /** The property key of array index `n`: its decimal numeral. */
  function IndexKey(n: nat): (k: string)
    ensures |k| >= 1
  {
    if n < 10 then [Digit(n)] else IndexKey(n / 10) + [Digit(n % 10)]
  }

  /** Distinct indices have distinct property keys. */
  lemma {:induction false} IndexKeyInjective(a: nat, b: nat)
    requires IndexKey(a) == IndexKey(b)
    ensures a == b
    decreases a
  {
    if a < 10 && b < 10 {
      assert Digit(a) == IndexKey(a)[0] == IndexKey(b)[0] == Digit(b);
    } else if 10 <= a && 10 <= b {
      var ka, kb := IndexKey(a / 10), IndexKey(b / 10);
      assert IndexKey(a) == ka + [Digit(a % 10)];
      assert IndexKey(b) == kb + [Digit(b % 10)];
      assert |ka| == |kb|;
      assert ka == IndexKey(a)[..|ka|] == IndexKey(b)[..|kb|] == kb;
      assert Digit(a % 10) == IndexKey(a)[|ka|] == IndexKey(b)[|kb|] == Digit(b % 10);
      IndexKeyInjective(a / 10, b / 10);
    }
    // With one index below 10 and the other not, the keys differ in length.
  }

  /** The key of index `n` is not the key of any smaller index. */
  lemma IndexKeyFresh(n: nat)
    ensures forall i :: 0 <= i < n ==> IndexKey(i) != IndexKey(n)
  {
    forall i | 0 <= i < n
      ensures IndexKey(i) != IndexKey(n)
    {
      if IndexKey(i) == IndexKey(n) {
        IndexKeyInjective(i, n);
      }
    }
  }

  /**
   * The own enumerable properties of an array with these elements: index `i`
   * under the key `IndexKey(i)`, and nothing else.
   */
  function Indexed(items: seq<Value>): (m: map<string, Value>)
    ensures forall i :: 0 <= i < |items| ==> IndexKey(i) in m && m[IndexKey(i)] == items[i]
    ensures forall k :: k in m ==> exists i :: 0 <= i < |items| && k == IndexKey(i)
    decreases |items|
  {
    if items == [] then map[]
    else
      var n := |items| - 1;
      IndexKeyFresh(n);
      Indexed(items[..n])[IndexKey(n) := items[n]]
  }

  /** The characters of a string, each as a one-character string. */
  function Chars(s: string): (cs: seq<Value>)
    ensures |cs| == |s|
    ensures forall i :: 0 <= i < |s| ==> cs[i] == Str([s[i]])
  {
    seq(|s|, i requires 0 <= i < |s| => Str([s[i]]))
  }

  /**
   * The properties `{ ...v }` copies: the fields of an object, the elements of
   * an array or the characters of a string under their index keys, and nothing
   * for `null`, booleans and numbers.
   */
  function Spread(v: Value): map<string, Value> {
    match v
    case Obj(fields) => fields
    case Arr(items) => Indexed(items)
    case Str(s) => Indexed(Chars(s))
    case _ => map[]
  }

  /** `{ ...o }` where `o` may be `undefined`, which spreads nothing. */
  function SpreadOf(o: Option<Value>): map<string, Value> {
    if o.Some? then Spread(o.value) else map[]
  }
}
