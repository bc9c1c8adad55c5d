/** The JavaScript values the pipeline handles: numbers, the property values of a row,
    plain objects as ordered key/value lists, exceptions, and the parts of the platform
    (date parsing, number parsing and formatting) that the model takes as parameters. */
module Js {
  import opened Dates

  datatype Option<+T> = None | Some(value: T)

  /** A JavaScript number: NaN or a finite value. Finite values are exact reals; the
      binary rounding of IEEE doubles is not modelled. */
  datatype Number = NaN | Fin(r: real)

  /** A property value of a row: `undefined`, a string, or a number. */
  datatype Value = Undefined | Str(s: string) | Num(n: Number)

  /** The only exception the core can raise. */
  datatype JsError = TypeError

  /** The result of a computation that may throw. */
  datatype Outcome<+T> = Completed(value: T) | Thrown(error: JsError)

  /** One own property of a plain object. */
  datatype Entry<+V> = Entry(key: string, value: V)

  /** A plain object as its own string-keyed properties in insertion order, which is
      the order `Object.keys`, `Object.values`, `Object.entries` and `JSON.stringify`
      follow. */
  type Row = seq<Entry<Value>>

  /** An object used as a dictionary from category name to accumulated number. */
  type Dict = seq<Entry<Number>>

  /** The platform operations the core calls but does not define.
      - parseDate: `new Date(v)` on a defined value, or None for an Invalid Date;
      - parseNumber: `Number(s)` on a string;
      - round2: `+x.toFixed(2)` on a finite number;
      - numberText: the text `String(x)` gives a finite number. */
  datatype Platform = Platform(
    parseDate: Value -> Option<DateTime>,
    parseNumber: string -> Number,
    round2: real -> real,
    numberText: real -> string)

  function Keys<V>(d: seq<Entry<V>>): (ks: seq<string>)
    ensures |ks| == |d|
    ensures forall i :: 0 <= i < |d| ==> ks[i] == d[i].key
  {
    if d == [] then [] else [d[0].key] + Keys(d[1..])
  }

  /** No key occurs twice, as in any JavaScript object. */
  predicate DistinctKeys<V>(d: seq<Entry<V>>) {
    forall i, j :: 0 <= i < j < |d| ==> d[i].key != d[j].key
  }

  /** Property lookup `d[k]`: the value of the first entry with key `k`. */
  function Get<V>(d: seq<Entry<V>>, k: string): (r: Option<V>)
  {
    if d == [] then None
    else if d[0].key == k then Some(d[0].value)
    else
      Get(d[1..], k)
  }

  /** Property assignment `d[k] = v`: afterwards `k` reads `v` and every other key reads
      what it read before. */
  function Put<V>(d: seq<Entry<V>>, k: string, v: V): (r: seq<Entry<V>>)
    ensures forall k' :: Get(r, k') == if k' == k then Some(v) else Get(d, k')
  {
    if d == [] then [Entry(k, v)]
    else if d[0].key == k then [Entry(k, v)] + d[1..]
    else [d[0]] + Put(d[1..], k, v)
  }

  /** The key order after an assignment to `k`: unchanged when `k` is present, `k`
      appended otherwise. */
  function WithKey(ks: seq<string>, k: string): seq<string> {
    if k in ks then ks else ks + [k]
  }

  /** An existing key keeps its position and a new key is appended at the end. */
  lemma {:induction false} PutKeys<V>(d: seq<Entry<V>>, k: string, v: V)
    ensures Keys(Put(d, k, v)) == WithKey(Keys(d), k)
  {
    KeyPresent(d, k);
    if d != [] && d[0].key != k {
      PutKeys(d[1..], k, v);
      KeyPresent(d[1..], k);
      assert Keys(Put(d, k, v)) == [d[0].key] + Keys(Put(d[1..], k, v));
      assert Keys(d) == [d[0].key] + Keys(d[1..]);
    } else if d != [] {
      assert Keys(Put(d, k, v)) == [k] + Keys(d[1..]);
      assert Keys(d) == [k] + Keys(d[1..]);
    }
  }

  /** A second assignment to the same key overwrites the first in place. */
  lemma {:induction false} PutTwice<V>(d: seq<Entry<V>>, k: string, a: V, b: V)
    ensures Put(Put(d, k, a), k, b) == Put(d, k, b)
  {
    if d != [] && d[0].key != k {
      PutTwice(d[1..], k, a, b);
      assert Put(d, k, a) == [d[0]] + Put(d[1..], k, a);
      assert Put(d, k, a)[1..] == Put(d[1..], k, a);
    }
  }

  /** Assignment never duplicates a key. */
  lemma PutDistinct<V>(d: seq<Entry<V>>, k: string, v: V)
    requires DistinctKeys(d)
    ensures DistinctKeys(Put(d, k, v))
  {
    PutKeys(d, k, v);
    var ks := Keys(Put(d, k, v));
    assert forall i :: 0 <= i < |ks| ==> ks[i] == Put(d, k, v)[i].key;
  }

  /** A lookup succeeds exactly for the keys present. */
  lemma KeyPresent<V>(d: seq<Entry<V>>, k: string)
    ensures Get(d, k).Some? <==> k in Keys(d)
  {
    if d != [] {
      KeyPresent(d[1..], k);
    }
  }

  /** Reading a property of a row: a missing key reads as `undefined`. */
  function Field(row: Row, k: string): Value {
    var g := Get(row, k);
    if g.Some? then g.value else Undefined
  }

  /** After `row[k] = v`, field `k` reads `v` and every other field is unchanged. */
  lemma FieldPut(row: Row, k: string, v: Value, k': string)
    ensures Field(Put(row, k, v), k') == if k' == k then v else Field(row, k')
  {
  }

  /** JavaScript truthiness: `undefined`, `""`, `0` and NaN are falsy. */
  predicate Truthy(v: Value) {
    match v
    case Undefined => false
    case Str(s) => s != ""
    case Num(n) => n.Fin? && n.r != 0.0
  }

  /** `Number(v)`: `undefined` gives NaN, a number is itself, a string is parsed. */
  function ToNumber(v: Value, p: Platform): Number {
    match v
    case Undefined => NaN
    case Str(s) => p.parseNumber(s)
    case Num(n) => n
  }

  /** `n <= 0`, which is false for NaN. */
  predicate AtMostZero(n: Number) {
    n.Fin? && n.r <= 0.0
  }

  /** `a + b` on numbers: NaN absorbs. */
  function Add(a: Number, b: Number): (c: Number)
    ensures c.NaN? <==> a.NaN? || b.NaN?
    ensures c.Fin? ==> c.r == a.r + b.r
  {
    if a.Fin? && b.Fin? then Fin(a.r + b.r) else NaN
  }

  /** `(x || 0)` for a dictionary read: `undefined` and the falsy numbers NaN and 0 give 0. */
  function OrZero(x: Option<Number>): (n: Number)
    ensures n.Fin?
    ensures x.Some? && x.value.Fin? ==> n == x.value
    ensures x.None? || x.value.NaN? ==> n == Fin(0.0)
  {
    if x.Some? && x.value.Fin? then x.value else Fin(0.0)
  }
}
