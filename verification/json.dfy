/** JavaScript values as `JSON.parse` produces them, together with the three
    operations the modelled code performs on them: truthiness tests, property
    reads (plain and optional-chained) and property assignment.

    An object is the sequence of its own properties in enumeration order
    (the order `Object.keys` reports); `undefined` is `None` wherever a read
    may miss. */
module JsValues {
  import opened Outcomes
  import Strings

  datatype Json =
    | JNull
    | JBool(b: bool)
    | JNum(n: real)
    | JStr(s: string)
    | JArr(items: seq<Json>)
    | JObj(fields: seq<Field>)

  datatype Field = Field(key: string, value: Json)

  /** JavaScript truthiness of a value that may be `undefined`: `undefined`,
      `null`, `false`, `0` and `""` are falsy; every array and object, even an
      empty one, is truthy. */
  predicate Truthy(v: Option<Json>) {
    match v
    case None => false
    case Some(JNull) => false
    case Some(JBool(b)) => b
    case Some(JNum(n)) => n != 0.0
    case Some(JStr(s)) => s != []
    case Some(_) => true
  }

  function Keys(fields: seq<Field>): (ks: seq<string>)
    ensures |ks| == |fields|
    ensures forall i :: 0 <= i < |fields| ==> ks[i] == fields[i].key
  {
    if fields == [] then [] else [fields[0].key] + Keys(fields[1..])
  }

  /** The value stored under `key`, or `None` (`undefined`) when absent. */
  function Lookup(fields: seq<Field>, key: string): (r: Option<Json>)
    ensures r.None? <==> key !in Keys(fields)
  {
    if fields == [] then None
    else if fields[0].key == key then Some(fields[0].value)
    else Lookup(fields[1..], key)
  }

  lemma {:induction false} LookupConcat(f1: seq<Field>, f2: seq<Field>, key: string)
    ensures Lookup(f1 + f2, key) == if key in Keys(f1) then Lookup(f1, key) else Lookup(f2, key)
    decreases |f1|
  {
    if f1 == [] {
      assert f1 + f2 == f2;
    } else {
      assert (f1 + f2)[1..] == f1[1..] + f2;
      assert Keys(f1) == [f1[0].key] + Keys(f1[1..]);
      LookupConcat(f1[1..], f2, key);
    }
  }

  /** The first property named `key` decides the read. */
  lemma {:induction false} LookupAt(fields: seq<Field>, i: nat, key: string)
    requires i < |fields| && fields[i].key == key
    requires forall j :: 0 <= j < i ==> fields[j].key != key
    ensures Lookup(fields, key) == Some(fields[i].value)
    decreases i
  {
    if i > 0 {
      LookupAt(fields[1..], i - 1, key);
    }
  }

  /** Optional-chained property read `v?.key`: a missing, `null` or non-object
      base yields `undefined`. (For the JSON values here, a plain read `v.key`
      on a non-null base gives the same value.) */
  function Member(v: Option<Json>, key: string): (r: Option<Json>)
    ensures v.Some? && v.value.JObj? ==> r == Lookup(v.value.fields, key)
    ensures !(v.Some? && v.value.JObj?) ==> r.None?
  {
    match v
    case Some(JObj(fields)) => Lookup(fields, key)
    case _ => None
  }

  /** Property assignment `obj[key] = value`: an existing property keeps its
      position and takes the new value; a new property is appended. */
  function Put(fields: seq<Field>, key: string, value: Json): (r: seq<Field>)
    ensures Lookup(r, key) == Some(value)
    ensures forall k :: k != key ==> Lookup(r, k) == Lookup(fields, k)
  {
    if fields == [] then [Field(key, value)]
    else if fields[0].key == key then [Field(key, value)] + fields[1..]
    else [fields[0]] + Put(fields[1..], key, value)
  }

  /** Assigning a property the object does not have appends it. */
  lemma {:induction false} PutFresh(fields: seq<Field>, key: string, value: Json)
    requires key !in Keys(fields)
    ensures Put(fields, key, value) == fields + [Field(key, value)]
    decreases |fields|
  {
    if fields != [] {
      assert Keys(fields) == [fields[0].key] + Keys(fields[1..]);
      assert fields[0].key != key;
      PutFresh(fields[1..], key, value);
      ConsAppend(fields, Field(key, value));
    }
  }

  lemma ConsAppend<T>(xs: seq<T>, x: T)
    requires xs != []
    ensures xs + [x] == [xs[0]] + (xs[1..] + [x])
  {
  }

  lemma UpdateBehindHead<T>(xs: seq<T>, i: nat, x: T)
    requires 0 < i < |xs|
    ensures xs[i := x] == [xs[0]] + xs[1..][i - 1 := x]
  {
  }

  /** Assigning an existing property overwrites its first occurrence in place. */
  lemma {:induction false} PutExisting(fields: seq<Field>, i: nat, key: string, value: Json)
    requires i < |fields| && fields[i].key == key
    requires forall j :: 0 <= j < i ==> fields[j].key != key
    ensures Put(fields, key, value) == fields[i := Field(key, value)]
    decreases i
  {
    var updated := fields[i := Field(key, value)];
    if i > 0 {
      PutExisting(fields[1..], i - 1, key, value);
      assert Put(fields, key, value) == [fields[0]] + Put(fields[1..], key, value);
      UpdateBehindHead(fields, i, Field(key, value));
    } else {
      assert updated == [Field(key, value)] + fields[1..];
    }
  }

  /** Property deletion `delete obj[key]` (every property of that name). */
  function Remove(fields: seq<Field>, key: string): (r: seq<Field>)
    ensures Lookup(r, key).None?
    ensures forall k :: k != key ==> Lookup(r, k) == Lookup(fields, k)
  {
    if fields == [] then []
    else if fields[0].key == key then Remove(fields[1..], key)
    else [fields[0]] + Remove(fields[1..], key)
  }

  /** `String(v)`. Number formatting is floating-point printing and is passed
      in as `numberText`. */
  function Text(v: Json, numberText: real -> string): string {
    match v
    case JNull => "null"
    case JBool(b) => if b then "true" else "false"
    case JNum(n) => numberText(n)
    case JStr(s) => s
    case JArr(items) => Strings.Join(ElementTexts(items, numberText), ",")
    case JObj(_) => "[object Object]"
  }

  /** Array elements as `Array.prototype.join` renders them: `null` as "". */
  function ElementTexts(items: seq<Json>, numberText: real -> string): (r: seq<string>)
    ensures |r| == |items|
  {
    if items == [] then []
    else [if items[0].JNull? then "" else Text(items[0], numberText)] + ElementTexts(items[1..], numberText)
  }

  /** `String(v)` for a value that may be `undefined`. */
  function OptText(v: Option<Json>, numberText: real -> string): string {
    match v
    case None => "undefined"
    case Some(j) => Text(j, numberText)
  }
}
