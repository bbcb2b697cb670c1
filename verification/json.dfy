/**
 * JSON values as the structured-data builders produce them. An object is
 * a list of fields in insertion order. An object literal with a spread
 * (`{ a, b, ...data }`) writes the spread fields one after another: a key
 * that is already present keeps its place and takes the new value, and a
 * new key is appended. When an object is enumerated (OrdinaryOwnPropertyKeys
 * in the ECMAScript specification, which `JSON.stringify` follows), keys
 * that are array indices come first, in ascending numeric order, and all
 * other keys follow in insertion order.
 */
module Json {
  import opened Wrappers

  datatype Value =
    | JString(str: string)
    | JInt(num: int)
    | JBool(flag: bool)
    | JArray(items: seq<Value>)
    | JObject(fields: seq<Field>)

  datatype Field = Field(key: string, value: Value)

  /** The keys of an object, in order. */
  function Keys(fs: seq<Field>): (ks: seq<string>)
    ensures |ks| == |fs|
    ensures forall i :: 0 <= i < |fs| ==> ks[i] == fs[i].key
  {
    if |fs| == 0 then [] else [fs[0].key] + Keys(fs[1..])
  }

  /** The value stored under `k`: the first binding, as property access sees it. */
  function Lookup(fs: seq<Field>, k: string): (r: Option<Value>)
    ensures r.None? <==> k !in Keys(fs)
  {
    if |fs| == 0 then None
    else if fs[0].key == k then Some(fs[0].value)
    else Lookup(fs[1..], k)
  }

  /** The value of the last binding of `k`, the one an object literal keeps. */
  function LastLookup(fs: seq<Field>, k: string): (r: Option<Value>)
    ensures r.None? <==> k !in Keys(fs)
  {
    if |fs| == 0 then None
    else if fs[|fs| - 1].key == k then Some(fs[|fs| - 1].value)
    else
      assert Keys(fs) == Keys(fs[..|fs| - 1]) + [fs[|fs| - 1].key];
      LastLookup(fs[..|fs| - 1], k)
  }

  /** Writing one property: replace the value in place, or append a new field. */
  function Put(fs: seq<Field>, k: string, v: Value): (r: seq<Field>)
    ensures k in Keys(fs) ==> Keys(r) == Keys(fs)
    ensures k !in Keys(fs) ==> Keys(r) == Keys(fs) + [k]
  {
    if |fs| == 0 then [Field(k, v)]
    else if fs[0].key == k then [Field(k, v)] + fs[1..]
    else [fs[0]] + Put(fs[1..], k, v)
  }

  /** After writing `k`, reading `k` gives the new value and reading any other key is unchanged. */
  lemma {:induction false} PutLookup(fs: seq<Field>, k: string, v: Value, k': string)
    ensures Lookup(Put(fs, k, v), k') == if k' == k then Some(v) else Lookup(fs, k')
    decreases |fs|
  {
    if |fs| > 0 && fs[0].key != k {
      var r := Put(fs, k, v);
      assert r[0] == fs[0] && r[1..] == Put(fs[1..], k, v);
      PutLookup(fs[1..], k, v, k');
    }
  }

  predicate IsDigit(c: char)
  {
    '0' <= c <= '9'
  }

  /** The value of a string of decimal digits. */
  function DecimalValue(s: string): nat
    requires forall i :: 0 <= i < |s| ==> IsDigit(s[i])
  {
    if |s| == 0 then 0
    else
      assert IsDigit(s[|s| - 1]);
      DecimalValue(s[..|s| - 1]) * 10 + (s[|s| - 1] as int - '0' as int)
  }

  /** The largest array index: 2^32 - 2. */
  const MaxArrayIndex: nat := 0xFFFF_FFFE

  /** A key that is an array index: the canonical decimal form of an integer from 0 to 2^32 - 2. */
  predicate IndexKey(k: string)
  {
    |k| > 0 && (forall i :: 0 <= i < |k| ==> IsDigit(k[i]))
    && (k[0] != '0' || |k| == 1)
    && DecimalValue(k) <= MaxArrayIndex
  }

  /** The keys that are not array indices, in order: the order enumeration gives them. */
  function NamedKeys(ks: seq<string>): (r: seq<string>)
    ensures |r| <= |ks|
    ensures forall k :: k in r <==> k in ks && !IndexKey(k)
  {
    if |ks| == 0 then []
    else (if IndexKey(ks[0]) then [] else [ks[0]]) + NamedKeys(ks[1..])
  }

  /** Keeping the named keys works piecewise. */
  lemma {:induction false} NamedKeysAppend(a: seq<string>, b: seq<string>)
    ensures NamedKeys(a + b) == NamedKeys(a) + NamedKeys(b)
    decreases |a|
  {
    if |a| == 0 {
      assert a + b == b;
    } else {
      assert (a + b)[0] == a[0] && (a + b)[1..] == a[1..] + b;
      NamedKeysAppend(a[1..], b);
    }
  }

  /** A list without array indices is its own list of named keys. */
  lemma {:induction false} NamedKeysOfNamed(ks: seq<string>)
    requires forall i :: 0 <= i < |ks| ==> !IndexKey(ks[i])
    ensures NamedKeys(ks) == ks
    decreases |ks|
  {
    if |ks| > 0 {
      NamedKeysOfNamed(ks[1..]);
    }
  }

  /** `{ ...base, ...data }` with `base` written first. */
  function Spread(base: seq<Field>, data: seq<Field>): seq<Field>
  {
    if |data| == 0 then base
    else
      var last := data[|data| - 1];
      Put(Spread(base, data[..|data| - 1]), last.key, last.value)
  }

  /** The last spread field decides its own key. */
  lemma SpreadLastKey(base: seq<Field>, data: seq<Field>)
    requires |data| > 0
    ensures var last := data[|data| - 1];
      last.key in Keys(data)
      && Lookup(Spread(base, data), last.key) == Some(last.value) == LastLookup(data, last.key)
  {
    var last := data[|data| - 1];
    assert Keys(data)[|data| - 1] == last.key;
    PutLookup(Spread(base, data[..|data| - 1]), last.key, last.value, last.key);
  }

  /** Any other key reads as it did before the last spread field. */
  lemma SpreadOtherKey(base: seq<Field>, data: seq<Field>, k: string)
    requires |data| > 0 && k != data[|data| - 1].key
    ensures var p := data[..|data| - 1];
      Lookup(Spread(base, data), k) == Lookup(Spread(base, p), k)
      && LastLookup(data, k) == LastLookup(p, k)
      && (k in Keys(data) <==> k in Keys(p))
  {
    var p := data[..|data| - 1];
    var last := data[|data| - 1];
    assert Keys(data) == Keys(p) + [last.key];
    PutLookup(Spread(base, p), last.key, last.value, k);
  }

  /** A spread field overrides the base; every other key keeps the base's value. */
  lemma {:induction false} SpreadLookup(base: seq<Field>, data: seq<Field>, k: string)
    ensures Lookup(Spread(base, data), k) ==
      if k in Keys(data) then LastLookup(data, k) else Lookup(base, k)
    decreases |data|
  {
    if |data| > 0 {
      if k == data[|data| - 1].key {
        SpreadLastKey(base, data);
      } else {
        SpreadOtherKey(base, data, k);
        SpreadLookup(base, data[..|data| - 1], k);
      }
    }
  }

  /** Spreading never moves or removes a base key: the base's keys stay in front, in insertion order. */
  lemma {:induction false} SpreadKeepsBaseKeys(base: seq<Field>, data: seq<Field>)
    ensures |Keys(base)| <= |Keys(Spread(base, data))|
    ensures Keys(Spread(base, data))[..|base|] == Keys(base)
    decreases |data|
  {
    if |data| > 0 {
      SpreadKeepsBaseKeys(base, data[..|data| - 1]);
    }
  }

  /**
   * The base's keys that are not array indices stay in front of the
   * result's, in order: the order in which enumeration lists them after
   * any array indices.
   */
  lemma SpreadKeepsNamedBaseKeys(base: seq<Field>, data: seq<Field>)
    ensures var named := NamedKeys(Keys(base));
      |named| <= |NamedKeys(Keys(Spread(base, data)))|
      && NamedKeys(Keys(Spread(base, data)))[..|named|] == named
  {
    SpreadKeepsBaseKeys(base, data);
    var ks := Keys(Spread(base, data));
    assert ks == Keys(base) + ks[|base|..];
    NamedKeysAppend(Keys(base), ks[|base|..]);
  }
}
