/** The loosely typed values the dictionary works on: what JSON.parse produces, plus
    `undefined`. An object keeps its own properties in enumeration order. */
module JsValue {
  import opened Wrappers
  import Decimal
  import Seqs

  datatype Value =
    | Undefined
    | Null
    | Bool(b: bool)
    | Num(n: real)
    | Str(s: string)
    | Arr(items: seq<Value>)
    | Obj(props: seq<(string, Value)>)

  /** One own property: a key and its value (an element of Object.entries). */
  type Entry = (string, Value)

  /** JavaScript truthiness: undefined, null, false, 0 and "" are falsy; every array and
      every object, empty or not, is truthy. */
  predicate Truthy(v: Value) {
    match v
    case Undefined => false
    case Null => false
    case Bool(b) => b
    case Num(n) => n != 0.0
    case Str(s) => s != ""
    case Arr(_) => true
    case Obj(_) => true
  }

  /** The values `??` replaces, and the ones whose properties cannot be read. */
  predicate Nullish(v: Value) { v.Undefined? || v.Null? }

  /** a || b */
  function Or(a: Value, b: Value): Value { if Truthy(a) then a else b }

  /** a ?? b */
  function Coalesce(a: Value, b: Value): Value { if Nullish(a) then b else a }

  function Keys(ps: seq<Entry>): (ks: seq<string>)
    ensures |ks| == |ps| && forall i :: 0 <= i < |ps| ==> ks[i] == ps[i].0
  {
    seq(|ps|, i requires 0 <= i < |ps| => ps[i].0)
  }

  predicate HasKey(ps: seq<Entry>, k: string) { k in Keys(ps) }

  lemma {:induction false} KeysCons(ps: seq<Entry>)
    requires ps != []
    ensures Keys(ps) == [ps[0].0] + Keys(ps[1..])
  {
  }

  predicate DistinctKeys(ps: seq<Entry>) { Seqs.NoDuplicates(Keys(ps)) }

  /** The value of the first property named `k`. */
  function Lookup(ps: seq<Entry>, k: string): (r: Option<Value>)
    ensures r.Some? <==> HasKey(ps, k)
    ensures r.Some? ==> (k, r.value) in ps
    decreases |ps|
  {
    if ps == [] then None
    else
      KeysCons(ps);
      if ps[0].0 == k then Some(ps[0].1) else Lookup(ps[1..], k)
  }

  /** The properties named `ks`, in order, with the values `vs`. */
  function Pairs(ks: seq<string>, vs: seq<Value>): (ps: seq<Entry>)
    requires |ks| == |vs|
    ensures Keys(ps) == ks
  {
    seq(|ks|, i requires 0 <= i < |ks| => (ks[i], vs[i]))
  }

  /** Each of the distinct keys `ks` reads its own value. */
  lemma {:induction false} LookupPairs(ks: seq<string>, vs: seq<Value>, k: string)
    requires |ks| == |vs| && Seqs.NoDuplicates(ks)
    ensures Lookup(Pairs(ks, vs), k) == if k in ks then Some(vs[Seqs.IndexOf(ks, k)]) else None
  {
    var r := Lookup(Pairs(ks, vs), k);
    if k in ks {
      var i :| 0 <= i < |ks| && Pairs(ks, vs)[i] == (k, r.value);
      assert ks[i] == k && ks[Seqs.IndexOf(ks, k)] == k;
    }
  }

  /** Property access `v[k]` / `v?.[k]`: an object's own property, undefined when it has
      none, and undefined for every other value (for the non-index keys the dictionary
      reads, this is what JavaScript gives for primitives and arrays too). */
  function Get(v: Value, k: string): Value {
    match v
    case Obj(ps) => (match Lookup(ps, k) case Some(x) => x case None => Undefined)
    case _ => Undefined
  }

  lemma GetProp(v: Value, k: string, x: Value)
    requires v.Obj? && Lookup(v.props, k) == Some(x)
    ensures Get(v, k) == x
  {
  }

  /** Object.entries(v), also the properties `{...v}` copies: an object's own properties,
      the indexed elements of an array or the indexed characters of a string, and nothing
      for any other value. */
  function Entries(v: Value): seq<Entry> {
    match v
    case Obj(ps) => ps
    case Arr(xs) => seq(|xs|, i requires 0 <= i < |xs| => (Decimal.FromNat(i), xs[i]))
    case Str(s) => seq(|s|, i requires 0 <= i < |s| => (Decimal.FromNat(i), Str([s[i]])))
    case _ => []
  }

  /** A value whose own property keys are distinct, as they are for every object
      JavaScript can build. */
  predicate WellKeyed(v: Value) { v.Obj? ==> DistinctKeys(v.props) }

  lemma {:induction false} EntriesDistinct(v: Value)
    requires WellKeyed(v)
    ensures DistinctKeys(Entries(v))
  {
    forall m: nat, n: nat | Decimal.FromNat(m) == Decimal.FromNat(n)
      ensures m == n
    {
      Decimal.FromNatInjective(m, n);
    }
  }

  /** Assigning property `k` := `x`: an existing property keeps its position and takes the
      new value; a new one is appended. */
  function SetProp(ps: seq<Entry>, k: string, x: Value): (r: seq<Entry>)
    ensures Lookup(r, k) == Some(x)
    ensures forall k' :: k' != k ==> Lookup(r, k') == Lookup(ps, k')
    decreases |ps|
  {
    if ps == [] then [(k, x)]
    else if ps[0].0 == k then [(k, x)] + ps[1..]
    else
      var rest := SetProp(ps[1..], k, x);
      var r := [ps[0]] + rest;
      assert r[1..] == rest;
      r
  }

  lemma {:induction false} SetPropKeys(ps: seq<Entry>, k: string, x: Value)
    ensures HasKey(ps, k) ==> Keys(SetProp(ps, k, x)) == Keys(ps)
    ensures !HasKey(ps, k) ==> Keys(SetProp(ps, k, x)) == Keys(ps) + [k]
    decreases |ps|
  {
    var r := SetProp(ps, k, x);
    if ps != [] {
      KeysCons(ps);
      KeysCons(r);
      if ps[0].0 == k {
        assert r[1..] == ps[1..];
      } else {
        assert r[1..] == SetProp(ps[1..], k, x);
        SetPropKeys(ps[1..], k, x);
      }
    }
  }

  lemma {:induction false} SetPropDistinct(ps: seq<Entry>, k: string, x: Value)
    requires DistinctKeys(ps)
    ensures DistinctKeys(SetProp(ps, k, x))
  {
    SetPropKeys(ps, k, x);
  }

  /** `{...target, ...src}`: the properties of `src` assigned onto `target` one by one. */
  function Spread(target: seq<Entry>, src: seq<Entry>): seq<Entry>
    decreases |src|
  {
    if src == [] then target else Spread(SetProp(target, src[0].0, src[0].1), src[1..])
  }

  /** After a spread, a key of `src` reads `src`'s value and any other key reads
      `target`'s value. */
  lemma {:induction false} SpreadLookup(target: seq<Entry>, src: seq<Entry>, k: string)
    requires DistinctKeys(src)
    ensures Lookup(Spread(target, src), k) == if HasKey(src, k) then Lookup(src, k) else Lookup(target, k)
    decreases |src|
  {
    if src != [] {
      var t := SetProp(target, src[0].0, src[0].1);
      SpreadLookup(t, src[1..], k);
      KeysCons(src);
      if src[0].0 == k {
        assert k !in Keys(src[1..]);
      }
    }
  }

  /** A spread keeps every property of `target` where it was and adds no duplicate key. */
  lemma {:induction false} SpreadKeys(target: seq<Entry>, src: seq<Entry>)
    ensures Keys(target) <= Keys(Spread(target, src))
    ensures DistinctKeys(target) ==> DistinctKeys(Spread(target, src))
    decreases |src|
  {
    if src != [] {
      var t := SetProp(target, src[0].0, src[0].1);
      SetPropKeys(target, src[0].0, src[0].1);
      if DistinctKeys(target) {
        SetPropDistinct(target, src[0].0, src[0].1);
      }
      SpreadKeys(t, src[1..]);
    }
  }
}
