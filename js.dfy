/** JavaScript values as the adapter sees them: truthiness, string
    coercion (`v + ''`), plain records, and objects whose key order matters. */
module Js {

  datatype Option<T> = None | Some(value: T)

  /** A JavaScript value. Numbers are modelled as integers (plus NaN). */
  datatype Value =
    | Undefined
    | Null
    | Bool(b: bool)
    | Num(n: int)
    | NaN
    | Str(s: string)
    | Arr(items: seq<Value>)
    | Obj(fields: map<string, Value>)

  /** JavaScript truthiness: `if (v)` takes the branch exactly when Truthy(v). */
  predicate Truthy(v: Value)
  {
    match v
    case Undefined => false
    case Null => false
    case Bool(b) => b
    case Num(n) => n != 0
    case NaN => false
    case Str(s) => s != ""
    case Arr(_) => true
    case Obj(_) => true
  }

  function DigitChar(d: nat): char
    requires d < 10
  {
    "0123456789"[d]
  }

  /** Decimal rendering of a natural number, without leading zeros. */
  function NatToString(n: nat): (s: string)
    ensures |s| > 0
    ensures forall i | 0 <= i < |s| :: '0' <= s[i] <= '9'
    ensures (s[0] == '0') <==> (n == 0)
  {
    if n < 10 then [DigitChar(n)] else NatToString(n / 10) + [DigitChar(n % 10)]
  }

  /** String coercion as for `v + ''`: a string is unchanged, everything else is rendered. */
  function ToString(v: Value): (s: string)
    ensures v.Str? ==> s == v.s
    decreases v, 1
  {
    match v
    case Undefined => "undefined"
    case Null => "null"
    case Bool(b) => if b then "true" else "false"
    case Num(n) => if n < 0 then "-" + NatToString(-n) else NatToString(n)
    case NaN => "NaN"
    case Str(s) => s
    case Arr(items) => JoinItems(items)
    case Obj(_) => "[object Object]"
  }

  /** `Array.prototype.join(',')`: null and undefined elements render as the empty string. */
  function JoinItems(items: seq<Value>): string
    decreases items, 0
  {
    if items == [] then ""
    else
      var last := items[|items| - 1];
      var text := if last == Undefined || last == Null then "" else ToString(last);
      if |items| == 1 then text else JoinItems(items[..|items| - 1]) + "," + text
  }

  /** A plain object whose key order no claim depends on. */
  type Record = map<string, Value>

  /** Property read `r.k`: a missing key reads as undefined. */
  function Get(r: Record, k: string): (v: Value)
    ensures k !in r ==> v == Undefined
    ensures k in r ==> v == r[k]
  {
    if k in r then r[k] else Undefined
  }

  ghost predicate Distinct(ks: seq<string>)
  {
    forall i, j | 0 <= i < j < |ks| :: ks[i] != ks[j]
  }

  /** `ks` with every occurrence of `k` removed, the rest in order. */
  function Without(ks: seq<string>, k: string): (r: seq<string>)
    ensures forall x :: x in r <==> x in ks && x != k
    ensures |r| <= |ks|
    ensures k !in ks ==> r == ks
  {
    if ks == [] then []
    else if ks[0] == k then Without(ks[1..], k)
    else [ks[0]] + Without(ks[1..], k)
  }

  lemma {:induction false} WithoutDistinct(ks: seq<string>, k: string)
    ensures Distinct(ks) ==> Distinct(Without(ks, k))
  {
    if ks != [] && Distinct(ks) {
      assert Distinct(ks[1..]) by {
        forall i, j | 0 <= i < j < |ks[1..]| ensures ks[1..][i] != ks[1..][j] {
          assert ks[1..][i] == ks[i + 1] && ks[1..][j] == ks[j + 1];
        }
      }
      WithoutDistinct(ks[1..], k);
      if ks[0] != k {
        assert ks[0] !in ks[1..];
        var r := [ks[0]] + Without(ks[1..], k);
        forall i, j | 0 <= i < j < |r| ensures r[i] != r[j] {
          if i == 0 {
            assert r[j] in Without(ks[1..], k);
          } else {
            assert r[i] == Without(ks[1..], k)[i - 1] && r[j] == Without(ks[1..], k)[j - 1];
          }
        }
      }
    }
  }

  lemma {:induction false} WithoutTwice(ks: seq<string>, k: string)
    ensures Without(Without(ks, k), k) == Without(ks, k)
  {
    if ks != [] {
      WithoutTwice(ks[1..], k);
    }
  }

  /** A JavaScript object whose key (enumeration) order matters:
      `keys` is the enumeration order, `vals` the properties. */
  datatype Dict<V> = Dict(keys: seq<string>, vals: map<string, V>)
  {
    ghost predicate Valid()
    {
      Distinct(keys) && forall k :: k in vals <==> k in keys
    }

    /** `delete o[k]`: the key leaves the order, the others keep their places. */
    function Delete(k: string): (d: Dict<V>)
      ensures d.keys == Without(keys, k)
      ensures d.vals == vals - {k}
      ensures k !in d.vals
      ensures forall x | x != k :: (x in d.vals <==> x in vals) && (x in vals ==> d.vals[x] == vals[x])
      ensures Valid() ==> d.Valid()
    {
      WithoutDistinct(keys, k);
      Dict(Without(keys, k), vals - {k})
    }
  }

  function EmptyDict<V>(): (d: Dict<V>)
    ensures d.Valid() && d.keys == [] && d.vals == map[]
  {
    Dict([], map[])
  }

  /** Reading `o[k]` from an ordered object whose values are JS values. */
  function Lookup(d: Dict<Value>, k: string): (v: Value)
    ensures k in d.vals ==> v == d.vals[k]
    ensures k !in d.vals ==> v == Undefined
  {
    Get(d.vals, k)
  }
}
