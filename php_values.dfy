/**
 * PHP values and the array built-ins the plugin's PHP code relies on. A PHP
 * array is an ordered list of key/value pairs with distinct keys; a key is
 * an integer or a string.
 */
module PhpValues {
  import opened Wrappers
  import Text

  datatype Key = IntKey(i: int) | StrKey(s: string)

  datatype PhpVal =
    | PNull
    | PBool(b: bool)
    | PInt(i: int)
    | PStr(s: string)
    | PArr(entries: seq<Pair>)

  datatype Pair = Pair(key: Key, val: PhpVal)

  /** Every real PHP array lists each key once. */
  predicate WellFormed(es: seq<Pair>) {
    forall i, j :: 0 <= i < j < |es| ==> es[i].key != es[j].key
  }

  function KeysOf(es: seq<Pair>): (ks: seq<Key>)
    ensures |ks| == |es|
    ensures forall i :: 0 <= i < |es| ==> ks[i] == es[i].key
  {
    if es == [] then [] else [es[0].key] + KeysOf(es[1..])
  }

  /** `array_values`. */
  function ValuesOf(es: seq<Pair>): (vs: seq<PhpVal>)
    ensures |vs| == |es|
    ensures forall i :: 0 <= i < |es| ==> vs[i] == es[i].val
  {
    if es == [] then [] else [es[0].val] + ValuesOf(es[1..])
  }

  /** The position of key `k` (the first one, should the array be ill-formed). */
  function Position(es: seq<Pair>, k: Key): (r: Option<nat>)
    ensures r.Some? ==> r.value < |es| && es[r.value].key == k
    ensures r.Some? ==> forall j :: 0 <= j < r.value ==> es[j].key != k
    ensures r.None? <==> forall j :: 0 <= j < |es| ==> es[j].key != k
  {
    if es == [] then None
    else if es[0].key == k then Some(0)
    else match Position(es[1..], k)
      case None => None
      case Some(i) => Some(i + 1)
  }

  /** `array_key_exists(k, $a)`. */
  predicate KeyExists(es: seq<Pair>, k: Key) {
    Position(es, k).Some?
  }

  /** The value under `k`, if any. */
  function Lookup(es: seq<Pair>, k: Key): Option<PhpVal> {
    match Position(es, k)
    case Some(i) => Some(es[i].val)
    case None => None
  }

  /** `$a[k]` for reading: `null` (and a warning) when the key is absent. */
  function Index(es: seq<Pair>, k: Key): PhpVal {
    Lookup(es, k).GetOr(PNull)
  }

  /** `isset($a[k])`: the key exists and its value is not `null`. */
  predicate IsSet(es: seq<Pair>, k: Key) {
    Index(es, k) != PNull
  }

  /** The `TypeError` PHP 8 throws when a string is indexed by a non-numeric string. */
  const StringOffsetError := TypeError("Cannot access offset of type string on string")

  /** `$v[k]` with a non-numeric string `k` on any value: a string throws, a scalar gives `null`. */
  function Offset(v: PhpVal, k: string): Result<PhpVal> {
    match v
    case PArr(es) => Ok(Index(es, StrKey(k)))
    case PStr(_) => Err(StringOffsetError)
    case _ => Ok(PNull)
  }

  /** `isset($v[k])` on any value: only an array has non-numeric string offsets set. */
  predicate IsSetOn(v: PhpVal, k: string) {
    v.PArr? && IsSet(v.entries, StrKey(k))
  }

  /** PHP truthiness, the negation of `empty()`. */
  predicate Truthy(v: PhpVal) {
    match v
    case PNull => false
    case PBool(b) => b
    case PInt(i) => i != 0
    case PStr(s) => s != "" && s != "0"
    case PArr(es) => es != []
  }

  /** `is_array($v) && ! empty($v)`. */
  predicate IsNonEmptyArray(v: PhpVal) {
    v.PArr? && v.entries != []
  }

  /** `$a[k] = v`: an existing key keeps its place, a new one goes last. */
  function Assign(es: seq<Pair>, k: Key, v: PhpVal): (r: seq<Pair>)
    ensures Lookup(r, k) == Some(v)
    ensures forall k' :: k' != k ==> Lookup(r, k') == Lookup(es, k')
    ensures KeyExists(es, k) ==> |r| == |es| && KeysOf(r) == KeysOf(es)
    ensures !KeyExists(es, k) ==> r == es + [Pair(k, v)]
    ensures WellFormed(es) ==> WellFormed(r)
  {
    match Position(es, k)
    case Some(i) =>
      AssignExistingFacts(es, i, k, v);
      es[i := Pair(k, v)]
    case None =>
      AssignNewFacts(es, k, v);
      es + [Pair(k, v)]
  }

  lemma AssignExistingFacts(es: seq<Pair>, i: nat, k: Key, v: PhpVal)
    requires Position(es, k) == Some(i)
    ensures var r := es[i := Pair(k, v)];
      Lookup(r, k) == Some(v) && (forall k' :: k' != k ==> Lookup(r, k') == Lookup(es, k')) &&
      KeysOf(r) == KeysOf(es) && (WellFormed(es) ==> WellFormed(r))
  {
    var r := es[i := Pair(k, v)];
    forall k' ensures Position(r, k') == Position(es, k') {
      PositionAfterUpdate(es, i, v, k');
    }
  }

  lemma AssignNewFacts(es: seq<Pair>, k: Key, v: PhpVal)
    requires Position(es, k).None?
    ensures var r := es + [Pair(k, v)];
      Lookup(r, k) == Some(v) && (forall k' :: k' != k ==> Lookup(r, k') == Lookup(es, k')) &&
      (WellFormed(es) ==> WellFormed(r))
  {
    var r := es + [Pair(k, v)];
    forall k' ensures Position(r, k') == if k' == k then Some(|es|) else Position(es, k') {
      PositionAfterAppend(es, Pair(k, v), k');
    }
  }

  /** Assigning the same value twice is assigning it once. */
  lemma AssignIdempotent(es: seq<Pair>, k: Key, v: PhpVal)
    ensures Assign(Assign(es, k, v), k, v) == Assign(es, k, v)
  {
    var r := Assign(es, k, v);
    var j := Position(r, k).value;
    assert r[j] == Pair(k, v);
    assert r[j := Pair(k, v)] == r;
  }

  lemma {:induction false} PositionAfterUpdate(es: seq<Pair>, i: nat, v: PhpVal, k: Key)
    requires i < |es|
    ensures Position(es[i := Pair(es[i].key, v)], k) == Position(es, k)
  {
    if i > 0 {
      assert es[i := Pair(es[i].key, v)][1..] == es[1..][i - 1 := Pair(es[i].key, v)];
      PositionAfterUpdate(es[1..], i - 1, v, k);
    }
  }

  lemma {:induction false} PositionAfterAppend(es: seq<Pair>, p: Pair, k: Key)
    ensures Position(es + [p], k) == if Position(es, k).Some? then Position(es, k) else if p.key == k then Some(|es|) else None
  {
    if es != [] {
      assert (es + [p])[1..] == es[1..] + [p];
      PositionAfterAppend(es[1..], p, k);
    }
  }

  /** The integer key `$a[] = v` uses: one past the largest integer key, 0 when there is none. */
  function NextIndex(es: seq<Pair>): (n: nat)
    ensures forall i :: 0 <= i < |es| && es[i].key.IntKey? ==> es[i].key.i < n
  {
    if es == [] then 0
    else
      var rest := NextIndex(es[1..]);
      if es[0].key.IntKey? && es[0].key.i + 1 > rest then es[0].key.i + 1 else rest
  }

  /** `$a[] = v`. */
  function Push(es: seq<Pair>, v: PhpVal): (r: seq<Pair>)
    ensures r == es + [Pair(IntKey(NextIndex(es)), v)]
    ensures forall k :: k != IntKey(NextIndex(es)) ==> Lookup(r, k) == Lookup(es, k)
  {
    assert !KeyExists(es, IntKey(NextIndex(es)));
    Assign(es, IntKey(NextIndex(es)), v)
  }

  lemma {:induction false} NextIndexAtMost(es: seq<Pair>, n: nat)
    requires forall i :: 0 <= i < |es| && es[i].key.IntKey? ==> es[i].key.i < n
    ensures NextIndex(es) <= n
  {
    if es != [] {
      NextIndexAtMost(es[1..], n);
    }
  }

  lemma LookupTail(es: seq<Pair>, k: Key)
    requires es != [] && es[0].key != k
    ensures Lookup(es, k) == Lookup(es[1..], k)
    ensures KeyExists(es, k) == KeyExists(es[1..], k)
  {
  }

  /** The values under integer keys, in order. */
  function IntKeyedValues(es: seq<Pair>): seq<PhpVal> {
    if es == [] then []
    else (if es[0].key.IntKey? then [es[0].val] else []) + IntKeyedValues(es[1..])
  }

  /** Adds the entries of `es` to `acc` the way `array_merge` does: string keys are assigned, integer keys appended. */
  function MergeInto(acc: seq<Pair>, es: seq<Pair>): seq<Pair>
    decreases es
  {
    if es == [] then acc
    else
      var acc' := if es[0].key.StrKey? then Assign(acc, es[0].key, es[0].val) else Push(acc, es[0].val);
      MergeInto(acc', es[1..])
  }

  /** `array_merge($a, $b)`. */
  function ArrayMerge(a: seq<Pair>, b: seq<Pair>): seq<Pair> {
    MergeInto(MergeInto([], a), b)
  }

  lemma {:induction false} MergeIntoStringKeys(acc: seq<Pair>, es: seq<Pair>, s: string)
    requires WellFormed(es)
    ensures Lookup(MergeInto(acc, es), StrKey(s)) ==
      if KeyExists(es, StrKey(s)) then Lookup(es, StrKey(s)) else Lookup(acc, StrKey(s))
    decreases es
  {
    if es != [] {
      var acc' := if es[0].key.StrKey? then Assign(acc, es[0].key, es[0].val) else Push(acc, es[0].val);
      assert WellFormed(es[1..]) by {
        forall i, j | 0 <= i < j < |es[1..]| ensures es[1..][i].key != es[1..][j].key {
          assert es[1..][i] == es[i + 1] && es[1..][j] == es[j + 1];
        }
      }
      MergeIntoStringKeys(acc', es[1..], s);
      if es[0].key == StrKey(s) {
        assert !KeyExists(es[1..], StrKey(s));
      } else {
        LookupTail(es, StrKey(s));
        assert Lookup(acc', StrKey(s)) == Lookup(acc, StrKey(s));
      }
    }
  }

  /**
   * `array_merge` on string keys: an entry of the second array wins, every
   * other string-keyed entry of the first array is kept.
   */
  lemma ArrayMergeStringKeys(a: seq<Pair>, b: seq<Pair>, s: string)
    requires WellFormed(a) && WellFormed(b)
    ensures Lookup(ArrayMerge(a, b), StrKey(s)) ==
      if KeyExists(b, StrKey(s)) then Lookup(b, StrKey(s)) else Lookup(a, StrKey(s))
  {
    MergeIntoStringKeys([], a, s);
    MergeIntoStringKeys(MergeInto([], a), b, s);
  }

  lemma {:induction false} MergeIntoIntValues(acc: seq<Pair>, es: seq<Pair>)
    requires forall i :: 0 <= i < |acc| && acc[i].key.IntKey? ==> 0 <= acc[i].key.i < |IntKeyedValues(acc)|
    ensures IntKeyedValues(MergeInto(acc, es)) == IntKeyedValues(acc) + IntKeyedValues(es)
    ensures var r := MergeInto(acc, es);
      forall i :: 0 <= i < |r| && r[i].key.IntKey? ==> 0 <= r[i].key.i < |IntKeyedValues(r)|
    decreases es
  {
    if es != [] {
      if es[0].key.StrKey? {
        AssignKeepsIntKeyed(acc, es[0].key, es[0].val);
        MergeIntoIntValues(Assign(acc, es[0].key, es[0].val), es[1..]);
        ConcatEmpty(IntKeyedValues(es[1..]));
      } else {
        PushIntKeyed(acc, es[0].val);
        MergeIntoIntValues(Push(acc, es[0].val), es[1..]);
        ConcatAssoc(IntKeyedValues(acc), [es[0].val], IntKeyedValues(es[1..]));
      }
    }
  }

  /** Appending under the next index adds one value under an integer key and keeps integer keys below the count of such values. */
  lemma PushIntKeyed(acc: seq<Pair>, v: PhpVal)
    requires forall i :: 0 <= i < |acc| && acc[i].key.IntKey? ==> 0 <= acc[i].key.i < |IntKeyedValues(acc)|
    ensures IntKeyedValues(Push(acc, v)) == IntKeyedValues(acc) + [v]
    ensures var r := Push(acc, v);
      forall i :: 0 <= i < |r| && r[i].key.IntKey? ==> 0 <= r[i].key.i < |IntKeyedValues(r)|
  {
    IntKeyedValuesAppend(acc, Pair(IntKey(NextIndex(acc)), v));
    NextIndexAtMost(acc, |IntKeyedValues(acc)|);
  }

  lemma {:induction false} IntKeyedValuesAppend(es: seq<Pair>, p: Pair)
    ensures IntKeyedValues(es + [p]) == IntKeyedValues(es) + (if p.key.IntKey? then [p.val] else [])
  {
    if es != [] {
      assert (es + [p])[1..] == es[1..] + [p];
      IntKeyedValuesAppend(es[1..], p);
    }
  }

  lemma AssignKeepsIntKeyed(es: seq<Pair>, k: Key, v: PhpVal)
    requires k.StrKey?
    ensures IntKeyedValues(Assign(es, k, v)) == IntKeyedValues(es)
    ensures KeysOf(Assign(es, k, v)) == KeysOf(es) || KeysOf(Assign(es, k, v)) == KeysOf(es) + [k]
  {
    if KeyExists(es, k) {
      IntKeyedValuesUpdate(es, Position(es, k).value, v);
    } else {
      IntKeyedValuesAppend(es, Pair(k, v));
    }
  }

  lemma {:induction false} IntKeyedValuesUpdate(es: seq<Pair>, i: nat, v: PhpVal)
    requires i < |es| && es[i].key.StrKey?
    ensures IntKeyedValues(es[i := Pair(es[i].key, v)]) == IntKeyedValues(es)
  {
    if i > 0 {
      assert es[i := Pair(es[i].key, v)][1..] == es[1..][i - 1 := Pair(es[i].key, v)];
      IntKeyedValuesUpdate(es[1..], i - 1, v);
    }
  }

  /**
   * `array_merge` on integer keys: the values under integer keys of both
   * arrays, in order, renumbered from 0.
   */
  lemma ArrayMergeIntKeys(a: seq<Pair>, b: seq<Pair>)
    ensures IntKeyedValues(ArrayMerge(a, b)) == IntKeyedValues(a) + IntKeyedValues(b)
    ensures var r := ArrayMerge(a, b);
      forall i :: 0 <= i < |r| && r[i].key.IntKey? ==> 0 <= r[i].key.i < |IntKeyedValues(r)|
  {
    var m := MergeInto([], a);
    MergeIntoIntValues([], a);
    assert IntKeyedValues(m) == IntKeyedValues(a) by {
      assert IntKeyedValues([]) + IntKeyedValues(a) == IntKeyedValues(a);
    }
    MergeIntoIntValues(m, b);
  }

  /** True when `s` is a canonical decimal integer, the strings PHP turns into integer keys. */
  predicate IsCanonicalInt(s: string) {
    (s == "0") ||
    (|s| > 0 && s[0] != '-' && s[0] != '0' && forall i :: 0 <= i < |s| ==> '0' <= s[i] <= '9') ||
    (|s| > 1 && s[0] == '-' && s[1] != '0' && forall i :: 1 <= i < |s| ==> '0' <= s[i] <= '9')
  }

  function DecimalValue(s: string): nat
    requires forall i :: 0 <= i < |s| ==> '0' <= s[i] <= '9'
  {
    if s == [] then 0 else DecimalValue(s[..|s| - 1]) * 10 + (s[|s| - 1] as int - '0' as int)
  }

  /** The key a string names: a canonical decimal integer becomes an integer key. */
  function StringKey(s: string): (k: Key)
    ensures !IsCanonicalInt(s) <==> k == StrKey(s)
  {
    if !IsCanonicalInt(s) then StrKey(s)
    else if s[0] == '-' then IntKey(-(DecimalValue(s[1..]) as int))
    else IntKey(DecimalValue(s))
  }

  /** The key `$a[$v]` stores under: PHP's key casts, an array offset throws. */
  function KeyOf(v: PhpVal): (r: Result<Key>)
    ensures v.PArr? <==> r.Err?
    ensures v.PStr? && !IsCanonicalInt(v.s) ==> r == Ok(StrKey(v.s))
    ensures v.PInt? ==> r == Ok(IntKey(v.i))
  {
    match v
    case PNull => Ok(StrKey(""))
    case PBool(b) => Ok(IntKey(if b then 1 else 0))
    case PInt(i) => Ok(IntKey(i))
    case PStr(s) => Ok(StringKey(s))
    case PArr(_) => Err(TypeError("Illegal offset type"))
  }

  /** `(string) $v` for the scalars that reach string concatenation. */
  function ToStr(v: PhpVal): string {
    match v
    case PNull => ""
    case PBool(b) => if b then "1" else ""
    case PInt(i) => Text.IntToDecimal(i)
    case PStr(s) => s
    case PArr(_) => "Array"
  }
}
