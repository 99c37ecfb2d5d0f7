/**
 * The JavaScript values the editor utilities handle: settings values and
 * the settings-map tree itself. An object is the ordered list of its own
 * enumerable properties, in insertion order (the order `Object.entries`
 * reports them in).
 */
module JsValues {
  import opened Wrappers
  import Text

  datatype JsVal =
    | Undefined
    | Null
    | Bool(b: bool)
    | Num(n: int)
    | Str(s: string)
    | Obj(props: seq<Prop>)

  datatype Prop = Prop(key: string, val: JsVal)

  /** JavaScript truthiness: `if (v)`. */
  predicate Truthy(v: JsVal) {
    match v
    case Undefined => false
    case Null => false
    case Bool(b) => b
    case Num(n) => n != 0
    case Str(s) => s != ""
    case Obj(_) => true
  }

  /** `String(v)`, which is also how a value becomes a property key (`o[v]`) and how a template literal prints it. */
  function ToStr(v: JsVal): string {
    match v
    case Undefined => "undefined"
    case Null => "null"
    case Bool(b) => if b then "true" else "false"
    case Num(n) => Text.IntToDecimal(n)
    case Str(s) => s
    case Obj(_) => "[object Object]"
  }

  function Keys(ps: seq<Prop>): (ks: seq<string>)
    ensures |ks| == |ps|
    ensures forall i :: 0 <= i < |ps| ==> ks[i] == ps[i].key
  {
    if ps == [] then [] else [ps[0].key] + Keys(ps[1..])
  }

  function Values(ps: seq<Prop>): (vs: seq<JsVal>)
    ensures |vs| == |ps|
    ensures forall i :: 0 <= i < |ps| ==> vs[i] == ps[i].val
  {
    if ps == [] then [] else [ps[0].val] + Values(ps[1..])
  }

  /** A real object never lists one key twice. */
  predicate DistinctKeys(ps: seq<Prop>) {
    forall i, j :: 0 <= i < j < |ps| ==> ps[i].key != ps[j].key
  }

  /** The position of property `k`, if the object has it (`k in o`). */
  function Find(ps: seq<Prop>, k: string): (r: Option<nat>)
    ensures r.Some? ==> r.value < |ps| && ps[r.value].key == k
    ensures r.Some? ==> forall j :: 0 <= j < r.value ==> ps[j].key != k
    ensures r.None? <==> forall j :: 0 <= j < |ps| ==> ps[j].key != k
  {
    if ps == [] then None
    else if ps[0].key == k then Some(0)
    else match Find(ps[1..], k)
      case None => None
      case Some(i) => Some(i + 1)
  }

  predicate Has(ps: seq<Prop>, k: string) {
    Find(ps, k).Some?
  }

  /** `o[k]` on an object: the property's value, or `undefined` when absent. */
  function Get(ps: seq<Prop>, k: string): JsVal {
    match Find(ps, k)
    case Some(i) => ps[i].val
    case None => Undefined
  }

  /** `o[k] = v`: an existing property keeps its place, a new one goes last. */
  function Put(ps: seq<Prop>, k: string, v: JsVal): (r: seq<Prop>)
    ensures Get(r, k) == v && Has(r, k)
    ensures forall k' :: k' != k ==> Get(r, k') == Get(ps, k') && (Has(r, k') <==> Has(ps, k'))
    ensures !Has(ps, k) ==> r == ps + [Prop(k, v)]
  {
    match Find(ps, k)
    case Some(i) =>
      var r := ps[i := Prop(k, v)];
      assert forall k' :: k' != k ==> Find(r, k') == Find(ps, k') by {
        forall k' | k' != k ensures Find(r, k') == Find(ps, k') {
          FindAfterUpdate(ps, i, v, k');
        }
      }
      FindFirst(r, i, k);
      r
    case None =>
      var r := ps + [Prop(k, v)];
      assert forall k' :: Find(r, k') == if k' == k then Some(|ps|) else Find(ps, k') by {
        forall k' ensures Find(r, k') == if k' == k then Some(|ps|) else Find(ps, k') {
          FindAfterAppend(ps, Prop(k, v), k');
        }
      }
      r
  }

  lemma FindFirst(ps: seq<Prop>, i: nat, k: string)
    requires i < |ps| && ps[i].key == k
    requires forall j :: 0 <= j < i ==> ps[j].key != k
    ensures Find(ps, k) == Some(i)
  {
    var f := Find(ps, k);
    assert f.Some?;
    assert !(f.value < i);
  }

  lemma {:induction false} FindAfterUpdate(ps: seq<Prop>, i: nat, v: JsVal, k': string)
    requires i < |ps| && k' != ps[i].key
    ensures Find(ps[i := Prop(ps[i].key, v)], k') == Find(ps, k')
  {
    if i > 0 {
      assert ps[i := Prop(ps[i].key, v)][1..] == ps[1..][i - 1 := Prop(ps[i].key, v)];
      FindAfterUpdate(ps[1..], i - 1, v, k');
    }
  }

  lemma {:induction false} FindAfterAppend(ps: seq<Prop>, p: Prop, k: string)
    ensures Find(ps + [p], k) == if Find(ps, k).Some? then Find(ps, k) else if p.key == k then Some(|ps|) else None
  {
    if ps != [] {
      assert (ps + [p])[1..] == ps[1..] + [p];
      FindAfterAppend(ps[1..], p, k);
    }
  }

  /** Reading a settings dictionary: `settings[key]`, `undefined` when the key is absent. */
  function Read(settings: map<string, JsVal>, key: string): JsVal {
    if key in settings then settings[key] else Undefined
  }
}
