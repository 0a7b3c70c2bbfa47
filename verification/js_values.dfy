/**
 * The slice of JavaScript values the bridge touches: configuration objects
 * (`initd`), their truthiness as tested by `!x` guards, and the
 * `_.defaults(target, source1, source2, ...)` merge used at construction.
 *
 * Numbers are modelled as integers: NaN and fractional values are not part
 * of this model.
 */
module Js {

  datatype JsValue =
    | Undefined
    | Null
    | Bool(b: bool)
    | Num(n: int)
    | Str(s: string)

  /** JavaScript truthiness: what `!!v` yields. */
  predicate Truthy(v: JsValue)
  {
    match v
    case Undefined => false
    case Null => false
    case Bool(b) => b
    case Num(n) => n != 0
    case Str(s) => s != ""
  }

  /** A plain object with string keys. */
  type Object = map<string, JsValue>

  /** Property read `o[key]`: a missing key reads as `undefined`. */
  function Get(o: Object, key: string): JsValue
  {
    if key in o then o[key] else Undefined
  }

  /** `o` gives `key` a value that `_.defaults` will not overwrite. */
  predicate Supplies(o: Object, key: string)
  {
    Get(o, key) != Undefined
  }

  /** Two objects that no property read can tell apart. */
  ghost predicate SameView(a: Object, b: Object)
  {
    forall key :: Get(a, key) == Get(b, key)
  }

  /**
   * Reference definition of a layered lookup: the value of `key` in the first
   * object of `layers` that supplies it, or `undefined` when none does.
   */
  function FirstSupplied(layers: seq<Object>, key: string): JsValue
  {
    if |layers| == 0 then Undefined
    else if Supplies(layers[0], key) then Get(layers[0], key)
    else FirstSupplied(layers[1..], key)
  }

  /**
   * One source pass of `_.defaults`: every own key of `source` whose value in
   * `target` is `undefined` is copied from `source`.
   */
  function FillFrom(target: Object, source: Object): (r: Object)
    ensures r.Keys == target.Keys + source.Keys
    ensures forall key :: Supplies(target, key) ==> Get(r, key) == Get(target, key)
    ensures forall key :: !Supplies(target, key) ==> Get(r, key) == Get(source, key)
  {
    map key | key in target.Keys + source.Keys ::
      if key !in source || Supplies(target, key) then target[key] else source[key]
  }

  /**
   * `_.defaults(target, sources...)`: the sources are applied left to right,
   * so the target wins over every source and an earlier source wins over a
   * later one.
   */
  function Defaults(target: Object, sources: seq<Object>): (r: Object)
    ensures forall key :: Get(r, key) == FirstSupplied([target] + sources, key)
    decreases |sources|
  {
    if |sources| == 0 then target
    else
      var filled := FillFrom(target, sources[0]);
      var r := Defaults(filled, sources[1..]);
      assert forall key :: FirstSupplied([filled] + sources[1..], key)
                           == FirstSupplied([target] + sources, key) by {
        forall key
          ensures FirstSupplied([filled] + sources[1..], key)
                  == FirstSupplied([target] + sources, key)
        {
          assert ([target] + sources)[1..] == sources;
          if !Supplies(target, key) && !Supplies(sources[0], key) {
            assert ([filled] + sources[1..])[1..] == sources[1..];
          }
        }
      }
      r
  }

  /**
   * Merging a second time with the same sources changes nothing a property
   * read can see: every key is either already supplied or supplied by no
   * source at all.
   */
  lemma DefaultsIdempotent(target: Object, sources: seq<Object>)
    ensures SameView(Defaults(Defaults(target, sources), sources), Defaults(target, sources))
  {
  }
}
