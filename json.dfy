/**
 * Locale data as the JSON tree the translation helpers walk, and one step of
 * that walk: `value && typeof value === 'object' && value[k] !== undefined`.
 */
module Json {
  import opened Wrappers
  import opened JsString

  /** A JSON value. Numbers are kept integral: nothing in the translation helpers does arithmetic on a number it finds. */
  datatype Json =
    | Obj(fields: map<string, Json>)
    | Arr(items: seq<Json>)
    | Str(s: string)
    | Num(n: int)
    | Bool(b: bool)
    | Null

  /** True for a value the walk may step into: a non-null object (arrays are objects too). */
  predicate IsObject(v: Json) {
    v.Obj? || v.Arr?
  }

  /** A canonical array index: decimal digits without a leading zero (except "0" itself). */
  predicate IsArrayIndex(k: string) {
    k != [] && AllDigits(k) && (k[0] != '0' || k == "0")
  }

  /**
   * `value[k]` when `value` is a non-null object and the property is defined;
   * `None` when the walk stops (a primitive, `null`, or a missing property).
   * Own properties only: an object's members are its fields, an array's are
   * its indices and `length`.
   */
  function Step(v: Json, k: string): (r: Option<Json>)
    ensures r.Some? ==> IsObject(v)
    ensures v.Obj? ==> (r.Some? <==> k in v.fields) && (r.Some? ==> r.value == v.fields[k])
    ensures v.Arr? && IsArrayIndex(k) && DigitsValue(k) < |v.items| ==> r == Some(v.items[DigitsValue(k)])
  {
    match v
    case Obj(fields) => if k in fields then Some(fields[k]) else None
    case Arr(items) =>
      if k == "length" then Some(Num(|items|))
      else if IsArrayIndex(k) && DigitsValue(k) < |items| then Some(items[DigitsValue(k)])
      else None
    case _ => None
  }

  /** The value found by stepping through every segment of `path`, or `None` at the first failed step. */
  function KeyPath(v: Json, path: seq<string>): (r: Option<Json>)
    ensures path == [] ==> r == Some(v)
    ensures path != [] && r.Some? ==> IsObject(v)
    decreases |path|
  {
    if path == [] then Some(v)
    else
      match Step(v, path[0])
      case None => None
      case Some(w) => KeyPath(w, path[1..])
  }

  /** Walking a longer path is walking the prefix and then one more step: the loop's invariant. */
  lemma {:induction false} KeyPathSnoc(v: Json, path: seq<string>, k: string)
    ensures KeyPath(v, path + [k]) == match KeyPath(v, path) case None => None case Some(w) => Step(w, k)
    decreases |path|
  {
    if path == [] {
      assert [] + [k] == [k];
      assert [k][1..] == [];
    } else {
      assert (path + [k])[0] == path[0];
      assert (path + [k])[1..] == path[1..] + [k];
      match Step(v, path[0])
      case None =>
      case Some(w) => KeyPathSnoc(w, path[1..], k);
    }
  }

  /** A walk splits at any point: the second part starts from where the first stopped. */
  lemma {:induction false} KeyPathAppend(v: Json, p: seq<string>, q: seq<string>)
    ensures KeyPath(v, p + q) == match KeyPath(v, p) case None => None case Some(w) => KeyPath(w, q)
    decreases |p|
  {
    if p == [] {
      assert [] + q == q;
    } else {
      assert (p + q)[0] == p[0];
      assert (p + q)[1..] == p[1..] + q;
      match Step(v, p[0])
      case None =>
      case Some(w) => KeyPathAppend(w, p[1..], q);
    }
  }
}
