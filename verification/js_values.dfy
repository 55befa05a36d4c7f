/**
 * The JavaScript values the panel handles: what `JSON.parse` can produce (numbers restricted
 * to integers) plus `undefined`, with the three operations the panel applies to them:
 * property access, `String(v)` and `Array.prototype.join`.
 */
module JsValues {
  import opened Wrappers
  import opened Text

  datatype JValue =
    | JUndefined
    | JNull
    | JBool(b: bool)
    | JInt(i: int)
    | JStr(s: string)
    | JArr(elems: seq<JValue>)
    | JObj(fields: map<string, JValue>)

  /** The values on which `??` falls back to its right operand and `?.` short-circuits. */
  predicate IsNullish(v: JValue) { v.JUndefined? || v.JNull? }

  /**
   * `v.key` for a value that is not null or undefined (on those, the access throws).
   * Only a parsed object has own properties with these names; on any other value the
   * lookup gives `undefined`.
   */
  function Member(v: JValue, key: string): (r: JValue)
    requires !IsNullish(v)
    ensures v.JObj? && key in v.fields ==> r == v.fields[key]
    ensures !(v.JObj? && key in v.fields) ==> r == JUndefined
  {
    if v.JObj? && key in v.fields then v.fields[key] else JUndefined
  }

  /** `v?.key`: `undefined` when `v` is null or undefined, the property otherwise. */
  function OptMember(v: JValue, key: string): (r: JValue)
    ensures IsNullish(v) ==> r == JUndefined
    ensures !IsNullish(v) ==> r == Member(v, key)
  {
    if IsNullish(v) then JUndefined else Member(v, key)
  }

  /**
   * Whether `String(v)` returns instead of throwing. A parsed object with its own `toString`
   * key has no callable `toString`; the conversion then falls back to `valueOf`, which gives
   * back the object itself, and a TypeError is thrown. An array converts by joining its
   * elements, so it throws when one of them does.
   */
  predicate Converts(v: JValue)
    decreases v
  {
    match v
    case JArr(xs) => forall k :: 0 <= k < |xs| ==> Converts(xs[k])
    case JObj(fields) => "toString" !in fields
    case _ => true
  }

  /**
   * `String(v)`, also what a template literal inserts for `${v}`, for a value that
   * `Converts`; on any other value the source throws and the text here is not used.
   */
  function ToStr(v: JValue): (r: string)
    ensures v.JStr? ==> r == v.s
    ensures v.JInt? ==> ParseInt(r) == Some(v.i) && CanonicalInt(r)
    ensures v.JArr? ==> r == ArrayJoin(v.elems, ",")
    ensures v.JObj? ==> r == "[object Object]"
    decreases v, 1
  {
    match v
    case JUndefined => "undefined"
    case JNull => "null"
    case JBool(b) => if b then "true" else "false"
    case JInt(i) => IntToDecimalRoundTrip(i); IntToDecimalCanonical(i); IntToDecimal(i)
    case JStr(s) => s
    case JArr(xs) => ArrayJoin(xs, ",")
    case JObj(_) => "[object Object]"
  }

  /**
   * `xs.join(sep)`: each element as text, an element that is null or undefined as "",
   * with `sep` between neighbours.
   */
  function ArrayJoin(xs: seq<JValue>, sep: string): (r: string)
    ensures |xs| == 0 ==> r == ""
    ensures |xs| == 1 ==> r == ElementText(xs[0])
    ensures |xs| >= 2 ==>
      |r| >= |ElementText(xs[0])| + |sep| && r[..|ElementText(xs[0])| + |sep|] == ElementText(xs[0]) + sep
    decreases JArr(xs), 0
  {
    var texts := seq(|xs|, k requires 0 <= k < |xs| => ElementText(xs[k]));
    if |xs| >= 2 then
      assert Join(texts, sep) == texts[0] + sep + Join(texts[1..], sep);
      Join(texts, sep)
    else Join(texts, sep)
  }

  /**
   * `join` of two or more elements is the first element's text, the separator, and the join
   * of the remaining elements: every element appears, in order, one separator between neighbours.
   */
  lemma ArrayJoinStep(xs: seq<JValue>, sep: string)
    requires |xs| >= 2
    ensures ArrayJoin(xs, sep) == ElementText(xs[0]) + sep + ArrayJoin(xs[1..], sep)
  {
    var texts := seq(|xs|, k requires 0 <= k < |xs| => ElementText(xs[k]));
    var rest := seq(|xs[1..]|, k requires 0 <= k < |xs[1..]| => ElementText(xs[1..][k]));
    assert texts[1..] == rest;
  }

  /** How `Array.prototype.join` writes one element. */
  function ElementText(x: JValue): string
    decreases x, 2
  {
    if IsNullish(x) then "" else ToStr(x)
  }

  /** The array value holding the given strings, in order. */
  function StrArray(ss: seq<string>): (r: JValue)
    ensures r.JArr? && |r.elems| == |ss|
    ensures forall k :: 0 <= k < |ss| ==> r.elems[k] == JStr(ss[k])
  {
    JArr(seq(|ss|, k requires 0 <= k < |ss| => JStr(ss[k])))
  }

  /** On an array of strings, `join` is the string join of those strings. */
  lemma ArrayJoinOfStrings(ss: seq<string>, sep: string)
    ensures ArrayJoin(StrArray(ss).elems, sep) == Join(ss, sep)
  {
    var xs := StrArray(ss).elems;
    var texts := seq(|xs|, k requires 0 <= k < |xs| => ElementText(xs[k]));
    forall k | 0 <= k < |ss| ensures texts[k] == ss[k] {
      assert xs[k] == JStr(ss[k]);
      assert ToStr(xs[k]) == ss[k];
    }
    assert texts == ss;
  }

  /** A leading null or undefined element adds nothing but its separator, whatever follows it. */
  lemma JoinSkipsLeadingNullish(x: JValue, xs: seq<JValue>, sep: string)
    requires IsNullish(x) && |xs| >= 1
    ensures ArrayJoin([x] + xs, sep) == sep + ArrayJoin(xs, sep)
  {
    ArrayJoinStep([x] + xs, sep);
    assert ([x] + xs)[1..] == xs;
  }

  /**
   * `join` differs from mapping `String` and joining: null and undefined elements become
   * empty text instead of "null" and "undefined".
   */
  lemma JoinSkipsNullish()
    ensures ArrayJoin([JNull, JInt(1), JUndefined], ",") == ",1,"
    ensures Join([ToStr(JNull), ToStr(JInt(1)), ToStr(JUndefined)], ",") == "null,1,undefined"
  {
    var xs := [JNull, JInt(1), JUndefined];
    var texts := seq(|xs|, k requires 0 <= k < |xs| => ElementText(xs[k]));
    assert ToStr(JInt(1)) == "1";
    assert texts == ["", "1", ""];
    assert texts[1..][1..] == [""];
    assert Join(texts[1..], ",") == "1,";
  }
}
