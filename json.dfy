/** JSON values as the server code sees them after `response.json()` or in a
    `jsonb` metadata column, with JavaScript truthiness, optional property
    access (`a?.b`), the `||` chain and `String(v)`. */
module Json {
  import opened Wrappers
  import Radix
  import Text

  /** A database uuid. The model keeps uuids abstract as natural numbers. */
  type Uuid = nat

  /** Numbers are integers here; fractional JSON numbers are not modelled.
      `JUuid` and `JDate` are the strings a uuid or an ISO-8601 instant is
      written as. */
  datatype Json =
    | JNull
    | JBool(b: bool)
    | JNum(n: int)
    | JStr(s: string)
    | JArr(items: seq<Json>)
    | JObj(fields: map<string, Json>)
    | JUuid(id: Uuid)
    | JDate(ms: int)

  /** The message of the `TypeError` thrown when a property of `null` is
      read; its exact wording is the engine's. */
  const TypeErrorMessage: string := "TypeError"

  /** JavaScript truthiness of a value; `None` is `undefined`. */
  predicate Truthy(v: Option<Json>) {
    match v
    case None => false
    case Some(JNull) => false
    case Some(JBool(b)) => b
    case Some(JNum(n)) => n != 0
    case Some(JStr(s)) => s != ""
    case Some(_) => true
  }

  /** `v?.key`: the property of an object, `undefined` otherwise (a string
      or number has none of the property names used here). */
  function Prop(v: Option<Json>, key: string): (r: Option<Json>)
    ensures r.Some? ==> v.Some? && v.value.JObj? && key in v.value.fields
  {
    if v.Some? && v.value.JObj? && key in v.value.fields then Some(v.value.fields[key])
    else None
  }

  /** `v?.[i]`: an element of an array, `undefined` otherwise (indexing
      into a string is not modelled). */
  function Item(v: Option<Json>, i: nat): (r: Option<Json>)
    ensures r.Some? ==> v.Some? && v.value.JArr? && i < |v.value.items| && r.value == v.value.items[i]
  {
    if v.Some? && v.value.JArr? && i < |v.value.items| then Some(v.value.items[i]) else None
  }

  /** Follows a property path with optional chaining: `v?.a?.b`. */
  function Path(v: Option<Json>, keys: seq<string>): (r: Option<Json>)
    ensures keys == [] ==> r == v
    decreases keys
  {
    if keys == [] then v else Path(Prop(v, keys[0]), keys[1..])
  }

  /** `a || b || …`: the first truthy operand, or else the last one. */
  function OrChain(vs: seq<Option<Json>>): (r: Option<Json>)
    requires |vs| >= 1
    ensures (exists i :: 0 <= i < |vs| && Truthy(vs[i])) ==> Truthy(r)
    ensures Truthy(r) ==>
      exists i :: 0 <= i < |vs| && vs[i] == r && Truthy(vs[i]) && forall j :: 0 <= j < i ==> !Truthy(vs[j])
    ensures !Truthy(r) ==> r == vs[|vs| - 1] && forall j :: 0 <= j < |vs| ==> !Truthy(vs[j])
  {
    if |vs| == 1 || Truthy(vs[0]) then vs[0]
    else
      var r := OrChain(vs[1..]);
      assert forall j :: 1 <= j < |vs| ==> vs[j] == vs[1..][j - 1];
      if Truthy(r) then
        var i :| 0 <= i < |vs[1..]| && vs[1..][i] == r && Truthy(vs[1..][i])
          && forall j :: 0 <= j < i ==> !Truthy(vs[1..][j]);
        assert vs[i + 1] == r;
        r
      else
        r
  }

  /** The text a uuid is written as where the source interpolates one. */
  function UuidText(id: Uuid): (s: string)
    ensures s != []
  {
    Radix.ToRadix(id, 10)
  }

  /** `String(v)`. Arrays join their elements with ",", writing `null` and
      `undefined` elements as empty strings; objects become
      "[object Object]". An instant stands for its ISO-8601 text, whose
      calendar rendering is not modelled. */
  function ToJsString(v: Option<Json>): string {
    match v
    case None => "undefined"
    case Some(j) => Str(j)
  }

  function Str(j: Json): string
    decreases j
  {
    match j
    case JNull => "null"
    case JBool(b) => if b then "true" else "false"
    case JNum(n) => Radix.IntToString(n)
    case JStr(s) => s
    case JArr(items) =>
      var parts := seq(|items|, i requires 0 <= i < |items| => if items[i].JNull? then "" else Str(items[i]));
      Text.Join(parts, ",")
    case JObj(_) => "[object Object]"
    case JUuid(id) => UuidText(id)
    case JDate(ms) => Radix.IntToString(ms)
  }
}
