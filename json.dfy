/** JSON values as the services store them in Redis (`JSON.stringify` on
    write, `JSON.parse` on read), and the two JavaScript property operations
    the session code performs on a parsed value. Numbers are integers. */
module JsonValue {
  import opened Common
  import Strings

  datatype Json =
    | JNull
    | JBool(b: bool)
    | JNum(n: int)
    | JStr(s: string)
    | JArr(items: seq<Json>)
    | JObj(fields: map<string, Json>)

  /** What a Redis string key holds: text that `JSON.stringify` produced, or
      other text, which `JSON.parse` rejects (the empty string among it). */
  datatype Payload = Serialized(json: Json) | Text(text: string)

  function Stringify(j: Json): (p: Payload)
    ensures Parse(p) == Ok(j)
  {
    Serialized(j)
  }

  function Parse(p: Payload): (r: Result<Json>)
    ensures r.Ok? <==> p.Serialized?
    ensures r.Err? ==> r.error == SyntaxError
  {
    match p
    case Serialized(j) => Ok(j)
    case Text(_) => Err(SyntaxError)
  }

  /** `!data` for the text Redis returned: only the empty string is falsy. */
  predicate IsEmptyText(p: Payload)
  {
    p == Text("")
  }

  /** `value.name` on a parsed value: `None` is `undefined`. Reading from
      `null` throws; primitives and arrays have no such own property. */
  function ReadProperty(j: Json, name: string): (r: Result<Option<Json>>)
    ensures r.Err? <==> j.JNull?
    ensures j.JObj? && name in j.fields ==> r == Ok(Some(j.fields[name]))
  {
    match j
    case JNull => Err(TypeError)
    case JObj(f) => Ok(if name in f then Some(f[name]) else None)
    case _ => Ok(None)
  }

  /** `value.name = v` followed by `JSON.stringify(value)`, in strict mode:
      assigning on `null` or on a primitive throws; an object gains or
      replaces the property; an array keeps it out of its JSON text. */
  function AssignProperty(j: Json, name: string, v: Json): (r: Result<Json>)
    ensures r.Ok? <==> (j.JObj? || j.JArr?)
    ensures j.JObj? ==> r == Ok(JObj(j.fields[name := v]))
    ensures j.JArr? ==> r == Ok(j)
  {
    match j
    case JObj(f) => Ok(JObj(f[name := v]))
    case JArr(_) => Ok(j)
    case _ => Err(TypeError)
  }

  /** A value that string conversion cannot print: an object with an own
      `toString` property (a JSON value, so not callable, and `valueOf`
      gives back the object itself), or an array holding one at any depth,
      since `join` converts every item. */
  predicate Unprintable(j: Json)
  {
    match j
    case JObj(f) => "toString" in f
    case JArr(items) => exists i :: 0 <= i < |items| && Unprintable(items[i])
    case _ => false
  }

  /** `String(value)`, the text string concatenation (`+`) converts a
      value to; the conversion throws a TypeError on an unprintable value. */
  function ToText(j: Json): (r: Result<string>)
    ensures r.Err? <==> Unprintable(j)
    ensures r.Err? ==> r.error == TypeError
    ensures j.JStr? ==> r == Ok(j.s)
    ensures j.JObj? && r.Ok? ==> r.value == "[object Object]"
  {
    match j
    case JNull => Ok("null")
    case JBool(b) => Ok(if b then "true" else "false")
    case JNum(n) => Ok(Strings.IntText(n))
    case JStr(s) => Ok(s)
    case JArr(items) =>
      var texts := seq(|items|, i requires 0 <= i < |items| =>
                         if items[i].JNull? then Ok("") else ToText(items[i]));
      assert forall i :: 0 <= i < |items| ==> (texts[i].Err? <==> Unprintable(items[i]));
      if exists i :: 0 <= i < |texts| && texts[i].Err? then Err(TypeError)
      else Ok(Strings.Join(seq(|texts|, i requires 0 <= i < |texts| && texts[i].Ok? => texts[i].value), ","))
    case JObj(f) => if "toString" in f then Err(TypeError) else Ok("[object Object]")
  }

  /** The text `prefix + value.name` appends: `undefined` for a missing
      property, otherwise the property's conversion, which may throw. */
  function ConcatText(v: Option<Json>): (r: Result<string>)
    ensures v == None ==> r == Ok("undefined")
    ensures v.Some? ==> (r.Err? <==> Unprintable(v.value))
    ensures r.Err? ==> r.error == TypeError
    ensures v.Some? && v.value.JStr? ==> r == Ok(v.value.s)
  {
    match v
    case None => Ok("undefined")
    case Some(j) => ToText(j)
  }
}
