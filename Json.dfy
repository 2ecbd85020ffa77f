/**
  Parsed JSON values and the Python operations the extractor applies to them:
  `key in value`, `all(key in value for key in keys)`, truthiness, `dict.get`,
  `type(value).__name__` and `str(value)`. Numbers are integers only.
*/
module Json {
  import opened Wrappers
  import opened Strings

  datatype Json =
    | JNull
    | JBool(b: bool)
    | JInt(n: int)
    | JStr(s: string)
    | JArr(items: seq<Json>)
    | JObj(fields: map<string, Json>)

  /** `type(j).__name__` for the Python value json.load produces. */
  function TypeName(j: Json): string
  {
    match j
    case JNull => "NoneType"
    case JBool(_) => "bool"
    case JInt(_) => "int"
    case JStr(_) => "str"
    case JArr(_) => "list"
    case JObj(_) => "dict"
  }

  /**
    How a builtin's argument check names a value of the wrong type: None is
    shown as "None", any other value by its type name.
  */
  function ArgumentName(j: Json): (r: string)
    ensures r == "None" <==> j.JNull?
    ensures !j.JNull? ==> r == TypeName(j)
  {
    if j.JNull? then "None" else TypeName(j)
  }

  /** `bool(j)`: None, False, 0 and empty strings, lists and dicts are false. */
  predicate Truthy(j: Json)
  {
    match j
    case JNull => false
    case JBool(b) => b
    case JInt(n) => n != 0
    case JStr(s) => s != ""
    case JArr(items) => items != []
    case JObj(fields) => fields != map[]
  }

  /** `fields.get(key, default)`. */
  function Get(fields: map<string, Json>, key: string, default: Json): Json
  {
    if key in fields then fields[key] else default
  }

  /**
    `key in container`: a key of a dict, an element of a list, a substring of
    a str; None stands for the TypeError that None, bools and ints raise.
  */
  function Contains(container: Json, key: string): (r: Option<bool>)
    ensures r.None? <==> (container.JNull? || container.JBool? || container.JInt?)
  {
    match container
    case JObj(fields) => Some(key in fields)
    case JArr(items) => Some(JStr(key) in items)
    case JStr(s) => Some(IsSubstring(key, s))
    case _ => None
  }

  /**
    `all(key in container for key in keys)`: stops at the first key that is
    not contained; the TypeError of `in` escapes at the first key.
  */
  function ContainsAll(container: Json, keys: seq<string>): (r: Option<bool>)
    ensures r.None? <==> keys != [] && Contains(container, keys[0]).None?
    ensures r == Some(true) <==> forall i :: 0 <= i < |keys| ==> Contains(container, keys[i]) == Some(true)
    decreases |keys|
  {
    if keys == [] then Some(true)
    else
      match Contains(container, keys[0])
      case None => None
      case Some(false) => Some(false)
      case Some(true) => ContainsAll(container, keys[1..])
  }

  /** On a dict, `all(key in d for key in keys)` holds exactly when every key is present. */
  lemma {:induction false} ContainsAllOfObject(fields: map<string, Json>, keys: seq<string>)
    ensures ContainsAll(JObj(fields), keys) == Some(forall i :: 0 <= i < |keys| ==> keys[i] in fields)
  {
    var r := ContainsAll(JObj(fields), keys);
    assert keys != [] ==> Contains(JObj(fields), keys[0]).Some?;
    assert forall i :: 0 <= i < |keys| ==> (Contains(JObj(fields), keys[i]) == Some(true) <==> keys[i] in fields);
    assert r.Some?;
    var present := forall i :: 0 <= i < |keys| ==> keys[i] in fields;
    if present {
      assert r == Some(true);
    } else {
      assert r != Some(true);
      assert !r.value;
      assert r == Some(false);
    }
  }

  /**
    `str(j)`, which is also what an f-string inserts. Lists and dicts are
    rendered by a placeholder (see README, Left out).
  */
  function Str(j: Json): string
  {
    match j
    case JNull => "None"
    case JBool(b) => if b then "True" else "False"
    case JInt(n) => IntStr(n)
    case JStr(s) => s
    case JArr(_) => "[...]"
    case JObj(_) => "{...}"
  }
}
