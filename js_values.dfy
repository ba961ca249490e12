/** The JavaScript values the TypeScript side passes around: card
    attributes, extension contexts, rule manuals.  An object keeps its
    properties in insertion order, as JavaScript does for keys that are
    not array indices (JavaScript lists integer-like keys such as `"1"`
    first, in ascending order; the model does not).  Numbers are integers
    here. */
module JsValues {
  import opened Wrappers
  import opened OrderedMaps
  import Text

  datatype Value =
    | Str(s: string)
    | Num(n: int)
    | Bool(b: bool)
    | Null
    | Arr(items: seq<Value>)
    | Obj(fields: seq<(string, Value)>)

  /** JavaScript truthiness: `""`, `0`, `false` and `null` are falsy. */
  predicate Truthy(v: Value)
  {
    match v
    case Str(s) => s != []
    case Num(n) => n != 0
    case Bool(b) => b
    case Null => false
    case _ => true
  }

  type Fields = seq<(string, Value)>

  /** `String(v)`, for the values a reply or a substitution can hold. */
  function ToJsString(v: Value): string
  {
    match v
    case Str(s) => s
    case Num(n) => Text.IntToString(n)
    case Bool(b) => if b then "true" else "false"
    case Null => "null"
    case Arr(items) => JoinItems(items)
    case Obj(_) => "[object Object]"
  }

  /** `Array.prototype.toString`: the elements joined by commas, `null`
      written as nothing. */
  function JoinItems(items: seq<Value>): string
    decreases items
  {
    if items == [] then []
    else
      var first := if items[0] == Null then "" else ToJsString(items[0]);
      if |items| == 1 then first else first + "," + JoinItems(items[1..])
  }

  /** The properties every plain JavaScript object inherits from
      `Object.prototype`. */
  const ObjectPrototypeMembers: set<string> := {
    "constructor", "__proto__", "__defineGetter__", "__defineSetter__",
    "__lookupGetter__", "__lookupSetter__", "hasOwnProperty", "isPrototypeOf",
    "propertyIsEnumerable", "toString", "toLocaleString", "valueOf"
  }

  /** What `obj[key]` finds on a plain object: an own property's value, or
      a member inherited from `Object.prototype` (a function, or the
      prototype object itself for `__proto__`; truthy either way). */
  datatype Lookup<T> = Own(value: T) | Inherited(member: string)

  /** `obj[key]` on a plain object, `None` for `undefined`; `key in obj`
      holds exactly when the result is present.  An own property hides
      the inherited member of the same name. */
  function ReadProperty<T>(fs: seq<(string, T)>, key: string): (r: Option<Lookup<T>>)
    ensures key in Keys(fs) ==> r == Some(Own(Get(fs, key).value))
    ensures key !in Keys(fs) ==> (r.Some? <==> key in ObjectPrototypeMembers)
    ensures r.Some? && r.value.Inherited? ==> r.value.member == key && key !in Keys(fs)
  {
    match Get(fs, key)
    case Some(v) => Some(Own(v))
    case None => if key in ObjectPrototypeMembers then Some(Inherited(key)) else None
  }

  /** Whether `obj[key] = v` on a plain object creates or updates an own
      property.  Without an own `__proto__`, assigning `__proto__` calls
      the inherited setter instead: a primitive is ignored and an object
      becomes the prototype, which no own key, `JSON.stringify` or
      `Object.entries` shows. */
  predicate StoresOwn<T>(fs: seq<(string, T)>, key: string)
  {
    key != "__proto__" || key in Keys(fs)
  }

  /** `obj[key] = v` on a plain object, as its own properties show it. */
  function Assign<T>(fs: seq<(string, T)>, key: string, v: T): (r: seq<(string, T)>)
    ensures StoresOwn(fs, key) ==> Get(r, key) == Some(v)
    ensures !StoresOwn(fs, key) ==> r == fs && ReadProperty(r, key) == Some(Inherited(key))
    ensures forall k :: k != key ==> Get(r, k) == Get(fs, k)
    ensures Get(fs, "__proto__") == None ==> Get(r, "__proto__") == None
  {
    if StoresOwn(fs, key) then Put(fs, key, v) else fs
  }

  /** `String(obj[member])` for an inherited member, as Node.js writes it:
      a built-in function prints as native code, the prototype object as
      `[object Object]`. */
  function InheritedText(member: string): string
  {
    if member == "__proto__" then "[object Object]"
    else "function " + (if member == "constructor" then "Object" else member) + "() { [native code] }"
  }
}
