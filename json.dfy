/**
  The values that `JSON.parse` produces, and JavaScript truthiness on them.
  Object members are a map: the order in which `JSON.stringify` lists them is
  not part of this model.
 */
module Json {

  datatype Value =
    | Null
    | Bool(b: bool)
    | Number(n: real)
    | Str(s: string)
    | Arr(items: seq<Value>)
    | Obj(fields: map<string, Value>)

  /** `!!v` in JavaScript: `null`, `false`, `0` (also `-0`) and `""` are falsy;
      every array and every object is truthy. */
  predicate Truthy(v: Value)
  {
    match v
    case Null => false
    case Bool(b) => b
    case Number(n) => n != 0.0
    case Str(s) => s != ""
    case Arr(_) => true
    case Obj(_) => true
  }

  /** The `{}` every source starts from before its first parse. */
  const EmptyObject: Value := Obj(map[])
}
