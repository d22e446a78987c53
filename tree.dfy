/** The plain value tree that YAML loading yields and YAML dumping consumes:
    `None`, booleans, integers, strings, lists and mappings (Python dicts,
    modelled as insertion-ordered pair sequences). */
module Tree {

  datatype Value =
    | Null
    | Boolean(b: bool)
    | Integer(i: int)
    | Text(s: string)
    | Sequence(items: seq<Value>)
    | Mapping(entries: seq<(Value, Value)>)
}
