/** A typed stand-in for what `yaml.safe_load` returns: strings, numbers, null,
    lists and string-keyed mappings. */
module Yaml {
  import opened Wrappers
  import opened Dicts

  /** `Num` carries a number's value and `text`, the way Python's `str()` prints it.
      A mapping lists its entries as they appear in the document. */
  datatype Node =
    | Null
    | Str(s: string)
    | Num(value: real, text: string)
    | List(elems: seq<Node>)
    | Mapping(entries: seq<(string, Node)>)

  /** Python truthiness of a loaded value. */
  predicate Truthy(n: Node) {
    match n
    case Null => false
    case Str(s) => s != []
    case Num(v, _) => v != 0.0
    case List(xs) => xs != []
    case Mapping(es) => es != []
  }

  /** `n.items()` of a mapping: the dict the loader builds, so a repeated key keeps
      its first position and its last value. Anything else has no items. */
  function Items(n: Node): (d: Dict<string, Node>)
    ensures n.Mapping? ==> (d == [] <==> n.entries == [])
    ensures !n.Mapping? ==> d == []
  {
    if n.Mapping? then FromPairs(n.entries) else []
  }

  /** `n.get(key)`: null when the key is absent. */
  function Lookup(n: Node, key: string): Node {
    match Get(Items(n), key)
    case Some(v) => v
    case None => Null
  }

  /** The elements `for x in n` visits: a list's elements, a mapping's keys, a
      string's characters. Null and numbers are not iterable and visit nothing. */
  function Iterate(n: Node): seq<Node> {
    match n
    case List(xs) => xs
    case Mapping(_) =>
      var ks := Keys(Items(n));
      seq(|ks|, i requires 0 <= i < |ks| => Str(ks[i]))
    case Str(s) => seq(|s|, i requires 0 <= i < |s| => Str([s[i]]))
    case _ => []
  }

  /** A mapping of one entry has that entry as its only item. */
  lemma ItemsSingle(k: string, v: Node)
    ensures Items(Mapping([(k, v)])) == [(k, v)]
  {
    assert [(k, v)][..0] == [];
    assert FromPairs<string, Node>([]) == [];
    assert Put([], k, v) == [(k, v)];
  }
}
