/** The parsed start script as the battle reads it: a tree of sections, each holding
    string values and named sub-sections (the LSL TDF data list). */
module Tdf {
  import opened Text

  datatype Node = Node(values: map<string, string>, sections: map<string, Node>)

  /** DataList::Find: the named sub-section, if present. */
  function Find(n: Node, name: string): (r: Option<Node>)
    ensures r.Some? <==> name in n.sections
    ensures r.Some? ==> r.value == n.sections[name]
  {
    if name in n.sections then Some(n.sections[name]) else None
  }

  /** DataList::GetString: the stored value, or `def` when the key is absent. */
  function GetString(n: Node, key: string, def: string): (r: string)
    ensures key in n.values ==> r == n.values[key]
    ensures key !in n.values ==> r == def
  {
    if key in n.values then n.values[key] else def
  }

  /** DataList::GetInt: the stored value read as an `int`, or `def` when the key is absent. */
  function GetInt(n: Node, key: string, def: int): (r: int)
    ensures key !in n.values ==> r == def
    ensures key in n.values ==> r == I32(ParseLong(n.values[key]))
  {
    if key in n.values then I32(ParseLong(n.values[key])) else def
  }

  /** A value written with IntToString reads back as the same `int`. */
  lemma GetIntOfIntToString(n: Node, key: string, v: i32)
    requires key in n.values && n.values[key] == IntToString(v)
    ensures GetInt(n, key, 0) == v
  {
    ParseLongOfIntToString(v);
  }
}
