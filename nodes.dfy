/**
 * The parsed document as an abstract tree. A node has its local tag name, its
 * attributes (local name and value, in document order) and its children in
 * document order. Text, comment and document-root nodes are nodes with tag ""
 * and no attributes, which is what the XML library reports for them.
 */
module Nodes {
  import opened Wrappers

  datatype Attribute = Attribute(name: string, value: string)

  datatype Node = Node(tag: string, attributes: seq<Attribute>, children: seq<Node>)

  /** The first attribute named `key` in `attrs`, if any. */
  function FirstAttribute(attrs: seq<Attribute>, key: string): (r: Option<string>)
    ensures r.None? <==> forall i :: 0 <= i < |attrs| ==> attrs[i].name != key
    ensures r.Some? ==> exists i :: 0 <= i < |attrs| && attrs[i] == Attribute(key, r.value) &&
                                    forall j :: 0 <= j < i ==> attrs[j].name != key
  {
    if attrs == [] then None
    else if attrs[0].name == key then Some(attrs[0].value)
    else
      var r := FirstAttribute(attrs[1..], key);
      if r.Some? then
        ghost var i :| 0 <= i < |attrs[1..]| && attrs[1..][i] == Attribute(key, r.value) &&
                       forall j :: 0 <= j < i ==> attrs[1..][j].name != key;
        assert attrs[i + 1] == Attribute(key, r.value);
        r
      else r
  }

  /** Attribute lookup by name: the value of the first attribute called `key`. */
  function GetSomeAttribute(n: Node, key: string): (r: Option<string>)
    ensures r.None? <==> forall i :: 0 <= i < |n.attributes| ==> n.attributes[i].name != key
    ensures r.Some? ==> exists i :: 0 <= i < |n.attributes| && n.attributes[i] == Attribute(key, r.value) &&
                                    forall j :: 0 <= j < i ==> n.attributes[j].name != key
  {
    FirstAttribute(n.attributes, key)
  }

  /** Index of the first node of `cs` whose tag is `tag`, or `|cs|` when there is none. */
  function FirstTagged(cs: seq<Node>, tag: string): (k: nat)
    ensures k <= |cs|
    ensures forall j :: 0 <= j < k ==> cs[j].tag != tag
    ensures k < |cs| ==> cs[k].tag == tag
  {
    if cs == [] then 0
    else if cs[0].tag == tag then 0
    else 1 + FirstTagged(cs[1..], tag)
  }

  /** The first child with tag `tag`, as `children().find(has_tag_name(tag))`. */
  function FindChild(n: Node, tag: string): (r: Option<Node>)
    ensures r.None? <==> forall j :: 0 <= j < |n.children| ==> n.children[j].tag != tag
    ensures r.Some? ==> r.value in n.children && r.value.tag == tag
    ensures r.Some? ==> exists k :: 0 <= k < |n.children| && n.children[k] == r.value &&
                                    forall j :: 0 <= j < k ==> n.children[j].tag != tag
  {
    var k := FirstTagged(n.children, tag);
    if k < |n.children| then Some(n.children[k]) else None
  }

  /**
   * The identifier casing conventions of the inflector library: type-name
   * (Pascal) casing and field-name (snake) casing. They are foreign code, so
   * the generator takes them as parameters.
   */
  datatype Casing = Casing(pascal: string -> string, snake: string -> string)
}
