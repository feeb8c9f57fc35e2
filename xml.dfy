/**
 * An already-parsed XML (or HTML) tree, its pre-order traversal, the two
 * total accessors of src/xml/mod.rs, and the searches over a traversal that
 * the extractors use.
 */
module Xml {
  import opened Wrappers

  /**
   * A node of the tree. `name` is the local tag name (namespace prefix
   * dropped; text and root nodes have the empty name), `text` what the
   * parser reports as the node's text, `attrs` its attributes by name.
   */
  datatype Node = Node(name: string, text: Option<string>, attrs: map<string, string>, children: seq<Node>)

  /** The node and all nodes below it, in document (pre-)order, starting with the node itself. */
  function Descendants(n: Node): (r: seq<Node>)
    ensures |r| >= 1 && r[0] == n
    ensures n.children == [] ==> r == [n]
    decreases n, 1
  {
    [n] + DescendantsOfAll(n.children)
  }

  /** The traversals of the given siblings, one after the other. */
  function DescendantsOfAll(cs: seq<Node>): (r: seq<Node>)
    ensures |r| >= |cs|
    decreases cs, 0
  {
    if cs == [] then [] else Descendants(cs[0]) + DescendantsOfAll(cs[1..])
  }

  /** Every node of a child's traversal is in its parent's traversal. */
  lemma {:induction false} ChildDescendantsIncluded(n: Node, k: nat, x: Node)
    requires k < |n.children| && x in Descendants(n.children[k])
    ensures x in Descendants(n)
  {
    SiblingDescendantsIncluded(n.children, k, x);
  }

  lemma {:induction false} SiblingDescendantsIncluded(cs: seq<Node>, k: nat, x: Node)
    requires k < |cs| && x in Descendants(cs[k])
    ensures x in DescendantsOfAll(cs)
    decreases cs
  {
    if k > 0 {
      SiblingDescendantsIncluded(cs[1..], k - 1, x);
    }
  }

  /** A node in the traversal of some sibling. */
  lemma {:induction false} InSomeSibling(cs: seq<Node>, x: Node) returns (k: nat)
    requires x in DescendantsOfAll(cs)
    ensures k < |cs| && x in Descendants(cs[k])
    decreases cs
  {
    assert cs != [];
    if x in Descendants(cs[0]) {
      k := 0;
    } else {
      var k' := InSomeSibling(cs[1..], x);
      k := k' + 1;
    }
  }

  /** The traversal is closed under taking traversals of its nodes. */
  lemma {:induction false} DescendantsTransitive(n: Node, y: Node, x: Node)
    requires y in Descendants(n) && x in Descendants(y)
    ensures x in Descendants(n)
    decreases n
  {
    if y != n {
      var k := InSomeSibling(n.children, y);
      DescendantsTransitive(n.children[k], y, x);
      ChildDescendantsIncluded(n, k, x);
    }
  }

  /** `get_text_from_node`: the node's text, or "" when there is no node or it has no text. */
  function TextOf(node: Option<Node>): (r: string)
    ensures node.None? ==> r == ""
    ensures node.Some? && node.value.text.Some? ==> r == node.value.text.value
    ensures node.Some? && node.value.text.None? ==> r == ""
  {
    match node
    case Some(n) =>
      (match n.text
       case Some(t) => t
       case None => "")
    case None => ""
  }

  /** `get_attr_from_node`: the attribute's value, or "" when there is no node or no such attribute. */
  function AttrOf(node: Option<Node>, attr: string): (r: string)
    ensures node.None? ==> r == ""
    ensures node.Some? && attr in node.value.attrs ==> r == node.value.attrs[attr]
    ensures node.Some? && attr !in node.value.attrs ==> r == ""
  {
    match node
    case Some(n) => if attr in n.attrs then n.attrs[attr] else ""
    case None => ""
  }

  /** The nodes of `ds` with the given local name, in their order in `ds` (an iterator `filter`). */
  function Named(ds: seq<Node>, name: string): (r: seq<Node>)
    ensures |r| <= |ds|
    ensures forall k :: 0 <= k < |r| ==> r[k].name == name
  {
    if ds == [] then []
    else if ds[0].name == name then [ds[0]] + Named(ds[1..], name)
    else Named(ds[1..], name)
  }

  /** Filtering keeps exactly the nodes of the given name. */
  lemma {:induction false} NamedMembers(ds: seq<Node>, name: string, d: Node)
    ensures d in Named(ds, name) <==> d in ds && d.name == name
  {
    if ds != [] {
      NamedMembers(ds[1..], name, d);
      assert ds == [ds[0]] + ds[1..];
    }
  }

  /** The `entry` elements of a document, in document order. */
  function EntryNodes(root: Node): (r: seq<Node>)
  {
    Named(Descendants(root), "entry")
  }

  /** The first position at or after `from` whose node has the given name. */
  function FindFrom(ds: seq<Node>, from: nat, name: string): (r: Option<nat>)
    ensures r.Some? ==> from <= r.value < |ds| && ds[r.value].name == name
    ensures r.Some? ==> forall j :: from <= j < r.value ==> ds[j].name != name
    ensures r.None? ==> forall j :: from <= j < |ds| ==> ds[j].name != name
    decreases |ds| - from
  {
    if from >= |ds| then None
    else if ds[from].name == name then Some(from)
    else FindFrom(ds, from + 1, name)
  }

  /** The last position in `ds` whose node has the given name. */
  function LastIndex(ds: seq<Node>, name: string): (r: Option<nat>)
    ensures r.Some? ==> r.value < |ds| && ds[r.value].name == name
    ensures r.Some? ==> forall j :: r.value < j < |ds| ==> ds[j].name != name
    ensures r.None? ==> forall j :: 0 <= j < |ds| ==> ds[j].name != name
  {
    if ds == [] then None
    else if ds[|ds| - 1].name == name then Some(|ds| - 1)
    else LastIndex(ds[..|ds| - 1], name)
  }

  /** The node at an optional position. */
  function At(ds: seq<Node>, p: Option<nat>): (r: Option<Node>)
    requires p.Some? ==> p.value < |ds|
  {
    match p
    case Some(k) => Some(ds[k])
    case None => None
  }

  /** Where an iterator over `ds` stands after a `find` that returned position `p`: just past it, or exhausted. */
  function Resume(ds: seq<Node>, p: Option<nat>): (r: nat)
  {
    match p
    case Some(k) => k + 1
    case None => |ds|
  }

  /**
   * A `descendants()` iterator: the traversal of a node and how far it has
   * been consumed. `Find` consumes nodes up to and including the first one
   * with the given name, or all of them when there is none.
   */
  class Cursor {
    const nodes: seq<Node>
    var pos: nat

    ghost predicate Valid()
      reads this
    {
      pos <= |nodes|
    }

    constructor (root: Node)
      ensures Valid() && nodes == Descendants(root) && pos == 0
    {
      nodes := Descendants(root);
      pos := 0;
    }

    method Find(name: string) returns (found: Option<Node>)
      requires Valid()
      modifies this
      ensures Valid()
      ensures found == At(nodes, FindFrom(nodes, old(pos), name))
      ensures pos == Resume(nodes, FindFrom(nodes, old(pos), name))
    {
      while pos < |nodes| && nodes[pos].name != name
        invariant old(pos) <= pos <= |nodes|
        invariant forall j :: old(pos) <= j < pos ==> nodes[j].name != name
        decreases |nodes| - pos
      {
        pos := pos + 1;
      }
      if pos < |nodes| {
        found := Some(nodes[pos]);
        pos := pos + 1;
      } else {
        found := None;
      }
    }
  }
}
