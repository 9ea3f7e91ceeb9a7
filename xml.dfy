/**
 * The in-memory form of a benchmark-definition document, as ElementTree and
 * lxml present it to the two tools: elements with a tag, attributes, text,
 * ordered children and the source line, and comments (which the generator's
 * tree builder keeps). Parsing, DTD validation and serialisation are done by
 * those libraries and are not part of this model.
 */
module Xml {
  import opened Wrappers

  datatype Node =
    | Element(tag: string, attrs: map<string, string>, text: Option<string>, children: seq<Node>, line: nat)
    | Comment(content: string)

  predicate HasTag(n: Node, tag: string) {
    n.Element? && n.tag == tag
  }

  /** A `<tasks>` element, the element both tools look for. */
  predicate IsTasks(n: Node) {
    HasTag(n, "tasks")
  }

  /** `element.get(key)`: the attribute's value, or None when it is absent. */
  function Get(n: Node, key: string): (r: Option<string>)
    ensures r.Some? <==> n.Element? && key in n.attrs
  {
    if n.Element? && key in n.attrs then Some(n.attrs[key]) else None
  }

  /** `element.findall(tag)`, given the element's children: those with that tag, in order. */
  function FindAll(children: seq<Node>, tag: string): (r: seq<Node>)
    ensures forall i :: 0 <= i < |r| ==> HasTag(r[i], tag)
  {
    if children == [] then []
    else (if HasTag(children[0], tag) then [children[0]] else []) + FindAll(children[1..], tag)
  }

  /** The children that `findall(tag)` does not return, in order. */
  function Others(children: seq<Node>, tag: string): (r: seq<Node>)
    ensures forall i :: 0 <= i < |r| ==> !HasTag(r[i], tag)
  {
    if children == [] then []
    else (if HasTag(children[0], tag) then [] else [children[0]]) + Others(children[1..], tag)
  }

  lemma {:induction false} FindAllAppend(a: seq<Node>, b: seq<Node>, tag: string)
    ensures FindAll(a + b, tag) == FindAll(a, tag) + FindAll(b, tag)
    decreases |a|
  {
    if a == [] {
      assert a + b == b;
    } else {
      assert (a + b)[0] == a[0] && (a + b)[1..] == a[1..] + b;
      FindAllAppend(a[1..], b, tag);
      var h := if HasTag(a[0], tag) then [a[0]] else [];
      assert FindAll(a + b, tag) == h + FindAll(a[1..] + b, tag);
      assert FindAll(a, tag) == h + FindAll(a[1..], tag);
    }
  }

  lemma {:induction false} OthersAppend(a: seq<Node>, b: seq<Node>, tag: string)
    ensures Others(a + b, tag) == Others(a, tag) + Others(b, tag)
    decreases |a|
  {
    if a == [] {
      assert a + b == b;
    } else {
      assert (a + b)[0] == a[0] && (a + b)[1..] == a[1..] + b;
      OthersAppend(a[1..], b, tag);
      var h := if HasTag(a[0], tag) then [] else [a[0]];
      assert Others(a + b, tag) == h + Others(a[1..] + b, tag);
      assert Others(a, tag) == h + Others(a[1..], tag);
    }
  }

  /** `findall(tag)` returns exactly the children with that tag. */
  lemma {:induction false} FindAllMembers(children: seq<Node>, tag: string)
    ensures forall n :: n in FindAll(children, tag) <==> n in children && HasTag(n, tag)
    ensures forall n :: n in Others(children, tag) <==> n in children && !HasTag(n, tag)
    decreases |children|
  {
    if children != [] {
      FindAllMembers(children[1..], tag);
      assert children == [children[0]] + children[1..];
    }
  }

  /** `node.iter(tag)`: the node itself and all its descendants with that tag, in document order. */
  function Iter(n: Node, tag: string): (r: seq<Node>)
    ensures forall i :: 0 <= i < |r| ==> HasTag(r[i], tag)
    decreases n
  {
    (if HasTag(n, tag) then [n] else []) + (if n.Element? then IterAll(n.children, tag) else [])
  }

  /** `iter(tag)` over a sequence of sibling nodes, concatenated in order. */
  function IterAll(ns: seq<Node>, tag: string): (r: seq<Node>)
    ensures forall i :: 0 <= i < |r| ==> HasTag(r[i], tag)
    decreases ns
  {
    if ns == [] then [] else Iter(ns[0], tag) + IterAll(ns[1..], tag)
  }

  /** `m` is `n` itself or a node somewhere below it. */
  predicate InTree(m: Node, n: Node)
    decreases n
  {
    m == n || (n.Element? && exists c :: c in n.children && InTree(m, c))
  }

  /** `iter(tag)` finds every node of the tree with that tag, and nothing else. */
  lemma {:induction false} IterMembers(n: Node, tag: string)
    ensures forall m :: m in Iter(n, tag) <==> InTree(m, n) && HasTag(m, tag)
    decreases n, 1
  {
    if n.Element? {
      IterAllMembers(n.children, tag);
    }
  }

  lemma {:induction false} IterAllMembers(ns: seq<Node>, tag: string)
    ensures forall m :: m in IterAll(ns, tag) <==> (exists c :: c in ns && InTree(m, c)) && HasTag(m, tag)
    decreases ns, 0
  {
    if ns != [] {
      IterMembers(ns[0], tag);
      IterAllMembers(ns[1..], tag);
      assert ns == [ns[0]] + ns[1..];
      forall m | m in IterAll(ns, tag)
        ensures exists c :: c in ns && InTree(m, c)
      {
        if m in Iter(ns[0], tag) {
          assert ns[0] in ns && InTree(m, ns[0]);
        } else {
          var c :| c in ns[1..] && InTree(m, c);
          assert c in ns;
        }
      }
      forall m | (exists c :: c in ns && InTree(m, c)) && HasTag(m, tag)
        ensures m in IterAll(ns, tag)
      {
        var c :| c in ns && InTree(m, c);
        if c != ns[0] {
          assert c in ns[1..];
        }
      }
    }
  }
}
