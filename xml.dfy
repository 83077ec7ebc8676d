/**
 * XML documents as value trees. An ElementTree element `e` with `e.text = t`
 * is an `Element` whose first child is `Text(t)`; a minidom text node is a
 * `Text` child and a CDATA section a `CData` child. Names carry their
 * namespace URI, as ElementTree's `QName(ns, tag)` does; a name without a
 * namespace has `ns == ""`.
 */
module Xml {
  import opened Wrappers

  datatype QName = QName(ns: string, local: string)

  datatype Node =
    | Element(name: QName, attrs: seq<(QName, string)>, children: seq<Node>)
    | Text(data: string)
    | CData(data: string)

  function Plain(local: string): QName {
    QName("", local)
  }

  /** An element whose `text` is set and that has no sub-elements. */
  function Leaf(name: QName, attrs: seq<(QName, string)>, text: string): Node {
    Element(name, attrs, [Text(text)])
  }

  /** The value of the first attribute called `key`. */
  function AttrOf(attrs: seq<(QName, string)>, key: QName): Option<string>
  {
    if attrs == [] then None
    else if attrs[0].0 == key then Some(attrs[0].1)
    else AttrOf(attrs[1..], key)
  }

  function Attribute(n: Node, key: QName): Option<string> {
    if n.Element? then AttrOf(n.attrs, key) else None
  }

  predicate IsNamed(n: Node, name: QName) {
    n.Element? && n.name == name
  }

  /** The children called `name`, in document order. */
  function ChildrenNamed(kids: seq<Node>, name: QName): (r: seq<Node>)
    ensures forall i :: 0 <= i < |r| ==> IsNamed(r[i], name)
  {
    if kids == [] then []
    else (if IsNamed(kids[0], name) then [kids[0]] else []) + ChildrenNamed(kids[1..], name)
  }

  /** The first child called `name`. */
  function FirstNamed(kids: seq<Node>, name: QName): (r: Option<Node>)
    ensures r.Some? ==> IsNamed(r.value, name) && r.value in kids
    ensures r.None? <==> forall i :: 0 <= i < |kids| ==> !IsNamed(kids[i], name)
  {
    if kids == [] then None
    else if IsNamed(kids[0], name) then Some(kids[0])
    else FirstNamed(kids[1..], name)
  }

  /** An element's `text`: its leading text child, or `""` when it has none. */
  function TextOf(n: Node): string {
    if n.Element? && |n.children| > 0 && n.children[0].Text? then n.children[0].data else ""
  }

  lemma ChildrenNamedAppend(a: seq<Node>, b: seq<Node>, name: QName)
    ensures ChildrenNamed(a + b, name) == ChildrenNamed(a, name) + ChildrenNamed(b, name)
  {
    if a != [] {
      assert (a + b)[1..] == a[1..] + b;
      assert (a + b)[0] == a[0];
      ChildrenNamedAppend(a[1..], b, name);
      var h := if IsNamed(a[0], name) then [a[0]] else [];
      assert ChildrenNamed(a, name) == h + ChildrenNamed(a[1..], name);
      assert ChildrenNamed(a + b, name) == h + ChildrenNamed(a[1..] + b, name);
    } else {
      assert a + b == b;
    }
  }

  lemma FirstNamedAppend(a: seq<Node>, b: seq<Node>, name: QName)
    requires forall i :: 0 <= i < |a| ==> !IsNamed(a[i], name)
    ensures FirstNamed(a + b, name) == FirstNamed(b, name)
  {
    if a != [] {
      assert (a + b)[1..] == a[1..] + b;
      assert (a + b)[0] == a[0];
      FirstNamedAppend(a[1..], b, name);
    } else {
      assert a + b == b;
    }
  }

  lemma {:induction false} ChildrenNamedAll(kids: seq<Node>, name: QName)
    requires forall i :: 0 <= i < |kids| ==> IsNamed(kids[i], name)
    ensures ChildrenNamed(kids, name) == kids
  {
    if kids != [] {
      ChildrenNamedAll(kids[1..], name);
      assert [kids[0]] + kids[1..] == kids;
    }
  }

  lemma {:induction false} ChildrenNamedNone(kids: seq<Node>, name: QName)
    requires forall i :: 0 <= i < |kids| ==> !IsNamed(kids[i], name)
    ensures ChildrenNamed(kids, name) == []
  {
    if kids != [] {
      ChildrenNamedNone(kids[1..], name);
    }
  }
  /** The only child called `name` is the first one. */
  lemma {:induction false} FirstNamedUnique(kids: seq<Node>, x: Node, name: QName)
    requires x in kids && IsNamed(x, name)
    requires forall y :: y in kids && IsNamed(y, name) ==> y == x
    ensures FirstNamed(kids, name) == Some(x)
  {
    if !IsNamed(kids[0], name) {
      assert x in kids[1..];
      FirstNamedUnique(kids[1..], x, name);
    }
  }

  lemma FirstNamedSecond(kids: seq<Node>, name: QName)
    requires |kids| >= 2 && !IsNamed(kids[0], name) && IsNamed(kids[1], name)
    ensures FirstNamed(kids, name) == Some(kids[1])
  {
    assert kids[1..][0] == kids[1];
  }

  lemma FirstNamedThird(kids: seq<Node>, name: QName)
    requires |kids| >= 3 && !IsNamed(kids[0], name) && !IsNamed(kids[1], name) && IsNamed(kids[2], name)
    ensures FirstNamed(kids, name) == Some(kids[2])
  {
    FirstNamedSecond(kids[1..], name);
  }
}
