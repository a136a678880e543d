/** A device description: devices nested in devices, each with its services. */
module DescriptionTree {
  import opened Wrappers

  datatype ServiceNode = Service(serviceType: Option<string>) | OtherService

  /** A child element of a device list; absent lists are empty. */
  datatype Node =
    | Device(udn: Option<string>, deviceType: Option<string>, services: seq<ServiceNode>, children: seq<Node>)
    | OtherNode

  /** The device stands somewhere in the tree, at any depth. */
  ghost predicate InTree(d: Node, nodes: seq<Node>) {
    exists i :: 0 <= i < |nodes| && nodes[i].Device? && (nodes[i] == d || InTree(d, nodes[i].children))
  }

  /** All devices of the tree, embedded ones before the one they are embedded in. */
  function PostOrder(nodes: seq<Node>): seq<Node> {
    if nodes == [] then []
    else
      (if nodes[0].Device? then PostOrder(nodes[0].children) + [nodes[0]] else []) + PostOrder(nodes[1..])
  }

  lemma {:induction false} PostOrderIsTree(nodes: seq<Node>, d: Node)
    ensures d in PostOrder(nodes) <==> InTree(d, nodes)
    decreases nodes
  {
    if nodes != [] {
      var rest := nodes[1..];
      PostOrderIsTree(rest, d);
      if nodes[0].Device? {
        PostOrderIsTree(nodes[0].children, d);
      }
      if InTree(d, nodes) {
        var i :| 0 <= i < |nodes| && nodes[i].Device? && (nodes[i] == d || InTree(d, nodes[i].children));
        if i > 0 {
          assert rest[i - 1] == nodes[i];
          assert InTree(d, rest);
        }
      }
      if InTree(d, rest) {
        var i :| 0 <= i < |rest| && rest[i].Device? && (rest[i] == d || InTree(d, rest[i].children));
        assert nodes[i + 1] == rest[i];
      }
    }
  }

  lemma PostOrderAreDevices(nodes: seq<Node>)
    ensures forall d :: d in PostOrder(nodes) ==> d.Device?
  {
  }

  /** Sibling by sibling, and every device right after all those embedded in it. */
  lemma {:induction false} PostOrderAppend(a: seq<Node>, b: seq<Node>)
    ensures PostOrder(a + b) == PostOrder(a) + PostOrder(b)
    decreases |a|
  {
    if a == [] {
      assert a + b == b;
    } else {
      var own := if a[0].Device? then PostOrder(a[0].children) + [a[0]] else [];
      PostOrderAppend(a[1..], b);
      assert (a + b)[0] == a[0] && (a + b)[1..] == a[1..] + b;
      assert own + (PostOrder(a[1..]) + PostOrder(b)) == own + PostOrder(a[1..]) + PostOrder(b);
    }
  }

  lemma EmbeddedComeFirst(d: Node)
    ensures var ds := PostOrder([d]);
      if d.Device? then ds != [] && ds[|ds| - 1] == d && ds[..|ds| - 1] == PostOrder(d.children) else ds == []
  {
    assert [d][1..] == [];
  }
}
