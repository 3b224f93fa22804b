/** The overview page of the devtools client counts the components of the current
    component tree. */
module Overview {
  import opened Common

  datatype ComponentTreeNode = ComponentTreeNode(id: string, name: string, children: seq<ComponentTreeNode>, metaTag: Option<int>)

  /** The nodes of a tree in pre-order: the node itself, then each child's nodes. */
  function Nodes(n: ComponentTreeNode): (r: seq<ComponentTreeNode>)
    ensures |r| >= 1 && r[0] == n
    decreases n
  {
    [n] + NodesOfAll(n.children)
  }

  function NodesOfAll(ns: seq<ComponentTreeNode>): seq<ComponentTreeNode>
    decreases ns
  {
    if ns == [] then [] else Nodes(ns[0]) + NodesOfAll(ns[1..])
  }

  lemma {:induction false} NodesOfAllSnoc(ns: seq<ComponentTreeNode>, n: ComponentTreeNode)
    ensures NodesOfAll(ns + [n]) == NodesOfAll(ns) + Nodes(n)
    decreases |ns|
  {
    if ns == [] {
      assert ns + [n] == [n];
      assert NodesOfAll([n]) == Nodes(n) + NodesOfAll([]);
    } else {
      assert (ns + [n])[1..] == ns[1..] + [n];
      NodesOfAllSnoc(ns[1..], n);
    }
  }

  /** countComponents: one for the node, plus the count of each child, accumulated
      in a loop. The result is the number of nodes of the tree. */
  method CountComponents(node: ComponentTreeNode) returns (count: nat)
    ensures count == |Nodes(node)|
    ensures count >= 1
    decreases node
  {
    count := 1;
    for i := 0 to |node.children|
      invariant count == 1 + |NodesOfAll(node.children[..i])|
    {
      var c := CountComponents(node.children[i]);
      NodesOfAllSnoc(node.children[..i], node.children[i]);
      assert node.children[..i + 1] == node.children[..i] + [node.children[i]];
      count := count + c;
    }
    assert node.children[..|node.children|] == node.children;
  }

  /** The sum of the children's counts. */
  function SumOfCounts(ns: seq<ComponentTreeNode>): nat
    decreases ns
  {
    if ns == [] then 0 else |Nodes(ns[0])| + SumOfCounts(ns[1..])
  }

  /** A node counts one more than the sum of its children's counts; a leaf counts
      one. */
  lemma CountRecurrence(n: ComponentTreeNode)
    ensures |Nodes(n)| == 1 + SumOfCounts(n.children)
    ensures n.children == [] ==> |Nodes(n)| == 1
  {
    NodesOfAllLength(n.children);
  }

  lemma {:induction false} NodesOfAllLength(ns: seq<ComponentTreeNode>)
    ensures |NodesOfAll(ns)| == SumOfCounts(ns)
    decreases ns
  {
    if ns != [] {
      NodesOfAllLength(ns[1..]);
    }
  }

  /** The counted nodes are the tree's nodes: the root, and with every counted node
      also each of its children. */
  lemma {:induction false} NodesClosedUnderChildren(n: ComponentTreeNode, x: ComponentTreeNode, c: ComponentTreeNode)
    requires x in Nodes(n) && c in x.children
    ensures c in Nodes(n)
    decreases n
  {
    if x == n {
      ChildInNodesOfAll(n.children, c);
    } else {
      var k := NodesOfAllContains(n.children, x);
      NodesClosedUnderChildren(n.children[k], x, c);
      NodesOfAllIncludes(n.children, k, c);
    }
  }

  lemma {:induction false} ChildInNodesOfAll(ns: seq<ComponentTreeNode>, c: ComponentTreeNode)
    requires c in ns
    ensures c in NodesOfAll(ns)
    decreases ns
  {
    if ns[0] != c {
      ChildInNodesOfAll(ns[1..], c);
    }
  }

  /** A node counted among a forest lies in the tree of one of its members. */
  lemma {:induction false} NodesOfAllContains(ns: seq<ComponentTreeNode>, x: ComponentTreeNode) returns (k: nat)
    requires x in NodesOfAll(ns)
    ensures k < |ns| && x in Nodes(ns[k])
    decreases ns
  {
    if x in Nodes(ns[0]) {
      k := 0;
    } else {
      var j := NodesOfAllContains(ns[1..], x);
      k := j + 1;
    }
  }

  lemma {:induction false} NodesOfAllIncludes(ns: seq<ComponentTreeNode>, k: nat, c: ComponentTreeNode)
    requires k < |ns| && c in Nodes(ns[k])
    ensures c in NodesOfAll(ns)
    decreases ns
  {
    if k > 0 {
      NodesOfAllIncludes(ns[1..], k - 1, c);
    }
  }

  /** The displayed component count: zero without a tree, otherwise its node count. */
  method ComponentCount(tree: Option<ComponentTreeNode>) returns (count: nat)
    ensures tree.None? ==> count == 0
    ensures tree.Some? ==> count == |Nodes(tree.value)| && count >= 1
  {
    if tree.Some? {
      count := CountComponents(tree.value);
    } else {
      count := 0;
    }
  }
}
