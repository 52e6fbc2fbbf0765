/**
 * The AVL tree kept as an alternative index of transmitted packets: insertion
 * by payload identifier with the four rotation cases, and lookup. The tree is
 * modelled on values: a rotation builds the rotated nodes instead of relinking
 * them in place.
 */
module AvlTree {
  import opened Wrappers

  /** A packet: (payload identifier, time in milliseconds). */
  type Packet = (int, int)

  datatype Tree = Nil | Node(value: Packet, left: Tree, right: Tree, height: int)

  function Max(a: int, b: int): int
  {
    if a >= b then a else b
  }

  function Height(t: Tree): int
  {
    if t.Nil? then 0 else t.height
  }

  function Balance(t: Tree): int
  {
    if t.Nil? then 0 else Height(t.left) - Height(t.right)
  }

  /** Every stored height is one more than the taller child's. */
  predicate HeightsOk(t: Tree)
  {
    t.Nil? || (HeightsOk(t.left) && HeightsOk(t.right) && t.height == 1 + Max(Height(t.left), Height(t.right)))
  }

  /** The packets in key order (left subtree, node, right subtree). */
  function InOrder(t: Tree): seq<Packet>
  {
    if t.Nil? then [] else InOrder(t.left) + [t.value] + InOrder(t.right)
  }

  /** The packets stored in the tree. */
  function Elems(t: Tree): multiset<Packet>
  {
    if t.Nil? then multiset{} else Elems(t.left) + multiset{t.value} + Elems(t.right)
  }

  /** No key in the tree exceeds `x`. */
  predicate AtMost(t: Tree, x: int)
  {
    t.Nil? || (t.value.0 <= x && AtMost(t.left, x) && AtMost(t.right, x))
  }

  /** No key in the tree is below `x`. */
  predicate AtLeast(t: Tree, x: int)
  {
    t.Nil? || (x <= t.value.0 && AtLeast(t.left, x) && AtLeast(t.right, x))
  }

  /** The search-tree order with duplicates allowed: left keys <= node key <= right keys. */
  predicate Ordered(t: Tree)
  {
    t.Nil? || (Ordered(t.left) && Ordered(t.right) && AtMost(t.left, t.value.0) && AtLeast(t.right, t.value.0))
  }

  lemma {:induction false} AtMostMember(t: Tree, x: int, p: Packet)
    requires AtMost(t, x) && p in Elems(t)
    ensures p.0 <= x
  {
    if p in Elems(t.left) {
      AtMostMember(t.left, x, p);
    } else if p in Elems(t.right) {
      AtMostMember(t.right, x, p);
    }
  }

  lemma {:induction false} AtLeastMember(t: Tree, x: int, p: Packet)
    requires AtLeast(t, x) && p in Elems(t)
    ensures x <= p.0
  {
    if p in Elems(t.left) {
      AtLeastMember(t.left, x, p);
    } else if p in Elems(t.right) {
      AtLeastMember(t.right, x, p);
    }
  }

  lemma {:induction false} AtMostMono(t: Tree, x: int, y: int)
    ensures AtMost(t, x) && x <= y ==> AtMost(t, y)
  {
    if t.Node? {
      AtMostMono(t.left, x, y);
      AtMostMono(t.right, x, y);
    }
  }

  lemma {:induction false} AtLeastMono(t: Tree, x: int, y: int)
    ensures AtLeast(t, y) && x <= y ==> AtLeast(t, x)
  {
    if t.Node? {
      AtLeastMono(t.left, x, y);
      AtLeastMono(t.right, x, y);
    }
  }

  lemma {:induction false} HeightBounds(t: Tree)
    requires HeightsOk(t)
    ensures Height(t) >= 0
    ensures t.Node? ==> Height(t) >= 1
  {
    if t.Node? {
      HeightBounds(t.left);
      HeightBounds(t.right);
    }
  }

  /** Python's `_right_rotate`: the left child `y` becomes the root and `z`
      takes `y`'s right subtree as its left; both heights are recomputed. */
  function RightRotate(z: Tree): (r: Tree)
    requires z.Node? && z.left.Node?
    ensures r.Node? && r.right.Node?
    ensures InOrder(r) == InOrder(z) && Elems(r) == Elems(z)
    ensures HeightsOk(z.left.left) && HeightsOk(z.left.right) && HeightsOk(z.right) ==> HeightsOk(r)
  {
    var y := z.left;
    var t3 := y.right;
    var z' := Node(z.value, t3, z.right, 1 + Max(Height(t3), Height(z.right)));
    Node(y.value, y.left, z', 1 + Max(Height(y.left), Height(z')))
  }

  /** Python's `_left_rotate`: the right child `x` becomes the root and `y`
      takes `x`'s left subtree as its right; both heights are recomputed. */
  function LeftRotate(y: Tree): (r: Tree)
    requires y.Node? && y.right.Node?
    ensures r.Node? && r.left.Node?
    ensures InOrder(r) == InOrder(y) && Elems(r) == Elems(y)
    ensures HeightsOk(y.left) && HeightsOk(y.right.left) && HeightsOk(y.right.right) ==> HeightsOk(r)
  {
    var x := y.right;
    var t2 := x.left;
    var y' := Node(y.value, y.left, t2, 1 + Max(Height(y.left), Height(t2)));
    Node(x.value, y', x.right, 1 + Max(Height(y'), Height(x.right)))
  }

  /** A right rotation keeps the search-tree order and every bound on the keys. */
  lemma RightRotateOrdered(z: Tree, k: int)
    requires z.Node? && z.left.Node?
    ensures Ordered(z) ==> Ordered(RightRotate(z))
    ensures AtMost(z, k) ==> AtMost(RightRotate(z), k)
    ensures AtLeast(z, k) ==> AtLeast(RightRotate(z), k)
  {
    var y := z.left;
    var r := RightRotate(z);
    assert r.left == y.left && r.right.left == y.right && r.right.right == z.right;
    assert r.value == y.value && r.right.value == z.value;
    if Ordered(z) {
      assert Ordered(y) && AtMost(y, z.value.0);
      AtLeastMono(z.right, y.value.0, z.value.0);
      assert Ordered(r.right);
    }
    if AtMost(z, k) {
      assert AtMost(y, k);
      assert AtMost(r.right, k);
    }
    if AtLeast(z, k) {
      assert AtLeast(y, k);
      assert AtLeast(r.right, k);
    }
  }

  /** A left rotation keeps the search-tree order and every bound on the keys. */
  lemma LeftRotateOrdered(y: Tree, k: int)
    requires y.Node? && y.right.Node?
    ensures Ordered(y) ==> Ordered(LeftRotate(y))
    ensures AtMost(y, k) ==> AtMost(LeftRotate(y), k)
    ensures AtLeast(y, k) ==> AtLeast(LeftRotate(y), k)
  {
    var x := y.right;
    var r := LeftRotate(y);
    assert r.left.left == y.left && r.left.right == x.left && r.right == x.right;
    assert r.value == x.value && r.left.value == y.value;
    if Ordered(y) {
      assert Ordered(x) && AtLeast(x, y.value.0);
      AtMostMono(y.left, y.value.0, x.value.0);
      assert Ordered(r.left);
    }
    if AtMost(y, k) {
      assert AtMost(x, k);
      assert AtMost(r.left, k);
    }
    if AtLeast(y, k) {
      assert AtLeast(x, k);
      assert AtLeast(r.left, k);
    }
  }

  /** Python's `_insert`. Keys below the node's go left, the others (duplicates
      included) go right; the height is recomputed and `Rebalance` applies.
      `None` stands for the `AttributeError` raised when a rotation reaches
      for a child that is missing. */
  function InsertInto(node: Tree, value: Packet): (r: Option<Tree>)
    ensures node.Nil? ==> r == Some(Node(value, Nil, Nil, 1))
    decreases node
  {
    if node.Nil? then Some(Node(value, Nil, Nil, 1))
    else if value.0 < node.value.0 then
      match InsertInto(node.left, value)
      case None => None
      case Some(l) => Rebalance(Refresh(node.(left := l)), value)
    else
      match InsertInto(node.right, value)
      case None => None
      case Some(r) => Rebalance(Refresh(node.(right := r)), value)
  }

  /** The node with its height recomputed from its children's. */
  function Refresh(n: Tree): (r: Tree)
    requires n.Node?
    ensures r.Node? && r.value == n.value && r.left == n.left && r.right == n.right
    ensures HeightsOk(n.left) && HeightsOk(n.right) ==> HeightsOk(r)
  {
    n.(height := 1 + Max(Height(n.left), Height(n.right)))
  }

  /** The four rotation cases of `_insert`, tried in the source's order. */
  function Rebalance(n: Tree, value: Packet): (r: Option<Tree>)
    requires n.Node?
    ensures r.Some? ==> r.value.Node? && InOrder(r.value) == InOrder(n) && Elems(r.value) == Elems(n)
  {
    var balance := Balance(n);
    if balance > 1 && n.left.Nil? then None
    else if balance > 1 && value.0 < n.left.value.0 then Some(RightRotate(n))
    else if balance < -1 && n.right.Nil? then None
    else if balance < -1 && value.0 > n.right.value.0 then Some(LeftRotate(n))
    else if balance > 1 && value.0 > n.left.value.0 then
      if n.left.right.Nil? then None else Some(RightRotate(n.(left := LeftRotate(n.left))))
    else if balance < -1 && value.0 < n.right.value.0 then
      if n.right.left.Nil? then None else Some(LeftRotate(n.(right := RightRotate(n.right))))
    else Some(n)
  }

  /** The left-right case: rotating the left child left, then the node right. */
  lemma LeftRightCase(n: Tree, k: int)
    requires n.Node? && n.left.Node? && n.left.right.Node?
    ensures HeightsOk(n) && Ordered(n) ==>
      HeightsOk(RightRotate(n.(left := LeftRotate(n.left)))) && Ordered(RightRotate(n.(left := LeftRotate(n.left))))
    ensures AtMost(n, k) ==> AtMost(RightRotate(n.(left := LeftRotate(n.left))), k)
    ensures AtLeast(n, k) ==> AtLeast(RightRotate(n.(left := LeftRotate(n.left))), k)
  {
    var m := n.(left := LeftRotate(n.left));
    LeftRotateOrdered(n.left, n.value.0);
    LeftRotateOrdered(n.left, k);
    RightRotateOrdered(m, k);
    if HeightsOk(n) {
      assert HeightsOk(n.left);
      assert HeightsOk(n.left.right);
      assert HeightsOk(m.left);
    }
  }

  /** The right-left case: rotating the right child right, then the node left. */
  lemma RightLeftCase(n: Tree, k: int)
    requires n.Node? && n.right.Node? && n.right.left.Node?
    ensures HeightsOk(n) && Ordered(n) ==>
      HeightsOk(LeftRotate(n.(right := RightRotate(n.right)))) && Ordered(LeftRotate(n.(right := RightRotate(n.right))))
    ensures AtMost(n, k) ==> AtMost(LeftRotate(n.(right := RightRotate(n.right))), k)
    ensures AtLeast(n, k) ==> AtLeast(LeftRotate(n.(right := RightRotate(n.right))), k)
  {
    var m := n.(right := RightRotate(n.right));
    RightRotateOrdered(n.right, n.value.0);
    RightRotateOrdered(n.right, k);
    LeftRotateOrdered(m, k);
    if HeightsOk(n) {
      assert HeightsOk(n.right);
      assert HeightsOk(n.right.left);
      assert HeightsOk(m.right);
    }
  }

  /** Rebalancing a node whose children are well formed gives a well-formed,
      ordered tree. */
  lemma RebalanceKeeps(n: Tree, value: Packet)
    requires n.Node? && HeightsOk(n) && Ordered(n)
    ensures Rebalance(n, value).Some? ==>
      HeightsOk(Rebalance(n, value).value) && Ordered(Rebalance(n, value).value)
  {
    var balance := Balance(n);
    assert HeightsOk(n.left) && HeightsOk(n.right);
    if balance > 1 && n.left.Nil? {
    } else if balance > 1 && value.0 < n.left.value.0 {
      RightRotateOrdered(n, 0);
    } else if balance < -1 && n.right.Nil? {
    } else if balance < -1 && value.0 > n.right.value.0 {
      LeftRotateOrdered(n, 0);
    } else if balance > 1 && value.0 > n.left.value.0 {
      if n.left.right.Node? {
        LeftRightCase(n, 0);
      }
    } else if balance < -1 && value.0 < n.right.value.0 {
      if n.right.left.Node? {
        RightLeftCase(n, 0);
      }
    }
  }

  /** Rebalancing keeps every bound on the keys. */
  lemma RebalanceBounds(n: Tree, value: Packet, k: int)
    requires n.Node?
    ensures Rebalance(n, value).Some? && AtMost(n, k) ==> AtMost(Rebalance(n, value).value, k)
    ensures Rebalance(n, value).Some? && AtLeast(n, k) ==> AtLeast(Rebalance(n, value).value, k)
  {
    var balance := Balance(n);
    if balance > 1 && n.left.Nil? {
    } else if balance > 1 && value.0 < n.left.value.0 {
      RightRotateOrdered(n, k);
    } else if balance < -1 && n.right.Nil? {
    } else if balance < -1 && value.0 > n.right.value.0 {
      LeftRotateOrdered(n, k);
    } else if balance > 1 && value.0 > n.left.value.0 {
      if n.left.right.Node? {
        LeftRightCase(n, k);
      }
    } else if balance < -1 && value.0 < n.right.value.0 {
      if n.right.left.Node? {
        RightLeftCase(n, k);
      }
    }
  }

  /** Insertion keeps every upper bound on the keys that the new packet also meets. */
  lemma {:induction false} InsertAtMost(node: Tree, value: Packet, k: int)
    requires AtMost(node, k) && value.0 <= k
    ensures InsertInto(node, value).Some? ==> AtMost(InsertInto(node, value).value, k)
    decreases node
  {
    if node.Node? {
      if value.0 < node.value.0 {
        var sub := InsertInto(node.left, value);
        InsertAtMost(node.left, value, k);
        if sub.Some? {
          RebalanceBounds(Refresh(node.(left := sub.value)), value, k);
        }
      } else {
        var sub := InsertInto(node.right, value);
        InsertAtMost(node.right, value, k);
        if sub.Some? {
          RebalanceBounds(Refresh(node.(right := sub.value)), value, k);
        }
      }
    }
  }

  /** Insertion keeps every lower bound on the keys that the new packet also meets. */
  lemma {:induction false} InsertAtLeast(node: Tree, value: Packet, k: int)
    requires AtLeast(node, k) && k <= value.0
    ensures InsertInto(node, value).Some? ==> AtLeast(InsertInto(node, value).value, k)
    decreases node
  {
    if node.Node? {
      if value.0 < node.value.0 {
        var sub := InsertInto(node.left, value);
        InsertAtLeast(node.left, value, k);
        if sub.Some? {
          RebalanceBounds(Refresh(node.(left := sub.value)), value, k);
        }
      } else {
        var sub := InsertInto(node.right, value);
        InsertAtLeast(node.right, value, k);
        if sub.Some? {
          RebalanceBounds(Refresh(node.(right := sub.value)), value, k);
        }
      }
    }
  }

  /** A successful insertion adds exactly the new packet. */
  lemma {:induction false} InsertElems(node: Tree, value: Packet)
    ensures InsertInto(node, value).Some? ==> Elems(InsertInto(node, value).value) == Elems(node) + multiset{value}
    decreases node
  {
    if node.Node? {
      if value.0 < node.value.0 {
        InsertElems(node.left, value);
      } else {
        InsertElems(node.right, value);
      }
    }
  }

  /** Insertion into a tree with correct heights and the (non-strict) search
      order keeps both. */
  lemma {:induction false} InsertKeeps(node: Tree, value: Packet)
    requires HeightsOk(node) && Ordered(node)
    ensures InsertInto(node, value).Some? ==>
      HeightsOk(InsertInto(node, value).value) && Ordered(InsertInto(node, value).value)
    decreases node
  {
    if node.Node? {
      if value.0 < node.value.0 {
        var sub := InsertInto(node.left, value);
        if sub.Some? {
          InsertKeeps(node.left, value);
          InsertAtMost(node.left, value, node.value.0);
          var n := Refresh(node.(left := sub.value));
          assert HeightsOk(n) && Ordered(n);
          RebalanceKeeps(n, value);
        }
      } else {
        var sub := InsertInto(node.right, value);
        if sub.Some? {
          InsertKeeps(node.right, value);
          InsertAtLeast(node.right, value, node.value.0);
          var n := Refresh(node.(right := sub.value));
          assert HeightsOk(n) && Ordered(n);
          RebalanceKeeps(n, value);
        }
      }
    }
  }

  /** Python's `_find`: the node holding the key (`Nil` for `None`). */
  function FindIn(node: Tree, key: int): (r: Tree)
    ensures r.Node? ==> r.value.0 == key && r.value in Elems(node)
  {
    if node.Nil? then Nil
    else if node.value.0 == key then node
    else if key < node.value.0 then FindIn(node.left, key)
    else FindIn(node.right, key)
  }

  /** In an ordered tree, lookup finds the key of every stored packet. */
  lemma {:induction false} FindComplete(t: Tree, p: Packet)
    requires Ordered(t) && p in Elems(t)
    ensures FindIn(t, p.0).Node?
  {
    if t.value.0 != p.0 {
      if p in Elems(t.left) {
        AtMostMember(t.left, t.value.0, p);
        FindComplete(t.left, p);
      } else {
        assert p in Elems(t.right);
        AtLeastMember(t.right, t.value.0, p);
        FindComplete(t.right, p);
      }
    }
  }

  /** Lookup in an ordered tree succeeds exactly when some stored packet carries the key. */
  lemma FindsStoredKey(t: Tree, key: int)
    ensures Ordered(t) && (exists p :: p in Elems(t) && p.0 == key) ==> FindIn(t, key).Node?
  {
    if Ordered(t) && exists p :: p in Elems(t) && p.0 == key {
      var p :| p in Elems(t) && p.0 == key;
      FindComplete(t, p);
    }
  }

  /** Inserting a second packet with key 1 below a single key-1 leaf puts it on the right. */
  lemma InsertSameKey()
    ensures InsertInto(Node((1, 0), Nil, Nil, 1), (1, 1)) == Some(Node((1, 0), Nil, Node((1, 1), Nil, Nil, 1), 2))
  {
    var leaf := Node((1, 1), Nil, Nil, 1);
    var n := Node((1, 0), Nil, leaf, 2);
    assert InsertInto(Nil, (1, 1)) == Some(leaf);
    assert Refresh(Node((1, 0), Nil, leaf, 1)) == n;
    assert Rebalance(n, (1, 1)) == Some(n) by {
      assert Balance(n) == -1;
    }
  }

  /** Inserting key 2 below a key-1 leaf puts it on the right, without rotation. */
  lemma InsertIntoLeaf()
    ensures InsertInto(Node((1, 1), Nil, Nil, 1), (2, 2)) == Some(Node((1, 1), Nil, Node((2, 2), Nil, Nil, 1), 2))
  {
    var leaf := Node((2, 2), Nil, Nil, 1);
    var r := Node((1, 1), Nil, leaf, 2);
    assert InsertInto(Nil, (2, 2)) == Some(leaf);
    assert Refresh(Node((1, 1), Nil, leaf, 1)) == r;
    assert Rebalance(r, (2, 2)) == Some(r) by {
      assert Balance(r) == -1;
    }
  }

  /** A right chain of three keys 1, 1, 2 is rotated left. */
  lemma RebalanceChain()
    ensures
      var n := Node((1, 0), Nil, Node((1, 1), Nil, Node((2, 2), Nil, Nil, 1), 2), 3);
      Rebalance(n, (2, 2)) == Some(Node((1, 1), Node((1, 0), Nil, Nil, 1), Node((2, 2), Nil, Nil, 1), 2))
  {
    var n := Node((1, 0), Nil, Node((1, 1), Nil, Node((2, 2), Nil, Nil, 1), 2), 3);
    assert Balance(n) == -2;
    assert LeftRotate(n) == Node((1, 1), Node((1, 0), Nil, Nil, 1), Node((2, 2), Nil, Nil, 1), 2);
  }

  /** Inserting key 2 into the right-leaning pair of key-1 packets rotates left. */
  lemma InsertLargerKey()
    ensures
      var t2 := Node((1, 0), Nil, Node((1, 1), Nil, Nil, 1), 2);
      InsertInto(t2, (2, 2)) == Some(Node((1, 1), Node((1, 0), Nil, Nil, 1), Node((2, 2), Nil, Nil, 1), 2))
  {
    var r := Node((1, 1), Nil, Node((2, 2), Nil, Nil, 1), 2);
    InsertIntoLeaf();
    assert Refresh(Node((1, 0), Nil, r, 2)) == Node((1, 0), Nil, r, 3);
    RebalanceChain();
  }

  /** With duplicate keys the strict order "left keys < node key" is not kept:
      inserting keys 1, 1, 2 ends in a left rotation that puts the first 1
      below the second, on its left. */
  lemma DuplicateKeyEndsOnTheLeft()
    ensures
      var t1 := Node((1, 0), Nil, Nil, 1);
      var t2 := Node((1, 0), Nil, Node((1, 1), Nil, Nil, 1), 2);
      var t3 := Node((1, 1), Node((1, 0), Nil, Nil, 1), Node((2, 2), Nil, Nil, 1), 2);
      && InsertInto(Nil, (1, 0)) == Some(t1)
      && InsertInto(t1, (1, 1)) == Some(t2)
      && InsertInto(t2, (2, 2)) == Some(t3)
      && t3.left.value.0 == t3.value.0
  {
    InsertSameKey();
    InsertLargerKey();
  }

  /** Python's `AVLTree`: each insertion replaces the root. */
  class AVLTree {
    var root: Tree

    constructor ()
      ensures root == Nil
    {
      root := Nil;
    }

    /** `insert`. `crashed` reports the `AttributeError` case, after which the
        root is left as it was. A tree with correct heights and order keeps
        both, and a successful insertion adds exactly the new packet. */
    method Insert(value: Packet) returns (crashed: bool)
      modifies this
      ensures crashed <==> InsertInto(old(root), value).None?
      ensures !crashed ==> root == InsertInto(old(root), value).value
      ensures !crashed ==> Elems(root) == old(Elems(root)) + multiset{value}
      ensures crashed ==> root == old(root)
      ensures old(HeightsOk(root) && Ordered(root)) ==> HeightsOk(root) && Ordered(root)
    {
      var r := InsertInto(root, value);
      InsertElems(root, value);
      if HeightsOk(root) && Ordered(root) {
        InsertKeeps(root, value);
      }
      crashed := r.None?;
      if !crashed {
        root := r.value;
      }
    }

    /** `find`: a node holding the key, `Nil` when there is none. */
    function Find(key: int): (r: Tree)
      reads this
      ensures r.Node? ==> r.value.0 == key && r.value in Elems(root)
      ensures Ordered(root) && (exists p :: p in Elems(root) && p.0 == key) ==> r.Node?
    {
      FindsStoredKey(root, key);
      FindIn(root, key)
    }
  }
}
