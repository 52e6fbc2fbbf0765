/**
 * The binary search tree that indexes the packets of one transmit-log window
 * by their payload identifier, so that each received packet can be looked up.
 * Nodes are objects updated in place; the ghost `Contents` is the map from
 * identifier to transmission time that the tree stands for.
 */
module BsTree {
  import opened Wrappers

  /** A packet: (payload identifier, time in milliseconds). */
  type Packet = (int, int)

  /** What `Find` gives back: the node holding the key, `False` when the key
      is absent, `None` when the tree is empty. */
  datatype Lookup = FoundNode(node: BSTree) | NotFound | EmptyTree

  class BSTree {
    var value: Option<Packet>
    var left: BSTree?
    var right: BSTree?
    ghost var Repr: set<object>
    ghost var Contents: map<int, int>

    ghost predicate Valid()
      reads this, Repr
      decreases Repr
    {
      && Shaped()
      && (left != null ==> left.Valid())
      && (right != null ==> right.Valid())
    }

    /** The node's own part of the invariant: the footprints nest and are
        disjoint, children hold values, keys are ordered, and `Contents` is the
        union of the children's contents and the node's own packet. */
    ghost predicate Shaped()
      reads this, Repr
    {
      && this in Repr
      && (value.None? ==> left == null && right == null && Contents == map[])
      && (left != null ==>
            && left in Repr && left.Repr <= Repr && this !in left.Repr && left.value.Some?
            && KeysBelow(left.Contents, value.value.0))
      && (right != null ==>
            && right in Repr && right.Repr <= Repr && this !in right.Repr && right.value.Some?
            && KeysAbove(right.Contents, value.value.0))
      && (left != null && right != null ==> left.Repr !! right.Repr)
      && (value.Some? ==>
            Contents == SubContents(left) + SubContents(right) + map[value.value.0 := value.value.1])
    }

    static ghost function SubContents(t: BSTree?): map<int, int>
      reads t
    {
      if t == null then map[] else t.Contents
    }

    /** A tree holding `value`, or an empty root for `None`. */
    constructor (value: Option<Packet>)
      ensures Valid() && fresh(Repr)
      ensures this.value == value
      ensures Contents == if value.Some? then map[value.value.0 := value.value.1] else map[]
    {
      this.value := value;
      left := null;
      right := null;
      Repr := {this};
      Contents := if value.Some? then map[value.value.0 := value.value.1] else map[];
    }

    /** Stores `packet` under its identifier unless the identifier is already
        present: the first packet inserted with an identifier wins. */
    method Insert(packet: Packet)
      requires Valid()
      modifies Repr
      ensures Valid() && fresh(Repr - old(Repr))
      ensures value.Some?
      ensures Contents == if packet.0 in old(Contents) then old(Contents) else old(Contents)[packet.0 := packet.1]
      decreases Repr, 1
    {
      if value.None? {
        value := Some(packet);
        Contents := map[packet.0 := packet.1];
        return;
      }
      if value.value.0 == packet.0 {
        return;
      }
      if packet.0 < value.value.0 {
        if left != null {
          DescendLeft(packet);
        } else {
          AttachLeft(packet);
        }
      } else {
        if right != null {
          DescendRight(packet);
        } else {
          AttachRight(packet);
        }
      }
    }

    /** Inserts below an existing left child. */
    method DescendLeft(packet: Packet)
      requires Valid() && value.Some? && packet.0 < value.value.0 && left != null
      modifies Repr
      ensures Valid() && fresh(Repr - old(Repr))
      ensures value.Some?
      ensures Contents == if packet.0 in old(Contents) then old(Contents) else old(Contents)[packet.0 := packet.1]
      decreases Repr, 0
    {
      ghost var before := left.Contents;
      left.Insert(packet);
      Repr := Repr + left.Repr;
      Contents := SubContents(left) + SubContents(right) + map[value.value.0 := value.value.1];
      if packet.0 !in old(Contents) {
        UnionUpdateLeft(before, SubContents(right), value.value, packet);
      }
    }

    /** Hangs a new node holding the packet as the left child. */
    method AttachLeft(packet: Packet)
      requires Valid() && value.Some? && packet.0 < value.value.0 && left == null
      modifies Repr
      ensures Valid() && fresh(Repr - old(Repr))
      ensures value.Some?
      ensures Contents == old(Contents)[packet.0 := packet.1]
    {
      left := new BSTree(Some(packet));
      Repr := Repr + left.Repr;
      Contents := SubContents(left) + SubContents(right) + map[value.value.0 := value.value.1];
      UnionUpdateLeft(map[], SubContents(right), value.value, packet);
    }

    /** Inserts below an existing right child. */
    method DescendRight(packet: Packet)
      requires Valid() && value.Some? && packet.0 > value.value.0 && right != null
      modifies Repr
      ensures Valid() && fresh(Repr - old(Repr))
      ensures value.Some?
      ensures Contents == if packet.0 in old(Contents) then old(Contents) else old(Contents)[packet.0 := packet.1]
      decreases Repr, 0
    {
      ghost var before := right.Contents;
      right.Insert(packet);
      Repr := Repr + right.Repr;
      Contents := SubContents(left) + SubContents(right) + map[value.value.0 := value.value.1];
      if packet.0 !in old(Contents) {
        UnionUpdateRight(SubContents(left), before, value.value, packet);
      }
    }

    /** Hangs a new node holding the packet as the right child. */
    method AttachRight(packet: Packet)
      requires Valid() && value.Some? && packet.0 > value.value.0 && right == null
      modifies Repr
      ensures Valid() && fresh(Repr - old(Repr))
      ensures value.Some?
      ensures Contents == old(Contents)[packet.0 := packet.1]
    {
      right := new BSTree(Some(packet));
      Repr := Repr + right.Repr;
      Contents := SubContents(left) + SubContents(right) + map[value.value.0 := value.value.1];
      UnionUpdateRight(SubContents(left), map[], value.value, packet);
    }

    /** Looks up an identifier. */
    function Find(key: int): (r: Lookup)
      requires Valid()
      reads Repr
      decreases Repr
      ensures r.FoundNode? <==> key in Contents
      ensures r.FoundNode? ==> r.node in Repr && r.node.value == Some((key, Contents[key]))
      ensures r.EmptyTree? <==> value.None?
    {
      if value.Some? && key == value.value.0 then FoundNode(this)
      else if value.None? then EmptyTree
      else if key < value.value.0 then
        if left == null then NotFound else left.Find(key)
      else
        if right == null then NotFound else right.Find(key)
    }

  }

  ghost predicate KeysBelow(m: map<int, int>, x: int)
  {
    forall k :: k in m ==> k < x
  }

  ghost predicate KeysAbove(m: map<int, int>, x: int)
  {
    forall k :: k in m ==> k > x
  }

  /** Adding a fresh key to the left part of a node's contents adds it to the whole. */
  lemma UnionUpdateLeft(a: map<int, int>, b: map<int, int>, v: Packet, p: Packet)
    requires p.0 !in a && p.0 !in b && p.0 != v.0
    ensures a[p.0 := p.1] + b + map[v.0 := v.1] == (a + b + map[v.0 := v.1])[p.0 := p.1]
  {
  }

  /** Adding a fresh key to the right part of a node's contents adds it to the whole. */
  lemma UnionUpdateRight(a: map<int, int>, b: map<int, int>, v: Packet, p: Packet)
    requires p.0 !in a && p.0 !in b && p.0 != v.0
    ensures a + b[p.0 := p.1] + map[v.0 := v.1] == (a + b + map[v.0 := v.1])[p.0 := p.1]
  {
  }

  /** The identifier map a run of insertions builds: the first packet with an
      identifier fixes its time. */
  function FirstWins(packets: seq<Packet>): (m: map<int, int>)
  {
    if packets == [] then map[]
    else
      var m := FirstWins(packets[..|packets| - 1]);
      var p := packets[|packets| - 1];
      if p.0 in m then m else m[p.0 := p.1]
  }

  /** Every identifier of the packets is in the map, with the time of the
      first packet carrying it, and nothing else is. */
  lemma {:induction false} FirstWinsIsFirst(packets: seq<Packet>, key: int)
    ensures key in FirstWins(packets) <==> exists i :: 0 <= i < |packets| && packets[i].0 == key
    ensures key in FirstWins(packets) ==>
      exists i :: 0 <= i < |packets| && packets[i] == (key, FirstWins(packets)[key])
        && forall j :: 0 <= j < i ==> packets[j].0 != key
  {
    if packets != [] {
      var prefix := packets[..|packets| - 1];
      FirstWinsIsFirst(prefix, key);
      if key in FirstWins(prefix) {
        var i :| 0 <= i < |prefix| && prefix[i] == (key, FirstWins(prefix)[key])
          && forall j :: 0 <= j < i ==> prefix[j].0 != key;
        assert packets[i] == prefix[i];
      }
      if exists i :: 0 <= i < |packets| && packets[i].0 == key {
        var i :| 0 <= i < |packets| && packets[i].0 == key;
        if i < |prefix| {
          assert prefix[i].0 == key;
        }
      }
    }
  }

  /** Builds the transmit-side tree of one log window by inserting its packets
      in order into an empty root. */
  method BuildTree(packets: seq<Packet>) returns (data: BSTree, packetsPerCluster: nat)
    ensures data.Valid() && fresh(data.Repr)
    ensures data.Contents == FirstWins(packets)
    ensures packetsPerCluster == |packets|
  {
    data := new BSTree(None);
    packetsPerCluster := 0;
    for i := 0 to |packets|
      invariant data.Valid() && fresh(data.Repr)
      invariant data.Contents == FirstWins(packets[..i])
      invariant packetsPerCluster == i
    {
      assert packets[..i + 1][..i] == packets[..i];
      data.Insert(packets[i]);
      packetsPerCluster := packetsPerCluster + 1;
    }
    assert packets[..|packets|] == packets;
  }

  /** After inserting a packet into any valid tree, looking its identifier up
      finds a node with that identifier. */
  method InsertThenFind(t: BSTree, packet: Packet) returns (r: Lookup)
    requires t.Valid()
    modifies t.Repr
    ensures t.Valid()
    ensures r.FoundNode? && r.node.value.Some? && r.node.value.value.0 == packet.0
    ensures old(packet.0 !in t.Contents) ==> r.node.value == Some(packet)
  {
    t.Insert(packet);
    r := t.Find(packet.0);
  }
}
