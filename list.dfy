/**
 * `List<T>` of `list.hpp`: nodes linked through `next` from `m_begin`, with `m_end`
 * naming the tail and `m_size` counting `push_back` calls.
 *
 * No operation ever assigns a node's `previous`, so the structure is singly linked:
 * `remove` of the tail moves `m_end` to a null `previous`, and `remove` never lowers
 * `m_size`. The ghost sequence `nodes` is the chain reachable from `m_begin` through
 * `next`; `delete` clears a node's `live` flag and does not unlink it.
 */
module Lists {

  /** `List::Node`. */
  class Node<T> {
    var previous: Node?<T>
    var next: Node?<T>
    var value: T
    var live: bool

    /** `new Node { .value = value }`: both links null. */
    constructor (v: T)
      ensures previous == null && next == null && value == v && live
    {
      previous := null;
      next := null;
      value := v;
      live := true;
    }
  }

  /** The position of `x` in `s`. */
  ghost function IndexOf<T>(s: seq<Node<T>>, x: Node<T>): (i: nat)
    requires x in s
    ensures i < |s| && s[i] == x
  {
    if s[0] == x then 0 else IndexOf(s[1..], x) + 1
  }

  class List<T(==)> {
    var size: nat
    var begin: Node?<T>
    var end: Node?<T>
    ghost var nodes: seq<Node<T>>

    /**
     * `nodes` is the chain from `m_begin`, each `next` pointing at the following node and
     * the last at null; no `previous` is set; a non-null `m_end` beside a non-null
     * `m_begin` is the last node (with a null `m_begin`, `m_end` may still name a
     * deleted node); `m_size` counts at least the reachable nodes.
     */
    ghost predicate Valid()
      reads this, nodes
    {
      (begin == null <==> |nodes| == 0) &&
      (|nodes| > 0 ==> begin == nodes[0] && nodes[|nodes| - 1].next == null) &&
      (forall i :: 0 <= i < |nodes| - 1 ==> nodes[i].next == nodes[i + 1]) &&
      (forall i, j :: 0 <= i < j < |nodes| ==> nodes[i] != nodes[j]) &&
      (forall i :: 0 <= i < |nodes| ==> nodes[i].previous == null) &&
      (begin != null && end != null ==> end == nodes[|nodes| - 1]) &&
      |nodes| <= size
    }

    /** The values along the chain. */
    ghost function Values(): (s: seq<T>)
      reads this, nodes
      ensures |s| == |nodes|
    {
      var ns := nodes;
      seq(|ns|, i requires 0 <= i < |ns| reads ns => ns[i].value)
    }

    /** `m_end` can be reached from `m_begin`, or is null. */
    ghost predicate Scannable()
      reads this, nodes
    {
      Valid() && (end == null || end in nodes)
    }

    /** How many nodes `find` examines: those before `m_end`. */
    ghost function ScanLimit(): (k: nat)
      requires Scannable()
      reads this, nodes
      ensures k <= |nodes|
      ensures end == null ==> k == |nodes|
      ensures end != null ==> k < |nodes| && nodes[k] == end
    {
      if end == null then |nodes| else IndexOf(nodes, end)
    }

    /** `size()`. */
    function Size(): nat
      reads this
    {
      size
    }

    /** `empty()`. */
    function Empty(): (b: bool)
      reads this
      ensures b <==> Size() == 0
    {
      size == 0
    }

    /** `List() = default`. */
    constructor ()
      ensures Valid() && nodes == [] && size == 0 && begin == null && end == null
    {
      size := 0;
      begin := null;
      end := null;
      nodes := [];
    }

    /** `List(items)`: `push_back` of each item in order. */
    constructor FromItems(items: seq<T>)
      ensures Valid() && Values() == items && size == |items|
    {
      size := 0;
      begin := null;
      end := null;
      nodes := [];
      new;
      var k := 0;
      while k < |items|
        invariant 0 <= k <= |items|
        invariant Valid() && Values() == items[..k] && size == k
        invariant begin != null ==> end != null
        invariant end == null || fresh(end)
        invariant forall n :: n in nodes ==> fresh(n)
      {
        PushBack(items[k]);
        k := k + 1;
      }
    }

    /**
     * `List(const List&)`: walks `src` from `begin()` to `end()`, the null iterator, and
     * appends each value, so it copies the whole chain.
     */
    constructor FromList(src: List<T>)
      requires src.Valid()
      ensures Valid() && Values() == src.Values() && size == |src.nodes|
    {
      size := 0;
      begin := null;
      end := null;
      nodes := [];
      new;
      var node := src.begin;
      ghost var i := 0;
      while node != null
        invariant 0 <= i <= |src.nodes|
        invariant node == if i < |src.nodes| then src.nodes[i] else null
        invariant Valid() && Values() == src.Values()[..i] && size == i
        invariant begin != null ==> end != null
        invariant end == null || fresh(end)
        invariant forall n :: n in nodes ==> fresh(n)
        invariant unchanged(src) && unchanged(set n | n in src.nodes)
        decreases |src.nodes| - i
      {
        PushBack(node.value);
        node := node.next;
        i := i + 1;
      }
    }

    /** `List(List&&)`: swaps `m_begin`, `m_end` and `m_size` with a fresh empty list. */
    constructor FromMoved(src: List<T>)
      requires src.Valid()
      modifies src
      ensures Valid() && nodes == old(src.nodes) && Values() == old(src.Values())
      ensures begin == old(src.begin) && end == old(src.end) && size == old(src.size)
      ensures src.Valid() && src.begin == null && src.end == null && src.size == 0
    {
      size := src.size;
      begin := src.begin;
      end := src.end;
      nodes := src.nodes;
      new;
      src.size := 0;
      src.begin := null;
      src.end := null;
      src.nodes := [];
    }

    /**
     * `push_back(value)`: a fresh node becomes the tail, and the head when the list was
     * empty; otherwise the old tail's `next` points at it. `m_end` must not be null when
     * `m_begin` is not.
     */
    method PushBack(v: T)
      requires Valid() && (begin != null ==> end != null)
      modifies this, end
      ensures Valid() && fresh(end) && end.value == v && end.live
      ensures nodes == old(nodes) + [end] && Values() == old(Values()) + [v]
      ensures begin == if old(begin) == null then end else old(begin)
      ensures size == old(size) + 1
    {
      var node := new Node(v);
      if begin == null {
        begin := node;
        end := begin;
      } else {
        end.next := node;
        end := node;
      }
      size := size + 1;
      nodes := nodes + [node];
      assert forall i :: 0 <= i < |old(nodes)| ==> nodes[i].value == old(nodes[i].value);
    }

    /**
     * `find(value)`: the first node before `m_end` holding `v`, or null. The scan stops at
     * `m_end`, so the tail is never examined.
     */
    method Find(v: T) returns (r: Node?<T>)
      requires Scannable()
      ensures r == null <==> v !in Values()[..ScanLimit()]
      ensures r != null ==>
        exists i :: 0 <= i < ScanLimit() && nodes[i] == r && Values()[i] == v && v !in Values()[..i]
    {
      var node := begin;
      ghost var i := 0;
      while node != end
        invariant 0 <= i <= ScanLimit()
        invariant node == if i < |nodes| then nodes[i] else null
        invariant v !in Values()[..i]
        decreases ScanLimit() - i
      {
        if node.value == v {
          assert Values()[..ScanLimit()][i] == v;
          return node;
        }
        node := node.next;
        i := i + 1;
        assert Values()[..i] == Values()[..i - 1] + [Values()[i - 1]];
      }
      return null;
    }

    /** On a list whose tail is `m_end`, `find` examines every node but the last. */
    lemma FindSkipsTail()
      requires Valid() && begin != null && end != null
      ensures Scannable() && ScanLimit() == |nodes| - 1
    {
    }

    /** `find` as evidently intended: the scan runs to the null `end()`. */
    method FindThroughEnd(v: T) returns (r: Node?<T>)
      requires Valid()
      ensures r == null <==> v !in Values()
      ensures r != null ==>
        exists i :: 0 <= i < |nodes| && nodes[i] == r && Values()[i] == v && v !in Values()[..i]
    {
      var node := begin;
      ghost var i := 0;
      while node != null
        invariant 0 <= i <= |nodes|
        invariant node == if i < |nodes| then nodes[i] else null
        invariant v !in Values()[..i]
        decreases |nodes| - i
      {
        if node.value == v {
          assert Values()[i] == v;
          return node;
        }
        node := node.next;
        i := i + 1;
        assert Values()[..i] == Values()[..i - 1] + [Values()[i - 1]];
      }
      assert Values()[..i] == Values();
      return null;
    }

    /**
     * `remove(item)` of the head or the tail; `m_size` is left as it was and the node is
     * deleted. The head's successor becomes the head; removing the tail sets `m_end` to
     * its `previous`, which is null, while the chain still reaches the deleted node.
     */
    method Remove(item: Node<T>)
      requires Valid() && item in nodes && (item == begin || item == end)
      modifies this, item
      ensures Valid() && size == old(size) && !item.live
      ensures old(item == begin) ==>
        begin == old(item.next) && end == old(end) &&
        nodes == old(nodes[1..]) && Values() == old(Values()[1..])
      ensures old(item != begin) ==>
        end == null && begin == old(begin) && nodes == old(nodes) && Values() == old(Values())
    {
      var node := item;
      if node == begin {
        assert |nodes| > 1 ==> nodes[0].next == nodes[1];
        begin := node.next;
        nodes := nodes[1..];
      } else {
        end := node.previous;
      }
      node.live := false;
    }
  }

  /** A one-element list: `find` of its only value comes back null. */
  method FindMissesOnlyElement() returns (r: Node?<int>)
    ensures r == null
  {
    var list := new List<int>();
    list.PushBack(7);
    r := list.Find(7);
  }

  /** After a head removal, `size()` still counts the removed node. */
  method RemoveKeepsSize() returns (list: List<int>)
    ensures list.Valid() && list.Size() == 2 && list.Values() == [2]
  {
    list := new List<int>();
    list.PushBack(1);
    list.PushBack(2);
    list.Remove(list.begin);
  }
}
