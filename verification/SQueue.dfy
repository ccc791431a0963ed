/**
The linked queue of squeue.h: a head and a tail pointer, and a `next` pointer in each element.
*/
module SQueue {

  class Node<T> {
    const value: T
    var next: Node?<T>

    constructor (value: T)
      ensures this.value == value
    {
      this.value := value;
      next := null;
    }
  }

  class Queue<T> {
    var head: Node?<T>
    var tail: Node?<T>

    /** The elements, in the order in which they will be taken. */
    ghost var nodes: seq<Node<T>>

    ghost function NodeAt(i: nat): Node?<T>
      reads this
    {
      if i < |nodes| then nodes[i] else null
    }

    ghost predicate Valid()
      reads this, nodes
    {
      && head == NodeAt(0)
      && tail == (if nodes == [] then null else nodes[|nodes| - 1])
      && (forall i | 0 <= i < |nodes| :: nodes[i].next == NodeAt(i + 1))
      && (forall i, j | 0 <= i < j < |nodes| :: nodes[i] != nodes[j])
    }

    constructor ()
      ensures Valid() && nodes == []
    {
      head := null;
      tail := null;
      nodes := [];
    }

    /** VTM_SQUEUE_IS_EMPTY. */
    method IsEmpty() returns (empty: bool)
      requires Valid()
      ensures empty <==> nodes == []
    {
      empty := head == null;
    }

    /** VTM_SQUEUE_ADD: only the new element and the last one get another `next` pointer. */
    method Add(node: Node<T>)
      requires Valid() && node !in nodes
      modifies this, node`next, if tail == null then {} else {tail}
      ensures Valid() && nodes == old(nodes) + [node]
    {
      node.next := null;
      if tail != null {
        tail.next := node;
      }
      tail := node;
      if head == null {
        head := node;
      }
      nodes := nodes + [node];
    }

    /** VTM_SQUEUE_POLL: the oldest element, or null. */
    method Poll() returns (node: Node?<T>)
      requires Valid()
      modifies this
      ensures Valid()
      ensures node == null <==> old(nodes) == []
      ensures if node == null then nodes == old(nodes) else [node] + nodes == old(nodes)
    {
      node := head;
      if head != null {
        head := head.next;
        if tail == node {
          tail := null;
        }
        nodes := nodes[1..];
      }
    }

    /** VTM_SQUEUE_CLEAR: passes every element, in order, to a function. Here these elements are returned. */
    method Clear() returns (passed: seq<Node<T>>)
      requires Valid()
      modifies this
      ensures Valid() && nodes == [] && passed == old(nodes)
    {
      passed := [];
      var node := head;
      while node != null
        invariant |passed| <= |nodes| && passed == nodes[..|passed|] && node == NodeAt(|passed|)
        decreases |nodes| - |passed|
      {
        passed := passed + [node];
        node := node.next;
      }
      head := null;
      tail := null;
      nodes := [];
    }
  }
}
