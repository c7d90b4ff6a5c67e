/**
 * src/linked_list.c: a singly linked list of lines with head insertion and
 * recursive teardown. Each node carries its ghost footprint (itself and
 * every node after it) and the values from it onwards; `this !in
 * next.Footprint` makes every chain NULL-terminated and acyclic.
 */
module LinkedList {
  import opened Alloc
  import opened Algebra

  /** `struct line_node`. */
  class LineNode {
    var value: Line
    var next: LineNode?
    ghost var Footprint: set<LineNode>
    ghost var Contents: seq<Line>

    ghost predicate Valid()
      reads this, Footprint
    {
      this in Footprint &&
      (next == null ==> Footprint == {this} && Contents == [value]) &&
      (next != null ==>
         next in Footprint && Footprint == {this} + next.Footprint && this !in next.Footprint &&
         Contents == [value] + next.Contents && next.Valid())
    }

    constructor (value: Line, next: LineNode?)
      requires next != null ==> next.Valid()
      ensures Valid() && this.value == value && this.next == next
      ensures Footprint == {this} + (if next == null then {} else next.Footprint)
      ensures Contents == [value] + (if next == null then [] else next.Contents)
    {
      this.value := value;
      this.next := next;
      Footprint := {this} + (if next == null then {} else next.Footprint);
      Contents := [value] + (if next == null then [] else next.Contents);
    }
  }

  /** `struct linked_list_of_lines`. */
  class LinkedListOfLines {
    var head: LineNode?
    ghost var Contents: seq<Line>
    /** The list record and all of its nodes. */
    ghost var Repr: set<object>

    ghost predicate Valid()
      reads this, Repr
    {
      this in Repr &&
      (head == null ==> Repr == {this} && Contents == []) &&
      (head != null ==>
         head in Repr && Repr == {this} + head.Footprint &&
         head.Valid() && Contents == head.Contents)
    }

    /** The record malloc returns, with `head = NULL`. */
    constructor ()
      ensures Valid() && head == null && Contents == [] && Repr == {this}
    {
      head := null;
      Contents := [];
      Repr := {this};
    }
  }

  /** Every chain holds exactly one node per value. */
  lemma {:induction false} FootprintSize(n: LineNode)
    requires n.Valid()
    ensures |n.Footprint| == |n.Contents|
    decreases n.Footprint
  {
    if n.next != null {
      FootprintSize(n.next);
      assert n.Footprint == {n} + n.next.Footprint;
    }
  }

  /** linked_list_create: null when malloc fails, otherwise a fresh empty list. */
  method Create(heap: Heap, ok: bool) returns (list: LinkedListOfLines?)
    modifies heap
    ensures list == null <==> !ok
    ensures list == null ==> heap.live == old(heap.live)
    ensures list != null ==>
              fresh(list) && list.Valid() && list.head == null && list.Contents == [] &&
              heap.live == old(heap.live) + {list}
  {
    if !ok { return null; }
    list := new LinkedListOfLines();
    heap.Acquire(list);
  }

  /** create_line_node: null when malloc fails, otherwise a fresh node in front of `next`. */
  method CreateLineNode(heap: Heap, ok: bool, value: Line, next: LineNode?) returns (n: LineNode?)
    requires next != null ==> next.Valid()
    modifies heap
    ensures n == null <==> !ok
    ensures n == null ==> heap.live == old(heap.live)
    ensures n != null ==>
              fresh(n) && n.Valid() && n.value == value && n.next == next &&
              n.Footprint == {n} + (if next == null then {} else next.Footprint) &&
              n.Contents == [value] + (if next == null then [] else next.Contents) &&
              heap.live == old(heap.live) + {n}
  {
    if !ok { return null; }
    n := new LineNode(value, next);
    heap.Acquire(n);
  }

  /**
   * linked_list_add_line: on success the list holds `line` followed by its
   * old contents and 0 is returned; when the node cannot be allocated, 1
   * is returned and the list is unchanged.
   */
  method AddLine(heap: Heap, list: LinkedListOfLines, ok: bool, line: Line) returns (rc: int)
    requires list.Valid()
    modifies list, heap
    ensures list.Valid()
    ensures rc == (if ok then 0 else 1)
    ensures ok ==>
              list.head != null && fresh(list.head) &&
              list.Contents == [line] + old(list.Contents) &&
              list.Repr == old(list.Repr) + {list.head} &&
              heap.live == old(heap.live) + {list.head}
    ensures !ok ==>
              list.head == old(list.head) && list.Contents == old(list.Contents) &&
              list.Repr == old(list.Repr) && heap.live == old(heap.live)
  {
    var newHead := CreateLineNode(heap, ok, line, list.head);
    if newHead == null { return 1; }
    list.head := newHead;
    list.Contents := [line] + list.Contents;
    list.Repr := list.Repr + {newHead};
    return 0;
  }

  /**
   * destroy_list_recursive: frees the chain from `first` on, last node
   * first. Every node of the chain leaves the heap and nothing else does;
   * `Free`'s precondition rules out freeing a node twice.
   */
  method DestroyListRecursive(heap: Heap, first: LineNode?)
    requires first != null ==> first.Valid() && first.Footprint <= heap.live
    modifies heap
    ensures heap.live == old(heap.live) - (if first == null then {} else first.Footprint)
    decreases if first == null then {} else first.Footprint
  {
    if first == null { return; }
    DestroyListRecursive(heap, first.next);
    heap.Free(first);
  }

  /** linked_list_destroy: nothing on null; otherwise frees every node, then the record. */
  method Destroy(heap: Heap, list: LinkedListOfLines?)
    requires list != null ==> list.Valid() && list.Repr <= heap.live
    modifies heap
    ensures heap.live == old(heap.live) - (if list == null then {} else list.Repr)
  {
    if list == null { return; }
    if list.head != null { DestroyListRecursive(heap, list.head); }
    heap.Free(list);
  }
}
