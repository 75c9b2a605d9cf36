/**
 The linked queue of the packet terminal between core network and eNB (packet_terminal.h), which the
 receivers fill and the printer empties.
 */
module PacketTerminal {
  import opened Bytes

  datatype Direction = Upstream | Downstream

  datatype Item = Item(direction: Direction, length: nat)

  // ----- the linked queue

  class QueueItem {
    var item: Item
    var next: QueueItem?

    constructor (item: Item, next: QueueItem?)
      ensures this.item == item && this.next == next
    {
      this.item, this.next := item, next;
    }
  }

  /** Items as stored from the anchor on: the newest comes first. */
  ghost function Items(spine: seq<QueueItem>): (r: seq<Item>)
    reads spine
    ensures |r| == |spine|
  {
    seq(|spine|, i requires 0 <= i < |spine| reads spine => spine[i].item)
  }

  /** From the anchor the next pointers lead through the spine, each node once, to NULL. */
  ghost predicate Linked(anchor: QueueItem?, spine: seq<QueueItem>)
    reads spine
  {
    && (spine == [] <==> anchor == null)
    && (spine != [] ==> anchor == spine[0])
    && (forall i :: 0 <= i < |spine| ==> (spine[i].next == null <==> i == |spine| - 1))
    && (forall i :: 0 <= i < |spine| - 1 ==> spine[i].next == spine[i + 1])
    && (forall i, j :: 0 <= i < j < |spine| ==> spine[i] != spine[j])
  }

  /** A new node in front of the list. */
  lemma LinkedFirst(anchor: QueueItem?, spine: seq<QueueItem>, node: QueueItem)
    requires Linked(anchor, spine) && node !in spine && node.next == anchor
    ensures Linked(node, [node] + spine)
  {
  }

  lemma EnteredNext(printed: seq<Item>, items: seq<Item>, item: Item)
    ensures printed + Reversed(items) + [item] == printed + Reversed([item] + items)
  {
    assert ([item] + items)[1..] == items;
  }

  /**
   The anchor with the nodes behind it. `entered` and `printed` record everything that was ever
   added and removed; all operations run under the queue mutex.
   */
  class TerminalQueue {
    var anchor: QueueItem?
    ghost var spine: seq<QueueItem>
    ghost var entered: seq<Item>
    ghost var printed: seq<Item>

    ghost predicate Valid()
      reads this, spine
    {
      Linked(anchor, spine) && entered == printed + Reversed(Items(spine))
    }

    /** The queue as the list operations see it. */
    ghost function State(): (r: QueueRun)
      reads this, spine
    {
      QueueRun(Items(spine), printed)
    }

    constructor ()
      ensures Valid() && State() == QueueRun([], []) && entered == [] && printed == [] && spine == []
    {
      anchor, spine, entered, printed := null, [], [], [];
    }

    /** Prepends at the anchor. */
    method Add(direction: Direction, length: nat)
      requires Valid()
      modifies this
      ensures Valid() && entered == old(entered) + [Item(direction, length)] && printed == old(printed)
      ensures |spine| == |old(spine)| + 1 && fresh(spine[0]) && spine[1..] == old(spine)
      ensures State() == QueueStep(old(State()), AddItem(Item(direction, length)))
    {
      hide Reversed, Linked;
      ghost var was, items := spine, Items(spine);
      var node := new QueueItem(Item(direction, length), anchor);
      assert Linked(node, [node] + was) by { LinkedFirst(anchor, was, node); }
      anchor := node;
      spine := [node] + was;
      entered := entered + [node.item];
      assert Items(spine) == [node.item] + items;
      EnteredNext(printed, items, node.item);
    }

    /** Removes the last node; the item printed is the oldest. */
    method PrintLast() returns (item: Item)
      requires Valid() && anchor != null
      modifies this, spine
      ensures Valid() && entered == old(entered) && printed == old(printed) + [item]
      ensures spine == old(spine)[..|old(spine)| - 1]
      ensures State() == QueueStep(old(State()), PrintOne)
    {
      assert spine != [];
      hide Reversed, Linked;
      ghost var items, done := Items(spine), printed;
      ghost var rest, last := items[..|spine| - 1], items[|spine| - 1];
      assert QueueStep(State(), PrintOne) == QueueRun(rest, done + [last]);
      hide QueueStep;
      ReversedLast(items);
      assert entered == done + [last] + Reversed(rest);
      item := CutLast();
      assert Items(spine[..|spine| - 1]) == rest;
      spine := spine[..|spine| - 1];
      printed := done + [item];
    }

    /** The printer's turn: an item if there is one. */
    method PrintTurn()
      requires Valid()
      modifies this, spine
      ensures Valid() && entered == old(entered)
      ensures State() == QueueStep(old(State()), PrintOne)
    {
      if anchor != null {
        var _ := PrintLast();
      }
    }

    /** Walks to the second last node and cuts the last one off. */
    method CutLast() returns (item: Item)
      requires Linked(anchor, spine) && anchor != null
      modifies this`anchor, spine`next
      ensures spine != [] && Linked(anchor, spine[..|spine| - 1]) && item == old(spine[|spine| - 1].item)
    {
      if anchor.next == null {
        assert |spine| == 1;
        item := anchor.item;
        anchor := null;
      } else {
        var current := SecondLast();
        item := current.next.item;
        current.next := null;
      }
    }

    method SecondLast() returns (current: QueueItem)
      requires Linked(anchor, spine) && anchor != null && anchor.next != null
      ensures |spine| >= 2 && current == spine[|spine| - 2] && current.next == spine[|spine| - 1]
    {
      current := anchor;
      ghost var k := 0;
      while current.next.next != null
        invariant 0 <= k < |spine| - 1 && current == spine[k] && current.next == spine[k + 1]
        decreases |spine| - k
      {
        assert k + 1 < |spine| - 1;
        current := current.next;
        k := k + 1;
      }
    }
  }

  /** What the three threads do to the queue, one mutex-protected operation at a time. */
  datatype Op = AddItem(item: Item) | PrintOne

  datatype QueueRun = QueueRun(items: seq<Item>, printed: seq<Item>)

  function QueueStep(q: QueueRun, op: Op): (r: QueueRun) {
    match op
    case AddItem(item) => q.(items := [item] + q.items)
    case PrintOne =>
      if q.items == [] then q
      else QueueRun(q.items[..|q.items| - 1], q.printed + [q.items[|q.items| - 1]])
  }

  function QueueExec(q: QueueRun, ops: seq<Op>): (r: QueueRun)
    decreases |ops|
  {
    if ops == [] then q else QueueExec(QueueStep(q, ops[0]), ops[1..])
  }

  function Added(ops: seq<Op>): (r: seq<Item>) {
    if ops == [] then [] else (match ops[0] case AddItem(item) => [item] case PrintOne => []) + Added(ops[1..])
  }

  /**
   In every interleaving items are printed in exactly the order they were added, direction and length
   intact.
   */
  lemma {:induction false} QueueIsFifo(q: QueueRun, ops: seq<Op>)
    ensures var r := QueueExec(q, ops);
      r.printed + Reversed(r.items) == q.printed + Reversed(q.items) + Added(ops)
    decreases |ops|
  {
    if ops != [] {
      var q1 := QueueStep(q, ops[0]);
      QueueIsFifo(q1, ops[1..]);
      match ops[0]
      case AddItem(item) =>
        assert ([item] + q.items)[1..] == q.items;
        assert q.printed + Reversed(q1.items) == q.printed + Reversed(q.items) + [item];
      case PrintOne =>
        if q.items != [] {
          ReversedLast(q.items);
          assert q1.printed + Reversed(q1.items) == q.printed + ([q.items[|q.items| - 1]] + Reversed(q1.items));
        }
    }
  }
}
