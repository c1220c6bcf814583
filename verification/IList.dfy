/** The intrusive circular list with a sentinel, edited in place while a pass walks it. */
module ILists {
  class Node {
    var prev: Node?
    var next: Node?

    constructor ()
      ensures prev == null && next == null
    {
      prev, next := null, null;
    }
  }

  /** Hook `node` in before `next`. */
  method InsertBefore(next: Node, node: Node)
    requires next.prev != null && node != next && node != next.prev
    modifies node, next`prev, next.prev`next
    ensures node.next == next && node.prev == old(next.prev) && next.prev == node && old(next.prev).next == node
  {
    var prev := next.prev;
    node.next := next;
    node.prev := prev;
    prev.next := node;
    next.prev := node;
  }

  /** Unhook `node`; its own pointers stay. */
  method Remove(node: Node)
    requires node.prev != null && node.next != null && node.prev != node && node.next != node
    modifies node.next`prev, node.prev`next
    ensures node.next.prev == node.prev && node.prev.next == node.next
  {
    var prev, next := node.prev, node.next;
    next.prev := prev;
    prev.next := next;
  }

  predicate Distinct(ring: seq<Node>) {
    forall i, j :: 0 <= i < j < |ring| ==> ring[i] != ring[j]
  }

  /** Neighbours in the ring point to each other. */
  ghost predicate Wired(ring: seq<Node>)
    reads ring
  {
    && |ring| > 0
    && (forall i :: 0 <= i < |ring| - 1 ==> ring[i].next == ring[i + 1])
    && (forall i :: 0 < i < |ring| ==> ring[i].prev == ring[i - 1])
    && ring[|ring| - 1].next == ring[0] && ring[0].prev == ring[|ring| - 1]
  }

  function Inserted(s: seq<Node>, k: nat, n: Node): seq<Node>
    requires k <= |s|
  {
    s[..k] + [n] + s[k..]
  }

  function Deleted(s: seq<Node>, k: nat): seq<Node>
    requires k < |s|
  {
    s[..k] + s[k + 1..]
  }

  lemma InsertedDistinct(ring: seq<Node>, k: nat, node: Node)
    requires Distinct(ring) && node !in ring && k <= |ring|
    ensures Distinct(Inserted(ring, k, node))
  {
    var r := Inserted(ring, k, node);
    forall i, j | 0 <= i < j < |r| ensures r[i] != r[j] {
      assert r[i] == if i < k then ring[i] else if i == k then node else ring[i - 1];
      assert r[j] == if j < k then ring[j] else if j == k then node else ring[j - 1];
    }
  }

  lemma DeletedDistinct(ring: seq<Node>, k: nat)
    requires Distinct(ring) && k < |ring|
    ensures Distinct(Deleted(ring, k))
  {
    var r := Deleted(ring, k);
    forall i, j | 0 <= i < j < |r| ensures r[i] != r[j] {
      assert r[i] == ring[if i < k then i else i + 1] && r[j] == ring[if j < k then j else j + 1];
    }
  }

  /** The new ring is wired if only the two neighbours of the new node changed. */
  lemma InsertedWired(ring: seq<Node>, k: nat, node: Node)
    requires 0 < k <= |ring|
    requires forall i :: 0 <= i < |ring| - 1 && i != k - 1 ==> ring[i].next == ring[i + 1]
    requires forall i :: 0 < i < |ring| && i != k ==> ring[i].prev == ring[i - 1]
    requires k < |ring| ==> ring[|ring| - 1].next == ring[0] && ring[0].prev == ring[|ring| - 1]
    requires ring[k - 1].next == node && node.prev == ring[k - 1]
    requires var it := if k < |ring| then ring[k] else ring[0]; node.next == it && it.prev == node
    ensures Wired(Inserted(ring, k, node))
  {
    var r := Inserted(ring, k, node);
    forall i | 0 <= i < |r| - 1 ensures r[i].next == r[i + 1] && r[i + 1].prev == r[i] {
      assert r[i] == if i < k then ring[i] else if i == k then node else ring[i - 1];
      assert r[i + 1] == if i + 1 < k then ring[i + 1] else if i + 1 == k then node else ring[i];
    }
    assert r[|r| - 1] == if k == |ring| then node else ring[|ring| - 1];
  }

  lemma DeletedWired(ring: seq<Node>, k: nat)
    requires 0 < k < |ring|
    requires forall i :: 0 <= i < |ring| - 1 && i != k - 1 && i != k ==> ring[i].next == ring[i + 1]
    requires forall i :: 0 < i < |ring| && i != k && i != k + 1 ==> ring[i].prev == ring[i - 1]
    requires k + 1 < |ring| ==> ring[|ring| - 1].next == ring[0] && ring[0].prev == ring[|ring| - 1]
    requires var it := if k + 1 < |ring| then ring[k + 1] else ring[0]; ring[k - 1].next == it && it.prev == ring[k - 1]
    ensures Wired(Deleted(ring, k))
  {
    var r := Deleted(ring, k);
    forall i | 0 <= i < |r| - 1 ensures r[i].next == r[i + 1] && r[i + 1].prev == r[i] {
      assert r[i] == if i < k then ring[i] else ring[i + 1];
      assert r[i + 1] == if i + 1 < k then ring[i + 1] else ring[i + 2];
    }
    assert r[|r| - 1] == if k + 1 == |ring| then ring[k - 1] else ring[|ring| - 1];
  }

  /** Insert into a ring before its element `k`, or before its first element at the end. */
  method HookIn(it: Node, node: Node, ghost ring: seq<Node>, ghost k: nat)
    requires Wired(ring) && Distinct(ring) && 0 < k <= |ring| && node !in ring
      && it == if k < |ring| then ring[k] else ring[0]
    modifies node, ring
    ensures Wired(Inserted(ring, k, node))
  {
    assert it.prev == ring[k - 1] && it in ring && it.prev in ring;
    InsertBefore(it, node);
    InsertedWired(ring, k, node);
  }

  method HookOut(node: Node, ghost ring: seq<Node>, ghost k: nat)
    requires Wired(ring) && Distinct(ring) && 0 < k < |ring| && node == ring[k]
    modifies ring
    ensures Wired(Deleted(ring, k))
    ensures node.prev == old(node.prev) && node.next == old(node.next)
  {
    assert node.prev == ring[k - 1] && node.next == if k + 1 < |ring| then ring[k + 1] else ring[0];
    Remove(node);
    DeletedWired(ring, k);
  }

  class IList {
    const sentinel: Node
    ghost var elems: seq<Node>
    ghost var nodes: set<Node>

    ghost function Ring(): seq<Node>
      reads this
    {
      [sentinel] + elems
    }

    ghost predicate Valid()
      reads this, nodes
    {
      && (forall i :: 0 <= i < |Ring()| ==> Ring()[i] in nodes)
      && Distinct(Ring()) && Wired(Ring())
    }

    constructor ()
      ensures Valid() && elems == [] && fresh(nodes)
    {
      sentinel := new Node();
      elems, nodes := [], {sentinel};
      new;
      sentinel.prev, sentinel.next := sentinel, sentinel;
    }

    /** The iterator at index `k`; one past the last element is the sentinel. */
    ghost function At(k: nat): Node
      requires k <= |elems|
      reads this
    {
      if k < |elems| then elems[k] else sentinel
    }

    method Empty() returns (r: bool)
      requires Valid()
      ensures r <==> elems == []
    {
      r := sentinel.prev == sentinel;
      assert elems != [] ==> Ring()[|elems|] == elems[|elems| - 1];
    }

    method Begin() returns (it: Node)
      requires Valid()
      ensures it == At(0)
    {
      assert elems != [] ==> Ring()[1] == elems[0];
      it := sentinel.next;
    }

    /** The iterator moves to the next element, from the last one to the end. */
    method Advance(it: Node, ghost k: nat) returns (it': Node)
      requires Valid() && k < |elems| && it == elems[k]
      ensures it' == At(k + 1)
    {
      assert Ring()[k + 1] == it;
      assert k + 1 < |elems| ==> Ring()[k + 2] == elems[k + 1];
      it' := it.next;
    }

    method Insert(it: Node, node: Node, ghost k: nat)
      requires Valid() && k <= |elems| && it == At(k) && node !in nodes
      modifies this, nodes, node
      ensures Valid() && elems == Inserted(old(elems), k, node) && nodes == old(nodes) + {node}
    {
      hide Distinct, Wired;
      ghost var ring := Ring();
      InsertedDistinct(ring, k + 1, node);
      HookIn(it, node, ring, k + 1);
      elems, nodes := Inserted(elems, k, node), nodes + {node};
      assert Ring() == Inserted(ring, k + 1, node);
    }

    /** Unlink element `k`; the removed node keeps its own pointers. */
    method Delete(node: Node, ghost k: nat)
      requires Valid() && k < |elems| && node == elems[k]
      modifies this, nodes
      ensures Valid() && elems == Deleted(old(elems), k) && nodes == old(nodes)
      ensures node.prev == old(node.prev) && node.next == old(node.next)
    {
      hide Distinct, Wired;
      ghost var ring := Ring();
      DeletedDistinct(ring, k + 1);
      HookOut(node, ring, k + 1);
      elems := Deleted(elems, k);
      assert Ring() == Deleted(ring, k + 1);
    }

    /** Remove the element under the iterator and return the one after it. */
    method Erase(it: Node, ghost k: nat) returns (it': Node)
      requires Valid() && k < |elems| && it == elems[k]
      modifies this, nodes
      ensures Valid() && elems == Deleted(old(elems), k) && nodes == old(nodes) && it' == At(k)
    {
      it' := Advance(it, k);
      Delete(it, k);
    }

    /** Create `count` nodes and insert them, in order, before the cursor. */
    method CreateBefore(it: Node, count: nat, ghost k: nat) returns (ghost ns: seq<Node>)
      requires Valid() && k <= |elems| && it == At(k)
      modifies this, nodes
      ensures Valid() && |ns| == count && elems == old(elems)[..k] + ns + old(elems)[k..]
      ensures forall n :: n in ns ==> fresh(n)
      ensures fresh(nodes - old(nodes))
    {
      hide Distinct, Wired;
      ns := [];
      var j := 0;
      while j < count
        invariant j <= count && Valid() && |ns| == j && elems == old(elems)[..k] + ns + old(elems)[k..]
        invariant forall n :: n in ns ==> fresh(n)
        invariant fresh(nodes - old(nodes))
      {
        var node := new Node();
        Insert(it, node, k + j);
        ns := ns + [node];
        j := j + 1;
      }
    }

    /** Visit one element: insert before it, then move on. */
    method VisitOne(it: Node, count: nat, ghost done: seq<Node>, ghost tail: seq<Node>) returns (it': Node,
        ghost ns: seq<Node>)
      requires Valid() && |tail| > 0 && elems == done + tail && it == tail[0]
      modifies this, nodes
      ensures Valid() && |ns| == count && elems == done + ns + tail && it' == At(|done| + |ns| + 1)
      ensures fresh(nodes - old(nodes)) && forall n :: n in ns ==> fresh(n)
    {
      hide Distinct, Wired;
      assert (done + tail)[..|done|] == done && (done + tail)[|done|..] == tail;
      ns := CreateBefore(it, count, |done|);
      it' := Advance(it, |done| + |ns|);
    }

    /** A pass that inserts before its cursor: it visits each element that was in the list when it
        started exactly once, in order, and none of those it inserted. */
    method EditPass(counts: seq<nat>) returns (visited: seq<Node>, ghost news: seq<seq<Node>>)
      requires Valid() && |counts| == |elems|
      modifies this, nodes
      ensures Valid() && visited == old(elems)
      ensures |news| == |counts| && (forall i :: 0 <= i < |counts| ==> |news[i]| == counts[i])
      ensures elems == Woven(news, old(elems), |counts|)
    {
      hide Distinct, Wired, Valid, Woven, PassAt;
      ghost var start, done, tail := elems, [], elems;
      visited, news := [], [];
      PassStart(counts, start);
      var it := Begin();
      NotAtEnd(this, 0);
      while it != sentinel
        invariant Valid() && elems == done + tail && PassAt(counts, start, visited, news, done, tail)
        invariant it == At(|done|) && (it == sentinel <==> tail == [])
        invariant fresh(nodes - old(nodes))
        decreases |tail|
      {
        PassBound(counts, start, visited, news, done, tail);
        ghost var ns;
        var x := it;
        it, ns := VisitOne(it, counts[|visited|], done, tail);
        PassNext(counts, start, visited, news, done, tail, ns);
        visited := visited + [x];
        done, tail, news := done + ns + [tail[0]], tail[1..], news + [ns];
        NotAtEnd(this, |done|);
      }
      PassEnd(counts, start, visited, news, done);
    }

    /** What the folder does when it replaces an instruction: insert the new one before it, erase
        it, and hand back the new one. */
    method Replace(it: Node, node: Node, ghost k: nat) returns (last: Node)
      requires Valid() && k < |elems| && it == elems[k] && node !in nodes
      modifies this, nodes, node
      ensures Valid() && elems == old(elems)[k := node] && last == node
    {
      hide Distinct, Wired;
      Insert(it, node, k);
      assert it == elems[k + 1];
      last := Retreat(it, k + 1);
      var it' := Erase(it, k + 1);
    }

    method Retreat(it: Node, ghost k: nat) returns (it': Node)
      requires Valid() && 0 < k < |elems| && it == elems[k]
      ensures it' == elems[k - 1]
    {
      assert Ring()[k + 1] == it && Ring()[k] == elems[k - 1];
      it' := it.prev;
    }
  }

  /** Each of the first `n` elements of `s`, preceded by what was inserted before it. */
  function Woven(news: seq<seq<Node>>, s: seq<Node>, n: nat): seq<Node>
    requires n <= |news| && n <= |s|
  {
    if n == 0 then [] else Woven(news, s, n - 1) + news[n - 1] + [s[n - 1]]
  }

  lemma {:induction false} WovenPrefix(news: seq<seq<Node>>, ns: seq<Node>, s: seq<Node>, n: nat)
    requires n <= |news| && n <= |s|
    ensures Woven(news + [ns], s, n) == Woven(news, s, n)
  {
    if n > 0 {
      WovenPrefix(news, ns, s, n - 1);
    }
  }

  lemma {:induction false} WovenNext(news: seq<seq<Node>>, ns: seq<Node>, s: seq<Node>)
    requires |news| < |s|
    ensures Woven(news + [ns], s, |news| + 1) == Woven(news, s, |news|) + ns + [s[|news|]]
  {
    WovenPrefix(news, ns, s, |news|);
  }

  lemma Regroup(done: seq<Node>, ns: seq<Node>, tail: seq<Node>)
    requires |tail| > 0
    ensures done + ns + tail == (done + ns + [tail[0]]) + tail[1..]
  {
    assert tail == [tail[0]] + tail[1..];
  }

  /** The pass has visited the part of `start` before `tail` and turned it into `done`. */
  predicate PassAt(counts: seq<nat>, start: seq<Node>, visited: seq<Node>, news: seq<seq<Node>>, done: seq<Node>,
      tail: seq<Node>) {
    && |counts| == |start| && start == visited + tail && |visited| == |news| && done == Woven(news, start, |news|)
    && forall i :: 0 <= i < |news| ==> |news[i]| == counts[i]
  }

  lemma {:induction false} PassStart(counts: seq<nat>, start: seq<Node>)
    requires |counts| == |start|
    ensures PassAt(counts, start, [], [], [], start)
  {
  }

  lemma {:induction false} PassBound(counts: seq<nat>, start: seq<Node>, visited: seq<Node>, news: seq<seq<Node>>,
      done: seq<Node>, tail: seq<Node>)
    requires PassAt(counts, start, visited, news, done, tail) && tail != []
    ensures |visited| < |counts|
  {
    hide Woven;
  }

  lemma {:induction false} PassNext(counts: seq<nat>, start: seq<Node>, visited: seq<Node>, news: seq<seq<Node>>,
      done: seq<Node>, tail: seq<Node>, ns: seq<Node>)
    requires PassAt(counts, start, visited, news, done, tail) && tail != [] && |visited| < |counts|
      && |ns| == counts[|visited|]
    ensures PassAt(counts, start, visited + [tail[0]], news + [ns], done + ns + [tail[0]], tail[1..])
    ensures done + ns + tail == (done + ns + [tail[0]]) + tail[1..]
  {
    hide Woven;
    WovenNext(news, ns, start);
    Regroup(done, ns, tail);
    assert start[|news|] == tail[0];
    assert start == visited + [tail[0]] + tail[1..];
  }

  lemma {:induction false} PassEnd(counts: seq<nat>, start: seq<Node>, visited: seq<Node>, news: seq<seq<Node>>,
      done: seq<Node>)
    requires PassAt(counts, start, visited, news, done, [])
    ensures visited == start && |news| == |counts| && done == Woven(news, start, |counts|)
      && forall i :: 0 <= i < |counts| ==> |news[i]| == counts[i]
  {
    hide Woven;
  }

  /** Only the end iterator is the sentinel. */
  lemma NotAtEnd(l: IList, k: nat)
    requires l.Valid() && k <= |l.elems|
    ensures l.At(k) == l.sentinel <==> k == |l.elems|
  {
    assert k < |l.elems| ==> l.Ring()[k + 1] == l.elems[k] && l.Ring()[0] == l.sentinel;
  }
}
