/** Doubly linked nodes and the two operations that splice them. */
module LinkedNodes {
  import opened Sequences

  class Node<T> {
    var next: Node?<T>
    var prev: Node?<T>
    const data: T

    constructor (data: T)
      ensures this.data == data && next == null && prev == null
    {
      this.data := data;
      next, prev := null, null;
    }
  }

  /** No element of one sequence is in the other. */
  predicate Apart<X(==)>(a: seq<X>, b: seq<X>) {
    forall i, j :: 0 <= i < |a| && 0 <= j < |b| ==> a[i] != b[j]
  }

  function At<T>(s: seq<Node<T>>, i: int): Node?<T> {
    if 0 <= i < |s| then s[i] else null
  }

  /** The nodes of `s`, in this order, form a well-formed list. */
  ghost predicate IsList<T>(s: seq<Node<T>>)
    reads s
  {
    && Distinct(s)
    && (forall i {:trigger s[i].prev} :: 0 <= i < |s| ==> s[i].prev == At(s, i - 1))
    && (forall i {:trigger s[i].next} :: 0 <= i < |s| ==> s[i].next == At(s, i + 1))
  }

  function First<T>(s: seq<Node<T>>): Node?<T> {
    if |s| == 0 then null else s[0]
  }

  function Last<T>(s: seq<Node<T>>): Node?<T> {
    if |s| == 0 then null else s[|s| - 1]
  }

  lemma LinksOf<T>(s: seq<Node<T>>, k: nat)
    requires IsList(s) && k < |s|
    ensures s[k].next == At(s, k + 1) && s[k].prev == At(s, k - 1)
  {
  }

  lemma NextOf<T>(s: seq<Node<T>>, k: nat)
    requires IsList(s) && k < |s|
    ensures s[k].next == At(s, k + 1)
    ensures k > 0 ==> s[0] != s[k]
    ensures k < |s| - 1 ==> s[k] != s[|s| - 1]
  {
  }

  /** Puts `node` between `prev` and `curr`, either of which may be absent. */
  method Link<T>(curr: Node?<T>, prev: Node?<T>, node: Node<T>)
    requires node != prev && node != curr && (prev != null ==> prev != curr)
    modifies node, if prev == null then {} else {prev}, if curr == null then {} else {curr}
    ensures node.prev == prev && node.next == curr
    ensures prev != null ==> prev.next == node && prev.prev == old(prev.prev)
    ensures curr != null ==> curr.prev == node && curr.next == old(curr.next)
  {
    if prev != null {
      prev.next := node;
    }
    node.prev := prev;
    node.next := curr;
    if curr != null {
      curr.prev := node;
    }
  }

  /** Takes `node` out from between its neighbours. */
  method Unlink<T>(node: Node<T>)
    requires node.prev != node && node.next != node && (node.prev != null ==> node.prev != node.next)
    modifies node, if node.prev == null then {} else {node.prev}, if node.next == null then {} else {node.next}
    ensures node.next == null && node.prev == null
    ensures old(node.prev) != null ==>
              old(node.prev).next == old(node.next) && old(node.prev).prev == old(node.prev.prev)
    ensures old(node.next) != null ==>
              old(node.next).prev == old(node.prev) && old(node.next).next == old(node.next.next)
  {
    var n0, n1 := node.prev, node.next;
    if n0 != null {
      n0.next := n1;
    }
    if n1 != null {
      n1.prev := n0;
    }
    node.next, node.prev := null, null;
  }

  /** Linking behind the last node extends the list at its end. */
  method Append<T>(tail: Node?<T>, node: Node<T>, ghost s: seq<Node<T>>)
    requires IsList(s) && tail == Last(s) && node !in s
    modifies node, s
    ensures IsList(s + [node])
  {
    Link(null, tail, node);
    var t := s + [node];
    forall i | 0 <= i < |t| ensures t[i].prev == At(t, i - 1) && t[i].next == At(t, i + 1) {
      if i < |s| - 1 {
        assert s[i] != s[|s| - 1];
        assert t[i].next == old(s[i].next) == At(s, i + 1);
      }
      if i < |s| {
        assert t[i].prev == old(s[i].prev) == At(s, i - 1);
      }
    }
  }

  /** Linking before the first node extends the list at its front. */
  method Prepend<T>(head: Node?<T>, node: Node<T>, ghost s: seq<Node<T>>)
    requires IsList(s) && head == First(s) && node !in s
    modifies node, s
    ensures IsList([node] + s)
  {
    Link(head, null, node);
    var t := [node] + s;
    forall i | 0 <= i < |t| ensures t[i].prev == At(t, i - 1) && t[i].next == At(t, i + 1) {
      if i > 1 {
        assert s[i - 1] != s[0];
        assert t[i].prev == old(s[i - 1].prev) == At(s, i - 2);
      }
      if i > 0 {
        assert t[i].next == old(s[i - 1].next) == At(s, i);
      }
    }
  }

  /** Two lists without a common node do not disturb each other. */
  method PrependBeside<T>(head: Node?<T>, node: Node<T>, ghost s: seq<Node<T>>, ghost other: seq<Node<T>>)
    requires IsList(s) && head == First(s) && node !in s
    requires IsList(other) && Apart(s, other) && node !in other
    modifies node, s
    ensures IsList([node] + s) && IsList(other)
  {
    hide IsList, First;
    Prepend(head, node, s);
  }

  method AppendBeside<T>(tail: Node?<T>, node: Node<T>, ghost s: seq<Node<T>>, ghost other: seq<Node<T>>)
    requires IsList(s) && tail == Last(s) && node !in s
    requires IsList(other) && Apart(s, other) && node !in other
    modifies node, s
    ensures IsList(s + [node]) && IsList(other)
  {
    hide IsList, Last;
    Append(tail, node, s);
  }

  function Without<X>(s: seq<X>, k: nat): seq<X>
    requires k < |s|
  {
    s[..k] + s[k + 1..]
  }

  lemma WithoutDistinct<X>(s: seq<X>, k: nat)
    requires k < |s| && Distinct(s)
    ensures Distinct(Without(s, k)) && s[k] !in Without(s, k)
  {
    var t := Without(s, k);
    forall i, j | 0 <= i < j < |t| ensures t[i] != t[j] {
      assert t[i] == s[if i < k then i else i + 1] && t[j] == s[if j < k then j else j + 1];
    }
    forall i | 0 <= i < |t| ensures t[i] != s[k] {
      assert t[i] == s[if i < k then i else i + 1];
    }
  }

  lemma NeverEqual<X>(s: seq<X>, i: nat, j: int)
    requires Distinct(s) && i < |s|
    ensures 0 <= j < |s| && i != j ==> s[i] != s[j]
  {
  }

  lemma WithoutAt<T>(s: seq<Node<T>>, k: nat, i: int)
    requires k < |s|
    ensures At(Without(s, k), i) == At(s, if i < k then i else i + 1)
  {
  }

  /** Unlinking the `k`-th node leaves the others in order. */
  method Remove<T>(node: Node<T>, ghost s: seq<Node<T>>, ghost k: nat)
    requires IsList(s) && k < |s| && s[k] == node
    modifies s
    ensures IsList(Without(s, k)) && node !in Without(s, k)
    ensures node.next == null && node.prev == null
  {
    hide Distinct, Without;
    assert s[k].prev == At(s, k - 1) && s[k].next == At(s, k + 1);
    NeverEqual(s, k, k - 1);
    NeverEqual(s, k, k + 1);
    if k > 0 { NeverEqual(s, k - 1, k + 1); }
    Unlink(node);
    WithoutDistinct(s, k);
    var t := Without(s, k);
    forall i | 0 <= i < |t| ensures t[i].prev == At(t, i - 1) && t[i].next == At(t, i + 1) {
      WithoutAt(s, k, i - 1);
      WithoutAt(s, k, i);
      WithoutAt(s, k, i + 1);
      var j := if i < k then i else i + 1;
      assert t[i] == At(t, i) == s[j];
      assert old(s[j].prev) == At(s, j - 1) && old(s[j].next) == At(s, j + 1);
      NeverEqual(s, j, k);
      NeverEqual(s, j, k - 1);
      NeverEqual(s, j, k + 1);
    }
  }

  method RemoveBeside<T>(node: Node<T>, ghost s: seq<Node<T>>, ghost k: nat, ghost other: seq<Node<T>>)
    requires IsList(s) && k < |s| && s[k] == node && IsList(other) && Apart(s, other)
    modifies s
    ensures IsList(Without(s, k)) && node !in Without(s, k) && IsList(other)
    ensures node.next == null && node.prev == null
  {
    hide IsList, Without;
    Remove(node, s, k);
  }

  lemma SliceAt<T>(s: seq<Node<T>>, k: nat, i: int)
    requires k <= |s|
    ensures At(s[..k], i) == (if i < k then At(s, i) else null)
    ensures At(s[k..], i) == (if i < 0 then null else At(s, i + k))
  {
  }

  /** Cutting the link behind the `k`-th node leaves two lists. */
  method Cut<T>(last: Node<T>, ghost s: seq<Node<T>>, ghost k: nat) returns (rest: Node?<T>)
    requires IsList(s) && 0 < k <= |s| && last == s[k - 1]
    modifies s
    ensures IsList(s[..k]) && IsList(s[k..])
    ensures rest == First(s[k..])
  {
    NextOf(s, k - 1);
    hide Distinct;
    rest := last.next;
    if rest != null {
      rest.prev := null;
      last.next := null;
    }
    forall i | 0 <= i < |s|
      ensures s[i].prev == (if i == k then null else At(s, i - 1))
      ensures s[i].next == (if i == k - 1 then null else At(s, i + 1))
    {
      assert old(s[i].prev) == At(s, i - 1) && old(s[i].next) == At(s, i + 1);
      NeverEqual(s, i, k);
      NeverEqual(s, i, k - 1);
    }
    TwoLists(s, k);
  }

  lemma DistinctHalves<X>(s: seq<X>, k: nat)
    requires Distinct(s) && k <= |s|
    ensures Distinct(s[..k]) && Distinct(s[k..])
  {
  }

  lemma TwoLists<T>(s: seq<Node<T>>, k: nat)
    requires Distinct(s) && 0 < k <= |s|
    requires forall i {:trigger s[i].prev} :: 0 <= i < |s| ==> s[i].prev == if i == k then null else At(s, i - 1)
    requires forall i {:trigger s[i].next} :: 0 <= i < |s| ==> s[i].next == if i == k - 1 then null else At(s, i + 1)
    ensures IsList(s[..k]) && IsList(s[k..])
  {
    DistinctHalves(s, k);
    hide Distinct;
    var a, b := s[..k], s[k..];
    forall i | 0 <= i < |a| ensures a[i].prev == At(a, i - 1) && a[i].next == At(a, i + 1) {
      SliceAt(s, k, i - 1);
      SliceAt(s, k, i + 1);
      assert a[i] == s[i];
    }
    forall i | 0 <= i < |b| ensures b[i].prev == At(b, i - 1) && b[i].next == At(b, i + 1) {
      SliceAt(s, k, i - 1);
      SliceAt(s, k, i + 1);
      assert b[i] == s[k + i];
    }
  }
}
