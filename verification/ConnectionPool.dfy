/** The connection pool: a list of free connections and a list of connections in use. */
module ConnectionPool {
  import opened DatabaseResult
  import opened LinkedNodes
  import opened Sequences

  predicate Sorted(s: seq<nat>) {
    forall i, j :: 0 <= i < j < |s| ==> s[i] <= s[j]
  }

  ghost function Elements<X>(s: seq<X>): set<X> {
    set x | x in s
  }

  /**
   The free and the locked nodes partition those created, and the free ones stand in the order
   in which they became free: `since` are the times, `now` the time of the last release.
   */
  ghost predicate Books<X>(free: seq<X>, locked: seq<X>, created: set<X>, since: seq<nat>, now: nat) {
    && Distinct(free) && Distinct(locked) && Apart(free, locked)
    && created == Elements(free) + Elements(locked)
    && |since| == |free| && Sorted(since) && forall i :: 0 <= i < |since| ==> since[i] <= now
  }

  lemma BooksInsert<X>(x: X, free: seq<X>, locked: seq<X>, created: set<X>, since: seq<nat>)
    requires Books(free, locked, created, since, 0) && x !in created
    ensures Books([x] + free, locked, created + {x}, [0] + since, 0)
    ensures Apart(free, locked) && x !in free && x !in locked
  {
    assert Elements([x] + free) == {x} + Elements(free);
    assert x !in Elements(free) && x !in Elements(locked);
  }

  lemma BooksAcquire<X>(free: seq<X>, locked: seq<X>, created: set<X>, since: seq<nat>, now: nat)
    requires Books(free, locked, created, since, now) && free != []
    ensures Books(free[1..], [free[0]] + locked, created, since[1..], now)
    ensures Apart(free, locked) && free[0] !in locked && free[0] !in free[1..]
    ensures |since| == |free| && forall i :: 0 <= i < |since| ==> since[0] <= since[i]
  {
    var x := free[0];
    assert free == [x] + free[1..];
    assert Elements(free) == {x} + Elements(free[1..]);
    assert Elements([x] + locked) == {x} + Elements(locked);
  }

  lemma BooksRelease<X>(free: seq<X>, locked: seq<X>, created: set<X>, since: seq<nat>, now: nat, k: nat)
    requires Books(free, locked, created, since, now) && k < |locked|
    ensures Books(free + [locked[k]], Without(locked, k), created, since + [now + 1], now + 1)
    ensures Apart(free, locked) && locked[k] !in free && locked[k] !in Without(locked, k)
  {
    var x, rest := locked[k], Without(locked, k);
    WithoutDistinct(locked, k);
    assert locked == locked[..k] + [x] + locked[k + 1..];
    assert Elements(locked) == {x} + Elements(rest);
    assert Elements(free + [x]) == Elements(free) + {x};
    assert forall i :: 0 <= i < |rest| ==> rest[i] in locked;
  }

  lemma WithoutFirst<X>(s: seq<X>)
    requires |s| > 0
    ensures Without(s, 0) == s[1..]
  {
  }

  /** What remains when the first node of `f` is taken out. */
  lemma HeadGone<T>(f: seq<Node<T>>, l: seq<Node<T>>)
    requires Distinct(f) && Apart(f, l) && |f| > 0
    ensures var g := Without(f, 0);
            && Apart(l, g) && First(g) == At(f, 1)
            && Last(g) == if f[0] == Last(f) then null else Last(f)
  {
  }

  lemma EndsWith<T>(node: Node<T>, f: seq<Node<T>>)
    ensures First([node] + f) == node
    ensures if First(f) == null then Last([node] + f) == node else Last([node] + f) == Last(f)
  {
  }

  lemma WithoutBeside<X>(f: seq<X>, l: seq<X>, k: nat)
    requires Apart(f, l) && k < |l|
    ensures Apart(l, f) && Apart(f, Without(l, k))
  {
    assert forall j :: 0 <= j < |l| - 1 ==> Without(l, k)[j] == l[if j < k then j else j + 1];
  }

  class Pool<Conn> {
    var head: Node?<Conn>
    var tail: Node?<Conn>
    var lockedConns: Node?<Conn>

    ghost var free: seq<Node<Conn>>
    ghost var locked: seq<Node<Conn>>
    ghost var created: set<Node<Conn>>
    ghost var since: seq<nat>
    ghost var now: nat

    ghost predicate Valid()
      reads this, free, locked
    {
      && IsList(free) && IsList(locked)
      && head == First(free) && tail == Last(free) && lockedConns == First(locked)
      && Books(free, locked, created, since, now)
    }

    constructor ()
      ensures Valid() && free == [] && locked == [] && created == {} && now == 0
    {
      head, tail, lockedConns := null, null, null;
      free, locked, created, since, now := [], [], {}, [], 0;
      new;
      assert Elements(free) == {} && Elements(locked) == {};
    }

    /** Adds a connection while the pool is being created; later additions do not occur. */
    method InsertConn(node: Node<Conn>)
      requires Valid() && node !in created && now == 0
      modifies this, node, free
      ensures Valid() && now == 0
      ensures free == [node] + old(free) && since == [0] + old(since)
      ensures locked == old(locked) && created == old(created) + {node}
    {
      ghost var f, l := free, locked;
      BooksInsert(node, f, l, created, since);
      EndsWith(node, f);
      hide Books, IsList, Distinct, Apart, First, Last;
      var oldHead := head;
      node.next, node.prev := null, null;
      PrependBeside(oldHead, node, f, l);
      head := node;
      if oldHead == null {
        tail := node;
      }
      free, since, created := [node] + f, [0] + since, created + {node};
    }

    /** Hands out the connection that has been free longest, if there is one. */
    method AcquireFree() returns (found: Node?<Conn>)
      requires Valid()
      modifies this, free, locked
      ensures Valid() && created == old(created) && now == old(now)
      ensures found == null <==> old(free) == []
      ensures found == null ==> free == old(free) && locked == old(locked) && since == old(since)
      ensures found != null ==>
                && found == old(free)[0] && |old(since)| == |old(free)|
                && (forall i :: 0 <= i < |old(since)| ==> old(since)[0] <= old(since)[i])
                && free == old(free)[1..] && since == old(since)[1..] && locked == [found] + old(locked)
    {
      found := head;
      if found != null {
        ghost var f, l := free, locked;
        BooksAcquire(f, l, created, since, now);
        hide Books, IsList, Distinct, Apart, First, Last;
        MoveHead(found, f, l);
        free, since, locked := f[1..], since[1..], [found] + l;
      }
    }

    /** The pointer updates of `AcquireFree`. */
    method MoveHead(node: Node<Conn>, ghost f: seq<Node<Conn>>, ghost l: seq<Node<Conn>>)
      requires IsList(f) && IsList(l) && Apart(f, l) && |f| > 0 && node == f[0] && node !in l
      requires head == First(f) && tail == Last(f) && lockedConns == First(l)
      modifies this`head, this`tail, this`lockedConns, f, l
      ensures IsList(f[1..]) && IsList([node] + l)
      ensures head == First(f[1..]) && tail == Last(f[1..]) && lockedConns == node
    {
      hide *;
      MoveToFront(node, f, l);
      WithoutFirst(f);
    }

    method MoveToFront(node: Node<Conn>, ghost f: seq<Node<Conn>>, ghost l: seq<Node<Conn>>)
      requires IsList(f) && IsList(l) && Apart(f, l) && |f| > 0 && node == f[0] && node !in l
      requires head == First(f) && tail == Last(f) && lockedConns == First(l)
      modifies this`head, this`tail, this`lockedConns, f, l
      ensures IsList(Without(f, 0)) && IsList([node] + l)
      ensures head == First(Without(f, 0)) && tail == Last(Without(f, 0)) && lockedConns == node
    {
      NextOf(f, 0);
      HeadGone(f, l);
      hide Without, IsList, Apart, First, Last, Distinct;
      if node == tail {
        tail := null;
      }
      head := node.next;
      RemoveBeside(node, f, 0, l);
      PrependBeside(lockedConns, node, l, Without(f, 0));
      lockedConns := node;
    }

    /** Takes a connection back, at the end of the free list. */
    method ReleaseUsed(conn: Node<Conn>) returns (result: DbaResult)
      requires Valid()
      modifies this, free, locked
      ensures Valid() && created == old(created)
      ensures result == Ok <==> conn in old(locked)
      ensures result == ErrorArg ==>
                free == old(free) && locked == old(locked) && since == old(since) && now == old(now)
      ensures result == Ok ==>
                && free == old(free) + [conn] && now == old(now) + 1 && since == old(since) + [now]
                && exists k :: 0 <= k < |old(locked)| && old(locked)[k] == conn && locked == Without(old(locked), k)
    {
      var found, k := FindLocked(conn);
      if !found {
        result := ErrorArg;
      } else {
        ghost var f, l := free, locked;
        BooksRelease(f, l, created, since, now, k);
        hide Books, IsList, Distinct, Apart, Without, First, Last;
        MoveToBack(conn, f, l, k);
        now := now + 1;
        free, since, locked := f + [conn], since + [now], Without(l, k);
        result := Ok;
      }
    }

    /** The pointer updates of `ReleaseUsed`. */
    method MoveToBack(conn: Node<Conn>, ghost f: seq<Node<Conn>>, ghost l: seq<Node<Conn>>, ghost k: nat)
      requires IsList(f) && IsList(l) && Apart(f, l) && k < |l| && conn == l[k] && conn !in f
      requires head == First(f) && tail == Last(f) && lockedConns == First(l)
      modifies this`head, this`tail, this`lockedConns, f, l
      ensures IsList(f + [conn]) && IsList(Without(l, k))
      ensures head == First(f + [conn]) && tail == conn && lockedConns == First(Without(l, k))
    {
      NextOf(l, k);
      assert First(Without(l, k)) == if k == 0 then At(l, 1) else l[0];
      WithoutBeside(f, l, k);
      hide IsList, Without, Apart;
      if lockedConns == conn {
        lockedConns := conn.next;
      }
      RemoveBeside(conn, l, k, f);
      AppendBeside(tail, conn, f, Without(l, k));
      tail := conn;
      if head == null {
        head := conn;
      }
    }

    /** Walks the list of connections in use. */
    method FindLocked(conn: Node<Conn>) returns (found: bool, ghost k: nat)
      requires Valid()
      ensures found <==> conn in locked
      ensures found ==> k < |locked| && locked[k] == conn
    {
      var node := lockedConns;
      k := 0;
      while node != null && node != conn
        invariant k <= |locked| && node == At(locked, k)
        invariant conn !in locked[..k]
        decreases |locked| - k
      {
        assert locked[k].next == At(locked, k + 1);
        assert locked[..k + 1] == locked[..k] + [locked[k]];
        node := node.next;
        k := k + 1;
      }
      found := node != null;
      assert !found ==> locked[..k] == locked;
    }
  }
}
