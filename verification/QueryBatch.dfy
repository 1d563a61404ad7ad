/** The query lists of a connection, and the batching of pending queries into one bulk of statements. */
module QueryBatch {
  import opened Bytes
  import opened DatabaseResult
  import opened LinkedNodes
  import opened Sequences

  class Query {
    const statements: seq<Byte>
    var numRsRemain: nat

    constructor (statements: seq<Byte>, numRs: nat)
      ensures this.statements == statements && numRsRemain == numRs
    {
      this.statements := statements;
      this.numRsRemain := numRs;
    }
  }

  /** The statements of the queries, one after the other. */
  function TextOf(s: seq<Node<Query>>): seq<Byte> {
    if |s| == 0 then [] else TextOf(s[..|s| - 1]) + s[|s| - 1].data.statements
  }

  lemma NoText()
    ensures TextOf([]) == []
  {
  }

  lemma TextUpTo(s: seq<Node<Query>>, k: nat)
    requires k < |s|
    ensures TextOf(s[..k + 1]) == TextOf(s[..k]) + s[k].data.statements
  {
    assert s[..k + 1][..k] == s[..k];
  }

  lemma {:induction false} TextGrows(s: seq<Node<Query>>, j: nat, k: nat)
    requires j <= k <= |s|
    ensures |TextOf(s[..j])| <= |TextOf(s[..k])|
    decreases k - j
  {
    if j < k {
      TextGrows(s, j, k - 1);
      TextUpTo(s, k - 1);
    }
  }

  /** `k` is the length of the longest prefix whose statements together stay below `limit` bytes. */
  ghost predicate IsBatch(s: seq<Node<Query>>, limit: nat, k: nat) {
    && k <= |s| && |TextOf(s[..k])| < limit
    && forall j :: 0 <= j <= |s| && |TextOf(s[..j])| < limit ==> j <= k
  }

  lemma BatchStops(s: seq<Node<Query>>, limit: nat, k: nat)
    requires k <= |s| && |TextOf(s[..k])| < limit
    requires k < |s| ==> |TextOf(s[..k + 1])| >= limit
    ensures IsBatch(s, limit, k)
  {
    forall j | 0 <= j <= |s| && |TextOf(s[..j])| < limit ensures j <= k {
      if j > k {
        TextGrows(s, k + 1, j);
      }
    }
  }

  /** No query is empty, and each stays below the limit on its own. */
  predicate AllFit(s: seq<Node<Query>>, limit: nat) {
    forall i :: 0 <= i < |s| ==> 0 < |s[i].data.statements| < limit
  }

  class Connection {
    /** `bulk_query_limit_kb << 10`. */
    const limit: nat
    const buffer: array<Byte>
    var wrSz: nat
    var pendHead: Node?<Query>
    var pendTail: Node?<Query>
    var processing: Node?<Query>
    var hasReady: bool

    ghost var pending: seq<Node<Query>>
    ghost var batch: seq<Node<Query>>

    ghost predicate Valid()
      reads this, pending, batch
    {
      && IsList(pending) && IsList(batch) && Apart(pending, batch)
      && pendHead == First(pending) && pendTail == Last(pending) && processing == First(batch)
      && limit > 0 && buffer.Length == limit + 1
      && AllFit(pending, limit)
    }

    constructor (limitKb: nat)
      requires limitKb > 0
      ensures Valid() && pending == [] && batch == [] && limit == limitKb * 1024 && fresh(buffer)
    {
      limit := limitKb * 1024;
      buffer := new Byte[limitKb * 1024 + 1];
      wrSz, pendHead, pendTail, processing, hasReady := 0, null, null, null, false;
      pending, batch := [], [];
    }

    /** Adds a query at the end; its creation has checked that its statements are neither empty nor too long. */
    method AppendPending(node: Node<Query>)
      requires Valid() && node !in pending && node !in batch
      requires 0 < |node.data.statements| < limit
      modifies this`pendHead, this`pendTail, this`pending, node, pending
      ensures Valid() && pending == old(pending) + [node]
    {
      hide IsList;
      if pendHead == null {
        pendHead := node;
      }
      Append(pendTail, node, pending);
      assert IsList(batch);
      pendTail := node;
      pending := pending + [node];
    }

    /** Copies the statements of a query behind those already in the buffer. */
    method CopyStatements(q: Query)
      requires wrSz + |q.statements| < buffer.Length
      modifies this`wrSz, buffer
      ensures wrSz == old(wrSz) + |q.statements|
      ensures buffer[..wrSz] == old(buffer[..wrSz]) + q.statements
    {
      forall j | 0 <= j < |q.statements| { buffer[wrSz + j] := q.statements[j]; }
      wrSz := wrSz + |q.statements|;
    }

    /** Walks the pending list and fills the buffer; `last` is the last query that fits. */
    method FillBuffer() returns (last: Node?<Query>, ghost k: nat)
      requires Valid()
      modifies this`wrSz, buffer
      ensures IsBatch(pending, limit, k)
      ensures last == (if k == |pending| then null else At(pending, k - 1))
      ensures wrSz == |TextOf(pending[..k])| && buffer[..wrSz] == TextOf(pending[..k])
    {
      hide Apart, Distinct, IsList, Last, TextOf;
      wrSz, last, k := 0, pendHead, 0;
      NoText();
      assert pending[..0] == [];
      while last != null
        invariant k <= |pending| && last == At(pending, k) && Valid()
        invariant wrSz == |TextOf(pending[..k])| < limit && buffer[..wrSz] == TextOf(pending[..k])
        decreases |pending| - k
      {
        TextUpTo(pending, k);
        LinksOf(pending, k);
        if wrSz + |last.data.statements| < limit {
          CopyStatements(last.data);
          last := last.next;
          k := k + 1;
        } else {
          last := last.prev;
          break;
        }
      }
      BatchStops(pending, limit, k);
    }

    /** The pointer updates of `UpdateReadyQueries`: the first `k` nodes of `p` become the batch. */
    method Split(lastThatFits: Node?<Query>, ghost p: seq<Node<Query>>, ghost k: nat)
      requires IsList(p) && k <= |p| && (|p| > 0 ==> k > 0)
      requires pendHead == First(p) && pendTail == Last(p)
      requires lastThatFits == (if k == |p| then null else At(p, k - 1))
      modifies this`processing, this`hasReady, this`pendHead, this`pendTail, p
      ensures IsList(p[..k]) && IsList(p[k..])
      ensures processing == First(p[..k]) && pendHead == First(p[k..]) && pendTail == Last(p[k..])
      ensures hasReady == (k > 0)
    {
      var last := lastThatFits;
      processing := pendHead;
      hasReady := processing != null;
      if last == null {
        last := pendTail;
      }
      if last != null {
        assert last == p[k - 1];
        hide IsList;
        pendHead := Cut(last, p, k);
      } else {
        assert p[..k] == [] && p[k..] == [];
        pendHead := null;
      }
      if pendHead == null {
        pendTail := null;
      }
    }

    /**
     Moves the next batch from the pending list to the processing list, unless one is still
     being processed. The statements of the batch, ended by a NUL, are then in the buffer.
     */
    method UpdateReadyQueries() returns (result: DbaResult)
      requires Valid()
      modifies this, buffer, pending
      ensures Valid()
      ensures old(batch) != [] ==>
                && result == Skipped && pending == old(pending) && batch == old(batch)
                && wrSz == old(wrSz) && hasReady == old(hasReady) && buffer[..] == old(buffer[..])
      ensures old(batch) == [] ==>
                && batch + pending == old(pending) && IsBatch(old(pending), limit, |batch|)
                && (batch == [] <==> old(pending) == []) && result == (if batch == [] then Skipped else Ok)
                && hasReady == (batch != [])
                && wrSz == |TextOf(batch)| < limit && buffer[..wrSz] == TextOf(batch) && buffer[wrSz] == 0
    {
      hide IsList, IsBatch, TextOf, Apart, AllFit, Distinct;
      if processing != null {
        result := Skipped;
      } else {
        ghost var p := pending;
        var last, k := FillBuffer();
        SplitFacts(p, limit, k);
        buffer[wrSz] := 0;
        assert buffer[..wrSz] == TextOf(p[..k]);
        Split(last, p, k);
        batch, pending := p[..k], p[k..];
        result := if processing == null then Skipped else Ok;
      }
    }

    /** The pointer updates of `TryEvict`: the first node leaves the list `b`. */
    method DropFirst(head: Node<Query>, ghost b: seq<Node<Query>>)
      requires IsList(b) && |b| > 0 && b[0] == head
      modifies this`processing, b
      ensures IsList(b[1..]) && processing == First(b[1..])
    {
      NextOf(b, 0);
      hide IsList;
      processing := head.next;
      Remove(head, b, 0);
      assert Without(b, 0) == b[1..];
    }

    /** One result set of the first query has been dealt with; after its last one the query leaves the list. */
    method TryEvict() returns (result: DbaResult)
      requires Valid()
      modifies this`processing, this`batch, batch, if processing == null then {} else {processing.data}
      ensures Valid() && pending == old(pending)
      ensures old(batch) == [] ==> result == MemoryError && batch == []
      ensures old(batch) != [] ==>
                && result == Ok
                && old(batch)[0].data.numRsRemain
                     == (if old(batch[0].data.numRsRemain) > 0 then old(batch[0].data.numRsRemain) - 1 else 0)
                && batch == if old(batch)[0].data.numRsRemain == 0 then old(batch)[1..] else old(batch)
    {
      hide IsList, Distinct, AllFit;
      var head := processing;
      if head == null {
        return MemoryError;
      }
      ghost var b := batch;
      TailApart(pending, b);
      var q := head.data;
      q.numRsRemain := if q.numRsRemain > 0 then q.numRsRemain - 1 else 0;
      if q.numRsRemain == 0 {
        DropFirst(head, b);
        batch := b[1..];
        assert IsList(pending);
      }
      result := Ok;
    }
  }

  lemma TailApart(a: seq<Node<Query>>, b: seq<Node<Query>>)
    requires Apart(a, b) && |b| > 0
    ensures Apart(a, b[1..])
  {
  }

  lemma SplitFacts(p: seq<Node<Query>>, limit: nat, k: nat)
    requires IsList(p) && AllFit(p, limit) && IsBatch(p, limit, k)
    ensures p[..k] + p[k..] == p && |p[..k]| == k && |TextOf(p[..k])| < limit
    ensures Apart(p[k..], p[..k]) && AllFit(p[k..], limit)
    ensures |p| > 0 ==> k > 0
  {
    FirstFits(p, limit, k);
  }

  /** A non-empty pending list yields a non-empty batch, because every query fits alone. */
  lemma FirstFits(s: seq<Node<Query>>, limit: nat, k: nat)
    requires IsBatch(s, limit, k)
    requires AllFit(s, limit)
    ensures |s| > 0 ==> k > 0
  {
    if |s| > 0 {
      TextUpTo(s, 0);
      assert s[..0] == [];
    }
  }
}
