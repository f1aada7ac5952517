/**
 * The chunked token queue of token_queue.c: a chain of fixed-size chunks.
 * The lexer appends at the write tail; a reader consumes from the read
 * head. The chain is the sequence `chunks` (the C `head` is `chunks[0]`, the
 * `write_tail` is the last chunk and each `next` pointer is the following
 * element). The ghost state abstracts the chain into everything written
 * (`written`) and how much of it was read (`readCount`).
 */
module TokenQueues {
  import opened Tokens
  import opened Wrappers

  /**
   * `TOKEN_QUEUE_NODE_SIZE`: as many tokens as fit in 64 KiB, minus one. A
   * `Token` is 56 bytes on an LP64 target (a 4-byte enumeration padded to 8
   * and six 8-byte fields), so 65536 / 56 - 1 = 1169.
   */
  const NodeSize: nat := 1169

  /** `TokenQueue`. */
  class TokenQueue {
    const capacity: nat
    /** The slots of each chunk, from `head` along the `next` links. */
    var chunks: seq<array<Token>>
    /** The position of `read_head` in the chain; `None` once it was advanced past the last chunk. */
    var readHead: Option<nat>
    /** The `read_offset` of the read head's chunk (every chunk after it still has 0, every one before it `capacity`). */
    var readOffset: nat
    /** The `write_offset` of the tail (every chunk before it is full). */
    var writeOffset: nat

    /** Every token written, oldest first. */
    ghost var written: seq<Token>
    /** How many of them were handed out by reads. */
    ghost var readCount: nat
    /** Once the read head ran off the chain: the number of chunks it had passed. */
    ghost var passed: nat
    ghost var Repr: set<object>

    /** How many tokens the chunks before chunk `i` hold once full. */
    ghost function Base(i: nat): nat
    {
      if i == 0 then 0 else Base(i - 1) + capacity
    }

    /** A chunk's tokens all come before the next chunk's. */
    lemma {:induction false} BaseMonotone(i: nat, k: nat)
      requires i < k
      ensures Base(i) + capacity <= Base(k)
      decreases k
    {
      if i + 1 < k {
        BaseMonotone(i, k - 1);
      }
    }

    /** The `write_offset` of chunk `i`: full before the tail. */
    function WriteOffsetOf(i: nat): nat
      reads this`chunks, this`writeOffset
    {
      if i == |chunks| - 1 then writeOffset else capacity
    }

    /** Every slot array is in `Repr` and `capacity` long; the tail's is distinct from the others. */
    ghost predicate Shaped()
      reads this`chunks, this`Repr
    {
      && 0 < capacity
      && 1 <= |chunks|
      && (forall i | 0 <= i < |chunks| :: chunks[i] in Repr && chunks[i].Length == capacity)
      && (forall i | 0 <= i < |chunks| - 1 :: chunks[i] != chunks[|chunks| - 1])
    }

    /** The written slots of the chain hold `written`, chunk after chunk. */
    ghost predicate Stored()
      reads this`chunks, this`Repr, this`writeOffset, this`written, chunks
      requires Shaped()
    {
      && writeOffset <= capacity
      && |written| == Base(|chunks| - 1) + writeOffset
      && (forall i, j | 0 <= i < |chunks| && 0 <= j < WriteOffsetOf(i) ::
            Base(i) + j < |written| && chunks[i][j] == written[Base(i) + j])
    }

    /** The read cursor counts the tokens handed out. */
    ghost predicate Cursor()
      reads this`chunks, this`writeOffset, this`written, this`readHead, this`readOffset, this`readCount, this`passed
    {
      && (match readHead
          case Some(k) =>
            && k < |chunks|
            && readOffset <= WriteOffsetOf(k)
            && readCount == Base(k) + readOffset
          case None =>
            && 1 <= passed <= |chunks|
            && readCount == Base(passed - 1) + capacity)
      && readCount <= |written|
    }

    ghost predicate Valid()
      reads this, Repr
    {
      && this in Repr
      && Shaped() && Stored() && Cursor()
    }

    /** `make_token_queue`: one empty chunk that is both read head and write tail. */
    constructor (capacity: nat)
      requires 0 < capacity
      ensures Valid() && fresh(Repr)
      ensures this.capacity == capacity && |chunks| == 1
      ensures written == [] && readCount == 0 && readHead == Some(0) && readOffset == 0 && writeOffset == 0
    {
      var slots := new Token[capacity];
      this.capacity := capacity;
      chunks := [slots];
      readHead := Some(0);
      readOffset := 0;
      writeOffset := 0;
      written := [];
      readCount := 0;
      passed := 0;
      Repr := {this, slots};
    }

    /**
     * `token_queue_write`: append `token` at the tail, first linking a new
     * chunk when the tail is exactly full. No slot written before changes,
     * and the read side is untouched.
     */
    method Write(token: Token)
      requires Valid()
      modifies this, chunks[|chunks| - 1]
      ensures Valid() && fresh(Repr - old(Repr))
      ensures written == old(written) + [token]
      ensures readCount == old(readCount) && readHead == old(readHead) && readOffset == old(readOffset)
      ensures |chunks| == old(|chunks|) + (if old(writeOffset) == capacity then 1 else 0)
      ensures chunks[..old(|chunks|)] == old(chunks)
      ensures forall i, j | 0 <= i < old(|chunks|) && 0 <= j < old(WriteOffsetOf(i)) :: chunks[i][j] == old(chunks[i][j])
    {
      if writeOffset == capacity {
        Grow();
      }
      Append(token);
    }

    /** Slot `j` of chunk `i` holds the token written in position `Base(i) + j`. */
    lemma StoredAt(i: nat, j: nat)
      requires Shaped() && Stored() && i < |chunks| && j < WriteOffsetOf(i)
      ensures Base(i) + j < |written| && chunks[i][j] == written[Base(i) + j]
    {
    }

    /** Link a fresh empty chunk after the full tail; it becomes the tail. */
    method Grow()
      requires Valid() && writeOffset == capacity
      modifies this`chunks, this`writeOffset, this`Repr
      ensures Valid() && fresh(Repr - old(Repr))
      ensures chunks[..|chunks| - 1] == old(chunks) && fresh(chunks[|chunks| - 1]) && writeOffset == 0
    {
      forall i, j | 0 <= i < |chunks| && 0 <= j < capacity
        ensures Base(i) + j < |written| && chunks[i][j] == written[Base(i) + j]
      {
        StoredAt(i, j);
      }
      var next := new Token[capacity];
      chunks := chunks + [next];
      writeOffset := 0;
      Repr := Repr + {next};
      assert Base(|chunks| - 1) == Base(|chunks| - 2) + capacity;
      assert Shaped();
      forall i, j | 0 <= i < |chunks| && 0 <= j < WriteOffsetOf(i)
        ensures Base(i) + j < |written| && chunks[i][j] == written[Base(i) + j]
      {
        assert i < |chunks| - 1 && chunks[i] == old(chunks[i]);
        assert chunks[i][j] == old(chunks[i][j]);
      }
      assert Stored();
      assert Cursor();
    }

    /** Store `token` in the next slot of the tail, which has room. */
    method Append(token: Token)
      requires Valid() && writeOffset < capacity
      modifies this`writeOffset, this`written, chunks[|chunks| - 1]
      ensures Valid() && written == old(written) + [token] && writeOffset == old(writeOffset) + 1
    {
      var last := |chunks| - 1;
      var tail := chunks[last];
      ghost var before := written;
      tail[writeOffset] := token;
      writeOffset := writeOffset + 1;
      written := written + [token];
      assert Shaped();
      forall i, j | 0 <= i < |chunks| && 0 <= j < WriteOffsetOf(i)
        ensures Base(i) + j < |written| && chunks[i][j] == written[Base(i) + j]
      {
        if i < last {
          assert chunks[i] != tail;
          BaseMonotone(i, last);
        } else if j < writeOffset - 1 {
          assert chunks[i][j] == before[Base(i) + j];
        }
      }
      assert Stored();
      assert Cursor();
    }

    /**
     * `token_queue_read`: hand out the oldest unread token, first moving the
     * read head to the next chunk when its chunk is drained. The C code
     * dereferences the read head, so it must not have run off the chain.
     */
    method Read() returns (t: Option<Token>)
      requires Valid() && readHead.Some?
      modifies this`readHead, this`readOffset, this`readCount, this`passed
      ensures Valid() && Repr == old(Repr)
      ensures written == old(written) && chunks == old(chunks) && writeOffset == old(writeOffset)
      ensures old(readCount) < |written| ==> t == Some(written[old(readCount)]) && readCount == old(readCount) + 1
      ensures old(readCount) == |written| ==> t == None && readCount == old(readCount)
      ensures readHead.None? <==> old(readHead) == Some(|chunks| - 1) && old(readOffset) == capacity
      ensures old(readOffset) < capacity ==> readHead == old(readHead)
      ensures old(readOffset) < capacity && old(readCount) < |written| ==> readOffset == old(readOffset) + 1
      ensures old(readOffset == WriteOffsetOf(readHead.value) < capacity) ==>
        t == None && readHead == old(readHead) && readOffset == old(readOffset)
      ensures old(readOffset) == capacity && old(readHead).value < |chunks| - 1 ==>
        readHead == Some(old(readHead).value + 1) && readOffset == (if t.Some? then 1 else 0)
    {
      Advance();
      t := Take();
    }

    /**
     * `token_queue_read` with the advance guarded by the chunk having a
     * successor: the read head stays on the chain, so reading may go on
     * after the queue ran dry, and tokens written later are still handed out.
     */
    method ReadGuarded() returns (t: Option<Token>)
      requires Valid() && readHead.Some?
      modifies this`readHead, this`readOffset, this`readCount, this`passed
      ensures Valid() && Repr == old(Repr) && readHead.Some?
      ensures written == old(written) && chunks == old(chunks) && writeOffset == old(writeOffset)
      ensures old(readCount) < |written| ==> t == Some(written[old(readCount)]) && readCount == old(readCount) + 1
      ensures old(readCount) == |written| ==> t == None && readCount == old(readCount)
    {
      var k := readHead.value;
      if readOffset == capacity && k + 1 < |chunks| {
        readHead := Some(k + 1);
        readOffset := 0;
      }
      t := Take();
    }

    /** Move the read head on when its chunk is drained; past the tail it becomes `None`. */
    method Advance()
      requires Valid() && readHead.Some?
      modifies this`readHead, this`readOffset, this`passed
      ensures Valid()
      ensures readHead.None? <==> old(readHead) == Some(|chunks| - 1) && old(readOffset) == capacity
      ensures readHead.None? ==> readCount == |written|
      ensures readHead.Some? ==> readOffset < capacity || readHead.value == |chunks| - 1
      ensures old(readOffset) < capacity ==> readHead == old(readHead) && readOffset == old(readOffset)
      ensures old(readOffset) == capacity && old(readHead).value < |chunks| - 1 ==>
        readHead == Some(old(readHead).value + 1) && readOffset == 0
    {
      var k := readHead.value;
      if readOffset == capacity {
        if k + 1 < |chunks| {
          readHead := Some(k + 1);
          readOffset := 0;
        } else {
          readHead := None;
          passed := k + 1;
        }
      }
    }

    /** Hand out the slot under the read cursor if it was written. */
    method Take() returns (t: Option<Token>)
      requires Valid()
      requires readHead.Some? ==> readOffset < capacity || readHead.value == |chunks| - 1
      modifies this`readOffset, this`readCount
      ensures Valid()
      ensures readHead.Some? && old(readCount) < |written| ==>
        t == Some(written[old(readCount)]) && readCount == old(readCount) + 1 && readOffset == old(readOffset) + 1
      ensures readHead.None? || old(readCount) == |written| ==>
        t == None && readCount == old(readCount) && readOffset == old(readOffset)
    {
      match readHead
      case Some(h) =>
        if readOffset < WriteOffsetOf(h) {
          t := Some(chunks[h][readOffset]);
          readOffset := readOffset + 1;
          readCount := readCount + 1;
        } else {
          t := None;
        }
      case None =>
        t := None;
    }
  }

  /**
   * A reader that drains a queue holding exactly one full chunk: its last
   * read moves the read head off the chain, so a further read dereferences
   * null, and a token written afterwards can never be read.
   */
  method DrainFullChunk(token: Token) returns (q: TokenQueue)
    ensures q.Valid() && q.readHead.None?
    ensures |q.written| == NodeSize + 1 && q.readCount == NodeSize
  {
    q := new TokenQueue(NodeSize);
    FillOneChunk(q, token);
    var i := 0;
    while i < NodeSize
      invariant q.Valid() && fresh(q.Repr) && q.capacity == NodeSize && |q.chunks| == 1
      invariant 0 <= i <= NodeSize && |q.written| == NodeSize && q.readCount == i && q.readHead == Some(0)
    {
      var t := q.Read();
      i := i + 1;
    }
    var none := q.Read();
    q.Write(token);
  }

  /** The guarded read on the same queue hands out the late token. */
  method DrainFullChunkGuarded(token: Token) returns (q: TokenQueue, late: Option<Token>)
    ensures q.Valid() && q.readHead.Some?
    ensures late == Some(token)
  {
    q := new TokenQueue(NodeSize);
    FillOneChunk(q, token);
    var i := 0;
    while i < NodeSize
      invariant q.Valid() && fresh(q.Repr) && q.capacity == NodeSize && |q.chunks| == 1
      invariant 0 <= i <= NodeSize && |q.written| == NodeSize && q.readCount == i && q.readHead == Some(0)
    {
      var t := q.ReadGuarded();
      i := i + 1;
    }
    var none := q.ReadGuarded();
    q.Write(token);
    late := q.ReadGuarded();
  }

  /** Write `NodeSize` copies of `token` into a fresh queue: one full chunk, nothing read. */
  method FillOneChunk(q: TokenQueue, token: Token)
    requires q.Valid() && q.capacity == NodeSize && |q.chunks| == 1
    requires q.written == [] && q.readCount == 0 && q.readHead == Some(0)
    modifies q, q.Repr
    ensures q.Valid() && fresh(q.Repr - old(q.Repr))
    ensures |q.chunks| == 1 && |q.written| == NodeSize && q.readCount == 0 && q.readHead == Some(0)
  {
    var i := 0;
    while i < NodeSize
      invariant q.Valid() && fresh(q.Repr - old(q.Repr)) && |q.chunks| == 1
      invariant 0 <= i <= NodeSize && |q.written| == i && q.readCount == 0 && q.readHead == Some(0)
    {
      q.Write(token);
      i := i + 1;
    }
  }
}
