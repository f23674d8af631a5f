/** The command queue: a ring of entries with two pointers and two free-running 32-bit counters. */
module RingBuffer {
  import opened CStrings

  const WRAP := 0x1_0000_0000

  /** Subtraction of unsigned 32-bit counters. */
  function Minus(a: int, b: int): (d: int)
    ensures 0 <= d < WRAP
  {
    (a - b) % WRAP
  }

  /** The slot i places after slot at, in a ring of size slots. */
  function Slot(at: nat, i: nat, size: nat): (s: nat)
    requires at < size && i <= size
    ensures s < size
  {
    if at + i < size then at + i else at + i - size
  }

  lemma Reduce(x: int, q: int, r: int)
    requires x == q * WRAP + r && 0 <= r < WRAP
    ensures x % WRAP == r
  {
  }

  lemma PlusOne(a: int, b: int)
    requires Minus(a, b) < WRAP - 1
    ensures Minus((a + 1) % WRAP, b) == Minus(a, b) + 1
  {
    var q := (a - b) / WRAP;
    assert a - b == q * WRAP + Minus(a, b);
    var p := (a + 1) / WRAP;
    assert (a + 1) % WRAP - b == (q - p) * WRAP + (Minus(a, b) + 1);
    Reduce((a + 1) % WRAP - b, q - p, Minus(a, b) + 1);
  }

  lemma MinusOne(a: int, b: int)
    requires Minus(a, b) > 0
    ensures Minus(a, (b + 1) % WRAP) == Minus(a, b) - 1
  {
    var q := (a - b) / WRAP;
    assert a - b == q * WRAP + Minus(a, b);
    var p := (b + 1) / WRAP;
    assert a - (b + 1) % WRAP == (q + p) * WRAP + (Minus(a, b) - 1);
    Reduce(a - (b + 1) % WRAP, q + p, Minus(a, b) - 1);
  }

  class Ring<T> {
    const dataQueue: array<T>
    var pRx: nat
    var pTx: nat
    var rxPos: int
    var txPos: int
    /** The queue, oldest entry first. */
    ghost var contents: seq<T>

    /** The distance of the pointers is the distance of the counters, although the number of slots does
        not divide 2^32, and the slots between the pointers hold the queue. */
    ghost predicate Valid()
      reads this, dataQueue
    {
      && 0 < dataQueue.Length < WRAP && pRx < dataQueue.Length && pTx < dataQueue.Length
      && 0 <= rxPos < WRAP && 0 <= txPos < WRAP
      && |contents| == Minus(txPos, rxPos) <= dataQueue.Length
      && pTx == Slot(pRx, |contents|, dataQueue.Length)
      && forall i | 0 <= i < |contents| :: contents[i] == dataQueue[Slot(pRx, i, dataQueue.Length)]
    }

    /** RB_Init. */
    constructor (amountOfEntries: nat, fill: T)
      requires 0 < amountOfEntries < WRAP
      ensures Valid() && contents == [] && fresh(dataQueue) && dataQueue.Length == amountOfEntries
    {
      dataQueue := new T[amountOfEntries](_ => fill);
      pRx, pTx, rxPos, txPos := 0, 0, 0, 0;
      contents := [];
    }

    /** RB_GetReadPtr: the slot of the oldest entry. */
    method GetReadPtr() returns (slot: Option<nat>)
      requires Valid()
      ensures slot == if contents == [] then None else Some(pRx)
      ensures contents != [] ==> dataQueue[pRx] == contents[0]
    {
      slot := if Minus(txPos, rxPos) > 0 then Some(pRx) else None;
      assert Slot(pRx, 0, dataQueue.Length) == pRx;
    }

    /** RB_PopReadPtr. */
    method PopReadPtr()
      requires Valid() && contents != []
      modifies this`pRx, this`rxPos, this`contents
      ensures Valid() && contents == old(contents)[1..]
      ensures rxPos == (old(rxPos) + 1) % WRAP
    {
      MinusOne(txPos, rxPos);
      pRx := pRx + 1;
      if pRx >= dataQueue.Length {
        pRx := 0;
      }
      rxPos := (rxPos + 1) % WRAP;
      contents := contents[1..];
    }

    /** RB_GetWritePtr: the slot for the next entry, which is not one of the queue. */
    method GetWritePtr() returns (slot: Option<nat>)
      requires Valid()
      ensures slot == if |contents| < dataQueue.Length then Some(pTx) else None
    {
      slot := if Minus(txPos, rxPos) < dataQueue.Length then Some(pTx) else None;
    }

    /** Writing through that pointer leaves every queued entry as it is. */
    method Write(slot: nat, x: T)
      requires Valid() && slot == pTx && |contents| < dataQueue.Length
      modifies dataQueue
      ensures Valid() && dataQueue[pTx] == x
      ensures forall i | 0 <= i < dataQueue.Length && i != slot :: dataQueue[i] == old(dataQueue[i])
    {
      dataQueue[slot] := x;
    }

    /** RB_PopWritePtr. */
    method PopWritePtr()
      requires Valid() && |contents| < dataQueue.Length
      modifies this`pTx, this`txPos, this`contents
      ensures Valid() && contents == old(contents) + [dataQueue[old(pTx)]]
      ensures txPos == (old(txPos) + 1) % WRAP
    {
      PlusOne(txPos, rxPos);
      contents := contents + [dataQueue[pTx]];
      pTx := pTx + 1;
      if pTx >= dataQueue.Length {
        pTx := 0;
      }
      txPos := (txPos + 1) % WRAP;
    }
  }
}
