/**
 * The ring of read pairs between the SRA download thread and the parsing
 * threads (`SRA_Data`): `writePos` and `readPos` count the pairs ever
 * written and read, and a pair's slot is its count modulo the ring size.
 */
module Sra {
  import opened Common

  /** `buffer_size_per_thread`. */
  const BufferSizePerThread: nat := 4096

  /** `SRA_Read`: the fields the download thread fills in. */
  datatype SraRead = SraRead(name: Bytes, patFw: seq<Nuc>, qual: Bytes)

  type ReadPair = (SraRead, SraRead)

  /** The pairs written and not yet read: `n` slots from count `r` on, in order. */
  function Window(slots: seq<ReadPair>, r: nat, n: nat): (w: seq<ReadPair>)
    requires |slots| > 0
    ensures |w| == n
  {
    seq(n, j requires 0 <= j < n => slots[SlotAt(r, j, |slots|)])
  }

  /** The slot of the `j`-th pair after count `r`. */
  function SlotAt(r: nat, j: nat, size: nat): (k: nat)
    requires size > 0
    ensures k < size
  {
    (r + j) % size
  }

  /** Multiplying by a positive number keeps a non-positive factor non-positive and a positive one at least as large as that number. */
  lemma {:induction false} MulSign(k: int, s: int)
    requires s > 0
    ensures k <= 0 ==> k * s <= 0
    ensures k >= 1 ==> k * s >= s
    decreases if k < 0 then -k else k
  {
    if k >= 1 {
      assert k * s == (k - 1) * s + s;
      MulSign(k - 1, s);
    } else if k < 0 {
      assert k * s == (k + 1) * s - s;
      MulSign(k + 1, s);
    }
  }

  /** Two counts less than a ring's size apart fall in different slots. */
  lemma SlotsDiffer(a: nat, b: nat, size: nat)
    requires 0 < size && a < b < a + size
    ensures a % size != b % size
  {
    var qa, qb := a / size, b / size;
    if a % size == b % size {
      assert b - a == (qb - qa) * size;
      MulSign(qb - qa, size);
    }
  }

  /** Storing into the slot of count `r + n` leaves the `n` pairs before it alone, while the ring is not full. */
  lemma {:induction false} WindowKeptByWrite(slots: seq<ReadPair>, r: nat, n: nat, p: ReadPair)
    requires 0 < |slots| && n < |slots|
    ensures Window(slots[SlotAt(r, n, |slots|) := p], r, n) == Window(slots, r, n)
  {
    forall j | 0 <= j < n
      ensures SlotAt(r, j, |slots|) != SlotAt(r, n, |slots|)
    {
      SlotsDiffer(r + j, r + n, |slots|);
    }
  }

  /** Counting one more write appends the pair in the next slot. */
  lemma WindowGrows(slots: seq<ReadPair>, r: nat, n: nat)
    requires 0 < |slots|
    ensures Window(slots, r, n + 1) == Window(slots, r, n) + [slots[SlotAt(r, n, |slots|)]]
  {
  }

  /** Counting one more read drops the oldest pair. */
  lemma WindowShrinks(slots: seq<ReadPair>, r: nat, n: nat)
    requires 0 < |slots| && 0 < n
    ensures Window(slots, r + 1, n - 1) == Window(slots, r, n)[1..]
  {
    var w, w' := Window(slots, r, n), Window(slots, r + 1, n - 1);
    forall j | 0 <= j < n - 1
      ensures w'[j] == w[1..][j]
    {
      assert SlotAt(r + 1, j, |slots|) == SlotAt(r, j + 1, |slots|);
    }
  }

  class SraData {
    var readPos: nat
    var writePos: nat
    var bufferSize: nat
    var done: bool
    /** `paired_reads`, sized to `buffer_size` when the accession is opened. */
    var pairedReads: seq<ReadPair>

    /** The readers never pass the writer, and the writer never laps the readers. */
    predicate Valid()
      reads this
    {
      readPos <= writePos <= readPos + bufferSize && |pairedReads| == bufferSize > 0
    }

    /** The pairs written and not yet read, oldest first. */
    function Pending(): (w: seq<ReadPair>)
      requires Valid()
      reads this
      ensures |w| == writePos - readPos
    {
      Window(pairedReads, readPos, writePos - readPos)
    }

    /**
     * The constructor and the two sizing lines of `open`: the ring gets
     * `nthreads * buffer_size_per_thread` slots.
     */
    constructor (nthreads: nat, empty: ReadPair)
      requires nthreads > 0
      ensures Valid() && Pending() == [] && !done
      ensures bufferSize == nthreads * BufferSizePerThread
    {
      readPos, writePos, done := 0, 0, false;
      bufferSize := nthreads * BufferSizePerThread;
      pairedReads := seq(nthreads * BufferSizePerThread, _ => empty);
    }

    /** `isFull`: every slot holds a pair not yet read. */
    method IsFull() returns (full: bool)
      requires Valid()
      ensures full <==> |Pending()| == bufferSize
    {
      full := readPos + bufferSize <= writePos;
    }

    /** `isEmpty`: no pair is waiting. */
    method IsEmpty() returns (empty: bool)
      requires Valid()
      ensures empty <==> Pending() == []
    {
      empty := readPos == writePos;
    }

    /** `getPairForRead`: the oldest pair not yet read. */
    method GetPairForRead() returns (p: ReadPair)
      requires Valid() && Pending() != []
      ensures p == Pending()[0]
    {
      p := pairedReads[SlotAt(readPos, 0, bufferSize)];
    }

    /** `getPairForWrite`: the slot after the unread pairs, which holds none of them. */
    method GetPairForWrite() returns (slot: nat)
      requires Valid() && |Pending()| < bufferSize
      ensures slot == SlotAt(readPos, |Pending()|, bufferSize)
      ensures forall j :: 0 <= j < |Pending()| ==> SlotAt(readPos, j, bufferSize) != slot
    {
      slot := writePos % bufferSize;
      forall j | 0 <= j < |Pending()|
        ensures SlotAt(readPos, j, bufferSize) != slot
      {
        SlotsDiffer(readPos + j, writePos, bufferSize);
      }
    }

    /** The download thread filling the slot `getPairForWrite` handed out. */
    method Store(slot: nat, p: ReadPair)
      requires Valid() && |Pending()| < bufferSize && slot == SlotAt(readPos, |Pending()|, bufferSize)
      modifies this`pairedReads
      ensures Valid() && Pending() == old(Pending())
      ensures pairedReads == old(pairedReads)[slot := p]
    {
      WindowKeptByWrite(pairedReads, readPos, writePos - readPos, p);
      pairedReads := pairedReads[slot := p];
    }

    /** `advanceReadPos`: the oldest pair has been consumed. */
    method AdvanceReadPos()
      requires Valid() && Pending() != []
      modifies this`readPos
      ensures Valid() && Pending() == old(Pending())[1..]
    {
      WindowShrinks(pairedReads, readPos, writePos - readPos);
      readPos := readPos + 1;
    }

    /** `advanceWritePos`: the pair in the write slot is now available to readers. */
    method AdvanceWritePos()
      requires Valid() && |Pending()| < bufferSize
      modifies this`writePos
      ensures Valid()
      ensures Pending() == old(Pending()) + [pairedReads[SlotAt(readPos, old(|Pending()|), bufferSize)]]
    {
      WindowGrows(pairedReads, readPos, writePos - readPos);
      writePos := writePos + 1;
    }

    /** One producer step as the download thread performs it: take the write slot, fill it, publish it. */
    method Push(p: ReadPair)
      requires Valid() && |Pending()| < bufferSize
      modifies this`pairedReads, this`writePos
      ensures Valid() && Pending() == old(Pending()) + [p]
    {
      var slot := GetPairForWrite();
      Store(slot, p);
      AdvanceWritePos();
    }

    /** One consumer step as a parsing thread performs it: read the oldest pair, then release it. */
    method Pop() returns (p: ReadPair)
      requires Valid() && Pending() != []
      modifies this`readPos
      ensures Valid() && [p] + Pending() == old(Pending())
    {
      p := GetPairForRead();
      AdvanceReadPos();
    }
  }
}
