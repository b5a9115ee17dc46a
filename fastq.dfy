/**
 * FASTQ input (pat.cpp:976-1209). The batcher reads about `max_raw_buf_`
 * bytes of the file into a raw buffer. It then keeps reading until the last
 * record in the buffer is complete. The parser turns the raw text of one
 * record into a read, outside the critical section.
 */
module Fastq {
  import opened Common
  import opened Reads

  /** The first call finds no '@' after the leading blank lines. */
  datatype FormatError = NotFastq

  /** A byte that can open a sequence line: 'A' or above, '*' or '-'. */
  predicate SeqLineStart(c: int) {
    c >= 65 || c == '*' as int || c == '-' as int
  }

  /**
   * How many bytes the fill loop reads. It stops at `maxRaw` bytes in the
   * buffer (counting the `have` already there) or at the end of the input.
   */
  function FillCount(data: Bytes, pos: nat, have: nat, maxRaw: nat): (k: nat)
    requires pos <= |data|
    ensures pos + k <= |data|
    ensures have <= maxRaw ==> have + k <= maxRaw && (have + k == maxRaw || pos + k == |data|)
  {
    if have >= maxRaw then 0
    else if maxRaw - have <= |data| - pos then maxRaw - have
    else |data| - pos
  }

  /**
   * The loop that finishes the last record. `p` is the file position of
   * the byte in hand when the loop starts. After `i` steps the byte in hand
   * is `Get(data, p + i)`. The result holds the steps taken, whether the
   * start of a new record was seen, and how many newlines were counted.
   * The loop stops for one of three reasons: the input ran out, the
   * headroom is used up, or a new record was seen and its four lines read.
   */
  function Tail(data: Bytes, p: nat, headroom: nat, i: nat, lineStart: int, newRecord: bool, newlines: nat): (r: (nat, bool, nat))
    requires i <= headroom && p + i <= |data|
    ensures i <= r.0 <= headroom && p + r.0 <= |data|
    ensures r.0 == headroom || p + r.0 == |data| || (r.1 && r.2 >= 4)
    decreases headroom - i
  {
    var c := Get(data, p + i);
    if c < 0 || i >= headroom || (newRecord && newlines >= 4) then (i, newRecord, newlines)
    else
      var s := Watch(c, Get(data, p + i + 1), lineStart, newRecord, newlines);
      Tail(data, p, headroom, i + 1, s.0, s.1, s.2)
  }

  /**
   * The tail loop's watch for the next record, once the byte `prev` is
   * stored and `c` read: the first byte of the current line, whether a new
   * record was seen, and the newlines counted since. A new record starts
   * with a line after a '@' line, if that line starts with 'A' or above,
   * '*' or '-'.
   */
  function Watch(prev: int, c: int, lineStart: int, newRecord: bool, newlines: nat): (s: (int, bool, nat))
    ensures s.1 == (newRecord || (IsNewline(prev) && lineStart == '@' as int && SeqLineStart(c)))
  {
    var start := !newRecord && IsNewline(prev) && lineStart == '@' as int && SeqLineStart(c);
    (if IsNewline(prev) then c else lineStart, newRecord || start,
     (if start then 1 else newlines) + (if IsNewline(c) then 1 else 0))
  }

  /** One step of the tail loop, taken when the byte in hand is a file byte and none of the stops applies. */
  lemma TailStep(data: Bytes, p: nat, headroom: nat, i: nat, lineStart: int, newRecord: bool, newlines: nat)
    requires i < headroom && p + i < |data| && !(newRecord && newlines >= 4)
    ensures var s := Watch(data[p + i] as int, Get(data, p + i + 1), lineStart, newRecord, newlines);
      Tail(data, p, headroom, i, lineStart, newRecord, newlines) == Tail(data, p, headroom, i + 1, s.0, s.1, s.2)
  {
  }

  /**
   * Everything one batch does apart from the length it reports:
   * - `filled` is the buffer's new prefix;
   * - `start` is the file position the batch's file bytes begin at;
   * - `pos` is the file position afterwards;
   * - `bytesRead` is the fill loop's count and `steps` the tail loop's;
   * - `stored` says whether the byte in hand when the tail loop stopped
   *   went into the buffer;
   * - `complete` says whether the tail loop saw a new record and its four
   *   lines.
   */
  datatype RawRead = RawRead(done: bool, filled: Bytes, start: nat, pos: nat, bytesRead: nat, steps: nat, stored: bool, complete: bool)

  /**
   * A raw batch, with `maxRaw` and `overrun` being `max_raw_buf_` and
   * `max_raw_buf_overrun_`. Only the first call can fail.
   */
  function ReadRaw(data: Bytes, pos: nat, first: bool, maxRaw: nat, overrun: nat): (r: Result<RawRead, FormatError>)
    requires pos <= |data| && maxRaw >= 1
    ensures r.Err? ==> first
  {
    var s := if first then Scan(data, pos, PastNewlines) else pos;
    if first && (s == |data| || data[s] != '@') then Err(NotFastq)
    else
      var head: Bytes := if first then ['@'] else [];
      var start := if first then s + 1 else pos;
      var k := FillCount(data, start, |head|, maxRaw);
      var bytesRead := |head| + k;
      var p := start + k;
      if bytesRead == 0 then Ok(RawRead(true, [], start, p, 0, 0, false, false))
      else
        var headroom := maxRaw - bytesRead + overrun;
        var tail := Tail(data, p, headroom, 0, -1, false, 0);
        var i := tail.0;
        var stored := p + i < |data| && i < headroom;
        var end := p + i + (if stored then 1 else 0);
        Ok(RawRead(p + i == |data|, head + data[start..end], start, if p + i < |data| then p + i + 1 else p + i,
                   bytesRead, i, stored, tail.1 && tail.2 >= 4))
  }

  /**
   * What a raw batch puts in the buffer: the bytes it read, in file order.
   * On the first call a '@' comes first, standing for the '@' that the
   * check after the blank lines consumed. The buffer never goes past
   * `maxRaw + overrun`. At most one byte is read and not kept: the byte in
   * hand when the headroom ran out. A byte kept after the tail loop means
   * the last record was complete.
   */
  lemma RawReadShape(data: Bytes, pos: nat, first: bool, maxRaw: nat, overrun: nat)
    requires pos <= |data| && maxRaw >= 1
    requires ReadRaw(data, pos, first, maxRaw, overrun).Ok?
    ensures var rr := ReadRaw(data, pos, first, maxRaw, overrun).value;
      var head: Bytes := if first then ['@'] else [];
      var kept := |rr.filled| - |head|;
      && |head| <= |rr.filled| <= maxRaw + overrun
      && rr.start + kept <= rr.pos <= rr.start + kept + 1 <= |data| + 1
      && rr.filled == head + data[rr.start..rr.start + kept]
      && (rr.pos == rr.start + kept + 1 <==> rr.bytesRead > 0 && !rr.done && !rr.stored)
      && (!first ==> rr.start == pos)
      && (first ==> pos < rr.start && data[rr.start - 1] == '@' && forall j :: pos <= j < rr.start - 1 ==> IsNewline(data[j] as int))
      && (rr.bytesRead == 0 <==> rr.filled == [])
      && (rr.bytesRead == 0 ==> rr.done && rr.pos == pos)
      && (rr.bytesRead > 0 ==> |rr.filled| == rr.bytesRead + rr.steps + (if rr.stored then 1 else 0))
      && (rr.stored ==> rr.complete && !rr.done)
      && (rr.done ==> rr.pos == |data|)
  {
    if first {
      ScanSkips(data, pos, PastNewlines);
    }
  }

  /**
   * `nextBatchFromFile` as written: `(done, *raw_buf_length)`. The length
   * is `bytes_read + i + (i > 0 ? 1 : 0)`. It counts one byte more than
   * the buffer holds whenever the tail loop ran and then stopped at the end
   * of the input or at the end of the headroom. At `bytes_read == 0` it
   * returns the length left from before, `prevLen`.
   */
  function RawBatchAsWritten(data: Bytes, pos: nat, first: bool, maxRaw: nat, overrun: nat, prevLen: nat): Result<(bool, nat), FormatError>
    requires pos <= |data| && maxRaw >= 1
  {
    match ReadRaw(data, pos, first, maxRaw, overrun)
    case Err(e) => Err(e)
    case Ok(rr) =>
      Ok((rr.done, if rr.bytesRead == 0 then prevLen else rr.bytesRead + rr.steps + (if rr.steps > 0 then 1 else 0)))
  }

  /** The batch with the length it evidently means: the bytes the buffer holds. */
  function RawBatch(data: Bytes, pos: nat, first: bool, maxRaw: nat, overrun: nat, prevLen: nat): Result<(bool, nat), FormatError>
    requires pos <= |data| && maxRaw >= 1
  {
    match ReadRaw(data, pos, first, maxRaw, overrun)
    case Err(e) => Err(e)
    case Ok(rr) => Ok((rr.done, if rr.bytesRead == 0 then prevLen else rr.bytesRead + rr.steps + (if rr.stored then 1 else 0)))
  }

  /**
   * The corrected length is the number of bytes the batch put in the
   * buffer. So the parser reads exactly the input the batch took. The
   * length never exceeds the buffer's size.
   */
  lemma RawBatchLengthIsFilled(data: Bytes, pos: nat, first: bool, maxRaw: nat, overrun: nat, prevLen: nat)
    requires pos <= |data| && maxRaw >= 1
    requires ReadRaw(data, pos, first, maxRaw, overrun).Ok?
    ensures var rr := ReadRaw(data, pos, first, maxRaw, overrun).value;
      var b := RawBatch(data, pos, first, maxRaw, overrun, prevLen).value;
      && b.0 == rr.done
      && (rr.filled != [] ==> b.1 == |rr.filled| && b.1 <= maxRaw + overrun)
  {
    RawReadShape(data, pos, first, maxRaw, overrun);
  }

  /**
   * The as-written length is one byte too many. A first call on the file
   * "@x" with a one-byte buffer and five bytes of overrun reports 3 bytes.
   * The buffer holds two, "@x".
   */
  lemma RawLengthCountsUnreadByte()
    ensures ReadRaw("@x", 0, true, 1, 5).Ok?
    ensures ReadRaw("@x", 0, true, 1, 5).value.filled == "@x"
    ensures RawBatchAsWritten("@x", 0, true, 1, 5, 0) == Ok((true, 3))
    ensures RawBatch("@x", 0, true, 1, 5, 0) == Ok((true, 2))
  {
    var data: Bytes := "@x";
    ScanUnique(data, 0, PastNewlines, 0);
    assert Tail(data, 1, 5, 1, -1, false, 0) == (1, false, 0);
    assert data[1..2] == "x";
  }

  class FastqPatternSource {
    const data: Bytes
    var pos: nat
    var first: bool

    predicate Valid()
      reads this
    {
      pos <= |data|
    }

    constructor (data: Bytes)
      ensures Valid() && this.data == data && pos == 0 && first
    {
      this.data := data;
      pos := 0;
      first := true;
    }

    /** `getc_unlocked(fp_)`. */
    method GetC() returns (c: int)
      requires Valid()
      modifies this
      ensures Valid() && first == old(first)
      ensures c == Get(data, old(pos)) && pos == if old(pos) < |data| then old(pos) + 1 else old(pos)
    {
      c := Get(data, pos);
      if pos < |data| {
        pos := pos + 1;
      }
    }

    /** The first call's check: skip blank lines, then the input must go on with '@'. */
    method SkipToFirstRecord() returns (ok: bool)
      requires Valid()
      modifies this
      ensures Valid() && first == old(first)
      ensures var s := Scan(data, old(pos), PastNewlines);
        && ok == (s < |data| && data[s] == '@')
        && pos == if s < |data| then s + 1 else s
    {
      ghost var p0 := pos;
      var c := GetC();
      if c < 0 {
        ScanUnique(data, p0, PastNewlines, p0);
        return false;
      }
      while IsNewline(c)
        invariant Valid() && first == old(first) && p0 < pos
        invariant c == data[pos - 1] as int
        invariant forall j :: p0 <= j < pos - 1 ==> IsNewline(data[j] as int)
        decreases |data| - pos
      {
        c := GetC();
        if c < 0 {
          ScanUnique(data, p0, PastNewlines, pos);
          return false;
        }
      }
      ScanUnique(data, p0, PastNewlines, pos - 1);
      ok := c == '@' as int;
    }

    /** The fill loop: up to `maxRaw` bytes in the buffer, fewer at the end of input. */
    method Fill(readBuf: array<Byte>, have: nat, maxRaw: nat) returns (bytesRead: nat)
      requires Valid() && have <= maxRaw <= readBuf.Length
      modifies this, readBuf
      ensures Valid() && first == old(first)
      ensures bytesRead == have + FillCount(data, old(pos), have, maxRaw)
      ensures pos == old(pos) + (bytesRead - have)
      ensures forall j :: 0 <= j < readBuf.Length ==>
        readBuf[j] == if have <= j < bytesRead then data[old(pos) + j - have] else old(readBuf[j])
    {
      bytesRead := have;
      while bytesRead < maxRaw
        invariant Valid() && first == old(first) && have <= bytesRead <= maxRaw
        invariant pos == old(pos) + (bytesRead - have)
        invariant forall j :: 0 <= j < readBuf.Length ==>
          readBuf[j] == if have <= j < bytesRead then data[old(pos) + j - have] else old(readBuf[j])
        decreases maxRaw - bytesRead
      {
        var c := GetC();
        if c < 0 {
          break;
        }
        readBuf[bytesRead] := c as char;
        bytesRead := bytesRead + 1;
      }
    }

    /** The tail loop: read on until the last record is complete; `c` is the byte in hand afterwards. */
    method FinishRecord(readBuf: array<Byte>, bytesRead: nat, headroom: nat) returns (i: nat, c: int)
      requires Valid() && bytesRead + headroom <= readBuf.Length
      modifies this, readBuf
      ensures Valid() && first == old(first)
      ensures var tail := Tail(data, old(pos), headroom, 0, -1, false, 0);
        i == tail.0 && c == Get(data, old(pos) + i)
      ensures pos == if old(pos) + i < |data| then old(pos) + i + 1 else old(pos) + i
      ensures forall j :: 0 <= j < readBuf.Length ==>
        readBuf[j] == if bytesRead <= j < bytesRead + i then data[old(pos) + j - bytesRead] else old(readBuf[j])
    {
      ghost var p := pos;
      c := GetC();
      i := 0;
      var lineStart: int := -1;
      var newRecord := false;
      var newlines: nat := 0;
      while c >= 0 && i < headroom && (!newRecord || newlines < 4)
        invariant Valid() && first == old(first) && i <= headroom && p + i <= |data|
        invariant c == Get(data, p + i)
        invariant pos == if p + i < |data| then p + i + 1 else p + i
        invariant Tail(data, p, headroom, i, lineStart, newRecord, newlines) == Tail(data, p, headroom, 0, -1, false, 0)
        invariant forall j :: 0 <= j < readBuf.Length ==>
          readBuf[j] == if bytesRead <= j < bytesRead + i then data[p + j - bytesRead] else old(readBuf[j])
        decreases headroom - i
      {
        TailStep(data, p, headroom, i, lineStart, newRecord, newlines);
        readBuf[bytesRead + i] := c as char;
        var prev := c;
        c := GetC();
        i := i + 1;
        var w := Watch(prev, c, lineStart, newRecord, newlines);
        lineStart, newRecord, newlines := w.0, w.1, w.2;
      }
    }

    /**
     * The fill loop, the tail loop and the store of the byte in hand, after
     * `have` bytes are already in the buffer: the buffer gets the next file
     * bytes from `have` on, and `stored` says whether the byte in hand went
     * in too.
     */
    method FillAndFinish(readBuf: array<Byte>, have: nat, maxRaw: nat, overrun: nat) returns (bytesRead: nat, i: nat, c: int, stored: bool)
      requires Valid() && have <= maxRaw && maxRaw + overrun <= readBuf.Length
      modifies this, readBuf
      ensures Valid() && first == old(first)
      ensures bytesRead == have + FillCount(data, old(pos), have, maxRaw)
      ensures bytesRead == 0 ==> pos == old(pos) && i == 0 && !stored
      ensures var p := old(pos) + (bytesRead - have);
        bytesRead > 0 ==>
          && i == Tail(data, p, maxRaw - bytesRead + overrun, 0, -1, false, 0).0
          && c == Get(data, p + i)
          && stored == (p + i < |data| && i < maxRaw - bytesRead + overrun)
          && pos == (if p + i < |data| then p + i + 1 else p + i)
      ensures forall j :: 0 <= j < readBuf.Length ==>
        readBuf[j] == if have <= j < bytesRead + i + (if stored then 1 else 0) then data[old(pos) + j - have] else old(readBuf[j])
    {
      bytesRead := Fill(readBuf, have, maxRaw);
      if bytesRead == 0 {
        return 0, 0, -1, false;
      }
      var headroom := maxRaw - bytesRead + overrun;
      i, c := FinishRecord(readBuf, bytesRead, headroom);
      stored := c >= 0 && i < headroom;
      if stored {
        readBuf[bytesRead + i] := c as char;
      }
    }

    /**
     * `nextBatchFromFile`: fill `readBuf` (a raw buffer of `max_raw_buf_ +
     * max_raw_buf_overrun_` bytes) and report `(done, length)`. The buffer
     * gets exactly the bytes `ReadRaw` says, and nothing past them changes.
     */
    method NextBatchFromFile(readBuf: array<Byte>, maxRaw: nat, overrun: nat, prevLen: nat)
      returns (r: Result<(bool, nat), FormatError>)
      requires Valid() && maxRaw >= 1 && maxRaw + overrun <= readBuf.Length
      modifies this, readBuf
      ensures Valid()
      ensures r == RawBatchAsWritten(data, old(pos), old(first), maxRaw, overrun, prevLen)
      ensures var rr := ReadRaw(data, old(pos), old(first), maxRaw, overrun);
        && (rr.Ok? ==> pos == rr.value.pos && !first)
        && (rr.Ok? ==> |rr.value.filled| <= readBuf.Length && readBuf[..] == rr.value.filled + old(readBuf[..])[|rr.value.filled|..])
        && (rr.Err? ==> first && readBuf[..] == old(readBuf[..]))
    {
      if first {
        var ok := SkipToFirstRecord();
        if !ok {
          return Err(NotFastq);
        }
        first := false;
        readBuf[0] := '@';
        ghost var marked := readBuf[..];
        r := ReadBatch(readBuf, 1, maxRaw, overrun, prevLen, old(pos), true);
        FirstCellOverwritten(old(readBuf[..]), marked, ReadRaw(data, old(pos), true, maxRaw, overrun).value.filled);
      } else {
        r := ReadBatch(readBuf, 0, maxRaw, overrun, prevLen, pos, false);
      }
    }

    /**
     * The batch after the first call's check: `have` is 1 when that check
     * put a '@' in the buffer. `pos0` and `first0` are the state the batch
     * started from.
     */
    method ReadBatch(readBuf: array<Byte>, have: nat, maxRaw: nat, overrun: nat, prevLen: nat, ghost pos0: nat, ghost first0: bool)
      returns (r: Result<(bool, nat), FormatError>)
      requires Valid() && !first && maxRaw >= 1 && maxRaw + overrun <= readBuf.Length && pos0 <= |data|
      requires have == if first0 then 1 else 0
      requires first0 ==> var s := Scan(data, pos0, PastNewlines); s < |data| && data[s] == '@' && pos == s + 1 && readBuf[0] == '@'
      requires !first0 ==> pos == pos0
      modifies this, readBuf
      ensures Valid() && !first
      ensures r == RawBatchAsWritten(data, pos0, first0, maxRaw, overrun, prevLen)
      ensures var rr := ReadRaw(data, pos0, first0, maxRaw, overrun);
        && rr.Ok? && pos == rr.value.pos && |rr.value.filled| <= readBuf.Length
        && readBuf[..] == rr.value.filled + old(readBuf[..])[|rr.value.filled|..]
    {
      ghost var start := pos;
      var bytesRead, i, c, stored := FillAndFinish(readBuf, have, maxRaw, overrun);
      BatchInBuffer(data, pos0, first0, maxRaw, overrun, prevLen, have, start, bytesRead, i, c, stored, pos, old(readBuf[..]), readBuf[..]);
      if bytesRead == 0 {
        return Ok((true, prevLen));
      }
      r := Ok((c < 0, bytesRead + i + if i > 0 then 1 else 0));
    }
  }

  /**
   * What the buffer holds after the loops of a batch: the bytes `ReadRaw`
   * keeps, then the old contents; and the `(done, length)` the batch reports.
   */
  lemma BatchInBuffer(data: Bytes, pos: nat, first: bool, maxRaw: nat, overrun: nat, prevLen: nat,
                      have: nat, start: nat, bytesRead: nat, i: nat, c: int, stored: bool, posAfter: nat,
                      before: Bytes, after: Bytes)
    requires pos <= |data| && maxRaw >= 1 && maxRaw + overrun <= |before| == |after|
    requires have == if first then 1 else 0
    requires first ==> var s := Scan(data, pos, PastNewlines); s < |data| && data[s] == '@' && start == s + 1 && before[0] == '@'
    requires !first ==> start == pos
    requires bytesRead == have + FillCount(data, start, have, maxRaw)
    requires bytesRead == 0 ==> posAfter == start && i == 0 && !stored
    requires var p := start + (bytesRead - have);
      bytesRead > 0 ==>
        && i == Tail(data, p, maxRaw - bytesRead + overrun, 0, -1, false, 0).0
        && c == Get(data, p + i)
        && stored == (p + i < |data| && i < maxRaw - bytesRead + overrun)
        && posAfter == (if p + i < |data| then p + i + 1 else p + i)
    requires forall j :: 0 <= j < |after| ==>
      after[j] == if have <= j < bytesRead + i + (if stored then 1 else 0) then data[start + j - have] else before[j]
    ensures var rr := ReadRaw(data, pos, first, maxRaw, overrun);
      && rr.Ok? && posAfter == rr.value.pos && |rr.value.filled| <= |after|
      && after == rr.value.filled + before[|rr.value.filled|..]
    ensures RawBatchAsWritten(data, pos, first, maxRaw, overrun, prevLen) ==
      Ok(if bytesRead == 0 then (true, prevLen) else (c < 0, bytesRead + i + if i > 0 then 1 else 0))
  {
    var n := bytesRead + i + (if stored then 1 else 0);
    var p := start + (bytesRead - have);
    if bytesRead > 0 {
      assert p + i <= |data|;
    }
    var kept := n - have;
    var head: Bytes := if first then ['@'] else [];
    BufferAfter(data, start, head, kept, n, before, after);
    BatchOf(data, pos, first, maxRaw, overrun, prevLen, have, start, bytesRead, i, c, stored, kept, after[..n]);
  }

  /**
   * The batch `NextBatchFromFile` assembles from its loops: the '@' check
   * (on the first call), the fill loop's count, the tail loop's steps and
   * the byte in hand, and the bytes `filled` it kept.
   */
  lemma BatchOf(data: Bytes, pos: nat, first: bool, maxRaw: nat, overrun: nat, prevLen: nat,
                have: nat, start: nat, bytesRead: nat, i: nat, c: int, stored: bool, kept: nat, filled: Bytes)
    requires pos <= |data| && maxRaw >= 1 && have == if first then 1 else 0
    requires first ==> var s := Scan(data, pos, PastNewlines); s < |data| && data[s] == '@' && start == s + 1
    requires !first ==> start == pos
    requires bytesRead == have + FillCount(data, start, have, maxRaw)
    requires bytesRead == 0 ==> filled == []
    requires var p := start + (bytesRead - have);
      bytesRead > 0 ==>
        && i == Tail(data, p, maxRaw - bytesRead + overrun, 0, -1, false, 0).0
        && c == Get(data, p + i)
        && stored == (p + i < |data| && i < maxRaw - bytesRead + overrun)
    requires bytesRead > 0 ==>
      && kept == (bytesRead - have) + i + (if stored then 1 else 0) && start + kept <= |data|
      && filled == (if first then ['@'] else []) + data[start..start + kept]
    ensures ReadRaw(data, pos, first, maxRaw, overrun).Ok?
    ensures ReadRaw(data, pos, first, maxRaw, overrun).value.filled == filled
    ensures RawBatchAsWritten(data, pos, first, maxRaw, overrun, prevLen) ==
      Ok(if bytesRead == 0 then (true, prevLen) else (c < 0, bytesRead + i + if i > 0 then 1 else 0))
    ensures var p := start + (bytesRead - if first then 1 else 0);
      ReadRaw(data, pos, first, maxRaw, overrun).value.pos == (if bytesRead == 0 then start else if p + i < |data| then p + i + 1 else p + i)
  {
    ReadRawIs(data, pos, first, maxRaw, overrun, start, bytesRead, i, filled);
    LengthAsWritten(data, pos, first, maxRaw, overrun, prevLen, ReadRaw(data, pos, first, maxRaw, overrun).value);
    if bytesRead > 0 {
      var p := start + (bytesRead - if first then 1 else 0);
      assert p <= |data| && p + i <= |data|;
      assert c < 0 <==> p + i == |data|;
    }
  }

  /** The length `RawBatchAsWritten` reports for the batch `rr`. */
  lemma LengthAsWritten(data: Bytes, pos: nat, first: bool, maxRaw: nat, overrun: nat, prevLen: nat, rr: RawRead)
    requires pos <= |data| && maxRaw >= 1 && ReadRaw(data, pos, first, maxRaw, overrun) == Ok(rr)
    ensures RawBatchAsWritten(data, pos, first, maxRaw, overrun, prevLen) ==
      Ok((rr.done, if rr.bytesRead == 0 then prevLen else rr.bytesRead + rr.steps + if rr.steps > 0 then 1 else 0))
  {
  }

  /** Past the first cell, a buffer whose first cell was overwritten is as it was. */
  lemma FirstCellOverwritten(before: Bytes, marked: Bytes, filled: Bytes)
    requires |before| == |marked| && 1 <= |filled| <= |marked|
    requires forall j :: 1 <= j < |marked| ==> marked[j] == before[j]
    ensures marked[|filled|..] == before[|filled|..]
  {
  }

  /**
   * A buffer whose cells from `|head|` up to `n` were given the `kept` file
   * bytes from `start` on, and whose first cells already held `head`: its
   * first `n` cells are `head` and those bytes, and the rest is as before.
   */
  lemma BufferAfter(data: Bytes, start: nat, head: Bytes, kept: nat, n: nat, before: Bytes, after: Bytes)
    requires |before| == |after| && n == |head| + kept <= |after| && start + kept <= |data|
    requires before[..|head|] == head
    requires forall j :: 0 <= j < |after| ==> after[j] == if |head| <= j < n then data[start + j - |head|] else before[j]
    ensures after[..n] == head + data[start..start + kept]
    ensures after == after[..n] + before[n..]
  {
  }

  /** `ReadRaw` once its parts are known: the '@' check, the fill count, the tail loop's steps and the bytes kept. */
  lemma ReadRawIs(data: Bytes, pos: nat, first: bool, maxRaw: nat, overrun: nat, start: nat, bytesRead: nat, i: nat, filled: Bytes)
    requires pos <= |data| && maxRaw >= 1
    requires first ==> var s := Scan(data, pos, PastNewlines); s < |data| && data[s] == '@' && start == s + 1
    requires !first ==> start == pos
    requires bytesRead == (if first then 1 else 0) + FillCount(data, start, if first then 1 else 0, maxRaw)
    requires var p := start + (bytesRead - if first then 1 else 0);
      var headroom := maxRaw - bytesRead + overrun;
      var stored := p + i < |data| && i < headroom;
      && (bytesRead > 0 ==> i == Tail(data, p, headroom, 0, -1, false, 0).0)
      && (bytesRead > 0 ==> filled == (if first then ['@'] else []) + data[start..p + i + (if stored then 1 else 0)])
    ensures var p := start + (bytesRead - if first then 1 else 0);
      var headroom := maxRaw - bytesRead + overrun;
      var tail := Tail(data, p, headroom, 0, -1, false, 0);
      ReadRaw(data, pos, first, maxRaw, overrun) ==
        if bytesRead == 0 then Ok(RawRead(true, [], start, start, 0, 0, false, false))
        else Ok(RawRead(p + i == |data|, filled, start, if p + i < |data| then p + i + 1 else p + i,
                        bytesRead, i, p + i < |data| && i < headroom, tail.1 && tail.2 >= 4))
  {
  }

  /** `charToPhred33` over the quality text `buf[lo..hi]`. */
  function Phred(buf: Bytes, lo: nat, hi: nat, t: Tables): (r: Bytes)
    requires lo <= hi <= |buf|
    ensures |r| == hi - lo
    decreases hi
  {
    if hi == lo then [] else Phred(buf, lo, hi - 1, t) + [t.toPhred33(buf[hi - 1])]
  }

  /** Where the quality line starts once the '+' line ends at `m`: past the blank lines, but at most the last byte. */
  function QualStart(buf: Bytes, m: nat): nat
    requires m < |buf|
  {
    var q := Scan(buf, m + 1, PastNewlines);
    if q < |buf| then q else |buf| - 1
  }

  /**
   * Where one FASTQ record's parts lie in its raw text: the name from
   * `nameStart` (just past the '@') to `nameEnd`, the sequence from
   * `seqStart` up to the '+' at `seqEnd`, the qualities from `qualStart`
   * to `qualEnd`; `consumed` bytes in all.
   */
  datatype Layout = Layout(nameStart: nat, nameEnd: nat, seqStart: nat, seqEnd: nat, qualStart: nat, qualEnd: nat, consumed: nat)

  /** The parts lie in order inside the text, and the quality line is never empty. */
  predicate Fits(buf: Bytes, l: Layout) {
    && 0 < l.nameStart <= l.nameEnd < l.seqStart <= l.seqEnd < l.qualStart < l.qualEnd <= |buf|
    && l.qualStart < l.consumed <= |buf|
  }

  /**
   * The fields read from the parts `l` locates. The name falls back to
   * `defaultName` when empty. The sequence loses `trim5` bases at its 5'
   * end and up to `trim3` at its 3' end; the qualities lose as many as the
   * sequence did, at each end.
   */
  function RecordFields(buf: Bytes, l: Layout, trim5: nat, trim3: nat, defaultName: Bytes, t: Tables): Fields
    requires Fits(buf, l)
  {
    var name := buf[l.nameStart..l.nameEnd];
    var bases := Bases(buf, l.seqStart, l.seqEnd, t);
    var kept := Drop(bases, trim5);
    var trimmed5 := |bases| - |kept|;
    var trimmed3 := TrimmedAmount(kept, trim3);
    Fields(if |name| == 0 then defaultName else name, TrimEnd(kept, trim3),
           TrimEnd(Drop(Phred(buf, l.qualStart, l.qualEnd, t), trimmed5), trimmed3), trimmed5, trimmed3)
  }

  /**
   * The phases of a record's parse, each one loop of the parser, with the
   * positions found so far: looking for the '@'; in the name from `from`;
   * in the sequence from `s`, the name line having ended at `e`; in the
   * '+' line, the sequence having ended at `n`; in the quality line from
   * `qs`.
   */
  datatype Phase = AtStart | InName(from: nat) | InSequence(from: nat, e: nat, s: nat)
    | InPlus(from: nat, e: nat, s: nat, n: nat) | InQualities(from: nat, e: nat, s: nat, n: nat, qs: nat)

  /** How many phases are left after `p`. */
  function PhasesLeft(p: Phase): nat {
    match p
    case AtStart => 4
    case InName(_) => 3
    case InSequence(_, _, _) => 2
    case InPlus(_, _, _, _) => 1
    case InQualities(_, _, _, _, _) => 0
  }

  /** The positions a phase holds lie in order inside the text. */
  predicate PhaseFits(buf: Bytes, p: Phase) {
    match p
    case AtStart => 0 < |buf|
    case InName(from) => 0 < from < |buf|
    case InSequence(from, e, s) => 0 < from <= e < s < |buf|
    case InPlus(from, e, s, n) => 0 < from <= e < s <= n < |buf|
    case InQualities(from, e, s, n, qs) => 0 < from <= e < s <= n < qs < |buf|
  }

  /**
   * Finding a record's parts, from phase `p` on. Parsing skips to the
   * first '@', which must not be the last byte. The name line follows,
   * then blank lines, then the sequence up to a '+', the rest of the '+'
   * line and blank lines. The quality line goes up to a newline or the end
   * of the text; its first byte is always taken, even a newline, and a
   * space after it is an error. A phase that would run past the text is
   * `Truncated`.
   */
  function LayoutFrom(buf: Bytes, p: Phase): (r: Result<Layout, ParseError>)
    requires PhaseFits(buf, p)
    ensures r.Ok? ==> Fits(buf, r.value)
    ensures r == Err(NoRecord) ==> p == AtStart
    decreases PhasesLeft(p)
  {
    match p
    case AtStart =>
      var a := Scan(buf, 0, AtAt);
      if a + 1 >= |buf| then Err(NoRecord) else LayoutFrom(buf, InName(a + 1))
    case InName(from) =>
      var e := Scan(buf, from, AtNewline);
      if e == |buf| then Err(Truncated)
      else
        var s := Scan(buf, e + 1, PastNewlines);
        if s == |buf| then Err(Truncated) else LayoutFrom(buf, InSequence(from, e, s))
    case InSequence(from, e, s) =>
      var n := Scan(buf, s, AtPlus);
      if n == |buf| then Err(Truncated) else LayoutFrom(buf, InPlus(from, e, s, n))
    case InPlus(from, e, s, n) =>
      var m := Scan(buf, n + 1, AtNewline);
      if m == |buf| then Err(Truncated) else LayoutFrom(buf, InQualities(from, e, s, n, QualStart(buf, m)))
    case InQualities(from, e, s, n, qs) =>
      var z := Scan(buf, qs + 1, AtSpaceOrNewline);
      if z < |buf| && buf[z] == ' ' then Err(SpaceInQualities)
      else Ok(Layout(from, e, s, n, qs, z, if z < |buf| then z + 1 else |buf|))
  }

  /**
   * What a parse whose layout search ended in `found` returns: the search's
   * error, or the fields and the bytes consumed once the qualities are
   * found to be exactly as many as the bases.
   */
  function Outcome(buf: Bytes, found: Result<Layout, ParseError>, trim5: nat, trim3: nat, defaultName: Bytes, t: Tables)
    : (r: Result<(Fields, nat), ParseError>)
    requires found.Ok? ==> Fits(buf, found.value)
    ensures r.Ok? ==> |r.value.0.qual| == |r.value.0.patFw| && 0 < r.value.1 <= |buf|
    ensures found.Err? ==> r == Err(found.error)
    ensures r == Err(NoRecord) ==> found == Err(NoRecord)
  {
    match found
    case Err(err) => Err(err)
    case Ok(l) =>
      var f := RecordFields(buf, l, trim5, trim3, defaultName, t);
      if |f.qual| < |f.patFw| then Err(TooFewQualities)
      else if |f.qual| > |f.patFw| then Err(TooManyQualities)
      else Ok((f, l.consumed))
  }

  /** One FASTQ record's parse: the fields and the number of raw bytes consumed. */
  function ParseFastq(buf: Bytes, trim5: nat, trim3: nat, defaultName: Bytes, t: Tables): (r: Result<(Fields, nat), ParseError>)
    requires |buf| > 0
  {
    Outcome(buf, LayoutFrom(buf, AtStart), trim5, trim3, defaultName, t)
  }

  /** The '@' search, as `ParseFields` takes it: `a1` is just past the '@'. */
  lemma StartPhase(buf: Bytes, a1: nat)
    requires |buf| > 0
    requires a1 == (var a := Scan(buf, 0, AtAt); if a < |buf| then a + 1 else |buf|)
    ensures a1 >= |buf| ==> LayoutFrom(buf, AtStart) == Err(NoRecord)
    ensures a1 < |buf| ==> LayoutFrom(buf, AtStart) == LayoutFrom(buf, InName(a1))
  {
  }

  /** The name line ends at `e` and the blank lines after it at `s`. */
  lemma NamePhase(buf: Bytes, from: nat, e: nat, s: nat)
    requires 0 < from < |buf| && e == Scan(buf, from, AtNewline)
    requires e < |buf| ==> s == Scan(buf, e + 1, PastNewlines)
    ensures e == |buf| || s == |buf| ==> LayoutFrom(buf, InName(from)) == Err(Truncated)
    ensures e < |buf| && s < |buf| ==> LayoutFrom(buf, InName(from)) == LayoutFrom(buf, InSequence(from, e, s))
  {
  }

  /** The sequence ends at the '+' at `n`. */
  lemma SequencePhase(buf: Bytes, from: nat, e: nat, s: nat, n: nat)
    requires 0 < from <= e < s < |buf| && n == Scan(buf, s, AtPlus)
    ensures n == |buf| ==> LayoutFrom(buf, InSequence(from, e, s)) == Err(Truncated)
    ensures n < |buf| ==> LayoutFrom(buf, InSequence(from, e, s)) == LayoutFrom(buf, InPlus(from, e, s, n))
  {
  }

  /** The '+' line ends at `m`. */
  lemma PlusPhase(buf: Bytes, from: nat, e: nat, s: nat, n: nat, m: nat)
    requires 0 < from <= e < s <= n < |buf| && m == Scan(buf, n + 1, AtNewline)
    ensures m == |buf| ==> LayoutFrom(buf, InPlus(from, e, s, n)) == Err(Truncated)
    ensures m < |buf| ==> LayoutFrom(buf, InPlus(from, e, s, n)) == LayoutFrom(buf, InQualities(from, e, s, n, QualStart(buf, m)))
  {
  }

  /** The quality line from `qs` ends at `z`. */
  lemma QualitiesPhase(buf: Bytes, from: nat, e: nat, s: nat, n: nat, qs: nat, z: nat)
    requires 0 < from <= e < s <= n < qs < |buf| && z == Scan(buf, qs + 1, AtSpaceOrNewline)
    ensures LayoutFrom(buf, InQualities(from, e, s, n, qs)) ==
      if z < |buf| && buf[z] == ' ' then Err(SpaceInQualities)
      else Ok(Layout(from, e, s, n, qs, z, if z < |buf| then z + 1 else |buf|))
  {
  }

  /** The count check on the fields `f` read from the parts `l`. */
  lemma CountingPhase(buf: Bytes, l: Layout, trim5: nat, trim3: nat, defaultName: Bytes, t: Tables, f: Fields)
    requires Fits(buf, l) && f == RecordFields(buf, l, trim5, trim3, defaultName, t)
    ensures Outcome(buf, Ok(l), trim5, trim3, defaultName, t) ==
      if |f.qual| == |f.patFw| then Ok((f, l.consumed))
      else if |f.qual| < |f.patFw| then Err(TooFewQualities) else Err(TooManyQualities)
  {
  }

  /**
   * What the parser's loops read from the parts `l` locates: the name
   * line, the sequence line's base count and 5'-trimmed bases, and the
   * quality line with as many values trimmed from its 5' end as the
   * sequence lost.
   */
  predicate LinesRead(buf: Bytes, l: Layout, trim5: nat, t: Tables, name: Bytes, nchar: nat, kept: seq<Nuc>, line: Bytes)
    requires Fits(buf, l)
  {
    && name == buf[l.nameStart..l.nameEnd]
    && nchar == |Bases(buf, l.seqStart, l.seqEnd, t)| && kept == Drop(Bases(buf, l.seqStart, l.seqEnd, t), trim5)
    && line == Drop(Phred(buf, l.qualStart, l.qualEnd, t), nchar - |kept|)
  }

  /** The fields `ParseFields` assembles from what its loops read: the default name and the 3' trims. */
  lemma FieldsFromLines(buf: Bytes, l: Layout, trim5: nat, trim3: nat, defaultName: Bytes, t: Tables,
                        name: Bytes, nchar: nat, kept: seq<Nuc>, line: Bytes)
    requires Fits(buf, l) && LinesRead(buf, l, trim5, t, name, nchar, kept, line)
    ensures RecordFields(buf, l, trim5, trim3, defaultName, t) ==
      Fields(if |name| == 0 then defaultName else name, TrimEnd(kept, trim3),
             TrimEnd(line, TrimmedAmount(kept, trim3)), nchar - |kept|, TrimmedAmount(kept, trim3))
  {
  }

  /** The search for the '@' finds none exactly when no '@' comes before the last byte. */
  lemma NoLayoutWithoutAt(buf: Bytes)
    requires |buf| > 0
    ensures LayoutFrom(buf, AtStart) == Err(NoRecord) <==> forall j :: 0 <= j < |buf| - 1 ==> buf[j] != '@'
  {
    var a := Scan(buf, 0, AtAt);
    ScanSkips(buf, 0, AtAt);
    StartPhase(buf, if a < |buf| then a + 1 else |buf|);
  }

  /** No record at all exactly when no '@' comes before the last byte. */
  lemma NoRecordWithoutAt(buf: Bytes, trim5: nat, trim3: nat, defaultName: Bytes, t: Tables)
    requires |buf| > 0
    ensures ParseFastq(buf, trim5, trim3, defaultName, t) == Err(NoRecord) <==>
      forall j :: 0 <= j < |buf| - 1 ==> buf[j] != '@'
  {
    NoLayoutWithoutAt(buf);
  }

  /** The parse in the source: the do-while that looks for '@'; `cur` is past it, or at the end. */
  method FindRecord(buf: Bytes) returns (cur: nat)
    requires |buf| > 0
    ensures var a := Scan(buf, 0, AtAt);
      cur == if a < |buf| then a + 1 else |buf|
  {
    var c := buf[0];
    cur := 1;
    while cur < |buf| && c != '@'
      invariant 1 <= cur <= |buf| && c == buf[cur - 1]
      invariant forall j :: 0 <= j < cur - 1 ==> buf[j] != '@'
      decreases |buf| - cur
    {
      c := buf[cur];
      cur := cur + 1;
    }
    if c == '@' {
      ScanUnique(buf, 0, AtAt, cur - 1);
    } else {
      ScanUnique(buf, 0, AtAt, |buf|);
    }
  }

  /** The do-while over the rest of the '+' line: `cur` is past its newline. */
  method SkipLine(buf: Bytes, from: nat) returns (ok: bool, cur: nat)
    requires from <= |buf|
    ensures var m := Scan(buf, from, AtNewline);
      && ok == (m < |buf|)
      && (ok ==> cur == m + 1)
  {
    cur := from;
    while true
      invariant from <= cur <= |buf|
      invariant forall j :: from <= j < cur ==> !IsNewline(buf[j] as int)
      decreases |buf| - cur
    {
      if cur >= |buf| {
        ScanUnique(buf, from, AtNewline, cur);
        return false, cur;
      }
      var c := buf[cur];
      cur := cur + 1;
      if IsNewline(c as int) {
        ScanUnique(buf, from, AtNewline, cur - 1);
        return true, cur;
      }
    }
  }

  /**
   * The blank lines before the qualities, with the newline at `m` in hand:
   * `qs` is the byte left in hand (the first non-newline, or the last byte)
   * and `cur` the index after it.
   */
  method SkipBlankLines(buf: Bytes, m: nat) returns (qs: nat, cur: nat)
    requires m < |buf| && IsNewline(buf[m] as int)
    ensures qs == QualStart(buf, m)
    ensures cur == if Scan(buf, m + 1, PastNewlines) < |buf| then qs + 1 else |buf|
  {
    qs := m;
    cur := m + 1;
    while cur < |buf| && IsNewline(buf[qs] as int)
      invariant m <= qs < |buf| && cur == qs + 1
      invariant forall j :: m + 1 <= j < qs ==> IsNewline(buf[j] as int)
      invariant m < qs ==> IsNewline(buf[qs - 1] as int)
      decreases |buf| - cur
    {
      qs := cur;
      cur := cur + 1;
    }
    if IsNewline(buf[qs] as int) {
      ScanUnique(buf, m + 1, PastNewlines, |buf|);
    } else {
      ScanUnique(buf, m + 1, PastNewlines, qs);
    }
  }

  /**
   * The quality loop from index `i` on, with `nqual` bytes counted and
   * `qual` kept so far: the qualities when it reaches a space, a newline or
   * the end.
   */
  function QualLoop(buf: Bytes, i: nat, trimmed5: nat, t: Tables, nqual: nat, qual: Bytes): Bytes
    requires i <= |buf|
    decreases |buf| - i
  {
    if i == |buf| || Stops(AtSpaceOrNewline, buf[i]) then qual
    else QualLoop(buf, i + 1, trimmed5, t, nqual + 1, if nqual >= trimmed5 then qual + [t.toPhred33(buf[i])] else qual)
  }

  /**
   * The loop keeps the quality values past the 5' trim point: started at
   * `i` with those of `buf[qs..i]`, it ends with those of the whole
   * quality line.
   */
  lemma {:induction false} QualLoopPhred(buf: Bytes, qs: nat, i: nat, trimmed5: nat, t: Tables, qual: Bytes)
    requires qs <= i <= |buf| && qual == Drop(Phred(buf, qs, i, t), trimmed5)
    ensures QualLoop(buf, i, trimmed5, t, i - qs, qual) == Drop(Phred(buf, qs, Scan(buf, i, AtSpaceOrNewline), t), trimmed5)
    decreases |buf| - i
  {
    if i < |buf| && !Stops(AtSpaceOrNewline, buf[i]) {
      var qual' := QualStep(buf, qs, i, trimmed5, t, qual);
      QualLoopPhred(buf, qs, i + 1, trimmed5, t, qual');
    }
  }

  /** One step of the quality loop keeps the values past the trim point of one more byte. */
  lemma QualStep(buf: Bytes, qs: nat, i: nat, trimmed5: nat, t: Tables, qual: Bytes) returns (qual': Bytes)
    requires qs <= i < |buf| && !Stops(AtSpaceOrNewline, buf[i]) && qual == Drop(Phred(buf, qs, i, t), trimmed5)
    ensures qual' == Drop(Phred(buf, qs, i + 1, t), trimmed5)
    ensures Scan(buf, i, AtSpaceOrNewline) == Scan(buf, i + 1, AtSpaceOrNewline)
    ensures QualLoop(buf, i, trimmed5, t, i - qs, qual) == QualLoop(buf, i + 1, trimmed5, t, i + 1 - qs, qual')
  {
    var q := Phred(buf, qs, i, t);
    qual' := if i - qs >= trimmed5 then qual + [t.toPhred33(buf[i])] else qual;
    assert Phred(buf, qs, i + 1, t) == q + [t.toPhred33(buf[i])];
    DropStep(q, [t.toPhred33(buf[i])], trimmed5);
  }

  /** What the quality loop keeps of the line's first byte, which it always takes. */
  function FirstQual(buf: Bytes, qs: nat, trimmed5: nat, t: Tables): Bytes
    requires qs < |buf|
  {
    if 0 >= trimmed5 then [t.toPhred33(buf[qs])] else []
  }

  /** The whole quality line: its first byte, then the loop over the rest. */
  lemma QualLineValues(buf: Bytes, qs: nat, trimmed5: nat, t: Tables)
    requires qs < |buf|
    ensures QualLoop(buf, qs + 1, trimmed5, t, 1, FirstQual(buf, qs, trimmed5, t)) ==
      Drop(Phred(buf, qs, Scan(buf, qs + 1, AtSpaceOrNewline), t), trimmed5)
  {
    DropStep(Phred(buf, qs, qs, t), [t.toPhred33(buf[qs])], trimmed5);
    QualLoopPhred(buf, qs, qs + 1, trimmed5, t, FirstQual(buf, qs, trimmed5, t));
  }

  /**
   * The quality loop. The byte at `qs` is always taken. Then bytes are
   * taken up to a newline or the end, and a space fails. Each taken byte
   * counts toward the 5' trim, and only those past it are kept.
   */
  method QualLine(buf: Bytes, qs: nat, trimmed5: nat, t: Tables) returns (ok: bool, qual: Bytes, z: nat, cur: nat)
    requires qs < |buf|
    ensures z == Scan(buf, qs + 1, AtSpaceOrNewline)
    ensures ok == !(z < |buf| && buf[z] == ' ')
    ensures ok ==> qual == QualLoop(buf, qs + 1, trimmed5, t, 1, FirstQual(buf, qs, trimmed5, t)) && cur == (if z < |buf| then z + 1 else |buf|)
  {
    var c := buf[qs];
    qual := FirstQual(buf, qs, trimmed5, t);
    var nqual: nat := 1;
    cur := qs + 1;
    ghost var qual0 := qual;
    while true
      invariant qs + 1 <= cur <= |buf|
      invariant Scan(buf, qs + 1, AtSpaceOrNewline) == Scan(buf, cur, AtSpaceOrNewline)
      invariant QualLoop(buf, qs + 1, trimmed5, t, 1, qual0) == QualLoop(buf, cur, trimmed5, t, nqual, qual)
      decreases |buf| - cur
    {
      if cur >= |buf| {
        assert qual == QualLoop(buf, qs + 1, trimmed5, t, 1, qual0);
        z := cur;
        break;
      }
      c := buf[cur];
      cur := cur + 1;
      if c == ' ' {
        assert Scan(buf, cur - 1, AtSpaceOrNewline) == cur - 1;
        return false, qual, cur - 1, cur;
      }
      if IsNewline(c as int) {
        assert Scan(buf, cur - 1, AtSpaceOrNewline) == cur - 1;
        assert QualLoop(buf, cur - 1, trimmed5, t, nqual, qual) == qual;
        z := cur - 1;
        break;
      }
      if nqual >= trimmed5 {
        qual := qual + [t.toPhred33(c)];
      }
      nqual := nqual + 1;
    }
    ok := true;
  }

  /**
   * One record's parse from the raw text into its fields and the bytes it
   * consumed; nothing else changes. `noRecord`: the text has no '@'
   * followed by at least one byte.
   */
  method ParseFields(buf: Bytes, trim5: nat, trim3: nat, readCnt: nat, t: Tables) returns (ok: bool, noRecord: bool, f: Fields, consumed: nat)
    requires |buf| > 0
    ensures var spec := ParseFastq(buf, trim5, trim3, t.itoa10(readCnt), t);
      && ok == spec.Ok?
      && noRecord == (spec == Err(NoRecord))
      && (ok ==> (f, consumed) == spec.value)
  {
    var cur := FindRecord(buf);
    StartPhase(buf, cur);
    if cur >= |buf| {
      return false, true, Fields([], [], [], 0, 0), 0;
    }
    noRecord := false;
    var found, l, name, nchar, kept, line := NameOn(buf, cur, trim5, t);
    if !found {
      return false, false, Fields([], [], [], 0, 0), 0;
    }
    var trimmed5 := nchar - |kept|;
    var trimmed3 := TrimmedAmount(kept, trim3);
    var patFw := TrimEnd(kept, trim3);
    var qual := TrimEnd(line, trimmed3);
    FieldsFromLines(buf, l, trim5, trim3, t.itoa10(readCnt), t, name, nchar, kept, line);
    f := Fields(if |name| == 0 then t.itoa10(readCnt) else name, patFw, qual, trimmed5, trimmed3);
    CountingPhase(buf, l, trim5, trim3, t.itoa10(readCnt), t, f);
    ok := |qual| == |patFw|;
    consumed := l.consumed;
  }

  /** The name phase: the name line and the blank lines after it, then the sequence phase. */
  method NameOn(buf: Bytes, from: nat, trim5: nat, t: Tables)
    returns (ok: bool, l: Layout, name: Bytes, nchar: nat, kept: seq<Nuc>, line: Bytes)
    requires 0 < from < |buf|
    ensures ok == LayoutFrom(buf, InName(from)).Ok?
    ensures ok ==> LayoutFrom(buf, InName(from)) == Ok(l) && LinesRead(buf, l, trim5, t, name, nchar, kept, line)
  {
    var ok1, name1, e1 := NameLine(buf, from);
    var ok2, s := false, 0;
    if ok1 {
      ok2, s := SkipNewlines(buf, e1);
    }
    NamePhase(buf, from, if ok1 then e1 - 1 else |buf|, if ok2 then s else |buf|);
    if !ok2 {
      return false, Layout(0, 0, 0, 0, 0, 0, 0), [], 0, [], [];
    }
    ok, l, name, nchar, kept, line := SequenceOn(buf, from, e1 - 1, s, name1, trim5, t);
  }

  /** The sequence phase: the bases up to the '+', then the '+' phase. */
  method SequenceOn(buf: Bytes, from: nat, e: nat, s: nat, name: Bytes, trim5: nat, t: Tables)
    returns (ok: bool, l: Layout, name': Bytes, nchar: nat, kept: seq<Nuc>, line: Bytes)
    requires 0 < from <= e < s < |buf| && name == buf[from..e]
    ensures ok == LayoutFrom(buf, InSequence(from, e, s)).Ok?
    ensures ok ==> LayoutFrom(buf, InSequence(from, e, s)) == Ok(l) && LinesRead(buf, l, trim5, t, name', nchar, kept, line)
  {
    var ok3, n1;
    ok3, nchar, kept, n1 := SequenceLine(buf, s, AtPlus, trim5, t);
    SequencePhase(buf, from, e, s, if ok3 then n1 - 1 else |buf|);
    if !ok3 {
      return false, Layout(0, 0, 0, 0, 0, 0, 0), [], 0, [], [];
    }
    ok, l, line := PlusOn(buf, from, e, s, n1 - 1, name, nchar, kept, trim5, t);
    name' := name;
  }

  /** The '+' phase: the rest of the '+' line and the blank lines after it, then the quality phase. */
  method PlusOn(buf: Bytes, from: nat, e: nat, s: nat, n: nat, name: Bytes, nchar: nat, kept: seq<Nuc>, trim5: nat, t: Tables)
    returns (ok: bool, l: Layout, line: Bytes)
    requires 0 < from <= e < s <= n < |buf| && name == buf[from..e]
    requires nchar == |Bases(buf, s, n, t)| && kept == Drop(Bases(buf, s, n, t), trim5)
    ensures ok == LayoutFrom(buf, InPlus(from, e, s, n)).Ok?
    ensures ok ==> LayoutFrom(buf, InPlus(from, e, s, n)) == Ok(l) && LinesRead(buf, l, trim5, t, name, nchar, kept, line)
  {
    var ok4, m1 := SkipLine(buf, n + 1);
    PlusPhase(buf, from, e, s, n, if ok4 then m1 - 1 else |buf|);
    if !ok4 {
      return false, Layout(0, 0, 0, 0, 0, 0, 0), [];
    }
    var qs, _ := SkipBlankLines(buf, m1 - 1);
    ok, l, line := QualitiesOn(buf, from, e, s, n, qs, name, nchar, kept, trim5, t);
  }

  /** The quality phase: the quality line, whose values lose as many at the 5' end as the sequence did. */
  method QualitiesOn(buf: Bytes, from: nat, e: nat, s: nat, n: nat, qs: nat, name: Bytes, nchar: nat, kept: seq<Nuc>,
                     trim5: nat, t: Tables)
    returns (ok: bool, l: Layout, line: Bytes)
    requires 0 < from <= e < s <= n < qs < |buf| && name == buf[from..e]
    requires nchar == |Bases(buf, s, n, t)| && kept == Drop(Bases(buf, s, n, t), trim5)
    ensures ok == LayoutFrom(buf, InQualities(from, e, s, n, qs)).Ok?
    ensures ok ==> LayoutFrom(buf, InQualities(from, e, s, n, qs)) == Ok(l) && LinesRead(buf, l, trim5, t, name, nchar, kept, line)
  {
    var z, used;
    ok, line, z, used := QualLine(buf, qs, nchar - |kept|, t);
    QualLineValues(buf, qs, nchar - |kept|, t);
    QualitiesPhase(buf, from, e, s, n, qs, z);
    l := Layout(from, e, s, n, qs, z, used);
  }

  /**
   * One mate's parse from its raw text. On success the read holds the
   * parsed fields, is marked parsed, and the raw cursor moves past the
   * record. With no record, the cursor moves to the end of the text.
   * Other failures leave the cursor where it was.
   */
  method ParseOne(r: Read, trim5: nat, trim3: nat, readCnt: nat, t: Tables) returns (ok: bool)
    requires |r.rawBuf| > 0
    modifies r
    ensures r.rawBuf == old(r.rawBuf) && r.readOrigBuf == old(r.readOrigBuf)
    ensures var spec := ParseFastq(r.rawBuf, trim5, trim3, t.itoa10(readCnt), t);
      && ok == spec.Ok?
      && (ok ==> Fields(r.name, r.patFw, r.qual, r.trimmed5, r.trimmed3) == spec.value.0)
      && (ok ==> r.parsed && r.rawCur == old(r.rawCur) + spec.value.1)
      && (!ok ==> r.parsed == old(r.parsed))
      && (spec == Err(NoRecord) ==> r.rawCur == |r.rawBuf|)
      && (spec.Err? && spec != Err(NoRecord) ==> r.rawCur == old(r.rawCur))
  {
    var buf := r.rawBuf;
    var noRecord, f, consumed;
    ok, noRecord, f, consumed := ParseFields(buf, trim5, trim3, readCnt, t);
    if ok {
      r.SetParsed(f, consumed);
    } else if noRecord {
      r.rawCur := |buf|;
    }
  }

  /**
   * `parse`: parse this mate, then the other one when it has raw text and
   * is not parsed yet. The recursive call finds this mate parsed and stops
   * there, so each mate is parsed at most once.
   */
  method Parse(r: Read, rb: Read, trim5: nat, trim3: nat, readCnt: nat, t: Tables) returns (ok: bool)
    requires r != rb && |r.rawBuf| > 0
    modifies r, rb
    ensures r.rawBuf == old(r.rawBuf) && rb.rawBuf == old(rb.rawBuf)
    ensures var sa := ParseFastq(r.rawBuf, trim5, trim3, t.itoa10(readCnt), t);
      var parseB := |rb.rawBuf| > 0 && !old(rb.parsed);
      var sb := if parseB then ParseFastq(rb.rawBuf, trim5, trim3, t.itoa10(readCnt), t) else Ok((Fields([], [], [], 0, 0), 0));
      && ok == (sa.Ok? && sb.Ok?)
      && (sa.Ok? ==> r.parsed && Fields(r.name, r.patFw, r.qual, r.trimmed5, r.trimmed3) == sa.value.0)
      && (sa.Ok? ==> r.rawCur == old(r.rawCur) + sa.value.1)
      && (ok && parseB ==> rb.parsed && Fields(rb.name, rb.patFw, rb.qual, rb.trimmed5, rb.trimmed3) == sb.value.0)
      && (ok && parseB ==> rb.rawCur == old(rb.rawCur) + sb.value.1)
      && (sa.Err? ==> r.parsed == old(r.parsed))
      && (sa == Err(NoRecord) ==> r.rawCur == |r.rawBuf|)
      && (sa.Err? && sa != Err(NoRecord) ==> r.rawCur == old(r.rawCur))
      && (sa.Ok? && sb.Err? ==> rb.parsed == old(rb.parsed))
      && (sa.Ok? && sb == Err(NoRecord) ==> rb.rawCur == |rb.rawBuf|)
      && (sa.Ok? && sb.Err? && sb != Err(NoRecord) ==> rb.rawCur == old(rb.rawCur))
    ensures !(|rb.rawBuf| > 0 && !old(rb.parsed)) || ParseFastq(r.rawBuf, trim5, trim3, t.itoa10(readCnt), t).Err?
      ==> unchanged(rb)
  {
    ok := ParseOne(r, trim5, trim3, readCnt, t);
    if !ok {
      return;
    }
    if !rb.parsed && |rb.rawBuf| > 0 {
      ok := ParseOne(rb, trim5, trim3, readCnt, t);
    }
  }
}
