/**
 * The read record and the per-thread read dispenser of pat.cpp:
 * PatternSourcePerThread::finalize, finalizePair (pat.cpp:122-149) and
 * nextReadPair (pat.cpp:157-191).
 *
 * The per-thread batch buffer `buf_` and its cursor live in pat.h, which is
 * not part of this model: what nextReadPair asks of it (whether it is
 * exhausted, whether the current read is the batch's last, the current
 * read id) and what the composer and the format's `parse` return are
 * parameters of the methods here.
 */
module Reads {
  import opened Common
  import opened RandSeed
  import opened FileSource
  import Composer

  /** The fields of a Read that the parsers and the finalizers write. */
  class Read {
    var name: Bytes
    var patFw: seq<Nuc>
    var qual: Bytes
    var trimmed5: nat
    var trimmed3: nat
    /** The record's raw text as the FASTA light parser stored it. */
    var readOrigBuf: Bytes
    /** The FASTQ raw bytes this read parses from (`readOrigRawBuf` up to `raw_buf_len_`). */
    var rawBuf: Bytes
    /** The per-thread raw-buffer cursor that `cur_raw_buf_` points to. */
    var rawCur: nat
    var parsed: bool
    var mate: nat
    var rdid: nat
    var seed: bv32

    /** A cleared read: what `reset()` leaves. */
    constructor ()
      ensures name == [] && patFw == [] && qual == [] && readOrigBuf == [] && rawBuf == []
      ensures trimmed5 == 0 && trimmed3 == 0 && !parsed && rawCur == 0
      ensures mate == 0 && rdid == 0 && seed == 0
    {
      name, patFw, qual, readOrigBuf, rawBuf, rawCur := [], [], [], [], [], 0;
      trimmed5, trimmed3, parsed := 0, 0, false;
      mate, rdid, seed := 0, 0, 0;
    }

    /** A successful parse's stores: the parsed fields, the parsed mark, and the raw cursor moved by `advance`. */
    method SetParsed(f: Fields, advance: nat)
      modifies this
      ensures Fields(name, patFw, qual, trimmed5, trimmed3) == f && parsed && rawCur == old(rawCur) + advance
      ensures rawBuf == old(rawBuf) && readOrigBuf == old(readOrigBuf)
    {
      name, patFw, qual, trimmed5, trimmed3 := f.name, f.patFw, f.qual, f.trimmed5, f.trimmed3;
      parsed := true;
      rawCur := rawCur + advance;
    }

    /** The per-read seed genRandSeed gives this read under the global seed. */
    function SeedFor(globalSeed: bv32): bv32
      requires |qual| >= |patFw|
      reads this
    {
      GenRandSeed(patFw, Octets(qual), Octets(name), globalSeed)
    }
  }

  /** What a parse writes into a Read: name, sequence, qualities and the trimmed amounts. */
  datatype Fields = Fields(name: Bytes, patFw: seq<Nuc>, qual: Bytes, trimmed5: nat, trimmed3: nat)

  /** Why a parse fails. `Truncated`: the parser would read past the record's text, which the source only asserts against. */
  datatype ParseError = Truncated | NoRecord | SpaceInQualities | TooFewQualities | TooManyQualities

  /** A sequence character's contribution: '.' reads as 'N', letters become nucleotides, anything else is skipped. */
  function Base(c: Byte, t: Tables): (r: seq<Nuc>)
    ensures |r| <= 1
  {
    var c' := if c == '.' then 'N' else c;
    if IsAlpha(c' as int) then [t.asc2dna(c')] else []
  }

  /** The nucleotides of the sequence text `buf[lo..hi]`, in order. */
  function Bases(buf: Bytes, lo: nat, hi: nat, t: Tables): (r: seq<Nuc>)
    requires lo <= hi <= |buf|
    ensures |r| <= hi - lo
    decreases hi
  {
    if hi == lo then [] else Bases(buf, lo, hi - 1, t) + Base(buf[hi - 1], t)
  }

  /** The 5'-end trim: the elements from index `n` on. */
  function Drop<T>(s: seq<T>, n: nat): (r: seq<T>)
    ensures |r| == if n < |s| then |s| - n else 0
  {
    if n < |s| then s[n..] else []
  }

  /** What the 5' trim keeps is the sequence's suffix of its own length. */
  lemma DropIsSuffix<T>(s: seq<T>, n: nat)
    ensures Drop(s, n) == s[|s| - |Drop(s, n)|..]
  {
  }

  /** The `nchar++ >= trim5` rule applied one base at a time builds Drop. */
  lemma DropStep<T>(s: seq<T>, b: seq<T>, n: nat)
    requires |b| <= 1
    ensures Drop(s + b, n) == if |s| >= n then Drop(s, n) + b else Drop(s, n)
  {
    if |b| == 1 && |s| >= n {
      assert (s + b)[n..] == s[n..] + b;
    }
  }

  /** `n` qualities of 'I', the FASTA default. */
  function DefaultQuals(n: nat): (r: Bytes)
    ensures |r| == n && forall i :: 0 <= i < n ==> r[i] == 'I'
  {
    seq(n, _ => 'I')
  }

  /**
   * The name loop of the FASTA and FASTQ parsers: the bytes from `from` up
   * to the first newline; reading on past the text's end fails.
   */
  method NameLine(buf: Bytes, from: nat) returns (ok: bool, name: Bytes, cur: nat)
    requires from <= |buf|
    ensures var e := Scan(buf, from, AtNewline);
      && ok == (e < |buf|)
      && (ok ==> name == buf[from..e] && cur == e + 1)
  {
    cur := from;
    name := [];
    while true
      invariant from <= cur <= |buf| && name == buf[from..cur]
      invariant Scan(buf, from, AtNewline) == Scan(buf, cur, AtNewline)
      decreases |buf| - cur
    {
      if cur >= |buf| {
        return false, name, cur;
      }
      var c := buf[cur];
      cur := cur + 1;
      if IsNewline(c as int) {
        return true, name, cur;
      }
      SliceSnoc(buf, from, cur - 1);
      name := name + [c];
    }
  }

  /**
   * The do-while after the name: skip newlines; `s` is the index of the
   * first other byte, which the parser holds in `c`.
   */
  method SkipNewlines(buf: Bytes, from: nat) returns (ok: bool, s: nat)
    requires from <= |buf|
    ensures ok == (Scan(buf, from, PastNewlines) < |buf|)
    ensures ok ==> s == Scan(buf, from, PastNewlines)
  {
    s := from;
    while s < |buf| && IsNewline(buf[s] as int)
      invariant from <= s <= |buf|
      invariant Scan(buf, from, PastNewlines) == Scan(buf, s, PastNewlines)
      decreases |buf| - s
    {
      s := s + 1;
    }
    ok := s < |buf|;
  }

  /**
   * The sequence loop from index `i` on, with `nchar` letters counted and
   * `patFw` kept so far: the counts and bases when it reaches the byte
   * that stops `stop`.
   */
  function SeqLoop(buf: Bytes, i: nat, stop: Stop, trim5: nat, t: Tables, nchar: nat, patFw: seq<Nuc>): (nat, seq<Nuc>)
    requires i <= |buf|
    decreases |buf| - i
  {
    if i == |buf| || Stops(stop, buf[i]) then (nchar, patFw)
    else
      var b := Base(buf[i], t);
      SeqLoop(buf, i + 1, stop, trim5, t, nchar + |b|, if nchar >= trim5 then patFw + b else patFw)
  }

  /** One step of `SeqLoop` keeps its state equal to the count and trimmed bases of the bytes taken. */
  lemma SeqLoopStep(buf: Bytes, s: nat, i: nat, stop: Stop, trim5: nat, t: Tables, nchar: nat, patFw: seq<Nuc>)
    returns (nchar': nat, patFw': seq<Nuc>)
    requires s <= i < |buf| && !Stops(stop, buf[i])
    requires nchar == |Bases(buf, s, i, t)| && patFw == Drop(Bases(buf, s, i, t), trim5)
    ensures nchar' == |Bases(buf, s, i + 1, t)| && patFw' == Drop(Bases(buf, s, i + 1, t), trim5)
    ensures SeqLoop(buf, i, stop, trim5, t, nchar, patFw) == SeqLoop(buf, i + 1, stop, trim5, t, nchar', patFw')
    ensures Scan(buf, i + 1, stop) == Scan(buf, i, stop)
  {
    var c := buf[i];
    nchar', patFw' := nchar + |Base(c, t)|, if nchar >= trim5 then patFw + Base(c, t) else patFw;
    DropStep(Bases(buf, s, i, t), Base(c, t), trim5);
  }

  /**
   * `SeqLoop` from `i`, started with the count and trimmed bases of
   * `buf[s..i]`, ends with those of the whole line `buf[s..n]`.
   */
  lemma {:induction false} SeqLoopBases(buf: Bytes, s: nat, i: nat, stop: Stop, trim5: nat, t: Tables, nchar: nat, patFw: seq<Nuc>)
    requires s <= i <= |buf| && nchar == |Bases(buf, s, i, t)| && patFw == Drop(Bases(buf, s, i, t), trim5)
    ensures var n := Scan(buf, i, stop);
      SeqLoop(buf, i, stop, trim5, t, nchar, patFw) == (|Bases(buf, s, n, t)|, Drop(Bases(buf, s, n, t), trim5))
    decreases |buf| - i
  {
    if i < |buf| && !Stops(stop, buf[i]) {
      var nchar', patFw' := SeqLoopStep(buf, s, i, stop, trim5, t, nchar, patFw);
      SeqLoopBases(buf, s, i + 1, stop, trim5, t, nchar', patFw');
    }
  }

  /**
   * The sequence loop: from index `s` up to the byte that stops `stop`
   * ('\n' in FASTA, '+' in FASTQ), count the letters and keep those past
   * the 5' trim point. `cur` is past the stopping byte.
   */
  method SequenceLine(buf: Bytes, s: nat, stop: Stop, trim5: nat, t: Tables)
    returns (ok: bool, nchar: nat, patFw: seq<Nuc>, cur: nat)
    requires s < |buf|
    ensures var n := Scan(buf, s, stop);
      && ok == (n < |buf|)
      && (ok ==> nchar == |Bases(buf, s, n, t)| && patFw == Drop(Bases(buf, s, n, t), trim5) && cur == n + 1)
  {
    var c := buf[s];
    cur := s + 1;
    nchar := 0;
    patFw := [];
    while !Stops(stop, c)
      invariant s < cur <= |buf| && c == buf[cur - 1]
      invariant Scan(buf, s, stop) == Scan(buf, cur - 1, stop)
      invariant SeqLoop(buf, s, stop, trim5, t, 0, []) == SeqLoop(buf, cur - 1, stop, trim5, t, nchar, patFw)
      decreases |buf| - cur
    {
      ghost var n0, p0 := nchar, patFw;
      var ch := if c == '.' then 'N' else c;
      if IsAlpha(ch as int) {
        assert Base(c, t) == [t.asc2dna(ch)];
        if nchar >= trim5 {
          patFw := patFw + [t.asc2dna(ch)];
        }
        nchar := nchar + 1;
      } else {
        assert Base(c, t) == [];
      }
      assert nchar == n0 + |Base(c, t)|;
      assert patFw == if n0 >= trim5 then p0 + Base(c, t) else p0;
      if cur >= |buf| {
        return false, nchar, patFw, cur;
      }
      c := buf[cur];
      cur := cur + 1;
    }
    SeqLoopBases(buf, s, s, stop, trim5, t, 0, []);
    ok := true;
  }

  /**
   * What nextReadPair returns, `(success, done)`: `(false, true)` exactly
   * when a new batch was needed and the composer reported the end of the
   * input with no reads; otherwise success is the parse's outcome, and a
   * successful read reports `done` only as the last read of a final batch.
   * `lastBatch` is `last_batch_` before the call.
   */
  function ReadPairOutcome(exhausted: bool, b: Batch, parseOk: bool, isLast: bool, lastBatch: bool): (r: (bool, bool))
    ensures r == (false, true) <==> exhausted && b == Batch(true, 0)
    ensures r.0 <==> parseOk && !(exhausted && b == Batch(true, 0))
    ensures r.0 && r.1 ==> isLast && (if exhausted then b.done else lastBatch)
    ensures !r.0 && !r.1 <==> !parseOk && !(exhausted && b == Batch(true, 0))
  {
    if exhausted && b.done && b.n == 0 then (false, true)
    else if !parseOk then (false, false)
    else (true, isLast && (if exhausted then b.done else lastBatch))
  }

  /**
   * Once the solo composer's index has passed every source, a thread whose
   * buffer is used up gets `(false, true)` from nextReadPair, whatever the
   * rest of its state.
   */
  lemma EndOfSourcesEndsReads(cur: nat, srcs: seq<Composer.Results>, parseOk: bool, isLast: bool, lastBatch: bool)
    requires cur <= |srcs| && Composer.SoloNext(cur, srcs).1 == |srcs|
    ensures ReadPairOutcome(true, Composer.SoloNext(cur, srcs).0, parseOk, isLast, lastBatch) == (false, true)
  {
    Composer.SoloNextSpec(cur, srcs);
  }

  /**
   * The per-thread dispenser's own fields: `last_batch_`,
   * `last_batch_size_` and the global seed `pp_.seed`.
   */
  class PatternSourcePerThread {
    const globalSeed: bv32
    var lastBatch: bool
    var lastBatchSize: nat

    constructor (globalSeed: bv32)
      ensures this.globalSeed == globalSeed && !lastBatch && lastBatchSize == 0
    {
      this.globalSeed := globalSeed;
      lastBatch := false;
      lastBatchSize := 0;
    }

    /** `finalize`: an unpaired read is mate 1 with the buffer's read id and its own seed. */
    method Finalize(ra: Read, rdid: nat)
      requires |ra.qual| >= |ra.patFw|
      modifies ra
      ensures ra.name == old(ra.name) && ra.patFw == old(ra.patFw) && ra.qual == old(ra.qual)
      ensures ra.mate == 1 && ra.rdid == rdid && ra.seed == ra.SeedFor(globalSeed)
      ensures ra.trimmed5 == old(ra.trimmed5) && ra.trimmed3 == old(ra.trimmed3)
      ensures ra.readOrigBuf == old(ra.readOrigBuf) && ra.parsed == old(ra.parsed)
      ensures ra.rawBuf == old(ra.rawBuf) && ra.rawCur == old(ra.rawCur)
    {
      ra.mate := 1;
      ra.rdid := rdid;
      ra.seed := GenRandSeedLoops(ra.patFw, Octets(ra.qual), Octets(ra.name), globalSeed);
    }

    /**
     * `finalizePair`: the mates are 1 and 2, share the buffer's read id and
     * each get the seed of their own sequence, qualities and name.
     */
    method FinalizePair(ra: Read, rb: Read, rdid: nat)
      requires ra != rb
      requires |ra.qual| >= |ra.patFw| && |rb.qual| >= |rb.patFw|
      modifies ra, rb
      ensures ra.name == old(ra.name) && ra.patFw == old(ra.patFw) && ra.qual == old(ra.qual)
      ensures rb.name == old(rb.name) && rb.patFw == old(rb.patFw) && rb.qual == old(rb.qual)
      ensures ra.mate == 1 && rb.mate == 2 && ra.rdid == rb.rdid == rdid
      ensures ra.seed == ra.SeedFor(globalSeed) && rb.seed == rb.SeedFor(globalSeed)
      ensures ra.trimmed5 == old(ra.trimmed5) && ra.trimmed3 == old(ra.trimmed3)
      ensures rb.trimmed5 == old(rb.trimmed5) && rb.trimmed3 == old(rb.trimmed3)
      ensures ra.readOrigBuf == old(ra.readOrigBuf) && rb.readOrigBuf == old(rb.readOrigBuf)
      ensures ra.parsed == old(ra.parsed) && rb.parsed == old(rb.parsed)
      ensures ra.rawBuf == old(ra.rawBuf) && ra.rawCur == old(ra.rawCur)
      ensures rb.rawBuf == old(rb.rawBuf) && rb.rawCur == old(rb.rawCur)
    {
      var seedA := GenRandSeedLoops(ra.patFw, Octets(ra.qual), Octets(ra.name), globalSeed);
      var seedB := GenRandSeedLoops(rb.patFw, Octets(rb.qual), Octets(rb.name), globalSeed);
      ra.mate, ra.rdid, ra.seed := 1, rdid, seedA;
      rb.mate, rb.rdid, rb.seed := 2, rdid, seedB;
    }

    /**
     * `nextReadPair`. `exhausted` is `buf_.exhausted()` on entry, `b` what
     * the composer returns when asked for a new batch, `parseOk` what the
     * format's `parse` returns on the reads `ra`/`rb` it filled, `isLast`
     * is `buf_.is_last(last_batch_size_)` and `rdid` is `buf_.rdid()`.
     * A successful read is finalized as a pair when the second read has raw
     * text, and as an unpaired read otherwise.
     */
    method NextReadPair(exhausted: bool, b: Batch, parseOk: bool, isLast: bool, rdid: nat, ra: Read, rb: Read)
      returns (success: bool, done: bool)
      requires ra != rb
      requires |ra.qual| >= |ra.patFw| && |rb.qual| >= |rb.patFw|
      modifies this, ra, rb
      ensures ra.name == old(ra.name) && ra.patFw == old(ra.patFw) && ra.qual == old(ra.qual)
      ensures rb.name == old(rb.name) && rb.patFw == old(rb.patFw) && rb.qual == old(rb.qual)
      ensures (success, done) == ReadPairOutcome(exhausted, b, parseOk, isLast, old(lastBatch))
      ensures (lastBatch, lastBatchSize) ==
        if exhausted && b != Batch(true, 0) then (b.done, b.n) else old((lastBatch, lastBatchSize))
      ensures success ==> ra.mate == 1 && ra.rdid == rdid && ra.seed == ra.SeedFor(globalSeed)
      ensures success && rb.readOrigBuf != [] ==> rb.mate == 2 && rb.rdid == rdid && rb.seed == rb.SeedFor(globalSeed)
      ensures !success || rb.readOrigBuf == [] ==> rb.mate == old(rb.mate) && rb.rdid == old(rb.rdid) && rb.seed == old(rb.seed)
      ensures !success ==> ra.mate == old(ra.mate) && ra.rdid == old(ra.rdid) && ra.seed == old(ra.seed)
      ensures rb.readOrigBuf == old(rb.readOrigBuf)
    {
      if exhausted {
        if b.done && b.n == 0 {
          return false, true;
        }
        lastBatch := b.done;
        lastBatchSize := b.n;
      }
      if !parseOk {
        return false, false;
      }
      if rb.readOrigBuf != [] {
        FinalizePair(ra, rb, rdid);
      } else {
        Finalize(ra, rdid);
      }
      success, done := true, if isLast then lastBatch else false;
    }
  }
}
