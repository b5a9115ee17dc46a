/**
 * The file-source batch loop shared by BufferedFilePatternSource and
 * CFilePatternSource (pat.cpp:423-453 and pat.cpp:463-497, identical
 * bodies).
 *
 * The format-specific `nextBatchFromFile` is abstract: each input file is
 * the sequence of `(done, nread)` results its successive calls return, and
 * once that sequence is used up every further call returns `(true, 0)`.
 * That tail is a convention of this model: at end of input the FASTA
 * batcher as written returns `(true, 1)` and the FASTQ batcher `done`
 * with the previous batch's length. `open()` always succeeds here (the
 * skipping of unopenable files is OS I/O) and `resetForNextFile()` only
 * resets parser state, so opening file `k` makes `files[k]` the current
 * script. As after the constructor, `fileCur` is the index of the next file
 * to open.
 */
module FileSource {

  /** One `(done, nread)` result. */
  datatype Batch = Batch(done: bool, n: nat)

  /** The fields of one file source that the batch loop reads and writes. */
  datatype Src = Src(files: seq<seq<Batch>>, fileCur: nat, current: seq<Batch>, readCnt: nat)

  predicate SrcValid(s: Src) {
    s.fileCur <= |s.files|
  }

  /** One call of `nextBatchFromFile` on the open file. */
  function FromFile(current: seq<Batch>): (r: (Batch, seq<Batch>))
    ensures current == [] ==> r == (Batch(true, 0), [])
    ensures current != [] ==> r == (current[0], current[1..])
  {
    if current == [] then (Batch(true, 0), []) else (current[0], current[1..])
  }

  /** A result the inner do-while skips: not done and no reads. */
  predicate Skip(b: Batch) {
    !b.done && b.n == 0
  }

  /**
   * The inner do-while: call `nextBatchFromFile` until it reports the end
   * of the file or some reads.
   */
  function Drain(current: seq<Batch>): (r: (Batch, seq<Batch>))
    ensures !Skip(r.0) && |r.1| <= |current|
  {
    var (b, rest) := FromFile(current);
    if Skip(b) then Drain(rest) else (b, rest)
  }

  /**
   * What the do-while consumes: a suffix of the results is left, and either
   * the file runs out while every result is skipped, or the last result
   * consumed is returned and every one before it was skipped.
   */
  lemma {:induction false} DrainSpec(current: seq<Batch>)
    ensures var r := Drain(current);
      && r.1 == current[|current| - |r.1|..]
      && (|| (r == (Batch(true, 0), []) && forall i :: 0 <= i < |current| ==> Skip(current[i]))
          || (|r.1| < |current| && r.0 == current[|current| - |r.1| - 1]
              && forall i :: 0 <= i < |current| - |r.1| - 1 ==> Skip(current[i])))
  {
    if current != [] && Skip(current[0]) {
      var rest := current[1..];
      DrainSpec(rest);
      var r := Drain(rest);
      assert rest[|rest| - |r.1|..] == current[|current| - |r.1|..];
      assert |r.1| < |rest| ==> rest[|rest| - |r.1| - 1] == current[|current| - |r.1| - 1];
      assert forall i :: 1 <= i < |current| ==> current[i] == rest[i - 1];
    }
  }

  /**
   * The outer loop as written: after a file ends with files left, open the
   * next one; retry only if the ended file gave no reads. The base read id
   * and the counter update are left to NextBatchAsWritten.
   */
  function RotateAsWritten(s: Src): (r: (Batch, Src))
    requires SrcValid(s)
    ensures SrcValid(r.1) && r.1.files == s.files && r.1.readCnt == s.readCnt
    ensures s.fileCur <= r.1.fileCur
    ensures !Skip(r.0)
    decreases |s.files| - s.fileCur
  {
    var (b, rest) := Drain(s.current);
    if b.done && s.fileCur < |s.files| then
      var s' := s.(current := s.files[s.fileCur], fileCur := s.fileCur + 1);
      if b.n == 0 then RotateAsWritten(s') else (b, s')
    else
      (b, s.(current := rest))
  }

  /** The loop's `continue`: a file that ends without reads moves on to the next file. */
  lemma RetryAsWritten(s: Src)
    requires SrcValid(s) && s.fileCur < |s.files| && Drain(s.current).0 == Batch(true, 0)
    ensures RotateAsWritten(s) == RotateAsWritten(s.(current := s.files[s.fileCur], fileCur := s.fileCur + 1))
  {
  }

  /**
   * `nextBatch` as written: the batch's base read id is `readCnt_` on
   * entry, and `readCnt_` grows by exactly the reads returned.
   */
  function NextBatchAsWritten(s: Src): (r: (Batch, nat, Src))
    requires SrcValid(s)
    ensures r.1 == s.readCnt && r.2.readCnt == s.readCnt + r.0.n
    ensures SrcValid(r.2) && r.2.files == s.files && s.fileCur <= r.2.fileCur
    ensures !Skip(r.0)
  {
    var (b, s') := RotateAsWritten(s);
    (b, s.readCnt, s'.(readCnt := s'.readCnt + b.n))
  }

  /**
   * The outer loop as intended: a file that ends with reads while files are
   * left passes those reads on with `done` false, so that `done` reports
   * the end of the whole file list.
   */
  function Rotate(s: Src): (r: (Batch, Src))
    requires SrcValid(s)
    ensures SrcValid(r.1) && r.1.files == s.files && r.1.readCnt == s.readCnt
    ensures s.fileCur <= r.1.fileCur
    ensures !Skip(r.0)
    ensures r.0.done ==> r.1.fileCur == |s.files|
    decreases |s.files| - s.fileCur
  {
    var (b, rest) := Drain(s.current);
    if b.done && s.fileCur < |s.files| then
      var s' := s.(current := s.files[s.fileCur], fileCur := s.fileCur + 1);
      if b.n == 0 then Rotate(s') else (Batch(false, b.n), s')
    else
      (b, s.(current := rest))
  }

  /** `nextBatch` with the intended `done`. */
  function NextBatch(s: Src): (r: (Batch, nat, Src))
    requires SrcValid(s)
    ensures r.1 == s.readCnt && r.2.readCnt == s.readCnt + r.0.n
    ensures SrcValid(r.2) && r.2.files == s.files && s.fileCur <= r.2.fileCur
    ensures !Skip(r.0)
    ensures r.0.done ==> r.2.fileCur == |s.files|
  {
    var (b, s') := Rotate(s);
    (b, s.readCnt, s'.(readCnt := s'.readCnt + b.n))
  }

  /** Both versions return the same reads and reach the same state; only `done` differs. */
  lemma {:induction false} RotateAgrees(s: Src)
    requires SrcValid(s)
    ensures RotateAsWritten(s).0.n == Rotate(s).0.n
    ensures RotateAsWritten(s).1 == Rotate(s).1
    ensures Rotate(s).0.done ==> RotateAsWritten(s).0.done
    decreases |s.files| - s.fileCur
  {
    var (b, rest) := Drain(s.current);
    if b.done && s.fileCur < |s.files| && b.n == 0 {
      RotateAgrees(s.(current := s.files[s.fileCur], fileCur := s.fileCur + 1));
    }
  }

  /**
   * The discrepancy: with a second file left, a first file whose last call
   * returns one read at end of file makes the as-written `nextBatch` report
   * `done`, although the second file's reads are not handed out yet.
   */
  lemma DoneWithFilesLeft()
    ensures var s := Src([[Batch(true, 1)], [Batch(true, 1)]], 1, [Batch(true, 1)], 0);
      SrcValid(s)
      && NextBatchAsWritten(s).0 == Batch(true, 1)
      && NextBatchAsWritten(s).2.fileCur == 2
      && NextBatchAsWritten(s).2.current == [Batch(true, 1)]
      && NextBatch(s).0 == Batch(false, 1)
  {
    var s := Src([[Batch(true, 1)], [Batch(true, 1)]], 1, [Batch(true, 1)], 0);
    assert Drain(s.current) == (Batch(true, 1), []);
  }

  /** The base ids and sizes of `k` successive batches from one source. */
  function Batches(s: Src, k: nat): (r: seq<(nat, nat)>)
    requires SrcValid(s)
    ensures |r| == k
    decreases k
  {
    if k == 0 then []
    else
      var (b, base, s') := NextBatch(s);
      [(base, b.n)] + Batches(s', k - 1)
  }

  /** The read counter after `k` successive batches. */
  function CountAfter(s: Src, k: nat): nat
    requires SrcValid(s)
    decreases k
  {
    if k == 0 then s.readCnt else CountAfter(NextBatch(s).2, k - 1)
  }

  /**
   * Read ids are handed out without gaps or overlaps: each batch starts
   * where the previous one ended, the first at the counter's value, and the
   * counter ends past the last batch.
   */
  lemma {:induction false} BatchesGapless(s: Src, k: nat)
    requires SrcValid(s)
    ensures k > 0 ==> Batches(s, k)[0].0 == s.readCnt
    ensures forall j :: 0 <= j < k - 1 ==> Batches(s, k)[j + 1].0 == Batches(s, k)[j].0 + Batches(s, k)[j].1
    ensures k > 0 ==> CountAfter(s, k) == Batches(s, k)[k - 1].0 + Batches(s, k)[k - 1].1
    ensures k == 0 ==> CountAfter(s, k) == s.readCnt
    decreases k
  {
    if k > 0 {
      var (b, base, s') := NextBatch(s);
      BatchesGapless(s', k - 1);
      var r, t := Batches(s, k), Batches(s', k - 1);
      assert r == [(base, b.n)] + t;
      forall j | 0 <= j < k - 1
        ensures r[j + 1].0 == r[j].0 + r[j].1
      {
        if j > 0 {
          assert r[j] == t[j - 1] && r[j + 1] == t[j];
        }
      }
    }
  }

  /** The base ids and sizes of `k` successive as-written batches. */
  function BatchesAsWritten(s: Src, k: nat): (r: seq<(nat, nat)>)
    requires SrcValid(s)
    ensures |r| == k
    decreases k
  {
    if k == 0 then []
    else
      var (b, base, s') := NextBatchAsWritten(s);
      [(base, b.n)] + BatchesAsWritten(s', k - 1)
  }

  /**
   * The ids the as-written `nextBatch` hands out are those of the corrected
   * one, so they too are gapless: each batch starts where the previous one
   * ended, the first at the counter's value.
   */
  lemma {:induction false} BatchesAsWrittenGapless(s: Src, k: nat)
    requires SrcValid(s)
    ensures BatchesAsWritten(s, k) == Batches(s, k)
    ensures k > 0 ==> BatchesAsWritten(s, k)[0].0 == s.readCnt
    ensures forall j :: 0 <= j < k - 1 ==>
      BatchesAsWritten(s, k)[j + 1].0 == BatchesAsWritten(s, k)[j].0 + BatchesAsWritten(s, k)[j].1
    decreases k
  {
    if k > 0 {
      RotateAgrees(s);
      BatchesAsWrittenGapless(NextBatch(s).2, k - 1);
    }
    BatchesGapless(s, k);
  }

  /**
   * The source of pat.cpp:423-497 with its fields updated in place. The
   * per-thread buffer's `setReadId(readCnt_)` is the `base` out-parameter.
   */
  class FilePatternSource {
    const files: seq<seq<Batch>>
    var fileCur: nat
    var current: seq<Batch>
    var readCnt: nat

    function State(): Src
      reads this
    {
      Src(files, fileCur, current, readCnt)
    }

    predicate Valid()
      reads this
    {
      fileCur <= |files|
    }

    /** The constructor's `open()` and `filecur_++`: the first file is open. */
    constructor (files: seq<seq<Batch>>)
      requires files != []
      ensures Valid() && State() == Src(files, 1, files[0], 0)
    {
      this.files := files;
      fileCur := 1;
      current := files[0];
      readCnt := 0;
    }

    /** `nextBatchFromFile`: the next result of the open file. */
    method NextBatchFromFile() returns (done: bool, nread: nat)
      modifies this
      ensures (Batch(done, nread), current) == FromFile(old(current))
      ensures fileCur == old(fileCur) && readCnt == old(readCnt)
    {
      if current == [] {
        done, nread := true, 0;
      } else {
        done, nread := current[0].done, current[0].n;
        current := current[1..];
      }
    }

    /** `open()` and `resetForNextFile()` on the next file, then `filecur_++`. */
    method OpenNext()
      requires Valid() && fileCur < |files|
      modifies this
      ensures Valid() && State() == old(State().(current := files[fileCur], fileCur := fileCur + 1))
    {
      current := files[fileCur];
      fileCur := fileCur + 1;
    }

    /** The do-while of `nextBatch`: skip results that are neither done nor reads. */
    method DrainFile() returns (done: bool, nread: nat)
      modifies this
      ensures (Batch(done, nread), current) == Drain(old(current))
      ensures fileCur == old(fileCur) && readCnt == old(readCnt)
    {
      done, nread := NextBatchFromFile();
      while !done && nread == 0
        invariant Drain(old(current)) == if !done && nread == 0 then Drain(current) else (Batch(done, nread), current)
        invariant fileCur == old(fileCur) && readCnt == old(readCnt)
        decreases |current| + if !done && nread == 0 then 1 else 0
      {
        done, nread := NextBatchFromFile();
      }
    }

    /** `nextBatch`, loop for loop. */
    method NextBatch() returns (done: bool, nread: nat, base: nat)
      requires Valid()
      modifies this
      ensures Valid()
      ensures (Batch(done, nread), base, State()) == NextBatchAsWritten(old(State()))
    {
      base := readCnt;
      ghost var s0 := State();
      done, nread := false, 0;
      while true
        invariant Valid() && files == s0.files && readCnt == s0.readCnt
        invariant RotateAsWritten(State()) == RotateAsWritten(s0)
        decreases |files| - fileCur
      {
        ghost var si := State();
        done, nread := DrainFile();
        if done && fileCur < |files| {
          OpenNext();
          if nread == 0 {
            RetryAsWritten(si);
            continue;
          }
        }
        break;
      }
      readCnt := readCnt + nread;
    }
  }
}
