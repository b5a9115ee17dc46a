/**
 * The ordered output queue (outq.cpp, class OutputQueue).
 *
 * Worker threads announce a read with beginRead, hand over its finished
 * output with finishRead, and flush writes what can be written. In reorder
 * mode the queue keeps three parallel lists indexed by `rdid - cur` and
 * writes only the contiguous run of finished reads at the head, so output
 * order is read-id order. In the other mode every thread owns a buffer of
 * fixed capacity that is written out whole when it is full.
 *
 * This module is the value-level specification: a `Queue` is the whole
 * state of an OutputQueue and the functions below are its operations. The
 * class OutputQueue (module OutQueue) carries the same state in fields and
 * arrays and is proved against these functions.
 */
module OutQueueSpec {
  import opened Common

  // ---------------------------------------------------------------------
  // Sinks (the `ofhs_` outputs) and writeString
  // ---------------------------------------------------------------------

  /**
   * One output. `written` is what reached it, one entry per writeString;
   * `room` is how many more bytes the device accepts: a longer write is a
   * short write.
   */
  datatype Sink = Sink(written: seq<Bytes>, room: nat)

  datatype Written = Written(sink: Sink, ok: bool)

  /**
   * writeString (outq.cpp:155-164): fwrite the bytes of `s`. When fewer
   * bytes than `|s|` were written the call fails; what fwrite did write
   * stays in the sink.
   */
  function WriteOne(k: Sink, s: Bytes): (w: Written)
    ensures w.ok <==> |s| <= k.room
    ensures |w.sink.written| == |k.written| + 1 && w.sink.written[..|k.written|] == k.written
    ensures w.ok ==> w.sink.written[|k.written|] == s && w.sink.room + |s| == k.room
    ensures !w.ok ==> |w.sink.written[|k.written|]| < |s| && w.sink.room == 0
  {
    if |s| <= k.room then Written(Sink(k.written + [s], k.room - |s|), true)
    else Written(Sink(k.written + [s[..k.room]], 0), false)
  }

  /** Total number of bytes in a list of strings. */
  function TotalLength(ss: seq<Bytes>): nat {
    if ss == [] then 0 else |ss[0]| + TotalLength(ss[1..])
  }

  /** A loop of writeString calls that stops at the first failure (the `throw 1`). */
  function WriteAll(k: Sink, ss: seq<Bytes>): Written
    decreases |ss|
  {
    if ss == [] then Written(k, true)
    else
      var w := WriteOne(k, ss[0]);
      if !w.ok then w else WriteAll(w.sink, ss[1..])
  }

  /**
   * Writing a list succeeds exactly when all of its bytes fit, and then
   * the sink holds the list in order after what it held before.
   */
  lemma {:induction false} WriteAllSpec(k: Sink, ss: seq<Bytes>)
    ensures WriteAll(k, ss).ok <==> TotalLength(ss) <= k.room
    ensures WriteAll(k, ss).ok ==>
      WriteAll(k, ss).sink == Sink(k.written + ss, k.room - TotalLength(ss))
    ensures |WriteAll(k, ss).sink.written| >= |k.written|
    ensures WriteAll(k, ss).sink.written[..|k.written|] == k.written
    decreases |ss|
  {
    if ss != [] {
      var w := WriteOne(k, ss[0]);
      if w.ok {
        WriteAllSpec(w.sink, ss[1..]);
        assert [ss[0]] + ss[1..] == ss;
        assert k.written + [ss[0]] + ss[1..] == k.written + ss;
      }
    }
  }

  /** Writing `a + b` is writing `a` and then, if that succeeded, `b`. */
  lemma {:induction false} WriteAllAppend(k: Sink, a: seq<Bytes>, b: seq<Bytes>)
    ensures WriteAll(k, a + b) ==
      (if WriteAll(k, a).ok then WriteAll(WriteAll(k, a).sink, b) else WriteAll(k, a))
    decreases |a|
  {
    if a == [] {
      assert a + b == b;
    } else {
      assert (a + b)[0] == a[0] && (a + b)[1..] == a[1..] + b;
      var w := WriteOne(k, a[0]);
      if w.ok {
        WriteAllAppend(w.sink, a[1..], b);
      }
    }
  }

  // ---------------------------------------------------------------------
  // Reorder mode: the three parallel lists
  // ---------------------------------------------------------------------

  /** `lines_`, `started_`, `finished_` and the low-water mark `cur_`. */
  datatype Ring = Ring(lines: seq<Bytes>, started: seq<bool>, finished: seq<bool>, cur: nat)

  /**
   * The lists keep equal length and a finished slot was started. The
   * payload of a slot is only read once the slot is finished; before that
   * the model holds the empty string there.
   */
  ghost predicate RingValid(r: Ring) {
    && |r.lines| == |r.started| == |r.finished|
    && (forall i :: 0 <= i < |r.finished| && r.finished[i] ==> r.started[i])
    && (forall i :: 0 <= i < |r.finished| && !r.finished[i] ==> r.lines[i] == [])
  }

  /**
   * The length of the longest all-finished prefix: the count computed by
   * the first loop of flushImpl (outq.cpp:118-122).
   */
  function Run(f: seq<bool>): (n: nat)
    ensures n <= |f|
    ensures forall i :: 0 <= i < n ==> f[i]
    ensures n == |f| || !f[n]
  {
    if f == [] || !f[0] then 0 else 1 + Run(f[1..])
  }

  /** `Run` is the only count with its two properties. */
  lemma {:induction false} RunUnique(f: seq<bool>, n: nat)
    requires n <= |f| && (forall i :: 0 <= i < n ==> f[i]) && (n == |f| || !f[n])
    ensures n == Run(f)
  {
    if f != [] && f[0] {
      RunUnique(f[1..], n - 1);
    }
  }

  /** `resize` of the three lists to `n` slots; new slots are not started and not finished. */
  function Grow(r: Ring, n: nat): (g: Ring)
    requires RingValid(r) && |r.lines| <= n
    ensures RingValid(g) && |g.lines| == n && g.cur == r.cur
    ensures g.lines[..|r.lines|] == r.lines
    ensures g.started[..|r.lines|] == r.started && g.finished[..|r.lines|] == r.finished
    ensures forall i :: |r.lines| <= i < n ==> !g.started[i] && !g.finished[i]
  {
    var k := n - |r.lines|;
    Ring(r.lines + seq(k, _ => []), r.started + seq(k, _ => false),
         r.finished + seq(k, _ => false), r.cur)
  }

  /** The reorder-mode part of beginReadImpl (outq.cpp:31-47). */
  function BeginRing(r: Ring, rdid: nat): (b: Ring)
    requires RingValid(r) && rdid >= r.cur
    ensures RingValid(b) && b.cur == r.cur
  {
    var g := if rdid - r.cur >= |r.lines| then Grow(r, rdid - r.cur + 1) else r;
    var i := rdid - r.cur;
    g.(lines := g.lines[i := []], started := g.started[i := true], finished := g.finished[i := false])
  }

  /**
   * After beginRead the slot of `rdid` exists, is started and not
   * finished; the lists grow only as far as that slot, every other slot
   * keeps its flags and payload, and the lists keep equal length.
   */
  lemma BeginRingSpec(r: Ring, rdid: nat)
    requires RingValid(r) && rdid >= r.cur
    ensures var b := BeginRing(r, rdid);
      && RingValid(b) && b.cur == r.cur
      && rdid - r.cur < |b.lines|
      && |b.lines| == (if rdid - r.cur < |r.lines| then |r.lines| else rdid - r.cur + 1)
      && b.started[rdid - r.cur] && !b.finished[rdid - r.cur]
      && (forall i :: 0 <= i < |b.lines| && i != rdid - r.cur ==>
            b.started[i] == (i < |r.lines| && r.started[i]) &&
            b.finished[i] == (i < |r.lines| && r.finished[i]) &&
            (i < |r.lines| ==> b.lines[i] == r.lines[i]))
  {
    var b := BeginRing(r, rdid);
    if rdid - r.cur >= |r.lines| {
      var g := Grow(r, rdid - r.cur + 1);
      forall i | 0 <= i < |r.lines|
        ensures g.started[i] == r.started[i] && g.finished[i] == r.finished[i] && g.lines[i] == r.lines[i]
      {
        assert g.started[..|r.lines|][i] == g.started[i];
        assert g.finished[..|r.lines|][i] == g.finished[i];
        assert g.lines[..|r.lines|][i] == g.lines[i];
      }
    }
  }

  /** Store the payload and mark the slot finished (outq.cpp:71-73). */
  function FinishRing(r: Ring, rec: Bytes, rdid: nat): (f: Ring)
    requires RingValid(r) && r.cur <= rdid < r.cur + |r.lines| && r.started[rdid - r.cur]
    ensures RingValid(f) && f.cur == r.cur
  {
    var i := rdid - r.cur;
    r.(lines := r.lines[i := rec], finished := r.finished[i := true])
  }

  /** `erase(0, n)` of the three lists and `cur_ += n` (outq.cpp:131-134). */
  function Drop(r: Ring, n: nat): (d: Ring)
    requires RingValid(r) && n <= |r.lines|
    ensures RingValid(d)
  {
    Ring(r.lines[n..], r.started[n..], r.finished[n..], r.cur + n)
  }

  // ---------------------------------------------------------------------
  // The whole queue
  // ---------------------------------------------------------------------

  /**
   * Construction-time settings: the mode, the thread count, the
   * per-thread buffer capacity, the number of outputs and NFLUSH_THRESH
   * (defined in outq.h, which is not part of this model).
   */
  datatype Config = Config(reorder: bool, nthreads: nat, bufSize: nat, nOutputs: nat, thresh: nat)

  /** perThreadStarted_, perThreadFinished_, perThreadFlushed_. */
  datatype Counters = Counters(started: seq<nat>, finished: seq<nat>, flushed: seq<nat>)

  /**
   * The state of an OutputQueue: the reorder lists, each thread's pending
   * records (`perThreadBuf_[t][..perThreadCounter_[t]]`), the counters and
   * the outputs.
   */
  datatype Queue = Queue(ring: Ring, pending: seq<seq<Bytes>>, counts: Counters, outs: seq<Sink>)

  /** The result of an operation that writes: `ok` is false where the source throws. */
  datatype Step = Step(q: Queue, ok: bool)

  ghost predicate ConfigValid(c: Config) {
    c.nthreads > 0 && c.bufSize > 0 && c.nOutputs > 0
  }

  ghost predicate Inv(c: Config, q: Queue) {
    && ConfigValid(c)
    && RingValid(q.ring)
    && |q.pending| == c.nthreads
    && (forall t :: 0 <= t < c.nthreads ==> |q.pending[t]| <= c.bufSize)
    && |q.counts.started| == |q.counts.finished| == |q.counts.flushed| == c.nthreads
    && |q.outs| == c.nOutputs
  }

  /** A new queue whose outputs accept `rooms[i]` bytes. */
  function Empty(c: Config, rooms: seq<nat>): (q: Queue)
    requires ConfigValid(c) && |rooms| == c.nOutputs
    ensures Inv(c, q)
  {
    Queue(Ring([], [], [], 0), seq(c.nthreads, _ => []),
          Counters(seq(c.nthreads, _ => 0), seq(c.nthreads, _ => 0), seq(c.nthreads, _ => 0)),
          seq(c.nOutputs, i requires 0 <= i < c.nOutputs => Sink([], rooms[i])))
  }

  function Bump(s: seq<nat>, t: nat, n: nat): (r: seq<nat>)
    requires t < |s|
    ensures |r| == |s|
  {
    s[t := s[t] + n]
  }

  /** beginReadImpl (outq.cpp:27-48). */
  function BeginRead(c: Config, q: Queue, rdid: nat, tid: nat): (r: Queue)
    requires Inv(c, q) && tid < c.nthreads
    requires c.reorder ==> rdid >= q.ring.cur
    ensures Inv(c, r)
  {
    var q1 := q.(counts := q.counts.(started := Bump(q.counts.started, tid, 1)));
    if c.reorder then q1.(ring := BeginRing(q.ring, rdid)) else q1
  }

  /** What finishReadImpl demands of its caller (outq.cpp:63-70). */
  ghost predicate CanFinish(c: Config, q: Queue, rdid: nat, tid: nat) {
    && Inv(c, q) && tid < c.nthreads
    && (c.reorder ==>
          && q.ring.cur <= rdid < q.ring.cur + |q.ring.lines|
          && q.ring.started[rdid - q.ring.cur]
          && !q.ring.finished[rdid - q.ring.cur])
  }

  /** finishReadImpl (outq.cpp:62-92). */
  function FinishRead(c: Config, q: Queue, rec: Bytes, rdid: nat, tid: nat): (r: Step)
    requires CanFinish(c, q, rdid, tid)
    ensures Inv(c, r.q)
  {
    var q1 := q.(counts := q.counts.(finished := Bump(q.counts.finished, tid, 1)));
    if c.reorder then
      Flush(c, q1.(ring := FinishRing(q.ring, rec, rdid)), false)
    else if |q.pending[tid]| >= c.bufSize then
      var s := DrainTo(c, q1, tid, tid % c.nOutputs);
      if !s.ok then s else Step(Push(c, s.q, tid, rec), true)
    else
      Step(Push(c, q1, tid, rec), true)
  }

  /** flushImpl (outq.cpp:107-138). */
  function Flush(c: Config, q: Queue, force: bool): (r: Step)
    requires Inv(c, q)
    ensures Inv(c, r.q)
  {
    if !c.reorder then DrainUpTo(c, q, c.nthreads)
    else
      var n := Run(q.ring.finished);
      if force || n >= c.thresh then
        var w := WriteAll(q.outs[0], q.ring.lines[..n]);
        var q1 := q.(outs := q.outs[0 := w.sink]);
        if !w.ok then Step(q1, false)
        else Step(q1.(ring := Drop(q.ring, n),
                      counts := q.counts.(flushed := Bump(q.counts.flushed, 0, n))), true)
      else Step(q, true)
  }

  /**
   * Write thread `t`'s whole buffer to output `o` and empty it, counting
   * the records as flushed; on a failed write only the output changes.
   * This is the loop of finishReadImpl (outq.cpp:80-88), where the buffer
   * is full, and one pass of the loop of flushImpl (outq.cpp:110-114).
   */
  function DrainTo(c: Config, q: Queue, t: nat, o: nat): (r: Step)
    requires Inv(c, q) && t < c.nthreads && o < c.nOutputs
    ensures Inv(c, r.q)
  {
    var w := WriteAll(q.outs[o], q.pending[t]);
    var q1 := q.(outs := q.outs[o := w.sink]);
    if !w.ok then Step(q1, false)
    else Step(q1.(pending := q.pending[t := []],
                  counts := q.counts.(flushed := Bump(q.counts.flushed, t, |q.pending[t]|))), true)
  }

  /** A record joins thread `t`'s buffer, which has room (outq.cpp:90). */
  function Push(c: Config, q: Queue, t: nat, rec: Bytes): (r: Queue)
    requires Inv(c, q) && t < c.nthreads && |q.pending[t]| < c.bufSize
    ensures Inv(c, r)
  {
    q.(pending := q.pending[t := q.pending[t] + [rec]])
  }

  /**
   * The non-reorder flush loop over threads `0 .. t-1`: each buffer in
   * turn goes to output 0, and the loop stops at the first failed write.
   */
  function DrainUpTo(c: Config, q: Queue, t: nat): (r: Step)
    requires Inv(c, q) && t <= c.nthreads
    ensures Inv(c, r.q)
  {
    if t == 0 then Step(q, true)
    else
      var s := DrainUpTo(c, q, t - 1);
      if !s.ok then s else DrainTo(c, s.q, t - 1, 0)
  }

  // ---------------------------------------------------------------------
  // Observable counters (numStarted, numFinished, numFlushed)
  // ---------------------------------------------------------------------

  function Sum(s: seq<nat>): nat {
    if s == [] then 0 else s[0] + Sum(s[1..])
  }

  function NumStarted(q: Queue): nat { Sum(q.counts.started) }
  function NumFinished(q: Queue): nat { Sum(q.counts.finished) }
  function NumFlushed(q: Queue): nat { Sum(q.counts.flushed) }

  lemma {:induction false} SumBump(s: seq<nat>, t: nat, n: nat)
    requires t < |s|
    ensures Sum(Bump(s, t, n)) == Sum(s) + n
  {
    if t > 0 {
      SumBump(s[1..], t - 1, n);
      assert Bump(s, t, n)[1..] == Bump(s[1..], t - 1, n);
    }
  }

  // ---------------------------------------------------------------------
  // Reorder mode: what a flush writes, and idempotence
  // ---------------------------------------------------------------------

  /**
   * A reorder-mode flush writes exactly the maximal run of finished
   * slots at the head, in slot order, to output 0, erases that run from
   * the three lists and advances `cur` by its length; the later slots
   * move to the front unchanged. A non-forced flush whose run is shorter
   * than the threshold writes nothing and changes nothing. A write
   * failure leaves the lists and `cur` as they were.
   */
  lemma FlushReorderSpec(c: Config, q: Queue, force: bool)
    requires Inv(c, q) && c.reorder
    ensures var n := Run(q.ring.finished);
      var s := Flush(c, q, force);
      && (forall i :: 0 <= i < n ==> q.ring.finished[i])
      && (n == |q.ring.lines| || !q.ring.finished[n])
      && (!force && n < c.thresh ==> s == Step(q, true))
      && (force || n >= c.thresh ==>
            && (s.ok <==> TotalLength(q.ring.lines[..n]) <= q.outs[0].room)
            && (s.ok ==>
                  && s.q.outs == q.outs[0 := Sink(q.outs[0].written + q.ring.lines[..n],
                                                  q.outs[0].room - TotalLength(q.ring.lines[..n]))]
                  && s.q.ring.cur == q.ring.cur + n
                  && s.q.ring.lines == q.ring.lines[n..]
                  && s.q.ring.started == q.ring.started[n..]
                  && s.q.ring.finished == q.ring.finished[n..]
                  && NumFlushed(s.q) == NumFlushed(q) + n)
            && (!s.ok ==> s.q.ring == q.ring && s.q.counts == q.counts))
  {
    var n := Run(q.ring.finished);
    var w := WriteAll(q.outs[0], q.ring.lines[..n]);
    var q1 := q.(outs := q.outs[0 := w.sink]);
    assert Flush(c, q, force) ==
      if !(force || n >= c.thresh) then Step(q, true)
      else if !w.ok then Step(q1, false)
      else Step(q1.(ring := Drop(q.ring, n), counts := q.counts.(flushed := Bump(q.counts.flushed, 0, n))), true);
    WriteAllSpec(q.outs[0], q.ring.lines[..n]);
    SumBump(q.counts.flushed, 0, n);
  }

  /**
   * Idempotence: after a successful flush the head slot is unfinished
   * (or the lists are empty), so flushing again at once, with the same
   * force flag, writes nothing and changes nothing.
   */
  lemma FlushIdempotent(c: Config, q: Queue, force: bool)
    requires Inv(c, q) && c.reorder
    requires Flush(c, q, force).ok
    ensures var q1 := Flush(c, q, force).q;
      Flush(c, q1, force) == Step(q1, true)
  {
    var n := Run(q.ring.finished);
    var q1 := Flush(c, q, force).q;
    if force || n >= c.thresh {
      assert q1.ring.finished == q.ring.finished[n..];
      assert Run(q1.ring.finished) == 0 by {
        if q1.ring.finished != [] { assert q1.ring.finished[0] == q.ring.finished[n]; }
      }
      assert q1.ring.lines[..0] == [];
      assert Drop(q1.ring, 0) == q1.ring;
      assert Bump(q1.counts.flushed, 0, 0) == q1.counts.flushed;
      assert q1.outs[0 := q1.outs[0]] == q1.outs;
    }
  }

  // ---------------------------------------------------------------------
  // Reorder mode: output order is read-id order
  // ---------------------------------------------------------------------

  /** The payloads of ids `lo .. hi-1`, in id order. */
  function InOrder(P: map<nat, Bytes>, lo: nat, hi: nat): (s: seq<Bytes>)
    requires lo <= hi && forall id :: lo <= id < hi ==> id in P
    ensures |s| == hi - lo
    ensures forall k :: 0 <= k < |s| ==> s[k] == P[lo + k]
    decreases hi - lo
  {
    if lo == hi then [] else [P[lo]] + InOrder(P, lo + 1, hi)
  }

  /**
   * `P` maps read ids to the payloads their finishRead handed over.
   * Output 0 holds, in id order and each once, the payloads of exactly
   * the ids below `cur`; every finished slot holds the payload of its id;
   * and numFlushed counts the ids below `cur`.
   */
  ghost predicate Ordered(q: Queue, P: map<nat, Bytes>) {
    && RingValid(q.ring) && |q.outs| > 0
    && (forall id :: 0 <= id < q.ring.cur ==> id in P)
    && q.outs[0].written == InOrder(P, 0, q.ring.cur)
    && (forall i :: 0 <= i < |q.ring.lines| && q.ring.finished[i] ==>
          q.ring.cur + i in P && q.ring.lines[i] == P[q.ring.cur + i])
    && NumFlushed(q) == q.ring.cur
  }

  lemma {:induction false} SumZeros(n: nat)
    ensures Sum(seq(n, _ => 0)) == 0
  {
    if n > 0 {
      assert seq(n, _ => 0)[1..] == seq(n - 1, _ => 0);
      SumZeros(n - 1);
    }
  }

  lemma OrderedEmpty(c: Config, rooms: seq<nat>)
    requires ConfigValid(c) && |rooms| == c.nOutputs
    ensures Ordered(Empty(c, rooms), map[])
  {
    SumZeros(c.nthreads);
  }

  lemma OrderedBegin(c: Config, q: Queue, P: map<nat, Bytes>, rdid: nat, tid: nat)
    requires Inv(c, q) && c.reorder && tid < c.nthreads && rdid >= q.ring.cur
    requires Ordered(q, P)
    ensures Ordered(BeginRead(c, q, rdid, tid), P)
  {
    BeginRingSpec(q.ring, rdid);
    var b := BeginRead(c, q, rdid, tid).ring;
    forall i | 0 <= i < |b.lines| && b.finished[i]
      ensures b.cur + i in P && b.lines[i] == P[b.cur + i]
    {
      assert i < |q.ring.lines| && q.ring.finished[i];
    }
  }

  /** Moving a finished head run of length `n` from the lists to output 0 keeps the order. */
  lemma OrderedShift(q: Queue, P: map<nat, Bytes>, n: nat, q1: Queue)
    requires Ordered(q, P) && n <= |q.ring.lines|
    requires forall i :: 0 <= i < n ==> q.ring.finished[i]
    requires q1.ring == Drop(q.ring, n) && |q1.outs| > 0
    requires q1.outs[0].written == q.outs[0].written + q.ring.lines[..n]
    requires NumFlushed(q1) == NumFlushed(q) + n
    ensures Ordered(q1, P)
  {
    var cur := q.ring.cur;
    assert forall id :: 0 <= id < cur + n ==> id in P by {
      forall id | cur <= id < cur + n ensures id in P {
        assert q.ring.finished[id - cur];
      }
    }
    forall k | 0 <= k < cur + n ensures q1.outs[0].written[k] == InOrder(P, 0, cur + n)[k] {
      if k >= cur {
        assert q1.outs[0].written[k] == q.ring.lines[k - cur];
        assert q.ring.finished[k - cur];
      }
    }
    assert q1.outs[0].written == InOrder(P, 0, cur + n);
    forall i | 0 <= i < |q1.ring.lines| && q1.ring.finished[i]
      ensures q1.ring.cur + i in P && q1.ring.lines[i] == P[q1.ring.cur + i]
    {
      assert q.ring.finished[n + i] && q1.ring.lines[i] == q.ring.lines[n + i];
    }
  }

  lemma OrderedFlush(c: Config, q: Queue, P: map<nat, Bytes>, force: bool)
    requires Inv(c, q) && c.reorder && Ordered(q, P)
    requires Flush(c, q, force).ok
    ensures Ordered(Flush(c, q, force).q, P)
  {
    var n := Run(q.ring.finished);
    if force || n >= c.thresh {
      var w := WriteAll(q.outs[0], q.ring.lines[..n]);
      WriteAllSpec(q.outs[0], q.ring.lines[..n]);
      SumBump(q.counts.flushed, 0, n);
      var q1 := q.(outs := q.outs[0 := w.sink], ring := Drop(q.ring, n),
                   counts := q.counts.(flushed := Bump(q.counts.flushed, 0, n)));
      assert Flush(c, q, force).q == q1;
      OrderedShift(q, P, n, q1);
    }
  }

  /** Storing the payload of `rdid` records it in `P` and keeps the order. */
  lemma OrderedStore(q: Queue, P: map<nat, Bytes>, rec: Bytes, rdid: nat, q2: Queue)
    requires Ordered(q, P)
    requires q.ring.cur <= rdid < q.ring.cur + |q.ring.lines| && q.ring.started[rdid - q.ring.cur]
    requires q2.ring == FinishRing(q.ring, rec, rdid) && q2.outs == q.outs && q2.counts.flushed == q.counts.flushed
    ensures Ordered(q2, P[rdid := rec])
  {
    var P1 := P[rdid := rec];
    assert InOrder(P1, 0, q.ring.cur) == InOrder(P, 0, q.ring.cur);
  }

  lemma OrderedFinish(c: Config, q: Queue, P: map<nat, Bytes>, rec: Bytes, rdid: nat, tid: nat)
    requires CanFinish(c, q, rdid, tid) && c.reorder && Ordered(q, P)
    requires FinishRead(c, q, rec, rdid, tid).ok
    ensures Ordered(FinishRead(c, q, rec, rdid, tid).q, P[rdid := rec])
  {
    var q1 := q.(counts := q.counts.(finished := Bump(q.counts.finished, tid, 1)));
    var q2 := q1.(ring := FinishRing(q.ring, rec, rdid));
    OrderedStore(q, P, rec, rdid, q2);
    OrderedFlush(c, q2, P[rdid := rec], false);
  }

  /**
   * The ordering guarantee: once every announced read has finished, a
   * successful forced flush leaves nothing pending and output 0 holds the
   * payload of every read id below the new `cur`, each exactly once and
   * in increasing id order.
   */
  lemma ForcedFlushDrains(c: Config, q: Queue, P: map<nat, Bytes>)
    requires Inv(c, q) && c.reorder && Ordered(q, P)
    requires forall i :: 0 <= i < |q.ring.finished| ==> q.ring.finished[i]
    requires Flush(c, q, true).ok
    ensures var q1 := Flush(c, q, true).q;
      && Ordered(q1, P)
      && q1.ring.lines == [] && q1.ring.cur == q.ring.cur + |q.ring.lines|
      && q1.outs[0].written == InOrder(P, 0, q1.ring.cur)
      && NumFlushed(q1) == q1.ring.cur
  {
    FlushReorderSpec(c, q, true);
    OrderedFlush(c, q, P, true);
  }

  // ---------------------------------------------------------------------
  // Non-reorder mode: per-thread buffers
  // ---------------------------------------------------------------------

  /** The concatenation of the threads' buffers, in thread order. */
  function Flatten(ps: seq<seq<Bytes>>): seq<Bytes> {
    if ps == [] then [] else ps[0] + Flatten(ps[1..])
  }

  lemma {:induction false} TotalLengthAppend(a: seq<Bytes>, b: seq<Bytes>)
    ensures TotalLength(a + b) == TotalLength(a) + TotalLength(b)
  {
    if a == [] {
      assert a + b == b;
    } else {
      assert (a + b)[0] == a[0] && (a + b)[1..] == a[1..] + b;
      TotalLengthAppend(a[1..], b);
    }
  }

  /**
   * finishRead in non-reorder mode: a record joins its thread's buffer;
   * when the buffer is already full (it never holds more than its
   * capacity) the whole buffer is first written to output
   * `tid % nOutputs`, and the buffer then holds the new record alone.
   */
  lemma FinishUnorderedSpec(c: Config, q: Queue, rec: Bytes, rdid: nat, tid: nat)
    requires Inv(c, q) && !c.reorder && tid < c.nthreads
    ensures var s := FinishRead(c, q, rec, rdid, tid);
      var o := tid % c.nOutputs;
      && |s.q.pending[tid]| <= c.bufSize
      && NumFinished(s.q) == NumFinished(q) + 1
      && s.q.ring == q.ring
      && (|q.pending[tid]| < c.bufSize ==>
            s.ok && s.q.outs == q.outs && s.q.pending == q.pending[tid := q.pending[tid] + [rec]]
            && NumFlushed(s.q) == NumFlushed(q))
      && (|q.pending[tid]| == c.bufSize ==>
            && (s.ok <==> TotalLength(q.pending[tid]) <= q.outs[o].room)
            && (s.ok ==>
                  && s.q.outs == q.outs[o := Sink(q.outs[o].written + q.pending[tid],
                                                  q.outs[o].room - TotalLength(q.pending[tid]))]
                  && s.q.pending == q.pending[tid := [rec]]
                  && NumFlushed(s.q) == NumFlushed(q) + c.bufSize))
  {
    SumBump(q.counts.finished, tid, 1);
    SumBump(q.counts.flushed, tid, c.bufSize);
    WriteAllSpec(q.outs[tid % c.nOutputs], q.pending[tid]);
    if |q.pending[tid]| == c.bufSize {
      var q1 := q.(counts := q.counts.(finished := Bump(q.counts.finished, tid, 1)));
      var s := DrainTo(c, q1, tid, tid % c.nOutputs);
      if s.ok {
        assert s.q.pending[tid] + [rec] == [rec];
      }
    }
  }

  lemma {:induction false} FlattenSnoc(ps: seq<seq<Bytes>>, t: nat)
    requires t < |ps|
    ensures Flatten(ps[..t + 1]) == Flatten(ps[..t]) + ps[t]
  {
    if t == 0 {
      assert ps[..1] == [ps[0]] && ps[..1][1..] == [];
      assert ps[0] + [] == ps[0];
    } else {
      assert ps[..t + 1][1..] == ps[1..][..t];
      assert ps[..t][1..] == ps[1..][..t - 1];
      FlattenSnoc(ps[1..], t - 1);
      assert ps[1..][t - 1] == ps[t];
    }
  }

  /** What draining the buffers of threads `0 .. t-1` does, stated over the state before. */
  ghost predicate DrainedUpTo(c: Config, q: Queue, t: nat, r: Step)
    requires Inv(c, q) && t <= c.nthreads
  {
    var all := Flatten(q.pending[..t]);
    && (r.ok <==> TotalLength(all) <= q.outs[0].room)
    && (r.ok ==>
          && r.q.outs == q.outs[0 := Sink(q.outs[0].written + all, q.outs[0].room - TotalLength(all))]
          && r.q.pending == seq(t, _ => []) + q.pending[t..]
          && NumFlushed(r.q) == NumFlushed(q) + |all|
          && r.q.ring == q.ring)
  }

  lemma {:induction false} DrainUpToSpec(c: Config, q: Queue, t: nat)
    requires Inv(c, q) && t <= c.nthreads
    ensures DrainedUpTo(c, q, t, DrainUpTo(c, q, t))
  {
    if t == 0 {
      assert q.pending[..0] == [] && q.pending[0..] == q.pending;
      assert seq(0, _ => []) + q.pending == q.pending;
      assert q.outs[0].written + [] == q.outs[0].written;
      assert q.outs[0 := Sink(q.outs[0].written, q.outs[0].room)] == q.outs;
    } else {
      DrainUpToSpec(c, q, t - 1);
      DrainStep(c, q, t - 1);
    }
  }

  /** Thread `t`'s buffer after those of threads `0 .. t-1`. */
  lemma DrainStep(c: Config, q: Queue, t: nat)
    requires Inv(c, q) && t < c.nthreads
    requires DrainedUpTo(c, q, t, DrainUpTo(c, q, t))
    ensures DrainedUpTo(c, q, t + 1, DrainUpTo(c, q, t + 1))
  {
    var s := DrainUpTo(c, q, t);
    var all := Flatten(q.pending[..t]);
    var p := q.pending[t];
    FlattenSnoc(q.pending, t);
    TotalLengthAppend(all, p);
    if s.ok {
      assert s.q.pending[t] == p;
      WriteAllSpec(s.q.outs[0], p);
      if TotalLength(p) <= s.q.outs[0].room {
        SumBump(s.q.counts.flushed, t, |p|);
        DrainStepOk(c, q, t, s.q, DrainTo(c, s.q, t, 0).q);
      }
    }
  }

  /** The bookkeeping of DrainStep when thread `t`'s buffer was written. */
  lemma DrainStepOk(c: Config, q: Queue, t: nat, q1: Queue, q2: Queue)
    requires Inv(c, q) && t < c.nthreads && Inv(c, q1)
    requires var all := Flatten(q.pending[..t]);
      && TotalLength(all) <= q.outs[0].room
      && q1.outs == q.outs[0 := Sink(q.outs[0].written + all, q.outs[0].room - TotalLength(all))]
      && q1.pending == seq(t, _ => []) + q.pending[t..]
      && NumFlushed(q1) == NumFlushed(q) + |all|
    requires TotalLength(Flatten(q.pending[..t + 1])) == TotalLength(Flatten(q.pending[..t])) + TotalLength(q.pending[t])
    requires TotalLength(Flatten(q.pending[..t + 1])) <= q.outs[0].room
    requires q2.pending == q1.pending[t := []]
    requires q2.outs == q1.outs[0 := Sink(q1.outs[0].written + q.pending[t], q1.outs[0].room - TotalLength(q.pending[t]))]
    requires NumFlushed(q2) == NumFlushed(q1) + |q.pending[t]|
    requires Flatten(q.pending[..t + 1]) == Flatten(q.pending[..t]) + q.pending[t]
    ensures var all := Flatten(q.pending[..t + 1]);
      && q2.outs == q.outs[0 := Sink(q.outs[0].written + all, q.outs[0].room - TotalLength(all))]
      && q2.pending == seq(t + 1, _ => []) + q.pending[t + 1..]
      && NumFlushed(q2) == NumFlushed(q) + |all|
  {
    var all := Flatten(q.pending[..t]);
    assert q2.pending == seq(t + 1, _ => []) + q.pending[t + 1..];
    assert q.outs[0].written + all + q.pending[t] == q.outs[0].written + (all + q.pending[t]);
  }

  /** Once a write has failed the loop writes nothing more. */
  lemma {:induction false} DrainUpToStops(c: Config, q: Queue, t: nat, u: nat)
    requires Inv(c, q) && t <= u <= c.nthreads && !DrainUpTo(c, q, t).ok
    ensures DrainUpTo(c, q, u) == DrainUpTo(c, q, t)
    decreases u
  {
    if u > t {
      DrainUpToStops(c, q, t, u - 1);
    }
  }

  /**
   * A non-reorder flush, forced or not, drains every thread's buffer to
   * output 0 in thread order; it succeeds exactly when all the buffered
   * bytes fit, and then every buffer is empty and numFlushed has grown by
   * the number of records written.
   */
  lemma FlushUnorderedSpec(c: Config, q: Queue, force: bool)
    requires Inv(c, q) && !c.reorder
    ensures var s := Flush(c, q, force);
      var all := Flatten(q.pending);
      && (s.ok <==> TotalLength(all) <= q.outs[0].room)
      && (s.ok ==>
            && s.q.outs == q.outs[0 := Sink(q.outs[0].written + all, q.outs[0].room - TotalLength(all))]
            && (forall t :: 0 <= t < c.nthreads ==> s.q.pending[t] == [])
            && NumFlushed(s.q) == NumFlushed(q) + |all|)
  {
    DrainUpToSpec(c, q, c.nthreads);
    assert q.pending[..c.nthreads] == q.pending;
  }
}
