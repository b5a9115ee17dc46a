/**
 * The OutputQueue object of outq.cpp with its fields updated in place.
 *
 * The reorder lists are sequences the methods reassign (`resize`, `erase`);
 * the per-thread counters and the per-thread record buffers are arrays of
 * fixed size; the outputs (`ofhs_`) are sinks. Every method is proved to
 * move the object's state, read through Model(), exactly as the matching
 * function of OutQueueSpec moves a Queue value; the properties of those
 * functions are proved in OutQueueSpec.
 */
module OutQueue {
  import opened Common
  import opened OutQueueSpec

  /** `EList::resize`: the new elements hold whatever the storage held. */
  method Resize<T(0)>(s: seq<T>, n: nat) returns (r: seq<T>)
    requires |s| <= n
    ensures |r| == n && r[..|s|] == s
  {
    var fill: T := *;
    r := s + seq(n - |s|, _ => fill);
  }

  /**
   * The payloads of the reorder list as the queue can observe them: a
   * slot's payload is read only once the slot is finished, so an
   * unfinished slot shows the empty string whatever its storage holds.
   */
  function Visible(lines: seq<Bytes>, finished: seq<bool>): (v: seq<Bytes>)
    requires |lines| == |finished|
    ensures |v| == |lines|
    ensures forall i :: 0 <= i < |v| ==> v[i] == if finished[i] then lines[i] else []
  {
    seq(|lines|, i requires 0 <= i < |lines| => if finished[i] then lines[i] else [])
  }

  /** The reorder-mode part of beginReadImpl (outq.cpp:31-47) on the three lists. */
  method BeginLists(lines: seq<Bytes>, started: seq<bool>, finished: seq<bool>, cur: nat, rdid: nat)
    returns (lines': seq<Bytes>, started': seq<bool>, finished': seq<bool>)
    requires |lines| == |started| == |finished| && rdid >= cur
    requires forall i :: 0 <= i < |finished| && finished[i] ==> started[i]
    ensures |lines'| == |started'| == |finished'|
    ensures forall i :: 0 <= i < |finished'| && finished'[i] ==> started'[i]
    ensures Ring(Visible(lines', finished'), started', finished', cur)
         == BeginRing(Ring(Visible(lines, finished), started, finished, cur), rdid)
  {
    ghost var r := Ring(Visible(lines, finished), started, finished, cur);
    ghost var g := r;
    lines', started', finished' := lines, started, finished;
    if rdid - cur >= |lines| {
      var oldsz, n := |lines|, rdid - cur + 1;
      lines' := Resize(lines, n);
      started' := Resize(started, n);
      finished' := Resize(finished, n);
      for i := oldsz to n
        invariant |started'| == |finished'| == n
        invariant started'[..oldsz] == started && finished'[..oldsz] == finished
        invariant forall j :: oldsz <= j < i ==> !started'[j] && !finished'[j]
      {
        started' := started'[i := false];
        finished' := finished'[i := false];
      }
      g := Grow(r, n);
      assert started' == g.started && finished' == g.finished;
      forall j | 0 <= j < n ensures Visible(lines', finished')[j] == g.lines[j] {
        if j < oldsz {
          assert lines'[j] == lines'[..oldsz][j] && finished'[j] == finished'[..oldsz][j];
          assert g.lines[j] == g.lines[..oldsz][j];
        }
      }
    }
    var k := rdid - cur;
    started' := started'[k := true];
    finished' := finished'[k := false];
    assert Visible(lines', finished') == g.lines[k := []];
  }

  /** On a finished run at the head the stored and the visible payloads agree. */
  lemma VisibleRun(lines: seq<Bytes>, finished: seq<bool>, n: nat)
    requires |lines| == |finished| && n <= |lines|
    requires forall i :: 0 <= i < n ==> finished[i]
    ensures lines[..n] == Visible(lines, finished)[..n]
  {
    assert forall i :: 0 <= i < n ==> lines[..n][i] == Visible(lines, finished)[..n][i];
  }

  /** Erasing a prefix commutes with hiding unfinished payloads. */
  lemma VisibleDrop(lines: seq<Bytes>, finished: seq<bool>, n: nat)
    requires |lines| == |finished| && n <= |lines|
    ensures Visible(lines[n..], finished[n..]) == Visible(lines, finished)[n..]
  {
  }

  /** The first loop of flushImpl (outq.cpp:118-122): the length of the finished run at the head. */
  method CountRun(finished: seq<bool>) returns (n: nat)
    ensures n == Run(finished)
  {
    n := 0;
    while n < |finished| && finished[n]
      invariant n <= |finished|
      invariant forall i :: 0 <= i < n ==> finished[i]
    {
      n := n + 1;
    }
    RunUnique(finished, n);
  }

  /** `a[t] += n` on one of the per-thread counters. */
  method Add(a: array<nat>, t: nat, n: nat)
    requires t < a.Length
    modifies a
    ensures a[..] == Bump(old(a[..]), t, n)
  {
    a[t] := a[t] + n;
  }

  class OutputQueue {
    /** reorder_, nthreads_, perThreadBufSize_, nmulti_output_ and NFLUSH_THRESH. */
    const cfg: Config

    var lines: seq<Bytes>
    var started: seq<bool>
    var finished: seq<bool>
    var cur: nat

    const perThreadCounter: array<nat>
    const perThreadBuf: array2<Bytes>
    const perThreadStarted: array<nat>
    const perThreadFinished: array<nat>
    const perThreadFlushed: array<nat>

    /** The outputs `ofhs_`. */
    var outs: seq<Sink>

    ghost predicate Valid()
      reads this, perThreadCounter, perThreadStarted, perThreadFinished, perThreadFlushed
    {
      && ConfigValid(cfg)
      && |lines| == |started| == |finished|
      && (forall i :: 0 <= i < |finished| && finished[i] ==> started[i])
      && perThreadCounter.Length == perThreadStarted.Length == perThreadFinished.Length
         == perThreadFlushed.Length == cfg.nthreads
      && perThreadBuf.Length0 == cfg.nthreads && perThreadBuf.Length1 == cfg.bufSize
      && perThreadCounter != perThreadStarted && perThreadCounter != perThreadFinished
      && perThreadCounter != perThreadFlushed && perThreadStarted != perThreadFinished
      && perThreadStarted != perThreadFlushed && perThreadFinished != perThreadFlushed
      && (forall t :: 0 <= t < cfg.nthreads ==> perThreadCounter[t] <= cfg.bufSize)
      && |outs| == cfg.nOutputs
    }

    /** The first `n` records of thread `t`'s buffer. */
    ghost function Row(t: nat, n: nat): (r: seq<Bytes>)
      reads perThreadBuf
      requires t < perThreadBuf.Length0 && n <= perThreadBuf.Length1
      ensures |r| == n && forall j :: 0 <= j < n ==> r[j] == perThreadBuf[t, j]
    {
      seq(n, j requires 0 <= j < n reads perThreadBuf => perThreadBuf[t, j])
    }

    /** `perThreadBuf_[t][..perThreadCounter_[t]]`. */
    ghost function Pending(t: nat): seq<Bytes>
      reads perThreadCounter, perThreadBuf
    {
      if t < perThreadCounter.Length && t < perThreadBuf.Length0 && perThreadCounter[t] <= perThreadBuf.Length1
      then Row(t, perThreadCounter[t]) else []
    }

    /** The reorder lists as a Ring value. */
    ghost function Lists(): Ring
      reads this
      requires |lines| == |finished|
    {
      Ring(Visible(lines, finished), started, finished, cur)
    }

    /** Every thread's pending records. */
    ghost function Buffers(): (ps: seq<seq<Bytes>>)
      reads perThreadCounter, perThreadBuf
      ensures |ps| == cfg.nthreads && forall t :: 0 <= t < cfg.nthreads ==> ps[t] == Pending(t)
    {
      seq(cfg.nthreads, t requires 0 <= t < cfg.nthreads reads perThreadCounter, perThreadBuf => Pending(t))
    }

    ghost function Counts(): Counters
      reads perThreadStarted, perThreadFinished, perThreadFlushed
    {
      Counters(perThreadStarted[..], perThreadFinished[..], perThreadFlushed[..])
    }

    /** The state of the object as a Queue value. */
    ghost function Model(): (q: Queue)
      reads this, perThreadCounter, perThreadStarted, perThreadFinished, perThreadFlushed, perThreadBuf
      requires Valid()
      ensures Inv(cfg, q)
    {
      Queue(Lists(), Buffers(), Counts(), outs)
    }

    constructor (c: Config, rooms: seq<nat>)
      requires ConfigValid(c) && |rooms| == c.nOutputs
      ensures Valid() && Model() == Empty(c, rooms)
      ensures fresh(perThreadCounter) && fresh(perThreadBuf) && fresh(perThreadStarted)
      ensures fresh(perThreadFinished) && fresh(perThreadFlushed)
    {
      cfg := c;
      lines, started, finished, cur := [], [], [], 0;
      perThreadCounter := new nat[c.nthreads](_ => 0);
      perThreadStarted := new nat[c.nthreads](_ => 0);
      perThreadFinished := new nat[c.nthreads](_ => 0);
      perThreadFlushed := new nat[c.nthreads](_ => 0);
      perThreadBuf := new Bytes[c.nthreads, c.bufSize];
      outs := seq(c.nOutputs, i requires 0 <= i < c.nOutputs => Sink([], rooms[i]));
      new;
      assert perThreadStarted[..] == seq(c.nthreads, _ => 0);
      assert perThreadFinished[..] == seq(c.nthreads, _ => 0);
      assert perThreadFlushed[..] == seq(c.nthreads, _ => 0);
      assert Model().pending == seq(c.nthreads, _ => []);
    }

    /** numStarted, numFinished, numFlushed: sums over the threads' counters. */
    function NumStarted(): nat reads perThreadStarted { Sum(perThreadStarted[..]) }
    function NumFinished(): nat reads perThreadFinished { Sum(perThreadFinished[..]) }
    function NumFlushed(): nat reads perThreadFlushed { Sum(perThreadFlushed[..]) }

    /** beginRead / beginReadImpl (outq.cpp:27-57), without the lock. */
    method BeginRead(rdid: nat, tid: nat)
      requires Valid() && tid < cfg.nthreads
      requires cfg.reorder ==> rdid >= cur
      modifies this, perThreadStarted
      ensures Valid() && Model() == OutQueueSpec.BeginRead(cfg, old(Model()), rdid, tid)
    {
      ghost var q0 := Model();
      perThreadStarted[tid] := perThreadStarted[tid] + 1;
      if cfg.reorder {
        lines, started, finished := BeginLists(lines, started, finished, cur, rdid);
      }
      assert Model().counts.started == Bump(q0.counts.started, tid, 1);
      assert Model().pending == q0.pending;
    }

    /**
     * finishReadImpl (outq.cpp:62-92), without the lock. `ok` is false
     * where the source throws from writeString.
     */
    method FinishRead(rec: Bytes, rdid: nat, tid: nat) returns (ok: bool)
      requires Valid() && CanFinish(cfg, Model(), rdid, tid)
      modifies this, perThreadFinished, perThreadFlushed, perThreadCounter, perThreadBuf
      ensures Valid() && Step(Model(), ok) == OutQueueSpec.FinishRead(cfg, old(Model()), rec, rdid, tid)
    {
      if cfg.reorder {
        ok := FinishOrdered(rec, rdid, tid);
      } else {
        ok := FinishUnordered(rec, tid);
      }
    }

    /** Reorder mode: store the payload in its slot, then a non-forced flush (outq.cpp:64-74). */
    method FinishOrdered(rec: Bytes, rdid: nat, tid: nat) returns (ok: bool)
      requires Valid() && cfg.reorder && CanFinish(cfg, Model(), rdid, tid)
      modifies this, perThreadFinished, perThreadFlushed, perThreadCounter
      ensures Valid() && Step(Model(), ok) == OutQueueSpec.FinishRead(cfg, old(Model()), rec, rdid, tid)
    {
      ghost var q0 := Model();
      ghost var q2 := q0.(ring := FinishRing(q0.ring, rec, rdid),
                          counts := q0.counts.(finished := Bump(q0.counts.finished, tid, 1)));
      var k := rdid - cur;
      lines := lines[k := rec];
      Add(perThreadFinished, tid, 1);
      finished := finished[k := true];
      assert Visible(lines, finished) == q2.ring.lines;
      assert Model() == q2;
      ok := FlushOrdered(false);
    }

    /**
     * The other mode: the record joins its thread's buffer, which is first
     * written out whole to output `tid % nOutputs` when full (outq.cpp:75-91).
     */
    method FinishUnordered(rec: Bytes, tid: nat) returns (ok: bool)
      requires Valid() && !cfg.reorder && tid < cfg.nthreads
      modifies this`outs, perThreadFinished, perThreadFlushed, perThreadCounter, perThreadBuf
      ensures Valid() && Step(Model(), ok) == OutQueueSpec.FinishRead(cfg, old(Model()), rec, 0, tid)
    {
      ghost var q0 := Model();
      ghost var q1 := q0.(counts := q0.counts.(finished := Bump(q0.counts.finished, tid, 1)));
      assert |q0.pending[tid]| == perThreadCounter[tid];
      Add(perThreadFinished, tid, 1);
      assert Model() == q1;
      ok := true;
      if perThreadCounter[tid] >= cfg.bufSize {
        ok := DrainThread(tid, cfg.bufSize, tid % cfg.nOutputs);
        if !ok {
          return;
        }
      }
      PushRecord(tid, rec);
    }

    /** flushImpl (outq.cpp:107-138), without the lock. */
    method Flush(force: bool) returns (ok: bool)
      requires Valid()
      modifies this, perThreadFlushed, perThreadCounter
      ensures Valid() && Step(Model(), ok) == OutQueueSpec.Flush(cfg, old(Model()), force)
    {
      if cfg.reorder {
        ok := FlushOrdered(force);
      } else {
        ok := FlushBuffers();
      }
    }

    /**
     * Reorder mode (outq.cpp:118-137): count the finished run at the head;
     * when forced or when the run reaches the threshold, write it to
     * output 0, erase it and advance `cur`.
     */
    method FlushOrdered(force: bool) returns (ok: bool)
      requires Valid() && cfg.reorder
      modifies this, perThreadFlushed
      ensures Valid() && Step(Model(), ok) == OutQueueSpec.Flush(cfg, old(Model()), force)
    {
      var nflush := CountRun(finished);
      if force || nflush >= cfg.thresh {
        ok := WriteRun(nflush);
      } else {
        ok := true;
      }
    }

    /**
     * The write-and-erase part of a reorder flush (outq.cpp:126-136): the
     * same as a forced flush.
     */
    method WriteRun(nflush: nat) returns (ok: bool)
      requires Valid() && cfg.reorder && nflush == Run(finished)
      modifies this, perThreadFlushed
      ensures Valid() && Step(Model(), ok) == OutQueueSpec.Flush(cfg, old(Model()), true)
    {
      ghost var q0 := Model();
      ghost var r0 := Lists();
      ghost var w := WriteAll(q0.outs[0], r0.lines[..nflush]);
      ghost var q1 := q0.(outs := q0.outs[0 := w.sink]);
      ghost var q2 := q1.(ring := Drop(r0, nflush), counts := q0.counts.(flushed := Bump(q0.counts.flushed, 0, nflush)));
      assert OutQueueSpec.Flush(cfg, q0, true) == if w.ok then Step(q2, true) else Step(q1, false);
      VisibleRun(lines, finished, nflush);
      ok := WriteLines(lines[..nflush], 0);
      if !ok {
        assert Model() == q1;
        return;
      }
      EraseRun(nflush);
      Add(perThreadFlushed, 0, nflush);
      assert Model() == q2;
    }

    /** `erase(0, n)` of the three lists and `cur_ += n` (outq.cpp:131-134). */
    method EraseRun(n: nat)
      requires |lines| == |started| == |finished| && n <= |lines|
      requires forall i :: 0 <= i < |finished| && finished[i] ==> started[i]
      modifies this`lines, this`started, this`finished, this`cur
      ensures |lines| == |started| == |finished|
      ensures forall i :: 0 <= i < |finished| && finished[i] ==> started[i]
      ensures Lists() == Drop(old(Lists()), n)
    {
      VisibleDrop(lines, finished, n);
      lines, started, finished := lines[n..], started[n..], finished[n..];
      cur := cur + n;
    }

    /** `perThreadCounter_[t] = 0`: thread `t`'s buffer is empty. */
    method ResetBuffer(t: nat)
      requires t < perThreadCounter.Length && perThreadCounter.Length == cfg.nthreads
      modifies perThreadCounter
      ensures perThreadCounter[..] == old(perThreadCounter[..])[t := 0]
      ensures Buffers() == old(Buffers())[t := []]
    {
      perThreadCounter[t] := 0;
      forall u | 0 <= u < cfg.nthreads ensures Pending(u) == old(Buffers())[t := []][u] {
      }
    }

    /** `perThreadBuf_[t][perThreadCounter_[t]++] = rec` (outq.cpp:90). */
    method PushRecord(t: nat, rec: Bytes)
      requires perThreadCounter.Length == perThreadBuf.Length0 == cfg.nthreads
      requires t < cfg.nthreads && perThreadCounter[t] < perThreadBuf.Length1
      modifies perThreadCounter, perThreadBuf
      ensures perThreadCounter[..] == old(perThreadCounter[..])[t := old(perThreadCounter[t]) + 1]
      ensures Buffers() == old(Buffers())[t := old(Buffers())[t] + [rec]]
    {
      ghost var ps := Buffers();
      perThreadBuf[t, perThreadCounter[t]] := rec;
      perThreadCounter[t] := perThreadCounter[t] + 1;
      assert Row(t, perThreadCounter[t]) == ps[t] + [rec];
      forall u | 0 <= u < cfg.nthreads ensures Pending(u) == ps[t := ps[t] + [rec]][u] {
      }
    }

    /** The other mode (outq.cpp:108-116): every thread's buffer goes to output 0. */
    method FlushBuffers() returns (ok: bool)
      requires Valid() && !cfg.reorder
      modifies this`outs, perThreadFlushed, perThreadCounter
      ensures Valid() && Step(Model(), ok) == DrainUpTo(cfg, old(Model()), cfg.nthreads)
    {
      ghost var q0 := Model();
      ok := true;
      for t := 0 to cfg.nthreads
        invariant Valid() && ok
        invariant Step(Model(), true) == DrainUpTo(cfg, q0, t)
      {
        ok := DrainThread(t, perThreadCounter[t], 0);
        if !ok {
          DrainUpToStops(cfg, q0, t + 1, cfg.nthreads);
          return;
        }
      }
    }

    /**
     * Write the `n` records of thread `t`'s buffer to output `o`, count them
     * as flushed and empty the buffer (outq.cpp:80-88 and 110-114).
     */
    method DrainThread(t: nat, n: nat, o: nat) returns (ok: bool)
      requires Valid() && t < cfg.nthreads && o < cfg.nOutputs && n == perThreadCounter[t]
      modifies this`outs, perThreadFlushed, perThreadCounter
      ensures Valid() && Step(Model(), ok) == DrainTo(cfg, old(Model()), t, o)
      ensures ok ==> perThreadCounter[t] == 0
    {
      ghost var qt := Model();
      ghost var w := WriteAll(qt.outs[o], qt.pending[t]);
      ghost var q1 := qt.(outs := qt.outs[o := w.sink], pending := qt.pending[t := []],
                          counts := qt.counts.(flushed := Bump(qt.counts.flushed, t, |qt.pending[t]|)));
      ok := WriteRow(t, n, o);
      if !ok {
        return;
      }
      Add(perThreadFlushed, t, n);
      ResetBuffer(t);
      assert Model() == q1;
    }

    /** The writeString loop over `ss` (outq.cpp:126-130): stops at the first failure. */
    method WriteLines(ss: seq<Bytes>, o: nat) returns (ok: bool)
      requires o < |outs|
      modifies this`outs
      ensures outs == old(outs)[o := WriteAll(old(outs)[o], ss).sink]
      ensures ok == WriteAll(old(outs)[o], ss).ok
    {
      ghost var k := old(outs)[o];
      ok := true;
      var i := 0;
      while i < |ss|
        invariant 0 <= i <= |ss|
        invariant outs == old(outs)[o := WriteAll(k, ss[..i]).sink] && WriteAll(k, ss[..i]).ok
      {
        ok := WriteString(ss[i], o);
        WriteAllAppend(k, ss[..i], [ss[i]]);
        assert ss[..i + 1] == ss[..i] + [ss[i]];
        if !ok {
          WriteAllAppend(k, ss[..i + 1], ss[i + 1..]);
          assert ss[..i + 1] + ss[i + 1..] == ss;
          return;
        }
        i := i + 1;
      }
      assert ss[..i] == ss;
    }

    /**
     * The writeString loop over the first `n` records of thread `t`'s
     * buffer (outq.cpp:83-85 and 110-112): stops at the first failure.
     */
    method WriteRow(t: nat, n: nat, o: nat) returns (ok: bool)
      requires t < perThreadBuf.Length0 && n <= perThreadBuf.Length1 && o < |outs|
      modifies this`outs
      ensures outs == old(outs)[o := WriteAll(old(outs)[o], Row(t, n)).sink]
      ensures ok == WriteAll(old(outs)[o], Row(t, n)).ok
    {
      ghost var k := old(outs)[o];
      ok := true;
      var j := 0;
      while j < n
        invariant 0 <= j <= n
        invariant outs == old(outs)[o := WriteAll(k, Row(t, j)).sink] && WriteAll(k, Row(t, j)).ok
      {
        ok := WriteString(perThreadBuf[t, j], o);
        WriteAllAppend(k, Row(t, j), [perThreadBuf[t, j]]);
        assert Row(t, j + 1) == Row(t, j) + [perThreadBuf[t, j]];
        if !ok {
          WriteAllAppend(k, Row(t, j + 1), Row(t, n)[j + 1..]);
          assert Row(t, j + 1) + Row(t, n)[j + 1..] == Row(t, n);
          return;
        }
        j := j + 1;
      }
    }

    /**
     * writeString (outq.cpp:155-164): write `s` to output `o`; `ok` is
     * false where the source throws after a short write.
     */
    method WriteString(s: Bytes, o: nat) returns (ok: bool)
      requires o < |outs|
      modifies this`outs
      ensures outs == old(outs)[o := WriteOne(old(outs)[o], s).sink]
      ensures ok == WriteOne(old(outs)[o], s).ok
    {
      var w := WriteOne(outs[o], s);
      outs := outs[o := w.sink];
      ok := w.ok;
    }
  }
}
