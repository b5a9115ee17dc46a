/**
 * The two scenarios of the built-in test of outq.cpp, replayed on the
 * OutputQueue specification, in reorder mode with one thread and one
 * output. The mode is inferred from the test's expectations, not read from
 * its constructor call `OutputQueue oq(ofb, false)` (outq.cpp:176, 238),
 * whose declaration in outq.h is not part of this model: the numFlushed of
 * 0 after a flush with read 0 finished (outq.cpp:208-209) holds only when
 * the flush waits for a run of NFLUSH_THRESH finished reads, and only for
 * NFLUSH_THRESH > 2. Without reordering, flush writes every thread buffer
 * whatever `force` is (outq.cpp:107-116). The test's old call shape (`beginRead(id)` handing
 * back a buffer, `finishRead(id)`) becomes `finishRead(rec, id, 0)`.
 */
module OutQueueScenarios {
  import opened Common
  import opened OutQueueSpec

  /** One thread, one output that accepts `room` bytes. */
  function TestConfig(thresh: nat): Config {
    Config(true, 1, 1, 1, thresh)
  }

  /** (numFlushed, numStarted, numFinished). */
  function Observed(q: Queue): (nat, nat, nat) {
    (NumFlushed(q), NumStarted(q), NumFinished(q))
  }

  /** A one-thread, one-output queue state written out. */
  function St(lines: seq<Bytes>, started: seq<bool>, finished: seq<bool>, cur: nat,
              ns: nat, nf: nat, nfl: nat, written: seq<Bytes>, room: nat): Queue
  {
    Queue(Ring(lines, started, finished, cur), [[]], Counters([ns], [nf], [nfl]), [Sink(written, room)])
  }

  /** With one thread, the counters the test reads are the thread's own. */
  lemma ObservedOne(q: Queue)
    requires |q.counts.started| == |q.counts.finished| == |q.counts.flushed| == 1
    ensures Observed(q) == (q.counts.flushed[0], q.counts.started[0], q.counts.finished[0])
  {
    var e: seq<nat> := [];
    assert q.counts.started[1..] == e && q.counts.finished[1..] == e && q.counts.flushed[1..] == e;
    assert Sum(q.counts.started) == q.counts.started[0] + Sum(e);
    assert Sum(q.counts.finished) == q.counts.finished[0] + Sum(e);
    assert Sum(q.counts.flushed) == q.counts.flushed[0] + Sum(e);
  }

  const T := true
  const F := false

  /** The states of case 1, after the call with the given number. */
  function Case1(thresh: nat, room: nat, k: nat): Queue {
    match k
    case 0 => St([], [], [], 0, 0, 0, 0, [], room)
    case 1 => St([[], []], [F, T], [F, F], 0, 1, 0, 0, [], room)
    case 2 => St([[], [], [], []], [F, T, F, T], [F, F, F, F], 0, 2, 0, 0, [], room)
    case 3 => St([[], [], [], []], [F, T, T, T], [F, F, F, F], 0, 3, 0, 0, [], room)
    case 5 => St([[], [], [], []], [T, T, T, T], [F, F, F, F], 0, 4, 0, 0, [], room)
    case 7 => St([[], [], [], []], [T, T, T, T], [T, F, F, F], 0, 4, 1, 0, [], room)
    case 9 => St([[], [], []], [T, T, T], [F, F, F], 1, 4, 1, 1, [[]], room)
    case 10 => St([[], [], []], [T, T, T], [F, T, F], 1, 4, 2, 1, [[]], room)
    case 12 => St([[], [], []], [T, T, T], [T, T, F], 1, 4, 3, 1, [[]], room)
    case _ => St([[]], [T], [F], 3, 4, 3, 3, [[], [], []], room)
  }

  /** The queue the test constructs, before any call. */
  lemma C1Start(thresh: nat, room: nat)
    requires thresh > 2
    ensures Empty(TestConfig(thresh), [room]) == Case1(thresh, room, 0)
    ensures Observed(Case1(thresh, room, 0)) == (0, 0, 0)
  {
    ObservedOne(Case1(thresh, room, 0));
  }

  lemma C1a(thresh: nat, room: nat)
    requires thresh > 2
    ensures var c := TestConfig(thresh); BeginRead(c, Case1(thresh, room, 0), 1, 0) == Case1(thresh, room, 1)
    ensures Observed(Case1(thresh, room, 1)) == (0, 1, 0)
  {
    ObservedOne(Case1(thresh, room, 1));
  }

  lemma C1b(thresh: nat, room: nat)
    requires thresh > 2
    ensures var c := TestConfig(thresh); BeginRead(c, Case1(thresh, room, 1), 3, 0) == Case1(thresh, room, 2)
    ensures Observed(Case1(thresh, room, 2)) == (0, 2, 0)
  {
    ObservedOne(Case1(thresh, room, 2));
  }

  lemma C1c(thresh: nat, room: nat)
    requires thresh > 2
    ensures var c := TestConfig(thresh); BeginRead(c, Case1(thresh, room, 2), 2, 0) == Case1(thresh, room, 3)
    ensures Observed(Case1(thresh, room, 3)) == (0, 3, 0)
  {
    ObservedOne(Case1(thresh, room, 3));
  }

  lemma C1d(thresh: nat, room: nat)
    requires thresh > 2
    ensures var c := TestConfig(thresh); Flush(c, Case1(thresh, room, 3), false) == Step(Case1(thresh, room, 3), true)
  {
  }

  lemma C1e(thresh: nat, room: nat)
    requires thresh > 2
    ensures var c := TestConfig(thresh); BeginRead(c, Case1(thresh, room, 3), 0, 0) == Case1(thresh, room, 5)
    ensures Observed(Case1(thresh, room, 5)) == (0, 4, 0)
  {
    ObservedOne(Case1(thresh, room, 5));
  }

  lemma C1f(thresh: nat, room: nat)
    requires thresh > 2
    ensures var c := TestConfig(thresh); Flush(c, Case1(thresh, room, 5), false) == Step(Case1(thresh, room, 5), true)
  {
  }

  lemma C1g(thresh: nat, room: nat)
    requires thresh > 2
    ensures var c := TestConfig(thresh); FinishRead(c, Case1(thresh, room, 5), [], 0, 0) == Step(Case1(thresh, room, 7), true)
    ensures Observed(Case1(thresh, room, 7)) == (0, 4, 1)
  {
    ObservedOne(Case1(thresh, room, 7));
    assert [T, F, F, F][1..] == [F, F, F] && Run([T, F, F, F]) == 1;
  }

  lemma C1h(thresh: nat, room: nat)
    requires thresh > 2
    ensures var c := TestConfig(thresh); Flush(c, Case1(thresh, room, 7), false) == Step(Case1(thresh, room, 7), true)
  {
    assert [T, F, F, F][1..] == [F, F, F] && Run([T, F, F, F]) == 1;
  }

  lemma C1i(thresh: nat, room: nat)
    requires thresh > 2
    ensures var c := TestConfig(thresh); Flush(c, Case1(thresh, room, 7), true) == Step(Case1(thresh, room, 9), true)
    ensures Observed(Case1(thresh, room, 9)) == (1, 4, 1)
  {
    C1iFlush(thresh, room);
    ObservedOne(Case1(thresh, room, 9));
  }

  lemma C1iFlush(thresh: nat, room: nat)
    requires thresh > 2
    ensures var c := TestConfig(thresh); Flush(c, Case1(thresh, room, 7), true) == Step(Case1(thresh, room, 9), true)
  {
    var e: Bytes := [];
    var r7 := Ring([e, e, e, e], [T, T, T, T], [T, F, F, F], 0);
    var q7 := Case1(thresh, room, 7);
    assert q7 == Queue(r7, [[]], Counters([4], [1], [0]), [Sink([], room)]);
    assert [T, F, F, F][1..] == [F, F, F] && Run([T, F, F, F]) == 1;
    assert [e, e, e, e][..1] == [e];
    WriteEmptyLine(Sink([], room));
    assert [] + [e] == [e];
    RingDrop(r7);
    assert Bump([0], 0, 1) == [1];
    assert Case1(thresh, room, 9) == Queue(Drop(r7, 1), [[]], Counters([4], [1], [1]), [Sink([e], room)]);
  }

  /** Writing one empty record always succeeds and leaves the room as it was. */
  lemma WriteEmptyLine(k: Sink)
    ensures WriteAll(k, [[]]) == Written(Sink(k.written + [[]], k.room), true)
  {
    var e: Bytes := [];
    assert [e][1..] == [];
  }

  /** The ring of call 7 once its finished head has been flushed. */
  lemma RingDrop(r7: Ring)
    requires r7 == Ring([[], [], [], []], [T, T, T, T], [T, F, F, F], 0)
    ensures RingValid(r7) && Drop(r7, 1) == Ring([[], [], []], [T, T, T], [F, F, F], 1)
  {
    var e: Bytes := [];
    assert r7.lines[1..] == [e, e, e];
    assert r7.started[1..] == [T, T, T] && r7.finished[1..] == [F, F, F];
  }

  lemma C1j(thresh: nat, room: nat)
    requires thresh > 2
    ensures var c := TestConfig(thresh); FinishRead(c, Case1(thresh, room, 9), [], 2, 0) == Step(Case1(thresh, room, 10), true)
    ensures Observed(Case1(thresh, room, 10)) == (1, 4, 2)
  {
    ObservedOne(Case1(thresh, room, 10));
  }

  lemma C1k(thresh: nat, room: nat)
    requires thresh > 2
    ensures var c := TestConfig(thresh); Flush(c, Case1(thresh, room, 10), true) == Step(Case1(thresh, room, 10), true)
  {
  }

  lemma C1l(thresh: nat, room: nat)
    requires thresh > 2
    ensures var c := TestConfig(thresh); FinishRead(c, Case1(thresh, room, 10), [], 1, 0) == Step(Case1(thresh, room, 12), true)
    ensures Observed(Case1(thresh, room, 12)) == (1, 4, 3)
  {
    ObservedOne(Case1(thresh, room, 12));
    assert [T, T, F][1..] == [T, F] && [T, F][1..] == [F];
    assert Run([F]) == 0;
    assert Run([T, F]) == 1;
    assert Run([T, T, F]) == 2;
  }

  lemma C1m(thresh: nat, room: nat)
    requires thresh > 2
    ensures var c := TestConfig(thresh); Flush(c, Case1(thresh, room, 12), true) == Step(Case1(thresh, room, 13), true)
    ensures Observed(Case1(thresh, room, 13)) == (3, 4, 3)
  {
    C1mFlush(thresh, room);
    ObservedOne(Case1(thresh, room, 13));
  }

  lemma C1mFlush(thresh: nat, room: nat)
    requires thresh > 2
    ensures var c := TestConfig(thresh); Flush(c, Case1(thresh, room, 12), true) == Step(Case1(thresh, room, 13), true)
  {
    assert [T, T, F][1..] == [T, F] && [T, F][1..] == [F];
    assert Run([F]) == 0;
    assert Run([T, F]) == 1;
    assert Run([T, T, F]) == 2;
    var e: Bytes := [];
    assert [e, e, e][..2] == [e, e];
    assert WriteAll(Sink([[]], room), [[], []]) == Written(Sink([[], [], []], room), true);
    assert Drop(Case1(thresh, room, 12).ring, 2) == Case1(thresh, room, 13).ring;
    assert Bump([1], 0, 2) == [3];
  }


  /** The five payloads of case 2, installed into the buffers of ids 0..4 ("A\n" .. "E\n" in the test). */
  datatype Recs = Recs(a: Bytes, b: Bytes, c: Bytes, d: Bytes, e: Bytes)

  function Len3(p: Recs): nat { |p.a| + |p.b| + |p.c| }

  function Len5(p: Recs): nat { |p.a| + |p.b| + |p.c| + |p.d| + |p.e| }

  /** The states of case 2; from the fourth finishRead on they depend on NFLUSH_THRESH. */
  function Case2(thresh: nat, p: Recs, room: nat, k: nat): Queue
    requires room >= Len5(p)
  {
    match k
    case 0 => St([], [], [], 0, 0, 0, 0, [], room)
    case 1 => St([[]], [T], [F], 0, 1, 0, 0, [], room)
    case 2 => St([[], []], [T, T], [F, F], 0, 2, 0, 0, [], room)
    case 3 => St([[], [], []], [T, T, T], [F, F, F], 0, 3, 0, 0, [], room)
    case 4 => St([[], [], [], []], [T, T, T, T], [F, F, F, F], 0, 4, 0, 0, [], room)
    case 5 => St([[], [], [], [], []], [T, T, T, T, T], [F, F, F, F, F], 0, 5, 0, 0, [], room)
    case 6 => St([[], [], [], [], p.e], [T, T, T, T, T], [F, F, F, F, T], 0, 5, 1, 0, [], room)
    case 7 => St([[], p.b, [], [], p.e], [T, T, T, T, T], [F, T, F, F, T], 0, 5, 2, 0, [], room)
    case 8 => St([p.a, p.b, [], [], p.e], [T, T, T, T, T], [T, T, F, F, T], 0, 5, 3, 0, [], room)
    case 9 =>
      if thresh == 3 then St([[], p.e], [T, T], [F, T], 3, 5, 4, 3, [p.a, p.b, p.c], room - Len3(p))
      else St([p.a, p.b, p.c, [], p.e], [T, T, T, T, T], [T, T, T, F, T], 0, 5, 4, 0, [], room)
    case 10 =>
      if thresh == 3 then St([p.d, p.e], [T, T], [T, T], 3, 5, 5, 3, [p.a, p.b, p.c], room - Len3(p))
      else if thresh <= 5 then Case2Final(p, room)
      else Case2AllFinished(p, room)
    case _ => Case2Final(p, room)
  }

  /** Every read finished, nothing written yet. */
  function Case2AllFinished(p: Recs, room: nat): (q: Queue)
    ensures RingValid(q.ring)
  {
    St([p.a, p.b, p.c, p.d, p.e], [T, T, T, T, T], [T, T, T, T, T], 0, 5, 5, 0, [], room)
  }

  /** Case 2 after the forced flush: all five records written, in read-id order. */
  function Case2Final(p: Recs, room: nat): Queue
    requires room >= Len5(p)
  {
    St([], [], [], 5, 5, 5, 5, [p.a, p.b, p.c, p.d, p.e], room - Len5(p))
  }

  /** A reorder-mode flush that writes a run of `n` records which fit. */
  lemma FlushWrites(c: Config, q: Queue, force: bool, n: nat)
    requires Inv(c, q) && c.reorder
    requires Run(q.ring.finished) == n && (force || n >= c.thresh)
    requires TotalLength(q.ring.lines[..n]) <= q.outs[0].room
    ensures Flush(c, q, force) ==
      Step(q.(outs := q.outs[0 := Sink(q.outs[0].written + q.ring.lines[..n],
                                       q.outs[0].room - TotalLength(q.ring.lines[..n]))],
              ring := Drop(q.ring, n),
              counts := q.counts.(flushed := Bump(q.counts.flushed, 0, n))), true)
  {
    WriteAllSpec(q.outs[0], q.ring.lines[..n]);
  }

  lemma Lengths(p: Recs)
    ensures TotalLength([p.a, p.b, p.c]) == Len3(p)
    ensures TotalLength([p.d, p.e]) == |p.d| + |p.e|
    ensures TotalLength([p.a, p.b, p.c, p.d, p.e]) == Len5(p)
  {
    var s := [p.a, p.b, p.c, p.d, p.e];
    assert s[1..] == [p.b, p.c, p.d, p.e] && s[2..] == [p.c, p.d, p.e] && s[3..] == [p.d, p.e] && s[4..] == [p.e];
    assert [p.a, p.b, p.c][1..] == [p.b, p.c] && [p.b, p.c][1..] == [p.c];
    var e: seq<Bytes> := [];
    assert [p.c][1..] == e && [p.e][1..] == e && [p.d, p.e][1..] == [p.e];
    assert TotalLength([p.c]) == |p.c| && TotalLength([p.e]) == |p.e|;
    assert TotalLength([p.b, p.c]) == |p.b| + |p.c|;
    assert TotalLength([p.d, p.e]) == |p.d| + |p.e|;
    assert TotalLength([p.c, p.d, p.e]) == |p.c| + |p.d| + |p.e|;
    assert TotalLength([p.b, p.c, p.d, p.e]) == |p.b| + |p.c| + |p.d| + |p.e|;
  }

  lemma Runs()
    ensures Run([F, F, T]) == 0 && Run([T, F, F, T]) == 1 && Run([T, T, F, F, T]) == 2
    ensures Run([F, T]) == 0 && Run([T, F, T]) == 1 && Run([T, T, F, T]) == 2 && Run([T, T, T, F, T]) == 3
    ensures Run([T, T]) == 2 && Run([T, T, T, T, T]) == 5 && Run([]) == 0
  {
    var f := [T, T, T, F, T];
    assert f[1..] == [T, T, F, T] && f[2..] == [T, F, T] && f[3..] == [F, T];
    var g := [T, T, F, F, T];
    assert g[1..] == [T, F, F, T] && g[2..] == [F, F, T];
    var h := [T, T, T, T, T];
    assert h[1..] == [T, T, T, T] && h[2..] == [T, T, T] && h[3..] == [T, T] && h[4..] == [T] && h[5..] == [];
  }

  lemma C2Start(thresh: nat, p: Recs, room: nat)
    requires thresh > 2 && room >= Len5(p)
    ensures Empty(TestConfig(thresh), [room]) == Case2(thresh, p, room, 0)
  {
  }

  lemma C2a(thresh: nat, p: Recs, room: nat)
    requires thresh > 2 && room >= Len5(p)
    ensures BeginRead(TestConfig(thresh), Case2(thresh, p, room, 0), 0, 0) == Case2(thresh, p, room, 1)
  {
  }

  lemma C2b(thresh: nat, p: Recs, room: nat)
    requires thresh > 2 && room >= Len5(p)
    ensures BeginRead(TestConfig(thresh), Case2(thresh, p, room, 1), 1, 0) == Case2(thresh, p, room, 2)
  {
  }

  lemma C2c(thresh: nat, p: Recs, room: nat)
    requires thresh > 2 && room >= Len5(p)
    ensures BeginRead(TestConfig(thresh), Case2(thresh, p, room, 2), 2, 0) == Case2(thresh, p, room, 3)
  {
  }

  lemma C2d(thresh: nat, p: Recs, room: nat)
    requires thresh > 2 && room >= Len5(p)
    ensures BeginRead(TestConfig(thresh), Case2(thresh, p, room, 3), 3, 0) == Case2(thresh, p, room, 4)
  {
  }

  lemma C2e(thresh: nat, p: Recs, room: nat)
    requires thresh > 2 && room >= Len5(p)
    ensures BeginRead(TestConfig(thresh), Case2(thresh, p, room, 4), 4, 0) == Case2(thresh, p, room, 5)
    ensures Observed(Case2(thresh, p, room, 5)) == (0, 5, 0)
  {
    ObservedOne(Case2(thresh, p, room, 5));
  }

  lemma C2f(thresh: nat, p: Recs, room: nat)
    requires thresh > 2 && room >= Len5(p)
    ensures FinishRead(TestConfig(thresh), Case2(thresh, p, room, 5), p.e, 4, 0) == Step(Case2(thresh, p, room, 6), true)
  {
  }

  lemma C2g(thresh: nat, p: Recs, room: nat)
    requires thresh > 2 && room >= Len5(p)
    ensures FinishRead(TestConfig(thresh), Case2(thresh, p, room, 6), p.b, 1, 0) == Step(Case2(thresh, p, room, 7), true)
  {
  }

  lemma C2h(thresh: nat, p: Recs, room: nat)
    requires thresh > 2 && room >= Len5(p)
    ensures FinishRead(TestConfig(thresh), Case2(thresh, p, room, 7), p.a, 0, 0) == Step(Case2(thresh, p, room, 8), true)
  {
    Runs();
  }

  /** Case 2 just after the fourth finishRead stored the payload of id 2, before its flush. */
  function Case2Stored(p: Recs, room: nat): (q: Queue)
    ensures RingValid(q.ring)
  {
    St([p.a, p.b, p.c, [], p.e], [T, T, T, T, T], [T, T, T, F, T], 0, 5, 4, 0, [], room)
  }

  lemma C2i(thresh: nat, p: Recs, room: nat)
    requires thresh > 2 && room >= Len5(p)
    ensures FinishRead(TestConfig(thresh), Case2(thresh, p, room, 8), p.c, 2, 0) == Step(Case2(thresh, p, room, 9), true)
  {
    C2iStore(thresh, p, room);
    Runs();
    if thresh == 3 {
      C2iFlush(p, room);
    }
  }

  lemma C2iStore(thresh: nat, p: Recs, room: nat)
    requires thresh > 2 && room >= Len5(p)
    ensures FinishRead(TestConfig(thresh), Case2(thresh, p, room, 8), p.c, 2, 0) == Flush(TestConfig(thresh), Case2Stored(p, room), false)
  {
    var q := Case2(thresh, p, room, 8);
    assert FinishRing(q.ring, p.c, 2) == Case2Stored(p, room).ring;
    assert Bump([3], 0, 1) == [4];
  }

  lemma C2iFlush(p: Recs, room: nat)
    requires room >= Len5(p)
    ensures Flush(TestConfig(3), Case2Stored(p, room), false) == Step(Case2(3, p, room, 9), true)
  {
    var q1 := Case2Stored(p, room);
    var ls := [p.a, p.b, p.c];
    Runs();
    Lengths(p);
    assert q1.ring.lines[..3] == ls;
    FlushWrites(TestConfig(3), q1, false, 3);
    assert [] + ls == ls;
    assert q1.ring.lines[3..] == [[], p.e];
    assert Bump([0], 0, 3) == [3];
  }

  /** The fifth finishRead stores the payload of id 3, before its flush. */
  function Case2Stored4(thresh: nat, p: Recs, room: nat): (q: Queue)
    requires room >= Len5(p)
    ensures RingValid(q.ring)
  {
    if thresh == 3 then St([p.d, p.e], [T, T], [T, T], 3, 5, 5, 3, [p.a, p.b, p.c], room - Len3(p))
    else Case2AllFinished(p, room)
  }

  lemma C2j(thresh: nat, p: Recs, room: nat)
    requires thresh > 2 && room >= Len5(p)
    ensures FinishRead(TestConfig(thresh), Case2(thresh, p, room, 9), p.d, 3, 0) == Step(Case2(thresh, p, room, 10), true)
  {
    C2jStore(thresh, p, room);
    Runs();
    if 3 < thresh <= 5 {
      C2jFlush(thresh, p, room);
    }
  }

  lemma C2jStore(thresh: nat, p: Recs, room: nat)
    requires thresh > 2 && room >= Len5(p)
    ensures FinishRead(TestConfig(thresh), Case2(thresh, p, room, 9), p.d, 3, 0) == Flush(TestConfig(thresh), Case2Stored4(thresh, p, room), false)
  {
    var q := Case2(thresh, p, room, 9);
    if thresh == 3 {
      assert FinishRing(q.ring, p.d, 3) == Case2Stored4(thresh, p, room).ring;
    } else {
      assert FinishRing(q.ring, p.d, 3) == Case2Stored4(thresh, p, room).ring;
    }
    assert Bump([4], 0, 1) == [5];
  }

  /** A flush of all five finished reads. */
  lemma FlushAllFive(c: Config, p: Recs, room: nat, force: bool)
    requires c == TestConfig(c.thresh) && (force || c.thresh <= 5) && room >= Len5(p)
    ensures Flush(c, Case2AllFinished(p, room), force) == Step(Case2Final(p, room), true)
  {
    var q1 := Case2AllFinished(p, room);
    var ls := q1.ring.lines;
    Runs();
    Lengths(p);
    assert ls[..5] == ls;
    FlushWrites(c, q1, force, 5);
    assert [] + ls == ls;
    assert ls[5..] == [];
    assert Bump([0], 0, 5) == [5];
  }

  lemma C2jFlush(thresh: nat, p: Recs, room: nat)
    requires 3 < thresh <= 5 && room >= Len5(p)
    ensures Flush(TestConfig(thresh), Case2AllFinished(p, room), false) == Step(Case2(thresh, p, room, 10), true)
  {
    FlushAllFive(TestConfig(thresh), p, room, false);
  }

  lemma C2k(thresh: nat, p: Recs, room: nat)
    requires thresh > 2 && room >= Len5(p)
    ensures Flush(TestConfig(thresh), Case2(thresh, p, room, 10), true) == Step(Case2Final(p, room), true)
    ensures Observed(Case2Final(p, room)) == (5, 5, 5)
    ensures Case2Final(p, room).outs[0].written == [p.a, p.b, p.c, p.d, p.e]
  {
    ObservedOne(Case2Final(p, room));
    if thresh == 3 {
      C2kRest(p, room);
    } else if thresh <= 5 {
      FlushNothingLeft(TestConfig(thresh), p, room);
    } else {
      FlushAllFive(TestConfig(thresh), p, room, true);
    }
  }

  /** A forced flush with no slots left writes nothing and changes nothing. */
  lemma FlushNothingLeft(c: Config, p: Recs, room: nat)
    requires c == TestConfig(c.thresh) && room >= Len5(p)
    ensures Flush(c, Case2Final(p, room), true) == Step(Case2Final(p, room), true)
  {
    var q := Case2Final(p, room);
    Runs();
    FlushWrites(c, q, true, 0);
    assert q.outs[0].written + q.ring.lines[..0] == q.outs[0].written;
    assert Bump([5], 0, 0) == [5];
  }

  lemma C2kRest(p: Recs, room: nat)
    requires room >= Len5(p)
    ensures Flush(TestConfig(3), Case2(3, p, room, 10), true) == Step(Case2Final(p, room), true)
  {
    var q := Case2(3, p, room, 10);
    Runs();
    Lengths(p);
    assert q.ring.lines[..2] == [p.d, p.e];
    FlushWrites(TestConfig(3), q, true, 2);
    assert [p.a, p.b, p.c] + [p.d, p.e] == [p.a, p.b, p.c, p.d, p.e];
    assert q.ring.lines[2..] == [];
    assert Bump([3], 0, 2) == [5];
  }
}
