/**
 * The read composers of pat.cpp: SoloPatternComposer::nextBatch
 * (pat.cpp:198-220) and DualPatternComposer::nextBatch (pat.cpp:227-286).
 *
 * A composer walks its list of sources with the shared index `cur_` and
 * asks the current source for a batch; a source that has nothing left is
 * passed over. Each source is seen through the results its successive
 * `nextBatch` calls return (a source with no results left returns
 * `(true, 0)`, as a used-up file source of this model does); FileSource.NextBatch shows
 * that a file source never returns `(false, 0)`. The sources' lists are
 * held by value (each source belongs to one composer). The per-thread
 * buffer the sources fill is not modelled.
 */
module Composer {
  import opened Common
  import opened FileSource

  /** The two fatal errors of the paired branch: one mate file has fewer reads. */
  datatype Mismatch = FewerInMate1 | FewerInMate2

  /** The results a source's successive `nextBatch` calls return. */
  type Results = seq<Batch>

  /**
   * SoloPatternComposer::nextBatch from index `cur`: the batch, the final
   * index and the sources' remaining results. The do-while around the
   * source call is Drain: it asks again while the source returns
   * `(false, 0)`.
   */
  function SoloNext(cur: nat, srcs: seq<Results>): (r: (Batch, nat, seq<Results>))
    ensures |r.2| == |srcs|
    decreases |srcs| - cur
  {
    if cur >= |srcs| then (Batch(true, 0), cur, srcs)
    else
      var (res, rest) := Drain(srcs[cur]);
      var srcs' := srcs[cur := rest];
      if res.n == 0 then SoloNext(cur + 1, srcs') else (res, cur, srcs')
  }

  /**
   * The index never goes back and stops at the number of sources; the
   * result is `(true, 0)` exactly when it has reached that number, and is
   * otherwise the batch of the source it stopped at, with reads in it.
   */
  lemma {:induction false} SoloNextSpec(cur: nat, srcs: seq<Results>)
    requires cur <= |srcs|
    ensures var (b, c, srcs') := SoloNext(cur, srcs);
      && cur <= c <= |srcs|
      && (c == |srcs| <==> b == Batch(true, 0))
      && (c < |srcs| ==> (b, srcs'[c]) == Drain(srcs[c]) && b.n > 0)
    decreases |srcs| - cur
  {
    if cur < |srcs| {
      var (res, rest) := Drain(srcs[cur]);
      if res.n == 0 {
        var srcs1 := srcs[cur := rest];
        assert SoloNext(cur, srcs) == SoloNext(cur + 1, srcs1);
        SoloNextSpec(cur + 1, srcs1);
        var c := SoloNext(cur + 1, srcs1).1;
        if c < |srcs| {
          assert srcs1[c] == srcs[c];
        }
      }
    }
  }

  /**
   * Every source SoloNext passed over had no reads left and is now at its
   * end of input; the sources before `cur` and after the one it stopped at
   * are untouched.
   */
  lemma {:induction false} SoloNextFrame(cur: nat, srcs: seq<Results>)
    requires cur <= |srcs|
    ensures var (_, c, srcs') := SoloNext(cur, srcs);
      && (forall i :: cur <= i < c && i < |srcs| ==> Drain(srcs[i]).0.n == 0 && srcs'[i] == Drain(srcs[i]).1)
      && (forall i :: 0 <= i < |srcs| && (i < cur || c < i) ==> srcs'[i] == srcs[i])
    decreases |srcs| - cur
  {
    if cur < |srcs| {
      var (res, rest) := Drain(srcs[cur]);
      if res.n == 0 {
        var srcs1 := srcs[cur := rest];
        assert SoloNext(cur, srcs) == SoloNext(cur + 1, srcs1);
        SoloNextFrame(cur + 1, srcs1);
        SoloNextSpec(cur + 1, srcs1);
        var c, srcs' := SoloNext(cur + 1, srcs1).1, SoloNext(cur + 1, srcs1).2;
        forall i | cur <= i < c && i < |srcs|
          ensures Drain(srcs[i]).0.n == 0 && srcs'[i] == Drain(srcs[i]).1
        {
          if i > cur {
            assert srcs1[i] == srcs[i];
          }
        }
        forall i | 0 <= i < |srcs| && (i < cur || c < i)
          ensures srcs'[i] == srcs[i]
        {
          assert srcs1[i] == srcs[i];
        }
      }
    }
  }

  /**
   * DualPatternComposer::nextBatch as written. An unpaired source is passed
   * over only when it returns `(false, 0)`; a paired source is passed over
   * when both mates return no reads, and unequal counts are the fatal
   * error. `srcb[cur] == None` is the NULL entry of an unpaired source.
   */
  function DualNextAsWritten(cur: nat, a: seq<Results>, b: seq<Option<Results>>)
    : (r: Result<(Batch, nat, seq<Results>, seq<Option<Results>>), Mismatch>)
    requires |a| == |b|
    decreases |a| - cur
  {
    if cur >= |a| then Ok((Batch(true, 0), cur, a, b))
    else if b[cur].None? then
      var (res, a1) := FromFile(a[cur]);
      var a' := a[cur := a1];
      if !res.done && res.n == 0 then DualNextAsWritten(cur + 1, a', b) else Ok((res, cur, a', b))
    else
      var (ra, a1) := FromFile(a[cur]);
      var (rb, b1) := FromFile(b[cur].value);
      var a', b' := a[cur := a1], b[cur := Some(b1)];
      if ra.n < rb.n then Err(FewerInMate1)
      else if ra.n == 0 && rb.n == 0 then DualNextAsWritten(cur + 1, a', b')
      else if rb.n < ra.n then Err(FewerInMate2)
      else Ok((ra, cur, a', b'))
  }

  /** The same dispatch with an unpaired source passed over whenever it returns no reads, as SoloNext does. */
  function DualNext(cur: nat, a: seq<Results>, b: seq<Option<Results>>)
    : (r: Result<(Batch, nat, seq<Results>, seq<Option<Results>>), Mismatch>)
    requires |a| == |b|
    decreases |a| - cur
  {
    if cur >= |a| then Ok((Batch(true, 0), cur, a, b))
    else if b[cur].None? then
      var (res, a1) := FromFile(a[cur]);
      var a' := a[cur := a1];
      if res.n == 0 then DualNext(cur + 1, a', b) else Ok((res, cur, a', b))
    else
      var (ra, a1) := FromFile(a[cur]);
      var (rb, b1) := FromFile(b[cur].value);
      var a', b' := a[cur := a1], b[cur := Some(b1)];
      if ra.n < rb.n then Err(FewerInMate1)
      else if ra.n == 0 && rb.n == 0 then DualNext(cur + 1, a', b')
      else if rb.n < ra.n then Err(FewerInMate2)
      else Ok((ra, cur, a', b'))
  }

  /**
   * What DualNext promises: a batch is never short on one mate. On success
   * the index has not gone back, `(true, 0)` comes exactly when the index
   * has passed every source, and otherwise the batch is the stopping
   * source's next result, with the other mate's result equal in count for
   * a pair. An error names the mate whose result had fewer reads at some
   * source from `cur` on.
   */
  lemma {:induction false} DualNextSpec(cur: nat, a: seq<Results>, b: seq<Option<Results>>)
    requires |a| == |b| && cur <= |a|
    ensures DualNext(cur, a, b).Ok? ==>
      var (res, c, a', b') := DualNext(cur, a, b).value;
      && cur <= c <= |a| && |a'| == |a| && |b'| == |b|
      && (c == |a| <==> res == Batch(true, 0))
      && (c < |a| ==> res == FromFile(a[c]).0 && res.n > 0)
      && (c < |a| && b[c].Some? ==> FromFile(b[c].value).0.n == res.n)
    ensures DualNext(cur, a, b).Err? ==>
      exists i :: cur <= i < |a| && b[i].Some? && Mismatched(a[i], b[i].value, DualNext(cur, a, b).error)
    decreases |a| - cur
  {
    if cur < |a| {
      var a1 := FromFile(a[cur]).1;
      if b[cur].None? {
        if FromFile(a[cur]).0.n == 0 {
          DualNextSpec(cur + 1, a[cur := a1], b);
        }
      } else {
        var b1 := FromFile(b[cur].value).1;
        if DualNext(cur, a, b).Err? && FromFile(a[cur]).0.n != FromFile(b[cur].value).0.n {
          assert Mismatched(a[cur], b[cur].value, DualNext(cur, a, b).error);
        } else if FromFile(a[cur]).0.n == 0 && FromFile(b[cur].value).0.n == 0 {
          DualNextSpec(cur + 1, a[cur := a1], b[cur := Some(b1)]);
          if DualNext(cur, a, b).Err? {
            var i :| cur + 1 <= i < |a| && b[cur := Some(b1)][i].Some?
                     && Mismatched(a[cur := a1][i], b[cur := Some(b1)][i].value, DualNext(cur, a, b).error);
            assert a[cur := a1][i] == a[i] && b[cur := Some(b1)][i] == b[i];
          }
        }
      }
    }
  }

  /**
   * What DualNextAsWritten still promises: a count mismatch is the error,
   * never a short batch; on success the index has not gone back and a
   * pair's mates agree in count. Passing every source gives `(true, 0)`,
   * but the converse fails: a spent unpaired source's `(true, 0)` also
   * ends the walk (UnpairedSourceNotPassedOver).
   */
  lemma {:induction false} DualNextAsWrittenSpec(cur: nat, a: seq<Results>, b: seq<Option<Results>>)
    requires |a| == |b| && cur <= |a|
    ensures DualNextAsWritten(cur, a, b).Ok? ==>
      var (res, c, a', b') := DualNextAsWritten(cur, a, b).value;
      && cur <= c <= |a| && |a'| == |a| && |b'| == |b|
      && (c == |a| ==> res == Batch(true, 0))
      && (c < |a| ==> res == FromFile(a[c]).0 && (res.done || res.n > 0))
      && (c < |a| && b[c].Some? ==> FromFile(b[c].value).0.n == res.n && res.n > 0)
    ensures DualNextAsWritten(cur, a, b).Err? ==>
      exists i :: cur <= i < |a| && b[i].Some? && Mismatched(a[i], b[i].value, DualNextAsWritten(cur, a, b).error)
    decreases |a| - cur
  {
    if cur < |a| {
      var a1 := FromFile(a[cur]).1;
      if b[cur].None? {
        if !FromFile(a[cur]).0.done && FromFile(a[cur]).0.n == 0 {
          DualNextAsWrittenSpec(cur + 1, a[cur := a1], b);
        }
      } else {
        var b1 := FromFile(b[cur].value).1;
        if DualNextAsWritten(cur, a, b).Err? && FromFile(a[cur]).0.n != FromFile(b[cur].value).0.n {
          assert Mismatched(a[cur], b[cur].value, DualNextAsWritten(cur, a, b).error);
        } else if FromFile(a[cur]).0.n == 0 && FromFile(b[cur].value).0.n == 0 {
          DualNextAsWrittenSpec(cur + 1, a[cur := a1], b[cur := Some(b1)]);
          if DualNextAsWritten(cur, a, b).Err? {
            var i :| cur + 1 <= i < |a| && b[cur := Some(b1)][i].Some?
                     && Mismatched(a[cur := a1][i], b[cur := Some(b1)][i].value, DualNextAsWritten(cur, a, b).error);
            assert a[cur := a1][i] == a[i] && b[cur := Some(b1)][i] == b[i];
          }
        }
      }
    }
  }

  /** The mates' next results differ in count, and `e` names the one with fewer reads. */
  predicate Mismatched(ra: Results, rb: Results, e: Mismatch) {
    var na, nb := FromFile(ra).0.n, FromFile(rb).0.n;
    (e == FewerInMate1 && na < nb) || (e == FewerInMate2 && nb < na)
  }

  /**
   * The discrepancy: a spent unpaired source that returns `(true, 0)`
   * followed by an unpaired source with a read. The vector source's
   * `nextBatch` returns `(true, 0)` on every call, and so does a file
   * source of this model once its results are used up. As written the
   * composer stops at the first source and the second is never read;
   * DualNext moves on and returns its read.
   */
  lemma UnpairedSourceNotPassedOver()
    ensures var a: seq<Results>, b: seq<Option<Results>> := [[], [Batch(false, 1)]], [None, None];
      && DualNextAsWritten(0, a, b) == Ok((Batch(true, 0), 0, a, b))
      && DualNext(0, a, b) == Ok((Batch(false, 1), 1, [[], []], b))
  {
    var a: seq<Results>, b: seq<Option<Results>> := [[], [Batch(false, 1)]], [None, None];
    assert a[0 := []] == a;
    assert a[1][1..] == [];
    assert a[1 := []] == [[], []];
  }

  /** SoloPatternComposer with its shared index updated in place. */
  class SoloPatternComposer {
    var cur: nat
    var srcs: seq<Results>

    constructor (srcs: seq<Results>)
      ensures cur == 0 && this.srcs == srcs
    {
      cur := 0;
      this.srcs := srcs;
    }

    /** One call of source `c`'s `nextBatch`. */
    method SourceNextBatch(c: nat) returns (res: Batch)
      requires c < |srcs|
      modifies this
      ensures |srcs| == |old(srcs)| && cur == old(cur)
      ensures (res, srcs[c]) == FromFile(old(srcs[c]))
      ensures srcs == old(srcs)[c := srcs[c]]
    {
      var r := FromFile(srcs[c]);
      res := r.0;
      srcs := srcs[c := r.1];
    }

    /**
     * `nextBatch`: the local index follows `cur_`, which moves only by the
     * `cur + 1 > cur_` rule.
     */
    method NextBatch() returns (done: bool, nread: nat)
      requires cur <= |srcs|
      modifies this
      ensures cur <= |srcs|
      ensures (Batch(done, nread), cur, srcs) == SoloNext(old(cur), old(srcs))
    {
      var c := cur;
      while c < |srcs|
        invariant c == cur <= |srcs|
        invariant SoloNext(old(cur), old(srcs)) == SoloNext(cur, srcs)
        decreases |srcs| - c
      {
        ghost var s0 := srcs;
        var res := SourceNextBatch(c);
        while !res.done && res.n == 0
          invariant |srcs| == |s0| && cur == c
          invariant srcs == s0[c := srcs[c]]
          invariant Drain(s0[c]) == if !res.done && res.n == 0 then Drain(srcs[c]) else (res, srcs[c])
          decreases |srcs[c]| + if !res.done && res.n == 0 then 1 else 0
        {
          res := SourceNextBatch(c);
        }
        if res.n == 0 {
          if c + 1 > cur {
            cur := cur + 1;
          }
          c := cur;
          continue;
        }
        return res.done, res.n;
      }
      return true, 0;
    }
  }

  /** DualPatternComposer as written, with its shared index updated in place. */
  class DualPatternComposer {
    var cur: nat
    var srca: seq<Results>
    var srcb: seq<Option<Results>>

    predicate Valid()
      reads this
    {
      |srca| == |srcb| && cur <= |srca|
    }

    constructor (srca: seq<Results>, srcb: seq<Option<Results>>)
      requires |srca| == |srcb|
      ensures Valid() && cur == 0 && this.srca == srca && this.srcb == srcb
    {
      cur := 0;
      this.srca := srca;
      this.srcb := srcb;
    }

    /** `nextBatch`; the `throw 1` of a count mismatch is the Err result. */
    method NextBatch() returns (r: Result<Batch, Mismatch>)
      requires Valid()
      modifies this
      ensures var spec := DualNextAsWritten(old(cur), old(srca), old(srcb));
        && (r.Err? <==> spec.Err?)
        && (r.Err? ==> r.error == spec.error)
        && (r.Ok? ==> Valid() && spec.value == (r.value, cur, srca, srcb))
    {
      var c := cur;
      while c < |srca|
        invariant c == cur && Valid()
        invariant DualNextAsWritten(old(cur), old(srca), old(srcb)) == DualNextAsWritten(cur, srca, srcb)
        decreases |srca| - c
      {
        if srcb[c].None? {
          var (res, a1) := FromFile(srca[c]);
          srca := srca[c := a1];
          if !res.done && res.n == 0 {
            if c + 1 > cur {
              cur := cur + 1;
            }
            c := cur;
            continue;
          }
          return Ok(res);
        } else {
          var (resa, a1) := FromFile(srca[c]);
          var (resb, b1) := FromFile(srcb[c].value);
          srca, srcb := srca[c := a1], srcb[c := Some(b1)];
          if resa.n < resb.n {
            return Err(FewerInMate1);
          } else if resa.n == 0 && resb.n == 0 {
            if c + 1 > cur {
              cur := cur + 1;
            }
            c := cur;
            continue;
          } else if resb.n < resa.n {
            return Err(FewerInMate2);
          }
          return Ok(resa);
        }
      }
      return Ok(Batch(true, 0));
    }
  }
}
