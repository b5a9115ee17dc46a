/**
 * FASTA input: the light batcher FastaPatternSource::nextBatchFromFile
 * (pat.cpp:783-817), which cuts the input at each '>' into raw records, and
 * FastaPatternSource::parse (pat.cpp:819-875), which turns one raw record
 * into name, sequence and qualities.
 *
 * The open file is its bytes and a read position; `getc` past the end
 * returns -1 and leaves the position where it is.
 */
module Fasta {
  import opened Common
  import opened Reads

  datatype FormatError = NotFasta

  /**
   * One call's records after the first-record check: up to `k` records,
   * each a '>' followed by the bytes up to the next '>' (which is consumed)
   * or to the end of input (which makes the call done). The result is
   * `(done, records, position)`.
   */
  function Records(data: Bytes, pos: nat, k: nat): (r: (bool, seq<Bytes>, nat))
    requires pos <= |data|
    ensures pos <= r.2 <= |data| && |r.1| <= k
    ensures r.0 ==> r.2 == |data|
    ensures !r.0 ==> |r.1| == k
    decreases k
  {
    if k == 0 then (false, [], pos)
    else
      var e := Scan(data, pos, AtGt);
      var rec := ['>'] + data[pos..e];
      if e == |data| then (true, [rec], e)
      else
        var (d, rs, p) := Records(data, e + 1, k - 1);
        (d, [rec] + rs, p)
  }

  /**
   * `nextBatchFromFile` as written. On the first call, blank lines are
   * skipped and the input must then start with '>'. A call at the end of
   * input still stores a record holding only '>' and counts it.
   */
  function BatchAsWritten(data: Bytes, pos: nat, first: bool, maxBuf: nat): (r: Result<(bool, seq<Bytes>, nat), FormatError>)
    requires pos <= |data|
  {
    if first then
      var s := Scan(data, pos, PastNewlines);
      if s == |data| || data[s] != '>' then Err(NotFasta) else Ok(Records(data, s + 1, maxBuf))
    else Ok(Records(data, pos, maxBuf))
  }

  /** The batcher with the empty record at end of input dropped. */
  function Batch(data: Bytes, pos: nat, first: bool, maxBuf: nat): (r: Result<(bool, seq<Bytes>, nat), FormatError>)
    requires pos <= |data|
  {
    match BatchAsWritten(data, pos, first, maxBuf)
    case Err(e) => Err(e)
    case Ok((done, recs, p)) =>
      if done && recs != [] && Last(recs) == ['>'] then Ok((done, recs[..|recs| - 1], p))
      else Ok((done, recs, p))
  }

  function Last<T>(s: seq<T>): T
    requires s != []
  {
    s[|s| - 1]
  }

  /** The records laid end to end. */
  function Flatten(recs: seq<Bytes>): Bytes {
    if recs == [] then [] else recs[0] + Flatten(recs[1..])
  }

  /** One step of Records: the first record, then the rest of the call. */
  lemma RecordsStep(data: Bytes, pos: nat, k: nat)
    requires pos <= |data| && k > 0
    ensures var e := Scan(data, pos, AtGt);
      var rec := ['>'] + data[pos..e];
      Records(data, pos, k) ==
        if e == |data| then (true, [rec], e)
        else (Records(data, e + 1, k - 1).0, [rec] + Records(data, e + 1, k - 1).1, Records(data, e + 1, k - 1).2)
  {
  }

  /** Each record starts with '>' and holds no other. */
  predicate WellCut(recs: seq<Bytes>) {
    forall i :: 0 <= i < |recs| ==> |recs[i]| >= 1 && recs[i][0] == '>' && forall j :: 1 <= j < |recs[i]| ==> recs[i][j] != '>'
  }

  /** Every record of a call starts with '>' and holds no other. */
  lemma {:induction false} RecordsShape(data: Bytes, pos: nat, k: nat)
    requires pos <= |data|
    ensures WellCut(Records(data, pos, k).1)
    decreases k
  {
    if k > 0 {
      var e := Scan(data, pos, AtGt);
      var rec := ['>'] + data[pos..e];
      RecordsStep(data, pos, k);
      ScanSkips(data, pos, AtGt);
      assert forall j :: 1 <= j < |rec| ==> rec[j] == data[pos + j - 1];
      if e < |data| {
        RecordsShape(data, e + 1, k - 1);
        WellCutCons(rec, Records(data, e + 1, k - 1).1);
      } else {
        WellCutCons(rec, []);
      }
    }
  }

  lemma WellCutCons(rec: Bytes, rs: seq<Bytes>)
    requires |rec| >= 1 && rec[0] == '>' && (forall j :: 1 <= j < |rec| ==> rec[j] != '>') && WellCut(rs)
    ensures WellCut([rec] + rs)
  {
    forall i | 0 <= i < |[rec] + rs|
      ensures |([rec] + rs)[i]| >= 1 && ([rec] + rs)[i][0] == '>'
      ensures forall j :: 1 <= j < |([rec] + rs)[i]| ==> ([rec] + rs)[i][j] != '>'
    {
      if i > 0 {
        assert ([rec] + rs)[i] == rs[i - 1];
      }
    }
  }

  /**
   * Laid end to end, the records give '>' followed by every byte consumed
   * except a final '>', which opens the next call's first record.
   */
  lemma {:induction false} RecordsRoundTrip(data: Bytes, pos: nat, k: nat)
    requires pos <= |data| && k > 0
    ensures RoundTrips(data, pos, Records(data, pos, k))
    decreases k
  {
    var e := Scan(data, pos, AtGt);
    if e < |data| && k > 1 {
      RecordsRoundTrip(data, e + 1, k - 1);
      RoundTripCons(data, pos, k);
    } else {
      RoundTripOne(data, pos, k);
    }
  }

  /** Records' result `r` from `pos` lays end to end into the input it consumed. */
  predicate RoundTrips(data: Bytes, pos: nat, r: (bool, seq<Bytes>, nat))
    requires pos <= r.2 <= |data|
  {
    && (!r.0 ==> pos < r.2 && data[r.2 - 1] == '>')
    && Flatten(r.1) == ['>'] + data[pos..if r.0 then r.2 else r.2 - 1]
  }

  /** A call that stores one record. */
  lemma RoundTripOne(data: Bytes, pos: nat, k: nat)
    requires pos <= |data| && k > 0
    requires Scan(data, pos, AtGt) == |data| || k == 1
    ensures RoundTrips(data, pos, Records(data, pos, k))
  {
    var e := Scan(data, pos, AtGt);
    var rec := ['>'] + data[pos..e];
    RecordsStep(data, pos, k);
    if e == |data| {
      assert Records(data, pos, k) == (true, [rec], e);
    } else {
      assert Stops(AtGt, data[e]);
      assert Records(data, e + 1, 0) == (false, [], e + 1);
      assert [rec] + [] == [rec];
    }
    FlattenCons(rec, []);
  }

  /** A call that stores a record and then goes on. */
  lemma RoundTripCons(data: Bytes, pos: nat, k: nat)
    requires pos <= |data| && k > 1
    requires Scan(data, pos, AtGt) < |data|
    requires RoundTrips(data, Scan(data, pos, AtGt) + 1, Records(data, Scan(data, pos, AtGt) + 1, k - 1))
    ensures RoundTrips(data, pos, Records(data, pos, k))
  {
    var e := Scan(data, pos, AtGt);
    RecordsStep(data, pos, k);
    RoundTripJoin(data, pos, e, Records(data, e + 1, k - 1));
  }

  /** The text of the first record, ahead of a round trip of the rest, is a round trip from its start. */
  lemma RoundTripJoin(data: Bytes, pos: nat, e: nat, r: (bool, seq<Bytes>, nat))
    requires pos <= e < |data| && data[e] == '>' && e + 1 <= r.2 <= |data|
    requires RoundTrips(data, e + 1, r)
    ensures RoundTrips(data, pos, (r.0, [['>'] + data[pos..e]] + r.1, r.2))
  {
    var rec: Bytes := ['>'] + data[pos..e];
    var q := if r.0 then r.2 else r.2 - 1;
    FlattenCons(rec, r.1);
    SliceSplit(data, pos, e, e + 1, q);
  }

  /** A slice split around one '>' byte. */
  lemma SliceSplit(data: Bytes, a: nat, e: nat, f: nat, q: nat)
    requires a <= e < f == e + 1 <= q <= |data| && data[e] == '>'
    ensures (['>'] + data[a..e]) + (['>'] + data[f..q]) == ['>'] + data[a..q]
  {
    assert data[a..q] == data[a..e] + [data[e]] + data[f..q];
  }

  lemma FlattenCons(rec: Bytes, rs: seq<Bytes>)
    ensures Flatten([rec] + rs) == rec + Flatten(rs)
  {
    assert ([rec] + rs)[1..] == rs;
  }

  /**
   * The discrepancy: at end of input, a later call reports done with one
   * read whose raw text is just ">", every time it is called; the corrected
   * batcher reports done with no reads.
   */
  lemma EofGivesEmptyRecord(data: Bytes, maxBuf: nat)
    requires maxBuf > 0
    ensures BatchAsWritten(data, |data|, false, maxBuf) == Ok((true, [['>']], |data|))
    ensures Batch(data, |data|, false, maxBuf) == Ok((true, [], |data|))
  {
    assert Scan(data, |data|, AtGt) == |data|;
    assert ['>'] + data[|data|..|data|] == ['>'];
    RecordsStep(data, |data|, maxBuf);
    assert [['>']][..0] == [];
  }

  /** The corrected batcher drops only an empty final record and nothing else. */
  lemma {:induction false} BatchDropsOnlyEmptyTail(data: Bytes, pos: nat, first: bool, maxBuf: nat)
    requires pos <= |data|
    ensures BatchAsWritten(data, pos, first, maxBuf).Err? <==> Batch(data, pos, first, maxBuf).Err?
    ensures Batch(data, pos, first, maxBuf).Ok? ==>
      var (d, recs, p) := BatchAsWritten(data, pos, first, maxBuf).value;
      var (d', recs', p') := Batch(data, pos, first, maxBuf).value;
      && d == d' && p == p'
      && (recs' == recs || (d && recs' + [['>']] == recs))
  {
  }

  /** The FASTA light batcher's fields: the open file, its position and the first-record flag. */
  class FastaPatternSource {
    const data: Bytes
    var pos: nat
    var first: bool

    predicate Valid()
      reads this
    {
      pos <= |data|
    }

    constructor (data: Bytes)
      ensures Valid() && this.data == data && pos == 0 && first
    {
      this.data := data;
      pos := 0;
      first := true;
    }

    /** `fb_.get()`. */
    method GetC() returns (c: int)
      requires Valid()
      modifies this
      ensures Valid() && first == old(first)
      ensures c == Get(data, old(pos)) && pos == if old(pos) < |data| then old(pos) + 1 else old(pos)
    {
      c := Get(data, pos);
      if pos < |data| {
        pos := pos + 1;
      }
    }

    /** The inner loop: one record, up to the next '>' or the end of input. */
    method ReadRecord() returns (rec: Bytes, eof: bool)
      requires Valid()
      modifies this
      ensures Valid() && first == old(first)
      ensures var e := Scan(data, old(pos), AtGt);
        && rec == ['>'] + data[old(pos)..e] && eof == (e == |data|)
        && pos == if eof then e else e + 1
    {
      rec := ['>'];
      ghost var p0 := pos;
      while true
        invariant Valid() && first == old(first) && p0 <= pos
        invariant rec == ['>'] + data[p0..pos]
        invariant forall j :: p0 <= j < pos ==> data[j] != '>'
        decreases |data| - pos
      {
        var c := GetC();
        if c < 0 || c == '>' as int {
          eof := c < 0;
          ScanUnique(data, p0, AtGt, if eof then pos else pos - 1);
          return;
        }
        rec := rec + [c as char];
      }
    }

    /** The first call's check: skip blank lines, then the input must have '>'. */
    method SkipToFirstRecord() returns (ok: bool)
      requires Valid()
      modifies this
      ensures Valid() && first == old(first)
      ensures var s := Scan(data, old(pos), PastNewlines);
        && ok == (s < |data| && data[s] == '>')
        && (ok ==> pos == s + 1)
    {
      ghost var p0 := pos;
      var c := GetC();
      ghost var i := p0;
      while IsNewline(c)
        invariant Valid() && first == old(first) && p0 <= i <= |data| && c == Get(data, i)
        invariant pos == if i < |data| then i + 1 else i
        invariant forall j :: p0 <= j < i ==> IsNewline(data[j] as int)
        decreases |data| - i
      {
        c := GetC();
        i := i + 1;
      }
      ScanUnique(data, p0, PastNewlines, i);
      ok := c == '>' as int;
    }

    /** The outer loop: up to `maxBuf` records, until the end of input. */
    method ReadRecords(maxBuf: nat) returns (done: bool, recs: seq<Bytes>)
      requires Valid()
      modifies this
      ensures Valid() && first == old(first)
      ensures Records(data, old(pos), maxBuf) == (done, recs, pos)
    {
      ghost var start := pos;
      done := false;
      recs := [];
      var readi := 0;
      assert recs + Records(data, pos, maxBuf).1 == Records(data, pos, maxBuf).1;
      while readi < maxBuf && !done
        invariant Valid() && first == old(first) && start <= pos && readi <= maxBuf && |recs| == readi
        invariant done ==> Records(data, start, maxBuf) == (true, recs, pos)
        invariant !done ==> Records(data, start, maxBuf) == Prepend(recs, Records(data, pos, maxBuf - readi))
        decreases maxBuf - readi
      {
        ghost var p0 := pos;
        var rec, eof := ReadRecord();
        RecordsPrependStep(data, start, maxBuf, recs, p0, maxBuf - readi, rec, eof, pos);
        recs := recs + [rec];
        done := eof;
        readi := readi + 1;
      }
      if !done {
        assert recs + Records(data, pos, 0).1 == recs;
      }
    }

    /** `nextBatchFromFile`: the records are the raw texts of the buffer's first reads. */
    method NextBatchFromFile(maxBuf: nat) returns (r: Result<(bool, seq<Bytes>), FormatError>)
      requires Valid()
      modifies this
      ensures var spec := BatchAsWritten(data, old(pos), old(first), maxBuf);
        && (r.Err? <==> spec.Err?)
        && (r.Ok? ==> Valid() && !first && spec.value == (r.value.0, r.value.1, pos))
    {
      if first {
        var ok := SkipToFirstRecord();
        if !ok {
          return Err(NotFasta);
        }
        first := false;
      }
      var done, recs := ReadRecords(maxBuf);
      return Ok((done, recs));
    }
  }

  /** A call's records after the ones already stored. */
  function Prepend(recs: seq<Bytes>, r: (bool, seq<Bytes>, nat)): (bool, seq<Bytes>, nat) {
    (r.0, recs + r.1, r.2)
  }

  /** One turn of the outer record loop, stated on `Records`. */
  lemma RecordsPrependStep(data: Bytes, start: nat, maxBuf: nat, recs: seq<Bytes>, pos: nat, k: nat, rec: Bytes, eof: bool, pos': nat)
    requires start <= |data| && pos <= |data| && k > 0
    requires Records(data, start, maxBuf) == Prepend(recs, Records(data, pos, k))
    requires var e := Scan(data, pos, AtGt);
      && rec == ['>'] + data[pos..e] && eof == (e == |data|)
      && pos' == if eof then e else e + 1
    ensures eof ==> Records(data, start, maxBuf) == (true, recs + [rec], pos')
    ensures !eof ==> pos' <= |data| && Records(data, start, maxBuf) == Prepend(recs + [rec], Records(data, pos', k - 1))
  {
    RecordsStep(data, pos, k);
    if !eof {
      assert recs + ([rec] + Records(data, pos', k - 1).1) == (recs + [rec]) + Records(data, pos', k - 1).1;
    }
  }

  /**
   * FASTA `parse` of one record, whose raw text starts with '>': the name
   * runs to the first newline, blank lines follow, and the sequence line
   * runs to the next '\n'. A record without that structure would make the
   * parser read past its text.
   */
  function ParseRecord(buf: Bytes, trim5: nat, trim3: nat, defaultName: Bytes, t: Tables): (r: Result<Fields, ParseError>)
    requires |buf| >= 1
    ensures r.Ok? ==> r.value.qual == DefaultQuals(|r.value.patFw|)
  {
    var e := Scan(buf, 1, AtNewline);
    if e == |buf| then Err(Truncated)
    else
      var s := Scan(buf, e + 1, PastNewlines);
      if s == |buf| then Err(Truncated)
      else
        var n := Scan(buf, s, AtLineFeed);
        if n == |buf| then Err(Truncated)
        else Ok(FieldsAt(buf, e, s, n, trim5, trim3, defaultName, t))
  }

  /**
   * The fields of a record whose name line ends at `e` and whose sequence
   * line is `buf[s..n]`: an empty name becomes `defaultName`, the qualities
   * are all 'I'.
   */
  function FieldsAt(buf: Bytes, e: nat, s: nat, n: nat, trim5: nat, trim3: nat, defaultName: Bytes, t: Tables): (f: Fields)
    requires 1 <= e <= s <= n <= |buf|
    ensures f.qual == DefaultQuals(|f.patFw|)
  {
    var bases := Bases(buf, s, n, t);
    var kept := Drop(bases, trim5);
    var patFw := TrimEnd(kept, trim3);
    var name := buf[1..e];
    Fields(if name == [] then defaultName else name, patFw, DefaultQuals(|patFw|), |bases| - |kept|, TrimmedAmount(kept, trim3))
  }

  /**
   * The 5' and 3' trims: the sequence is the line's nucleotides with
   * `trimmed5` removed from the front and `trimmed3` from the back, and
   * each trimmed amount is what was asked for unless the read ran out.
   */
  lemma TrimsAccountForBases(buf: Bytes, trim5: nat, trim3: nat, defaultName: Bytes, t: Tables)
    requires |buf| >= 1 && ParseRecord(buf, trim5, trim3, defaultName, t).Ok?
    ensures var f := ParseRecord(buf, trim5, trim3, defaultName, t).value;
      var s := Scan(buf, Scan(buf, 1, AtNewline) + 1, PastNewlines);
      var bases := Bases(buf, s, Scan(buf, s, AtLineFeed), t);
      && f.trimmed5 + |f.patFw| + f.trimmed3 == |bases|
      && f.patFw == bases[f.trimmed5..f.trimmed5 + |f.patFw|]
      && f.trimmed5 <= trim5 && f.trimmed3 <= trim3
      && (f.trimmed5 < trim5 || f.trimmed3 < trim3 ==> f.patFw == [])
  {
  }

  /** The parse's result once the name line, the blank lines and the sequence line have been read. */
  lemma ParseRecordParts(buf: Bytes, trim5: nat, trim3: nat, defaultName: Bytes, t: Tables, s: nat, nchar: nat, kept: seq<Nuc>)
    requires |buf| >= 1
    requires var e := Scan(buf, 1, AtNewline);
      e < |buf| && s == Scan(buf, e + 1, PastNewlines) && s < |buf|
    requires var n := Scan(buf, s, AtLineFeed);
      n < |buf| && nchar == |Bases(buf, s, n, t)| && kept == Drop(Bases(buf, s, n, t), trim5)
    ensures var name := buf[1..Scan(buf, 1, AtNewline)];
      var patFw := TrimEnd(kept, trim3);
      ParseRecord(buf, trim5, trim3, defaultName, t) ==
        Ok(Fields(if name == [] then defaultName else name, patFw, DefaultQuals(|patFw|), nchar - |kept|, TrimmedAmount(kept, trim3)))
  {
    var e := Scan(buf, 1, AtNewline);
    var n := Scan(buf, s, AtLineFeed);
    assert ParseRecord(buf, trim5, trim3, defaultName, t) == Ok(FieldsAt(buf, e, s, n, trim5, trim3, defaultName, t));
  }

  /** One record's parse into its fields; nothing else changes. */
  method ParseFields(buf: Bytes, trim5: nat, trim3: nat, readCnt: nat, t: Tables) returns (ok: bool, f: Fields)
    requires |buf| >= 1
    ensures var spec := ParseRecord(buf, trim5, trim3, t.itoa10(readCnt), t);
      && ok == spec.Ok?
      && (ok ==> f == spec.value)
  {
    f := Fields([], [], [], 0, 0);
    var ok1, name, cur := NameLine(buf, 1);
    if !ok1 {
      return false, f;
    }
    var ok2, s := SkipNewlines(buf, cur);
    if !ok2 {
      return false, f;
    }
    var ok3, nchar, kept, _ := SequenceLine(buf, s, AtLineFeed, trim5, t);
    if !ok3 {
      return false, f;
    }
    ParseRecordParts(buf, trim5, trim3, t.itoa10(readCnt), t, s, nchar, kept);
    var patFw := TrimEnd(kept, trim3);
    var qual: Bytes := [];
    for i := 0 to |patFw|
      invariant qual == DefaultQuals(i)
    {
      qual := qual + ['I'];
    }
    if name == [] {
      name := t.itoa10(readCnt);
    }
    return true, Fields(name, patFw, qual, nchar - |kept|, TrimmedAmount(kept, trim3));
  }

  /** One mate's parse: fills an empty read from its raw text. */
  method ParseOne(r: Read, trim5: nat, trim3: nat, readCnt: nat, t: Tables) returns (ok: bool)
    requires |r.readOrigBuf| >= 1
    modifies r
    ensures r.readOrigBuf == old(r.readOrigBuf) && r.parsed == old(r.parsed)
    ensures var spec := ParseRecord(r.readOrigBuf, trim5, trim3, t.itoa10(readCnt), t);
      && ok == spec.Ok?
      && (ok ==> Fields(r.name, r.patFw, r.qual, r.trimmed5, r.trimmed3) == spec.value)
  {
    var f;
    ok, f := ParseFields(r.readOrigBuf, trim5, trim3, readCnt, t);
    if ok {
      r.name, r.patFw, r.qual, r.trimmed5, r.trimmed3 := f.name, f.patFw, f.qual, f.trimmed5, f.trimmed3;
    }
  }

  /** The two reads of a pair. */
  datatype Mate = MateA | MateB

  /**
   * The order of the mate parses as written, within `fuel` calls: after
   * parsing one mate, `parse` recurses on the other when it has raw text
   * and an empty sequence, which is both "not parsed yet" and "parsed to an
   * empty sequence". `emptyA`/`emptyB` say whether a mate's sequence is
   * empty once parsed, `parsedOther` whether the other mate was parsed
   * before this call; mate A always has raw text. None: out of fuel.
   */
  function CallsAsWritten(x: Mate, parsedOther: bool, emptyA: bool, emptyB: bool, hasB: bool, fuel: nat): Option<seq<Mate>>
    decreases fuel
  {
    if fuel == 0 then None
    else
      var y := if x == MateA then MateB else MateA;
      var yHasText := y == MateA || hasB;
      var yEmpty := !parsedOther || (if y == MateA then emptyA else emptyB);
      if yHasText && yEmpty then
        match CallsAsWritten(y, true, emptyA, emptyB, hasB, fuel - 1)
        case None => None
        case Some(cs) => Some([x] + cs)
      else Some([x])
  }

  /** When both mates trim to empty sequences the recursion never ends, whatever the fuel. */
  lemma {:induction false} BothEmptyNeverEnds(x: Mate, parsedOther: bool, fuel: nat)
    ensures CallsAsWritten(x, parsedOther, true, true, true, fuel) == None
    decreases fuel
  {
    if fuel > 0 {
      BothEmptyNeverEnds(if x == MateA then MateB else MateA, true, fuel - 1);
    }
  }

  /** When only the first mate trims to empty, it is parsed a second time, on top of its first parse. */
  lemma EmptyFirstMateParsedTwice(fuel: nat)
    requires fuel >= 3
    ensures CallsAsWritten(MateA, false, true, false, true, fuel) == Some([MateA, MateB, MateA])
  {
    assert CallsAsWritten(MateA, true, true, false, true, fuel - 2) == Some([MateA]);
    assert [MateB] + [MateA] == [MateB, MateA];
    assert CallsAsWritten(MateB, true, true, false, true, fuel - 1) == Some([MateB, MateA]);
    assert [MateA] + [MateB, MateA] == [MateA, MateB, MateA];
  }

  /** Otherwise the recursion parses each mate with raw text once, first A, then B. */
  lemma NonEmptyFirstMateParsedOnce(emptyB: bool, hasB: bool, fuel: nat)
    requires fuel >= 2
    ensures CallsAsWritten(MateA, false, false, emptyB, hasB, fuel) == Some(if hasB then [MateA, MateB] else [MateA])
  {
    if hasB {
      assert CallsAsWritten(MateB, true, false, emptyB, hasB, fuel - 1) == Some([MateB]);
      assert [MateA] + [MateB] == [MateA, MateB];
    }
  }

  /** Two mates whose sequences trim to empty: a 5' trim of 2 on 2-base reads. */
  lemma ShortMatesTrimToEmpty(t: Tables, d: Bytes)
    ensures ParseRecord(">a\nAC\n", 2, 0, d, t).Ok?
    ensures ParseRecord(">a\nAC\n", 2, 0, d, t).value.patFw == []
  {
    var buf: Bytes := ">a\nAC\n";
    ScanUnique(buf, 1, AtNewline, 2);
    ScanUnique(buf, 3, PastNewlines, 3);
    ScanUnique(buf, 3, AtLineFeed, 5);
    assert |Bases(buf, 3, 5, t)| == 2;
  }

  /**
   * `parse` with each mate parsed once: `parsed` marks a parsed mate, as
   * the FASTQ parser does, so that an empty sequence no longer reads as
   * "not parsed yet".
   */
  method Parse(r: Read, rb: Read, trim5: nat, trim3: nat, readCnt: nat, t: Tables) returns (ok: bool)
    requires r != rb && |r.readOrigBuf| >= 1
    modifies r, rb
    ensures r.readOrigBuf == old(r.readOrigBuf) && rb.readOrigBuf == old(rb.readOrigBuf)
    ensures var sa := ParseRecord(r.readOrigBuf, trim5, trim3, t.itoa10(readCnt), t);
      var parseB := rb.readOrigBuf != [] && !old(rb.parsed);
      var sb := if parseB then ParseRecord(rb.readOrigBuf, trim5, trim3, t.itoa10(readCnt), t) else Ok(Fields([], [], [], 0, 0));
      && ok == (sa.Ok? && sb.Ok?)
      && (sa.Ok? ==> r.parsed && Fields(r.name, r.patFw, r.qual, r.trimmed5, r.trimmed3) == sa.value)
      && (ok && parseB ==> rb.parsed && Fields(rb.name, rb.patFw, rb.qual, rb.trimmed5, rb.trimmed3) == sb.value)
  {
    ok := ParseOne(r, trim5, trim3, readCnt, t);
    if !ok {
      return;
    }
    r.parsed := true;
    if rb.readOrigBuf != [] && !rb.parsed {
      ok := ParseOne(rb, trim5, trim3, readCnt, t);
      if ok {
        rb.parsed := true;
      }
    }
  }
}
