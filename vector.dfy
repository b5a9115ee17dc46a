/**
 * The in-memory read source built from command-line strings
 * (`VectorPatternSource`): each string is `SEQ` or `SEQ:QUALS`, and the
 * constructor trims both parts and makes the qualities as long as the
 * sequence before storing them.
 */
module Vector {
  import opened Common

  /** One command-line string, already split at its first ':' by `tokenize`. */
  datatype Entry = Entry(read: Bytes, quals: Option<Bytes>)

  /** `erase(0, trim5)` then `erase(len - trim3)` on a string longer than both trims together. */
  function TrimBoth(s: Bytes, trim5: nat, trim3: nat): (r: Bytes)
    requires |s| > trim5 + trim3
    ensures |r| == |s| - trim5 - trim3
    ensures s == s[..trim5] + r + s[|s| - trim3..]
  {
    var front := if trim5 > 0 then s[trim5..] else s;
    if trim3 > 0 then front[..|front| - trim3] else front
  }

  /** The read's trim: a read no longer than both trims together is cleared. */
  function TrimRead(s: Bytes, trim5: nat, trim3: nat): (r: Bytes)
  {
    if |s| <= trim5 + trim3 then [] else TrimBoth(s, trim5, trim3)
  }

  /** The qualities' trim: a string no longer than both trims together is left as it is. */
  function TrimQuals(q: Bytes, trim5: nat, trim3: nat): (r: Bytes)
  {
    if |q| > trim5 + trim3 then TrimBoth(q, trim5, trim3) else q
  }

  /** Padding with 'I' up to `n`, or truncation down to `n`. */
  function Fit(q: Bytes, n: nat): (r: Bytes)
    ensures |r| == n
    ensures forall i :: 0 <= i < n ==> r[i] == if i < |q| then q[i] else 'I'
  {
    if |q| < n then q + seq(n - |q|, _ => 'I') else q[..n]
  }

  /** `installChars`: each character's nucleotide code. */
  function InstallChars(s: Bytes, t: Tables): (r: seq<Nuc>)
    ensures |r| == |s| && forall i :: 0 <= i < |s| ==> r[i] == t.asc2dna(s[i])
  {
    seq(|s|, i requires 0 <= i < |s| => t.asc2dna(s[i]))
  }

  /** What the constructor stores as an entry's qualities. */
  function EntryQuals(e: Entry, trim5: nat, trim3: nat): Bytes
  {
    var vq := if e.quals.Some? then e.quals.value else [];
    Fit(TrimQuals(vq, trim5, trim3), |TrimRead(e.read, trim5, trim3)|)
  }

  /** A read no longer than both trims together is trimmed away entirely, qualities included. */
  lemma ShortReadVanishes(e: Entry, trim5: nat, trim3: nat)
    requires |e.read| <= trim5 + trim3
    ensures TrimRead(e.read, trim5, trim3) == [] && EntryQuals(e, trim5, trim3) == []
  {
  }

  /** A longer read loses exactly `trim5` characters at the front and `trim3` at the back. */
  lemma LongReadTrimmed(e: Entry, trim5: nat, trim3: nat)
    requires |e.read| > trim5 + trim3
    ensures var r := TrimRead(e.read, trim5, trim3);
      && |r| == |e.read| - trim5 - trim3
      && r == e.read[trim5..|e.read| - trim3]
  {
    var r := TrimRead(e.read, trim5, trim3);
    assert e.read == e.read[..trim5] + r + e.read[|e.read| - trim3..];
    assert e.read[trim5..|e.read| - trim3] == (e.read[..trim5] + r + e.read[|e.read| - trim3..])[trim5..trim5 + |r|];
  }

  /** The stored qualities are exactly as long as the stored sequence. */
  lemma QualsMatchRead(e: Entry, trim5: nat, trim3: nat)
    ensures |EntryQuals(e, trim5, trim3)| == |TrimRead(e.read, trim5, trim3)|
  {
  }

  /** Without qualities every position gets the default 'I'. */
  lemma MissingQualsAreI(e: Entry, trim5: nat, trim3: nat)
    requires e.quals.None?
    ensures EntryQuals(e, trim5, trim3) == seq(|TrimRead(e.read, trim5, trim3)|, _ => 'I')
  {
  }

  /**
   * Qualities given one per base are trimmed exactly like the bases, so
   * neither padding nor truncation touches them.
   */
  lemma MatchingQualsTrimAlike(e: Entry, trim5: nat, trim3: nat)
    requires e.quals.Some? && |e.quals.value| == |e.read|
    ensures EntryQuals(e, trim5, trim3) == TrimRead(e.quals.value, trim5, trim3)
  {
    var q := e.quals.value;
    if |q| > trim5 + trim3 {
      var tq := TrimBoth(q, trim5, trim3);
      assert |tq| == |TrimRead(e.read, trim5, trim3)|;
      assert Fit(tq, |tq|) == tq;
    }
  }

  /** The padding loop followed by the truncation. */
  method FitQuals(vq: Bytes, n: nat) returns (r: Bytes)
    ensures r == Fit(vq, n)
  {
    r := vq;
    while |r| < n
      invariant |vq| <= |r| <= if |vq| < n then n else |vq|
      invariant r == vq + seq(|r| - |vq|, _ => 'I')
      decreases n - |r|
    {
      r := r + ['I'];
    }
    if |r| > n {
      r := r[..n];
    }
  }

  /**
   * The source's state after construction: the reads, their qualities,
   * the trim amounts requested for them, their names and the cursor.
   */
  class VectorSource {
    var v: seq<seq<Nuc>>
    var quals: seq<Bytes>
    var trimmed3: seq<nat>
    var trimmed5: seq<nat>
    var names: seq<Bytes>
    var cur: nat
    var skip: nat
    var paired: bool

    /** The lists describe one read per position. */
    predicate Valid()
      reads this
    {
      |quals| == |v| && |trimmed3| == |v| && |trimmed5| == |v| && |names| == |v|
      && forall i :: 0 <= i < |v| ==> |quals[i]| == |v[i]|
    }

    constructor (entries: seq<Entry>, skip: nat, trim5: nat, trim3: nat, t: Tables)
      ensures Valid() && |v| == |entries|
      ensures this.cur == skip && this.skip == skip && !paired
      ensures forall i :: 0 <= i < |entries| ==>
        && v[i] == InstallChars(TrimRead(entries[i].read, trim5, trim3), t)
        && quals[i] == EntryQuals(entries[i], trim5, trim3)
        && trimmed3[i] == trim3 && trimmed5[i] == trim5
        && names[i] == t.itoa10(i)
    {
      var v', quals', trimmed3', trimmed5', names' := [], [], [], [], [];
      var i := 0;
      while i < |entries|
        invariant i <= |entries|
        invariant |v'| == i && |quals'| == i && |trimmed3'| == i && |trimmed5'| == i && |names'| == i
        invariant forall k :: 0 <= k < i ==>
          && v'[k] == InstallChars(TrimRead(entries[k].read, trim5, trim3), t)
          && quals'[k] == EntryQuals(entries[k], trim5, trim3)
          && trimmed3'[k] == trim3 && trimmed5'[k] == trim5
          && names'[k] == t.itoa10(k)
      {
        var e := entries[i];
        var s := TrimRead(e.read, trim5, trim3);
        var vq := if e.quals.Some? then e.quals.value else [];
        vq := TrimQuals(vq, trim5, trim3);
        vq := FitQuals(vq, |s|);
        v' := v' + [InstallChars(s, t)];
        quals' := quals' + [vq];
        trimmed3' := trimmed3' + [trim3];
        trimmed5' := trimmed5' + [trim5];
        names' := names' + [t.itoa10(|names'|)];
        i := i + 1;
      }
      v, quals, trimmed3, trimmed5, names := v', quals', trimmed3', trimmed5', names';
      cur, this.skip, paired := skip, skip, false;
    }
  }
}
