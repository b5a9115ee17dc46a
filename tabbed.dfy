/**
 * The field parsers of the tab-delimited read source: `parseName` reads
 * the name field into one read (and its mate), `parseSeq` reads a
 * sequence field, applying the 5' trim while it reads and the 3' trim at
 * the end. Both read their input one character at a time from the
 * source's file buffer, modelled as the text and a cursor into it.
 */
module Tabbed {
  import opened Common
  import opened Reads

  /** What a field parser returns, leaves in the read and where the cursor ends. */
  datatype Field<T> = Field(ret: int, value: T, next: nat)

  /** Where the name loop stops: the first `upto` or newline at or after `from`, else the end of the text. */
  function NameEnd(data: Bytes, from: nat, upto: Byte): (j: nat)
    requires from <= |data|
    ensures from <= j <= |data|
    ensures j < |data| ==> data[j] == upto || IsNewline(data[j] as int)
    ensures forall k :: from <= k < j ==> data[k] != upto && !IsNewline(data[k] as int)
    decreases |data| - from
  {
    if from == |data| || data[from] == upto || IsNewline(data[from] as int) then from
    else NameEnd(data, from + 1, upto)
  }

  /**
   * `parseName`: the name is the text before `upto`, or `defaultName`
   * (the read counter in decimal) when that text is empty. Reaching the
   * end of the text or a line end first fails with -1, leaving in the
   * read what was collected so far.
   */
  function NameField(data: Bytes, from: nat, upto: Byte, defaultName: Bytes): (f: Field<Bytes>)
    requires from <= |data|
    ensures f.ret == -1 || f.ret == |f.value|
    ensures from <= f.next <= |data|
  {
    var j := NameEnd(data, from, upto);
    if j == |data| then Field(-1, data[from..], |data|)
    else if data[j] != upto then Field(-1, data[from..j], j + 1)
    else
      var name := if j == from then defaultName else data[from..j];
      Field(|name|, name, j + 1)
  }

  /** A name field ended by `upto` with no line end before it is parsed whatever follows. */
  lemma NameFieldAt(data: Bytes, from: nat, upto: Byte, defaultName: Bytes, j: nat)
    requires from <= j < |data| && data[j] == upto
    requires forall k :: from <= k < j ==> data[k] != upto && !IsNewline(data[k] as int)
    ensures var f := NameField(data, from, upto, defaultName);
      && f.next == j + 1 && f.ret == |f.value|
      && f.value == if j == from then defaultName else data[from..j]
  {
    var e := NameEnd(data, from, upto);
    if e < j {
      assert false;
    }
  }

  /** `NameField` once the loop has stopped at `i`: at `upto`, at a line end, or at the end of the text. */
  lemma NameFieldStops(data: Bytes, from: nat, upto: Byte, defaultName: Bytes, i: nat)
    requires from <= i <= |data|
    requires forall k :: from <= k < i ==> data[k] != upto && !IsNewline(data[k] as int)
    requires i < |data| ==> data[i] == upto || IsNewline(data[i] as int)
    ensures NameField(data, from, upto, defaultName) ==
      if i == |data| then Field(-1, data[from..], |data|)
      else if data[i] != upto then Field(-1, data[from..i], i + 1)
      else var name := if i == from then defaultName else data[from..i]; Field(|name|, name, i + 1)
  {
    var e := NameEnd(data, from, upto);
    if e < i {
      assert false;
    }
  }

  /** A name parse fails exactly when a line end or the end of the text comes before any `upto`. */
  lemma NameFieldFails(data: Bytes, from: nat, upto: Byte, defaultName: Bytes)
    requires from <= |data|
    ensures NameField(data, from, upto, defaultName).ret < 0 <==>
      forall k :: from <= k < |data| && data[k] == upto ==>
        exists m :: from <= m < k && IsNewline(data[m] as int)
  {
    var j := NameEnd(data, from, upto);
    if NameField(data, from, upto, defaultName).ret >= 0 {
      assert data[j] == upto;
      assert !exists m :: from <= m < j && IsNewline(data[m] as int);
    } else if j < |data| {
      forall k | from <= k < |data| && data[k] == upto
        ensures exists m :: from <= m < k && IsNewline(data[m] as int)
      {
        assert IsNewline(data[j] as int) && j < k;
      }
    }
  }

  /** Where the sequence loop stops: the first `upto` at or after `from`, else the end of the text. */
  function UptoEnd(data: Bytes, from: nat, upto: Byte): (j: nat)
    requires from <= |data|
    ensures from <= j <= |data|
    ensures j < |data| ==> data[j] == upto
    ensures forall k :: from <= k < j ==> data[k] != upto
    decreases |data| - from
  {
    if from == |data| || data[from] == upto then from else UptoEnd(data, from + 1, upto)
  }

  /** The nucleotides of the letters in `data[lo..hi]`; every other character is skipped. */
  function Letters(data: Bytes, lo: nat, hi: nat, t: Tables): (r: seq<Nuc>)
    requires lo <= hi <= |data|
    ensures |r| <= hi - lo
    decreases hi
  {
    if hi == lo then []
    else Letters(data, lo, hi - 1, t) + (if IsAlpha(data[hi - 1] as int) then [t.asc2dna(data[hi - 1])] else [])
  }

  /**
   * One turn of the sequence loop on the letters: the character at `i`,
   * if there is one, is consumed, and a letter extends the letters and,
   * once the 5' trim is used up, the trimmed letters.
   */
  lemma NextLetter(data: Bytes, start: nat, i: nat, trim5: nat, t: Tables, letters: seq<Nuc>) returns (i': nat, letters': seq<Nuc>)
    requires start <= i <= |data| && letters == Letters(data, start, i, t)
    ensures i' == (if i < |data| then i + 1 else i) && letters' == Letters(data, start, i', t)
    ensures var alpha := IsAlpha(Get(data, i));
      && (alpha ==> i < |data| && letters' == letters + [t.asc2dna(data[i])])
      && (!alpha ==> letters' == letters)
      && Drop(letters', trim5) == if alpha && |letters| >= trim5 then Drop(letters, trim5) + [t.asc2dna(data[i])] else Drop(letters, trim5)
  {
    if i < |data| {
      i' := i + 1;
      letters' := Letters(data, start, i', t);
      if IsAlpha(data[i] as int) {
        DropStep(letters, [t.asc2dna(data[i])], trim5);
      }
    } else {
      i', letters' := i, letters;
    }
  }

  /** `SeqField` once the loop has stopped at `i`: at the terminator, or at the end of the text. */
  lemma SeqFieldAt(data: Bytes, from: nat, upto: Byte, trim5: nat, trim3: nat, t: Tables, i: nat, letters: seq<Nuc>)
    requires from <= i <= |data| && letters == Letters(data, from, i, t)
    requires forall k :: from <= k < i ==> data[k] != upto
    requires i < |data| ==> data[i] == upto
    ensures SeqField(data, from, upto, trim5, trim3, t) ==
      if i == |data| then SeqParse(-1, Drop(letters, trim5), |letters|, |data|)
      else SeqParse(|TrimEnd(Drop(letters, trim5), trim3)|, TrimEnd(Drop(letters, trim5), trim3), |letters|, i + 1)
  {
    var e := UptoEnd(data, from, upto);
    if e < i {
      assert false;
    }
  }

  /** What `parseSeq` reads: the letters up to `upto`, and how many letters it counted. */
  datatype SeqParse = SeqParse(ret: int, patFw: seq<Nuc>, letters: nat, next: nat)

  /**
   * `parseSeq`: the letters before `upto`, less `trim5` at the front and
   * `trim3` at the back. With no `upto` left it fails with -1, leaving the
   * 5'-trimmed letters read so far and not applying the 3' trim.
   */
  function SeqField(data: Bytes, from: nat, upto: Byte, trim5: nat, trim3: nat, t: Tables): (f: SeqParse)
    requires from <= |data|
    ensures f.ret == -1 || f.ret == |f.patFw|
    ensures from <= f.next <= |data|
  {
    var e := UptoEnd(data, from, upto);
    var bases := Letters(data, from, e, t);
    if e == |data| then SeqParse(-1, Drop(bases, trim5), |bases|, |data|)
    else
      var patFw := TrimEnd(Drop(bases, trim5), trim3);
      SeqParse(|patFw|, patFw, |bases|, e + 1)
  }

  /** A sequence parse fails exactly when no `upto` is left. */
  lemma SeqFieldFails(data: Bytes, from: nat, upto: Byte, trim5: nat, trim3: nat, t: Tables)
    requires from <= |data|
    ensures SeqField(data, from, upto, trim5, trim3, t).ret < 0 <==> forall k :: from <= k < |data| ==> data[k] != upto
  {
    var e := UptoEnd(data, from, upto);
    if e < |data| {
      assert data[e] == upto;
    }
  }

  /**
   * A parsed sequence is the field's letters with exactly `trim5` taken
   * off the front and `trim3` off the back, or nothing when there are no
   * more letters than both trims together.
   */
  lemma SeqFieldTrims(data: Bytes, from: nat, upto: Byte, trim5: nat, trim3: nat, t: Tables)
    requires from <= |data|
    ensures var f := SeqField(data, from, upto, trim5, trim3, t);
      var bases := Letters(data, from, UptoEnd(data, from, upto), t);
      f.ret >= 0 ==>
        && |f.patFw| == (if |bases| > trim5 + trim3 then |bases| - trim5 - trim3 else 0)
        && (|bases| > trim5 + trim3 ==> f.patFw == bases[trim5..|bases| - trim3])
  {
    var bases := Letters(data, from, UptoEnd(data, from, upto), t);
    var d := Drop(bases, trim5);
    if |bases| > trim5 + trim3 {
      assert d == bases[trim5..];
      assert TrimEnd(d, trim3) == bases[trim5..][..|d| - trim3];
    }
  }

  /** The tab-delimited source's file buffer and read counter. */
  class TabbedSource {
    /** The input text the file buffer serves, and the position of its next character. */
    var data: Bytes
    var pos: nat
    var readCnt: nat

    predicate Valid()
      reads this
    {
      pos <= |data|
    }

    /** `fb_.get()`: the next character, or -1 at the end of the text. */
    method Get() returns (c: int)
      requires Valid()
      modifies this`pos
      ensures Valid() && c == Common.Get(data, old(pos))
      ensures pos == if old(pos) < |data| then old(pos) + 1 else old(pos)
    {
      c := Common.Get(data, pos);
      if pos < |data| {
        pos := pos + 1;
      }
    }

    constructor (data: Bytes, readCnt: nat)
      ensures Valid() && this.data == data && pos == 0 && this.readCnt == readCnt
    {
      this.data, pos, this.readCnt := data, 0, readCnt;
    }

    /**
     * `parseName`: reads the name field into `r.name` and, when a mate is
     * given, into `r2.name` as well.
     */
    method ParseName(r: Read, r2: Read?, upto: Byte, t: Tables) returns (ret: int)
      requires Valid() && r2 != r
      modifies this`pos, r`name, (if r2 == null then {} else {r2})`name
      ensures Valid()
      ensures var f := NameField(data, old(pos), upto, t.itoa10(readCnt));
        && ret == f.ret && r.name == f.value && pos == f.next
        && (r2 != null ==> r2.name == f.value)
    {
      ghost var start := pos;
      if r2 != null {
        r2.name := [];
      }
      r.name := [];
      var name: Bytes := [];
      ghost var i := start;
      var c := Get();
      while c >= 0 && c != upto as int && !IsNewline(c)
        invariant start <= i <= |data|
        invariant c == Common.Get(data, i) && pos == if i < |data| then i + 1 else i
        invariant forall k :: start <= k < i ==> data[k] != upto && !IsNewline(data[k] as int)
        invariant name == data[start..i]
        modifies this`pos
        decreases |data| - i
      {
        SliceSnoc(data, start, i);
        name := name + [c as char];
        i := i + 1;
        c := Get();
      }
      NameFieldStops(data, start, upto, t.itoa10(readCnt), i);
      if c == upto as int && |name| == 0 {
        name := t.itoa10(readCnt);
      }
      r.name := name;
      if r2 != null {
        r2.name := name;
      }
      ret := if c == upto as int then |name| else -1;
    }

    /**
     * `parseSeq`: reads a sequence field into `r.patFw`; `charsRead`
     * comes back increased by the number of letters read.
     */
    method ParseSeq(r: Read, charsRead: int, trim5: nat, trim3: nat, upto: Byte, t: Tables) returns (ret: int, charsRead': int)
      requires Valid()
      modifies this`pos, r`patFw
      ensures Valid()
      ensures var f := SeqField(data, old(pos), upto, trim5, trim3, t);
        && ret == f.ret && r.patFw == f.patFw && pos == f.next
        && charsRead' == charsRead + f.letters
    {
      ghost var start := pos;
      ghost var i := start;
      ghost var letters: seq<Nuc> := [];
      var begin := 0;
      charsRead' := charsRead;
      var c := Get();
      r.patFw := [];
      var patFw: seq<Nuc> := [];
      var failed := false;
      while c != upto as int && !failed
        invariant start <= i <= |data|
        invariant forall k :: start <= k < i ==> data[k] != upto
        invariant failed ==> i == |data| && c < 0
        invariant c == Common.Get(data, i) && pos == if i < |data| then i + 1 else i
        invariant letters == Letters(data, start, i, t)
        invariant begin == |letters| && charsRead' == charsRead + begin
        invariant patFw == Drop(letters, trim5)
        modifies this`pos
        decreases |data| - i, if failed then 0 else 1
      {
        ghost var i', letters' := NextLetter(data, start, i, trim5, t, letters);
        if IsAlpha(c) {
          if begin >= trim5 {
            patFw := patFw + [t.asc2dna(c as char)];
          }
          begin := begin + 1;
          charsRead' := charsRead' + 1;
        }
        i, letters := i', letters';
        c := Get();
        failed := c < 0;
      }
      SeqFieldAt(data, start, upto, trim5, trim3, t, i, letters);
      r.patFw := patFw;
      if failed {
        return -1, charsRead';
      }
      r.patFw := TrimEnd(r.patFw, trim3);
      ret := |r.patFw|;
    }
  }
}
