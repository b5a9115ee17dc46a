/**
 * Types shared by the read-input and output-queue models.
 *
 * Text read by the read sources is made of C `char`s, i.e. bytes; here a byte is a
 * Dafny `char` below 256 so that character literals keep their look.
 */
module Common {

  /** One byte of text (a C `char` holding 0..255). */
  type Byte = c: char | c as int < 256

  type Bytes = seq<Byte>

  /** One nucleotide of a BTDnaString: 0..3 for A, C, G, T and 4 for N. */
  type Nuc = n: nat | n <= 4

  /**
   * The character tables and number formatting the parsers use but whose
   * definitions live in headers that are not part of this model
   * (`asc2dna`, `charToPhred33` with the source's fixed solexa/phred64
   * flags, `itoa10`). They are parameters of the model.
   */
  datatype Tables = Tables(
    asc2dna: Byte -> Nuc,
    toPhred33: Byte -> Byte,
    itoa10: nat -> Bytes)

  datatype Option<+T> = None | Some(value: T)

  datatype Result<+T, +E> = Ok(value: T) | Err(error: E)

  /** C's `isalpha` in the "C" locale. */
  predicate IsAlpha(c: int) {
    ('A' as int <= c <= 'Z' as int) || ('a' as int <= c <= 'z' as int)
  }

  predicate IsNewline(c: int) {
    c == '\n' as int || c == '\r' as int
  }

  /** `fb.get()` / `getc`: the byte at `pos`, or -1 at end of input. */
  function Get(data: Bytes, pos: nat): (c: int)
    ensures pos < |data| ==> c == data[pos] as int && 0 <= c < 256
    ensures pos >= |data| ==> c == -1
  {
    if pos < |data| then data[pos] as int else -1
  }

  /** `SString::trimEnd(n)`: drop up to `n` elements from the back. */
  function TrimEnd<T>(s: seq<T>, n: nat): (r: seq<T>)
    ensures |r| == if n < |s| then |s| - n else 0
  {
    if n < |s| then s[..|s| - n] else []
  }

  /** What the 3' trim keeps is the sequence's prefix of its own length. */
  lemma TrimEndIsPrefix<T>(s: seq<T>, n: nat)
    ensures TrimEnd(s, n) == s[..|TrimEnd(s, n)|]
  {
  }

  /** The amount `trimEnd(n)` reports as removed. */
  function TrimmedAmount<T>(s: seq<T>, n: nat): (k: nat)
    ensures k <= n && k <= |s|
    ensures |TrimEnd(s, n)| + k == |s|
  {
    if n < |s| then n else |s|
  }

  /** A slice grows by one element at its end. */
  lemma SliceSnoc<T>(s: seq<T>, i: nat, j: nat)
    requires i <= j < |s|
    ensures s[i..j + 1] == s[i..j] + [s[j]]
  {
  }

  /** The byte classes the parsers' scanning loops stop at. */
  datatype Stop = AtNewline | PastNewlines | AtLineFeed | AtGt | AtPlus | AtAt | AtSpaceOrNewline

  predicate Stops(k: Stop, c: Byte) {
    match k
    case AtNewline => IsNewline(c as int)
    case PastNewlines => !IsNewline(c as int)
    case AtLineFeed => c == '\n'
    case AtGt => c == '>'
    case AtPlus => c == '+'
    case AtAt => c == '@'
    case AtSpaceOrNewline => c == ' ' || IsNewline(c as int)
  }

  /** The first index at or after `from` whose byte stops `k`, or `|buf|` if none does. */
  function Scan(buf: Bytes, from: nat, k: Stop): (i: nat)
    requires from <= |buf|
    ensures from <= i <= |buf|
    ensures i < |buf| ==> Stops(k, buf[i])
    decreases |buf| - from
  {
    if from == |buf| || Stops(k, buf[from]) then from else Scan(buf, from + 1, k)
  }

  /** No byte that Scan passes over stops it. */
  lemma {:induction false} ScanSkips(buf: Bytes, from: nat, k: Stop)
    requires from <= |buf|
    ensures forall j :: from <= j < Scan(buf, from, k) ==> !Stops(k, buf[j])
    decreases |buf| - from
  {
    if from < |buf| && !Stops(k, buf[from]) {
      ScanSkips(buf, from + 1, k);
    }
  }

  /** Scan's result is the only index with its two properties. */
  lemma {:induction false} ScanUnique(buf: Bytes, from: nat, k: Stop, i: nat)
    requires from <= i <= |buf|
    requires forall j :: from <= j < i ==> !Stops(k, buf[j])
    requires i < |buf| ==> Stops(k, buf[i])
    ensures Scan(buf, from, k) == i
    decreases |buf| - from
  {
    if from < i {
      ScanUnique(buf, from + 1, k, i);
    }
  }
}
