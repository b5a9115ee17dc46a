/**
 * The per-read random seed of pat.cpp (`genRandSeed`, pat.cpp:48-85): a
 * 32-bit value folded from the global seed, the read's nucleotides, its
 * quality bytes and its name up to the first '/'.
 *
 * The source works in `uint32_t` with `int` operands: a quality or name
 * byte is a signed `char`, so a byte of 128 or more enters the fold sign
 * extended, and `p << off` keeps only the low 32 bits. Both are written
 * out here on `bv32`.
 */
module RandSeed {
  import opened Common

  /**
   * The start value `(seed + 101) * 59 * 61 * 67 * 71 * 73 * 79 * 83` in
   * `uint32_t`; the product of the seven primes is 0x0568_FAE7 modulo 2^32.
   */
  function Start(seed: bv32): bv32 {
    (seed + 101) * 0x0568_FAE7
  }

  /** The single multiplier is the source's chain of seven. */
  lemma StartIsChain(seed: bv32)
    ensures Start(seed) == (seed + 101) * 59 * 61 * 67 * 71 * 73 * 79 * 83
  {
  }

  /** The bytes of a string as 8-bit words. */
  function Octets(s: Bytes): (r: seq<bv8>)
    ensures |r| == |s|
  {
    seq(|s|, i requires 0 <= i < |s| => s[i] as bv8)
  }

  /** `(int)c` for a signed `char` holding the byte `b`, as 32 bits. */
  function SignExtend(b: bv8): bv32 {
    if b < 128 then b as bv32 else (b as bv32) | 0xFFFF_FF00
  }

  /** A nucleotide code 0..4 as a 32-bit word. */
  function NucBits(n: Nuc): bv32 {
    if n == 0 then 0 else if n == 1 then 1 else if n == 2 then 2 else if n == 3 then 3 else 4
  }

  /** `w << (8 * k)` for `k < 4`, one constant shift per case. */
  function Shift8(w: bv32, k: nat): bv32
    requires k < 4
  {
    if k == 0 then w else if k == 1 then w << 8 else if k == 2 then w << 16 else w << 24
  }

  /** `w << (2 * k)` for `k < 4`. */
  function Shift2(w: bv32, k: nat): bv32
    requires k < 4
  {
    if k == 0 then w else if k == 1 then w << 2 else if k == 2 then w << 4 else w << 6
  }

  /** The case split is the source's shift by `(i & 3) << 3`. */
  lemma Shift8Agrees(w: bv32, k: nat)
    requires k < 4
    ensures Shift8(w, k) == w << (8 * k)
  {
    if k == 0 {
    } else if k == 1 {
    } else if k == 2 {
    } else {
    }
  }

  /**
   * The term of nucleotide `i`: `qry[i] << ((i & 15) << 1)`, the offset
   * `2 * (i % 16)` taken as `8 * ((i / 4) % 4) + 2 * (i % 4)`.
   */
  function NucTerm(qry: seq<Nuc>, i: nat): bv32
    requires i < |qry|
  {
    Shift8(Shift2(NucBits(qry[i]), i % 4), (i / 4) % 4)
  }

  /** `w << k` on a `uint32_t`, for a shift within the word. */
  function ShiftLeft(w: bv32, k: nat): bv32
    requires k < 32
  {
    w << k
  }

  /** The two-step shift of NucTerm is one shift by `2 * m` for each `m < 16`. */
  lemma ShiftSplit(w: bv32, m: nat)
    requires m < 16
    ensures Shift8(Shift2(w, m % 4), m / 4) == w << (2 * m)
  {
    if m == 0 {
      assert m % 4 == 0 && m / 4 == 0 && 2 * m == 0;
    } else if m == 1 {
      assert m % 4 == 1 && m / 4 == 0 && 2 * m == 2;
    } else if m == 2 {
      assert m % 4 == 2 && m / 4 == 0 && 2 * m == 4;
    } else if m == 3 {
      assert m % 4 == 3 && m / 4 == 0 && 2 * m == 6;
    } else if m == 4 {
      assert m % 4 == 0 && m / 4 == 1 && 2 * m == 8;
    } else if m == 5 {
      assert m % 4 == 1 && m / 4 == 1 && 2 * m == 10;
    } else if m == 6 {
      assert m % 4 == 2 && m / 4 == 1 && 2 * m == 12;
    } else if m == 7 {
      assert m % 4 == 3 && m / 4 == 1 && 2 * m == 14;
    } else if m == 8 {
      assert m % 4 == 0 && m / 4 == 2 && 2 * m == 16;
    } else if m == 9 {
      assert m % 4 == 1 && m / 4 == 2 && 2 * m == 18;
    } else if m == 10 {
      assert m % 4 == 2 && m / 4 == 2 && 2 * m == 20;
    } else if m == 11 {
      assert m % 4 == 3 && m / 4 == 2 && 2 * m == 22;
    } else if m == 12 {
      assert m % 4 == 0 && m / 4 == 3 && 2 * m == 24;
    } else if m == 13 {
      assert m % 4 == 1 && m / 4 == 3 && 2 * m == 26;
    } else if m == 14 {
      assert m % 4 == 2 && m / 4 == 3 && 2 * m == 28;
    } else {
      assert m % 4 == 3 && m / 4 == 3 && 2 * m == 30;
    }
  }

  /** ShiftSplit with the single shift named. */
  lemma ShiftSplitLeft(w: bv32, m: nat)
    requires m < 16
    ensures Shift8(Shift2(w, m % 4), m / 4) == ShiftLeft(w, 2 * m)
  {
    ShiftSplit(w, m);
  }

  /** The two base-4 digits of `i % 16` are `i % 4` and `(i / 4) % 4`. */
  lemma LowDigits(i: nat)
    ensures i % 4 == (i % 16) % 4 && (i / 4) % 4 == (i % 16) / 4
  {
    assert i == 16 * (i / 16) + i % 16;
    assert i / 4 == 4 * (i / 16) + (i % 16) / 4;
  }

  /** NucTerm is the source's single shift of base `i` by `(i & 15) << 1`. */
  lemma NucTermShift(qry: seq<Nuc>, i: nat)
    requires i < |qry|
    ensures NucTerm(qry, i) == ShiftLeft(NucBits(qry[i]), 2 * (i % 16))
  {
    LowDigits(i);
    ShiftSplitLeft(NucBits(qry[i]), i % 16);
  }

  /** The term of quality or name byte `i`: `(int)s[i] << ((i & 3) << 3)`. */
  function ByteTerm(s: seq<bv8>, i: nat): bv32
    requires i < |s|
  {
    Shift8(SignExtend(s[i]), i % 4)
  }

  /** The xor of the nucleotide terms of positions `0 .. n-1`. */
  function NucFold(qry: seq<Nuc>, n: nat): bv32
    requires n <= |qry|
  {
    if n == 0 then 0 else NucFold(qry, n - 1) ^ NucTerm(qry, n - 1)
  }

  /** The xor of the byte terms of positions `0 .. n-1`. */
  function ByteFold(s: seq<bv8>, n: nat): bv32
    requires n <= |s|
  {
    if n == 0 then 0 else ByteFold(s, n - 1) ^ ByteTerm(s, n - 1)
  }

  /** The byte '/'. */
  const Slash: bv8 := 0x2F

  /** How many name bytes the third loop takes: those before the first '/'. */
  function NameLen(name: seq<bv8>): (n: nat)
    ensures n <= |name|
    ensures forall i :: 0 <= i < n ==> name[i] != Slash
    ensures n == |name| || name[n] == Slash
  {
    if name == [] || name[0] == Slash then 0 else 1 + NameLen(name[1..])
  }

  /**
   * genRandSeed: the start value, then the nucleotide, quality and name
   * terms xor-ed in. The quality loop runs over the sequence's length, so
   * the source reads `qual[i]` for every `i < qry.length()`.
   */
  function GenRandSeed(qry: seq<Nuc>, qual: seq<bv8>, name: seq<bv8>, seed: bv32): bv32
    requires |qual| >= |qry|
  {
    Start(seed) ^ NucFold(qry, |qry|) ^ ByteFold(qual, |qry|) ^ ByteFold(name, NameLen(name))
  }

  /** genRandSeed's three loops, in their order, each xor-ing its terms into `rseed`. */
  method GenRandSeedLoops(qry: seq<Nuc>, qual: seq<bv8>, name: seq<bv8>, seed: bv32) returns (rseed: bv32)
    requires |qual| >= |qry|
    ensures rseed == GenRandSeed(qry, qual, name, seed)
  {
    rseed := Start(seed);
    rseed := XorNucs(rseed, qry);
    rseed := XorQuals(rseed, qual, |qry|);
    rseed := XorName(rseed, name);
  }

  /** The first loop: one term per nucleotide. */
  method XorNucs(r0: bv32, qry: seq<Nuc>) returns (rseed: bv32)
    ensures rseed == r0 ^ NucFold(qry, |qry|)
  {
    rseed := r0;
    var i := 0;
    while i < |qry|
      invariant i <= |qry|
      invariant rseed == r0 ^ NucFold(qry, i)
    {
      NucFoldStep(qry, i, r0, rseed);
      rseed := rseed ^ NucTerm(qry, i);
      i := i + 1;
    }
  }

  /** The second loop: one term per quality byte, over the sequence's length `qlen`. */
  method XorQuals(r0: bv32, qual: seq<bv8>, qlen: nat) returns (rseed: bv32)
    requires qlen <= |qual|
    ensures rseed == r0 ^ ByteFold(qual, qlen)
  {
    rseed := r0;
    var i := 0;
    while i < qlen
      invariant i <= qlen
      invariant rseed == r0 ^ ByteFold(qual, i)
    {
      ByteFoldStep(qual, i, r0, rseed);
      rseed := rseed ^ ByteTerm(qual, i);
      i := i + 1;
    }
  }

  /** The third loop: one term per name byte, stopping at the first '/'. */
  method XorName(r0: bv32, name: seq<bv8>) returns (rseed: bv32)
    ensures rseed == r0 ^ ByteFold(name, NameLen(name))
  {
    rseed := r0;
    var i := 0;
    while i < |name|
      invariant i <= |name|
      invariant forall j :: 0 <= j < i ==> name[j] != Slash
      invariant rseed == r0 ^ ByteFold(name, i)
    {
      if name[i] == Slash {
        break;
      }
      ByteFoldStep(name, i, r0, rseed);
      rseed := rseed ^ ByteTerm(name, i);
      i := i + 1;
    }
    NameLenUnique(name, i);
  }

  /** One step of the first loop: xor-ing in term `i` extends the fold to `i + 1`. */
  lemma NucFoldStep(qry: seq<Nuc>, i: nat, r0: bv32, r: bv32)
    requires i < |qry| && r == r0 ^ NucFold(qry, i)
    ensures r ^ NucTerm(qry, i) == r0 ^ NucFold(qry, i + 1)
  {
  }

  /** One step of the second or third loop. */
  lemma ByteFoldStep(s: seq<bv8>, i: nat, r0: bv32, r: bv32)
    requires i < |s| && r == r0 ^ ByteFold(s, i)
    ensures r ^ ByteTerm(s, i) == r0 ^ ByteFold(s, i + 1)
  {
  }

  /** `NameLen` is the only length with its properties. */
  lemma {:induction false} NameLenUnique(name: seq<bv8>, n: nat)
    requires n <= |name| && (forall i :: 0 <= i < n ==> name[i] != Slash)
    requires n == |name| || name[n] == Slash
    ensures n == NameLen(name)
  {
    if name != [] && name[0] != Slash {
      NameLenUnique(name[1..], n - 1);
    }
  }

  /** The fold over a prefix only reads the prefix. */
  lemma {:induction false} ByteFoldPrefix(s: seq<bv8>, t: seq<bv8>, n: nat)
    requires n <= |s| && n <= |t| && s[..n] == t[..n]
    ensures ByteFold(s, n) == ByteFold(t, n)
  {
    if n > 0 {
      assert s[..n - 1] == s[..n][..n - 1] && t[..n - 1] == t[..n][..n - 1];
      assert s[n - 1] == s[..n][n - 1] && t[n - 1] == t[..n][n - 1];
      ByteFoldPrefix(s, t, n - 1);
    }
  }

  /**
   * The name bytes from the first '/' on never reach the seed: two names
   * that agree before their first '/' give the same seed.
   */
  lemma NameAfterSlashIgnored(qry: seq<Nuc>, qual: seq<bv8>, n1: seq<bv8>, n2: seq<bv8>, seed: bv32)
    requires |qual| >= |qry|
    requires NameLen(n1) == NameLen(n2) && n1[..NameLen(n1)] == n2[..NameLen(n2)]
    ensures GenRandSeed(qry, qual, n1, seed) == GenRandSeed(qry, qual, n2, seed)
  {
    ByteFoldPrefix(n1, n2, NameLen(n1));
  }

  /** The names "r/1" and "r/2" as bytes. */
  const Mate1: seq<bv8> := [0x72, Slash, 0x31]
  const Mate2: seq<bv8> := [0x72, Slash, 0x32]

  /** Mates "r/1" and "r/2" with equal sequence and qualities get the same seed. */
  lemma MatesShareSeed(qry: seq<Nuc>, qual: seq<bv8>, seed: bv32)
    requires |qual| >= |qry|
    ensures GenRandSeed(qry, qual, Mate1, seed) == GenRandSeed(qry, qual, Mate2, seed)
  {
    MateNamesAgree();
    NameAfterSlashIgnored(qry, qual, Mate1, Mate2, seed);
  }

  /** "r/1" and "r/2" agree up to their first '/'. */
  lemma MateNamesAgree()
    ensures NameLen(Mate1) == NameLen(Mate2) && Mate1[..NameLen(Mate1)] == Mate2[..NameLen(Mate2)]
  {
    assert NameLen(Mate1[1..]) == 0 && NameLen(Mate2[1..]) == 0;
    assert Mate1[..1] == Mate2[..1];
  }

  /**
   * `4 << 30` does not fit in 32 bits: an N at a position `i` with
   * `i % 16 == 15` contributes nothing, so there the seed does not tell N
   * from A.
   */
  lemma NAtTopOffsetVanishes(qry: seq<Nuc>, i: nat)
    requires i < |qry| && i % 16 == 15 && qry[i] == 4
    ensures NucTerm(qry, i) == 0
  {
  }

  /** Two byte strings that differ only at position `k` fold to values that differ by their two terms. */
  lemma {:induction false} ByteFoldOneChange(s: seq<bv8>, t: seq<bv8>, k: nat, n: nat)
    requires |s| == |t| && k < n <= |s|
    requires forall j :: 0 <= j < |s| && j != k ==> s[j] == t[j]
    ensures ByteFold(s, n) ^ ByteFold(t, n) == ByteTerm(s, k) ^ ByteTerm(t, k)
  {
    if n - 1 == k {
      ByteFoldChangeAt(s, t, k, n);
    } else {
      ByteFoldOneChange(s, t, k, n - 1);
      assert s[n - 1] == t[n - 1];
      ByteFoldSameStep(s, t, n);
    }
  }

  /** The folds up to and including the changed position `k` differ by its two terms. */
  lemma ByteFoldChangeAt(s: seq<bv8>, t: seq<bv8>, k: nat, n: nat)
    requires |s| == |t| && k < |s| && n == k + 1
    requires forall j :: 0 <= j < k ==> s[j] == t[j]
    ensures ByteFold(s, n) ^ ByteFold(t, n) == ByteTerm(s, k) ^ ByteTerm(t, k)
  {
    assert s[..k] == t[..k];
    ByteFoldPrefix(s, t, k);
    XorSameBase(ByteFold(s, k), ByteFold(t, k), ByteTerm(s, k), ByteTerm(t, k));
  }

  lemma XorSameBase(a: bv32, b: bv32, ta: bv32, tb: bv32)
    requires a == b
    ensures (a ^ ta) ^ (b ^ tb) == ta ^ tb
  {
  }

  /** A position where the two strings agree leaves the difference of their folds as it was. */
  lemma ByteFoldSameStep(s: seq<bv8>, t: seq<bv8>, n: nat)
    requires 0 < n <= |s| && n <= |t| && ByteTerm(s, n - 1) == ByteTerm(t, n - 1)
    ensures ByteFold(s, n) ^ ByteFold(t, n) == ByteFold(s, n - 1) ^ ByteFold(t, n - 1)
  {
    XorSameTerm(ByteFold(s, n - 1), ByteFold(t, n - 1), ByteTerm(s, n - 1), ByteTerm(t, n - 1));
  }

  lemma XorSameTerm(a: bv32, b: bv32, ta: bv32, tb: bv32)
    requires ta == tb
    ensures (a ^ ta) ^ (b ^ tb) == a ^ b
  {
  }

  /** A byte's term keeps the byte: shifting by at most 24 loses none of its low 8 bits. */
  lemma ByteTermInjective(s: seq<bv8>, t: seq<bv8>, k: nat)
    requires k < |s| && k < |t| && s[k] != t[k]
    ensures ByteTerm(s, k) != ByteTerm(t, k)
  {
    ShiftedBytesDiffer(s[k], t[k], k % 4);
  }

  lemma ShiftedBytesDiffer(a: bv8, b: bv8, m: nat)
    requires a != b && m < 4
    ensures Shift8(SignExtend(a), m) != Shift8(SignExtend(b), m)
  {
    var x, y := SignExtend(a), SignExtend(b);
    assert x & 0xFF == a as bv32 && y & 0xFF == b as bv32;
    if m == 0 {
    } else if m == 1 {
      assert ((x << 8) >> 8) & 0xFF == x & 0xFF;
      assert ((y << 8) >> 8) & 0xFF == y & 0xFF;
    } else if m == 2 {
      assert ((x << 16) >> 16) & 0xFF == x & 0xFF;
      assert ((y << 16) >> 16) & 0xFF == y & 0xFF;
    } else {
      assert (x << 24) >> 24 == x & 0xFF;
      assert (y << 24) >> 24 == y & 0xFF;
    }
  }

  /** Every quality byte the fold reads matters: changing one of them changes the seed. */
  lemma QualityByteMatters(qry: seq<Nuc>, q1: seq<bv8>, q2: seq<bv8>, name: seq<bv8>, seed: bv32, k: nat)
    requires |q1| == |q2| >= |qry| && k < |qry|
    requires q1[k] != q2[k] && forall j :: 0 <= j < |q1| && j != k ==> q1[j] == q2[j]
    ensures GenRandSeed(qry, q1, name, seed) != GenRandSeed(qry, q2, name, seed)
  {
    ByteFoldsDiffer(q1, q2, k, |qry|);
    var x := Start(seed) ^ NucFold(qry, |qry|);
    XorDiffers(x, ByteFold(q1, |qry|), ByteFold(q2, |qry|), ByteFold(name, NameLen(name)));
  }

  /** Folds over a stretch that covers the one changed byte differ. */
  lemma ByteFoldsDiffer(s: seq<bv8>, t: seq<bv8>, k: nat, n: nat)
    requires |s| == |t| && k < n <= |s| && s[k] != t[k]
    requires forall j :: 0 <= j < |s| && j != k ==> s[j] == t[j]
    ensures ByteFold(s, n) != ByteFold(t, n)
  {
    ByteFoldOneChange(s, t, k, n);
    ByteTermInjective(s, t, k);
    XorOfDistinct(ByteFold(s, n), ByteFold(t, n), ByteTerm(s, k), ByteTerm(t, k));
  }

  lemma XorOfDistinct(a: bv32, b: bv32, ta: bv32, tb: bv32)
    requires a ^ b == ta ^ tb && ta != tb
    ensures a != b
  {
  }

  /** Xor-ing the same words into two values with a nonzero difference keeps them apart. */
  lemma XorDiffers(x: bv32, a: bv32, b: bv32, y: bv32)
    requires a != b
    ensures x ^ a ^ y != x ^ b ^ y
  {
  }
}
