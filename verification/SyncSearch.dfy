/**
 Searching a bit string for the 32-bit sync marker: the sliding-window search of the scanner and the
 brute-force search of its test, both against the same description of the best match.
 */
module SyncSearch {
  import opened Basics

  type Bit = b: int | 0 <= b < 2
  type Bits = seq<Bit>

  const ASM := 0x930B51DE
  const WORD := 0x1_0000_0000

  function Pow2(k: nat): (p: nat)
    ensures p > 0
  {
    if k == 0 then 1 else 2 * Pow2(k - 1)
  }

  // ---- The number held by a stretch of bits, first bit most significant ----

  function Value(bits: Bits): nat {
    if bits == [] then 0 else 2 * Value(bits[..|bits| - 1]) + bits[|bits| - 1]
  }

  lemma {:induction false} ValueBound(bits: Bits)
    ensures Value(bits) < Pow2(|bits|)
  {
    if bits != [] {
      ValueBound(bits[..|bits| - 1]);
    }
  }

  /** The first bit carries the highest power. */
  lemma {:induction false} ValueHead(bits: Bits)
    requires bits != []
    ensures Value(bits) == bits[0] * Pow2(|bits| - 1) + Value(bits[1..])
  {
    var n := |bits| - 1;
    if n == 0 {
      assert bits[..0] == [] && bits[1..] == [];
    } else {
      ValueHead(bits[..n]);
      assert bits[1..][..n - 1] == bits[..n][1..];
    }
  }

  /** The 32-bit window at an offset. */
  function Window(bits: Bits, off: nat): nat
    requires off + 32 <= |bits|
  {
    Value(bits[off..off + 32])
  }

  /** Shifting a bit in and masking to 32 bits slides the window by one. */
  lemma SlideWindow(bits: Bits, off: nat)
    requires off + 33 <= |bits|
    ensures (2 * Window(bits, off) + bits[off + 32]) % WORD == Window(bits, off + 1)
  {
    var w := bits[off..off + 33];
    assert w[..32] == bits[off..off + 32] && w[1..] == bits[off + 1..off + 33];
    ValueHead(w);
    ValueBound(w[1..]);
    TwoTo32();
  }

  lemma TwoTo32()
    ensures Pow2(32) == WORD
  {
    assert Pow2(8) == 256;
    assert Pow2(16) == 65536 by { Pow2Sum(8, 8); }
    Pow2Sum(16, 16);
  }

  lemma {:induction false} Pow2Sum(a: nat, b: nat)
    ensures Pow2(a + b) == Pow2(a) * Pow2(b)
  {
    if a > 0 {
      Pow2Sum(a - 1, b);
    }
  }

  // ---- Distance ----

  /** Number of set bits in the exclusive-or of two numbers. */
  function Hamming(x: nat, y: nat): nat
    decreases x + y
  {
    if x == 0 && y == 0 then 0
    else (if x % 2 != y % 2 then 1 else 0) + Hamming(x / 2, y / 2)
  }

  /** Number of places at which two bit strings differ. */
  function Mismatches(a: Bits, b: Bits): nat
    requires |a| == |b|
  {
    if a == [] then 0
    else Mismatches(a[..|a| - 1], b[..|b| - 1]) + if a[|a| - 1] != b[|b| - 1] then 1 else 0
  }

  /** The distance of two numbers is the number of places at which their bits differ. */
  lemma {:induction false} HammingIsMismatches(a: Bits, b: Bits)
    requires |a| == |b|
    ensures Hamming(Value(a), Value(b)) == Mismatches(a, b)
  {
    if a != [] {
      var n := |a| - 1;
      HammingIsMismatches(a[..n], b[..n]);
      assert Value(a) / 2 == Value(a[..n]) && Value(a) % 2 == a[n];
      assert Value(b) / 2 == Value(b[..n]) && Value(b) % 2 == b[n];
    }
  }

  lemma {:induction false} MismatchesBound(a: Bits, b: Bits)
    requires |a| == |b|
    ensures Mismatches(a, b) <= |a|
  {
    if a != [] {
      MismatchesBound(a[..|a| - 1], b[..|b| - 1]);
    }
  }

  /** A word written out, first bit most significant. */
  function WordBits(k: nat, x: nat): (b: Bits)
    ensures |b| == k
  {
    if k == 0 then [] else WordBits(k - 1, x / 2) + [x % 2]
  }

  lemma {:induction false} WordBitsValue(k: nat, x: nat)
    requires x < Pow2(k)
    ensures Value(WordBits(k, x)) == x
  {
    if k > 0 {
      WordBitsValue(k - 1, x / 2);
      assert WordBits(k, x)[..k - 1] == WordBits(k - 1, x / 2);
    }
  }

  /** How many of the 32 bits at an offset differ from the marker's. */
  function Distance(bits: Bits, needle: nat, off: nat): nat
    requires off + 32 <= |bits|
  {
    Mismatches(bits[off..off + 32], WordBits(32, needle))
  }

  lemma DistanceIsHamming(bits: Bits, needle: nat, off: nat)
    requires off + 32 <= |bits| && needle < WORD
    ensures Hamming(Window(bits, off), needle) == Distance(bits, needle, off) <= 32
  {
    TwoTo32();
    WordBitsValue(32, needle);
    HammingIsMismatches(bits[off..off + 32], WordBits(32, needle));
    MismatchesBound(bits[off..off + 32], WordBits(32, needle));
  }

  // ---- The best match ----

  datatype Match = Match(ham: int, offset: nat)

  /** The match with the smallest distance within the threshold, the earliest on ties, at offsets from lo up to hi. */
  ghost predicate IsBest(bits: Bits, needle: nat, maxHam: int, lo: nat, hi: nat, m: Option<Match>)
    requires hi + 31 <= |bits|
  {
    match m
    case None => forall o :: lo <= o < hi ==> Distance(bits, needle, o) > maxHam
    case Some(b) =>
      && lo <= b.offset < hi && b.ham == Distance(bits, needle, b.offset) <= maxHam
      && (forall o :: lo <= o < hi ==> Distance(bits, needle, o) >= b.ham)
      && (forall o :: lo <= o < b.offset ==> Distance(bits, needle, o) > b.ham)
  }

  /** There is only one best match, so any two searches that find it agree. */
  lemma BestIsUnique(bits: Bits, needle: nat, maxHam: int, lo: nat, hi: nat, m: Option<Match>, n: Option<Match>)
    requires hi + 31 <= |bits|
    requires IsBest(bits, needle, maxHam, lo, hi, m) && IsBest(bits, needle, maxHam, lo, hi, n)
    ensures m == n
  {
    if m.Some? {
      var o := m.value.offset;
      assert Distance(bits, needle, o) <= maxHam;
    }
    if n.Some? {
      var o := n.value.offset;
      assert Distance(bits, needle, o) <= maxHam;
    }
  }

  /** Keep the earlier match unless the new offset is strictly closer. */
  function Better(m: Option<Match>, h: nat, off: nat, maxHam: int): Option<Match> {
    if h <= maxHam && h < (if m.Some? then m.value.ham else 33) then Some(Match(h, off)) else m
  }

  lemma ConsiderOffset(bits: Bits, needle: nat, maxHam: int, lo: nat, off: nat, m: Option<Match>)
    requires needle < WORD && lo <= off && off + 32 <= |bits|
    requires IsBest(bits, needle, maxHam, lo, off, m)
    ensures IsBest(bits, needle, maxHam, lo, off + 1, Better(m, Distance(bits, needle, off), off, maxHam))
  {
    DistanceIsHamming(bits, needle, off);
  }

  /** An exact match cannot be beaten by a later one. */
  lemma ExactIsFinal(bits: Bits, needle: nat, maxHam: int, lo: nat, hi: nat, end: nat, m: Match)
    requires hi <= end && end + 31 <= |bits| && m.ham == 0
    requires IsBest(bits, needle, maxHam, lo, hi, Some(m))
    ensures IsBest(bits, needle, maxHam, lo, end, Some(m))
  {
  }

  /** The distance of the window at an offset. */
  method Measure(bits: Bits, needle: nat, ghost off: nat, win: nat) returns (h: nat)
    requires needle < WORD && off + 32 <= |bits| && win == Window(bits, off)
    ensures h == Distance(bits, needle, off) <= 32
  {
    DistanceIsHamming(bits, needle, off);
    h := Hamming(win, needle);
  }

  /** Thirty-two bits from an offset, shifted in one by one. */
  method FirstWindow(bits: Bits, off: nat) returns (w: nat)
    requires off + 32 <= |bits|
    ensures w == Window(bits, off)
  {
    w := 0;
    for b := 0 to 32
      invariant w == Value(bits[off..off + b])
    {
      assert bits[off..off + b + 1][..b] == bits[off..off + b];
      w := 2 * w + bits[off + b];
    }
  }

  /** Shift the next bit in and drop the oldest. */
  method Slide(bits: Bits, off: nat, win: nat) returns (w: nat)
    requires 0 < off && off + 32 <= |bits| && win == Window(bits, off - 1)
    ensures w == Window(bits, off)
  {
    SlideWindow(bits, off - 1);
    w := (2 * win + bits[off + 31]) % WORD;
  }

  /** The receiver's search: one window slid along the bits, with an early stop on an exact match. */
  method AsmFindBest(bits: Bits, needle: nat, maxHam: int, start: nat) returns (m: Option<Match>)
    requires needle < WORD
    ensures start + 32 > |bits| ==> m == None
    ensures start + 32 <= |bits| ==> IsBest(bits, needle, maxHam, start, |bits| - 31, m)
  {
    m := None;
    if |bits| < 32 || start > |bits| - 32 {
      return;
    }
    var win := FirstWindow(bits, start);
    var best := 33;
    ConsiderOffset(bits, needle, maxHam, start, start, m);
    var h := Measure(bits, needle, start, win);
    if h <= maxHam {
      best, m := h, Some(Match(h, start));
    }
    for i := 32 to |bits| - start
      invariant win == Window(bits, start + i - 32)
      invariant best == if m.Some? then m.value.ham else 33
      invariant IsBest(bits, needle, maxHam, start, start + i - 31, m)
    {
      var off := start + i - 31;
      win := Slide(bits, off, win);
      ConsiderOffset(bits, needle, maxHam, start, off, m);
      h := Measure(bits, needle, off, win);
      if h <= maxHam && h < best {
        best, m := h, Some(Match(h, off));
        if h == 0 {
          ExactIsFinal(bits, needle, maxHam, start, off + 1, |bits| - 31, m.value);
          break;
        }
      }
    }
  }

  /** The scanner's search: the same loop for the sync marker from the first bit. */
  method FindAsm(bits: Bits, maxHam: int) returns (m: Option<Match>)
    ensures |bits| < 32 ==> m == None
    ensures |bits| >= 32 ==> IsBest(bits, ASM, maxHam, 0, |bits| - 31, m)
  {
    m := AsmFindBest(bits, ASM, maxHam, 0);
  }

  /** The test's search: the window rebuilt at every offset, no early stop. */
  method FindBest(bits: Bits, needle: nat, maxHam: int, minOffset: nat) returns (m: Option<Match>)
    requires needle < WORD
    ensures minOffset + 32 > |bits| ==> m == None
    ensures minOffset + 32 <= |bits| ==> IsBest(bits, needle, maxHam, minOffset, |bits| - 31, m)
  {
    m := None;
    if |bits| < 32 || minOffset + 32 > |bits| {
      return;
    }
    var best := 33;
    var off := minOffset;
    while off + 32 <= |bits|
      invariant minOffset <= off <= |bits| - 31
      invariant best == if m.Some? then m.value.ham else 33
      invariant IsBest(bits, needle, maxHam, minOffset, off, m)
    {
      var w := FirstWindow(bits, off);
      DistanceIsHamming(bits, needle, off);
      ConsiderOffset(bits, needle, maxHam, minOffset, off, m);
      var h := Hamming(w, needle);
      if h <= maxHam && h < best {
        best, m := h, Some(Match(h, off));
      }
      off := off + 1;
    }
  }

  /** The sliding search and the brute-force one return the same match on every input. */
  method SearchesAgree(bits: Bits, needle: nat, maxHam: int, start: nat)
    returns (fast: Option<Match>, slow: Option<Match>)
    requires needle < WORD
    ensures fast == slow
  {
    fast := AsmFindBest(bits, needle, maxHam, start);
    slow := FindBest(bits, needle, maxHam, start);
    if start + 32 <= |bits| {
      BestIsUnique(bits, needle, maxHam, start, |bits| - 31, fast, slow);
    }
  }
}
