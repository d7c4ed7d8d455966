/**
 `ceilToPow2` of include/readerwriterqueue.h on 64-bit words: it computes the least power of
 two that is at least its argument by smearing the highest bit over all bits below it.
 */
module CeilToPow2 {
  import Q = SpscQueue

  /** The bits of a word, lowest first. */
  type Word = w: seq<bool> | |w| == 64 witness seq(64, _ => false)

  function Pow(n: nat): (p: nat)
    ensures p >= 1
  {
    if n == 0 then 1 else 2 * Pow(n - 1)
  }

  function Value(w: seq<bool>): nat
  {
    if w == [] then 0 else (if w[0] then 1 else 0) + 2 * Value(w[1..])
  }

  function Bits(x: nat, n: nat): (w: seq<bool>)
    ensures |w| == n
  {
    if n == 0 then [] else [x % 2 == 1] + Bits(x / 2, n - 1)
  }

  lemma {:induction false} ValueOfBits(x: nat, n: nat)
    requires x < Pow(n)
    ensures Value(Bits(x, n)) == x
  {
    if n > 0 {
      ValueOfBits(x / 2, n - 1);
      assert Bits(x, n)[1..] == Bits(x / 2, n - 1);
    }
  }

  function ShiftRight(w: Word, k: nat): (r: Word)
    ensures forall i :: 0 <= i < 64 ==> (r[i] <==> i + k < 64 && w[i + k])
  {
    seq(64, (i: nat) => i + k < 64 && w[i + k])
  }

  function Or(a: Word, b: Word): (r: Word)
    ensures forall i :: 0 <= i < 64 ==> (r[i] <==> a[i] || b[i])
  {
    seq(64, (i: nat) requires i < 64 => a[i] || b[i])
  }

  // ---------------------------------------------------------------------------
  // Smearing
  // ---------------------------------------------------------------------------

  /** One of the `d` bits from `i` upwards is set. */
  ghost predicate Near(w: Word, i: nat, d: nat)
  {
    exists j :: i <= j < i + d && j < 64 && w[j]
  }

  /** Every bit of `w` has been smeared over the `d - 1` places below it. */
  ghost predicate Smeared(w: Word, r: Word, d: nat)
  {
    forall i :: 0 <= i < 64 ==> (r[i] <==> Near(w, i, d))
  }

  lemma {:induction false} NearTwice(w: Word, i: nat, d: nat)
    requires i < 64
    ensures Near(w, i, 2 * d) <==> Near(w, i, d) || (i + d < 64 && Near(w, i + d, d))
  {
    if Near(w, i, 2 * d) {
      var j :| i <= j < i + 2 * d && j < 64 && w[j];
      assert j < i + d || i + d <= j;
    }
  }

  lemma {:induction false} SmearTwice(w: Word, r: Word, d: nat)
    requires Smeared(w, r, d)
    ensures Smeared(w, Or(r, ShiftRight(r, d)), 2 * d)
  {
    forall i | 0 <= i < 64 ensures Or(r, ShiftRight(r, d))[i] <==> Near(w, i, 2 * d) {
      NearTwice(w, i, d);
    }
  }

  lemma {:induction false} SmearedOnce(w: Word)
    ensures Smeared(w, w, 1)
  {
  }

  // ---------------------------------------------------------------------------
  // Values
  // ---------------------------------------------------------------------------

  /** The number of bits up to the highest one that is set. */
  ghost function Length(w: seq<bool>): (m: nat)
    ensures m <= |w| && (m > 0 ==> w[m - 1]) && forall i :: m <= i < |w| ==> !w[i]
  {
    if w == [] then 0 else if w[|w| - 1] then |w| else Length(w[..|w| - 1])
  }

  lemma {:induction false} ValueRange(w: seq<bool>, m: nat)
    requires m <= |w| && (m > 0 ==> w[m - 1]) && forall i :: m <= i < |w| ==> !w[i]
    ensures Value(w) < Pow(m) && (m > 0 ==> Pow(m - 1) <= Value(w))
  {
    if w != [] {
      ValueRange(w[1..], if m == 0 then 0 else m - 1);
    }
  }

  lemma {:induction false} ValueOfOnes(w: seq<bool>, m: nat)
    requires m <= |w| && forall i :: 0 <= i < |w| ==> (w[i] <==> i < m)
    ensures Value(w) == Pow(m) - 1
  {
    if w != [] {
      ValueOfOnes(w[1..], if m == 0 then 0 else m - 1);
    }
  }

  lemma {:induction false} SmearedValue(w: Word, r: Word)
    requires Smeared(w, r, 64)
    ensures Value(r) == Pow(Length(w)) - 1
  {
    var m := Length(w);
    forall i | 0 <= i < 64 ensures r[i] <==> i < m {
      assert Near(w, i, 64) <==> i < m by {
        if i < m { assert i <= m - 1 < i + 64 && w[m - 1]; }
      }
    }
    ValueOfOnes(r, m);
  }

  // ---------------------------------------------------------------------------
  // Powers of two
  // ---------------------------------------------------------------------------

  lemma {:induction false} PowIsPow2(m: nat)
    ensures Q.IsPow2(Pow(m))
  {
    if m > 0 { PowIsPow2(m - 1); }
  }

  lemma {:induction false} PowGrows(a: nat, b: nat)
    requires a <= b
    ensures Pow(a) <= Pow(b)
  {
    if a < b { PowGrows(a, b - 1); }
  }

  lemma {:induction false} NextPow2(a: nat, b: nat)
    requires Q.IsPow2(a) && Q.IsPow2(b) && a < b
    ensures 2 * a <= b
  {
    if a > 1 { NextPow2(a / 2, b / 2); }
  }

  /** There is only one power of two that is at least `x` and less than twice it. */
  lemma {:induction false} IsCeiling(x: nat, r: nat)
    requires Q.IsPow2(r) && x <= r && (r == 1 || r < 2 * x)
    ensures r == Q.CeilToPow2(x)
  {
    var c := Q.CeilToPow2(x);
    if r < c {
      NextPow2(r, c);
    } else if c < r {
      NextPow2(c, r);
    }
  }

  lemma {:induction false} RoundedUp(x: nat, m: nat)
    requires 1 <= x && x - 1 < Pow(m) && (m > 0 ==> Pow(m - 1) <= x - 1)
    ensures Pow(m) == Q.CeilToPow2(x)
  {
    PowIsPow2(m);
    IsCeiling(x, Pow(m));
  }

  /**
   The loop on words computes the least power of two that is at least `x` exactly from 1 to
   2^63; for 0 and above 2^63 the result wraps around to 0.
   */
  method Compute(x: nat) returns (r: nat)
    requires x < Pow(64)
    ensures r == if 1 <= x <= Pow(63) then Q.CeilToPow2(x) else 0
  {
    var less := if x == 0 then Pow(64) - 1 else x - 1;
    var w: Word := Bits(less, 64);
    ghost var start: Word := w;
    ValueOfBits(less, 64);
    SmearedOnce(w);
    SmearTwice(start, w, 1);
    w := Or(w, ShiftRight(w, 1));
    SmearTwice(start, w, 2);
    w := Or(w, ShiftRight(w, 2));
    SmearTwice(start, w, 4);
    w := Or(w, ShiftRight(w, 4));
    var i := 1;
    while i < 8
      invariant i == 1 || i == 2 || i == 4 || i == 8
      invariant Smeared(start, w, 8 * i)
      decreases 8 - i
    {
      SmearTwice(start, w, 8 * i);
      w := Or(w, ShiftRight(w, 8 * i));
      i := 2 * i;
    }
    r := if Value(w) == Pow(64) - 1 then 0 else Value(w) + 1;
    Finish(x, less, start, w);
  }

  lemma {:induction false} Finish(x: nat, less: nat, start: Word, w: Word)
    requires x < Pow(64) && less == if x == 0 then Pow(64) - 1 else x - 1
    requires Value(start) == less && Smeared(start, w, 64)
    ensures Value(w) == Pow(64) - 1 <==> x == 0 || x > Pow(63)
    ensures 1 <= x <= Pow(63) ==> Value(w) + 1 == Q.CeilToPow2(x)
  {
    var m := Length(start);
    ValueRange(start, m);
    SmearedValue(start, w);
    PowGrows(63, 64);
    if m < 64 {
      PowGrows(m, 63);
    }
    if x > 0 {
      RoundedUp(x, m);
    }
  }
}
