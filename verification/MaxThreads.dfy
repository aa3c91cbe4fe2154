/**
 * set_max_threads: how many threads the memory allows, computed in 64 bits behind a bit-length guard.
 */
module MaxThreads {

  // PAGE_SIZE is 4096, so fls64(PAGE_SIZE) is 13; THREAD_SIZE is 16384.
  const MIN_THREADS: nat := 20
  const MAX_THREADS: nat := 0x3FFF_FFFF

  function Power2(n: nat): (r: nat)
    ensures r > 0
  {
    if n == 0 then 1 else 2 * Power2(n - 1)
  }

  /** The number of the highest bit set, counted from one; zero for zero. */
  function Fls64(x: nat): (n: nat)
    ensures x < Power2(n)
    ensures if x == 0 then n == 0 else n > 0 && Power2(n - 1) <= x
  {
    if x == 0 then 0 else 1 + Fls64(x / 2)
  }

  lemma {:induction false} Power2Grows(m: nat, n: nat)
    requires m <= n
    ensures Power2(m) <= Power2(n)
  {
    if m < n {
      Power2Grows(m, n - 1);
    }
  }

  lemma {:induction false} Power2Sum(m: nat, n: nat)
    ensures Power2(m + n) == Power2(m) * Power2(n)
  {
    if m > 0 {
      Power2Sum(m - 1, n);
    }
  }

  lemma Powers()
    ensures Power2(12) == 4096 && Power2(13) == 8192 && Power2(51) == 0x8_0000_0000_0000
  {
    hide Power2;
    SmallPowers();
    Power2Sum(12, 13);
    Power2Sum(13, 13);
    Power2Sum(26, 25);
  }

  lemma SmallPowers()
    ensures Power2(12) == 4096 && Power2(13) == 8192
  {
  }

  /** Fls64 is the only number its contract allows. */
  lemma FlsIs(x: nat, n: nat)
    requires Power2(n) <= x < Power2(n + 1)
    ensures Fls64(x) == n + 1
  {
    hide Power2;
    var m := Fls64(x);
    if m < n + 1 {
      Power2Grows(m, n);
    } else if m > n + 1 {
      Power2Grows(n + 1, m - 1);
    }
  }

  /** The guard lets through exactly the page counts below 2^51; for those the product fits in 63 bits. */
  lemma GuardIsExact(nrPages: nat)
    ensures Fls64(nrPages) + Fls64(4096) > 64 <==> nrPages >= 0x8_0000_0000_0000
    ensures Fls64(nrPages) + Fls64(4096) <= 64 ==> nrPages * 4096 < 0x8000_0000_0000_0000
  {
    hide Power2, Fls64;
    Powers();
    FlsIs(4096, 12);
    var n := Fls64(nrPages);
    if n <= 51 { Power2Grows(n, 51); } else { Power2Grows(51, n - 1); }
  }

  /** The limit over the unbounded integers: an eighth of the memory for stacks, within the bounds. */
  function Ideal(nrPages: nat, suggested: nat): nat {
    var fit := nrPages * 4096 / (16384 * 8);
    var want := if fit > suggested then suggested else fit;
    if want < MIN_THREADS then MIN_THREADS else if want > MAX_THREADS then MAX_THREADS else want
  }

  class Limit {
    var maxThreads: nat

    /** The guarded 64-bit computation gives the ideal limit for every amount of memory. */
    method SetMaxThreads(nrPages: nat, suggested: nat)
      requires nrPages < 0x1_0000_0000_0000_0000 && suggested < 0x1_0000_0000
      modifies this
      ensures maxThreads == Ideal(nrPages, suggested)
    {
      hide Power2, Fls64;
      GuardIsExact(nrPages);
      var threads: nat;
      if Fls64(nrPages) + Fls64(4096) > 64 {
        threads := MAX_THREADS;
      } else {
        threads := (nrPages * 4096 % 0x1_0000_0000_0000_0000) / (16384 * 8);
      }
      if threads > suggested {
        threads := suggested;
      }
      maxThreads :=
        if threads < MIN_THREADS then MIN_THREADS else if threads > MAX_THREADS then MAX_THREADS else threads;
    }
  }

  /** The limit is within its bounds; unless the floor decides, the stacks take at most an eighth of the memory. */
  lemma LimitFits(nrPages: nat, suggested: nat)
    ensures var r := Ideal(nrPages, suggested);
            && MIN_THREADS <= r <= MAX_THREADS
            && (r > MIN_THREADS ==> r <= suggested && r * 16384 * 8 <= nrPages * 4096)
            && (r == MIN_THREADS && suggested >= MIN_THREADS && nrPages * 4096 >= MIN_THREADS * 16384 * 8 ==>
                  r <= suggested && r * 16384 * 8 <= nrPages * 4096)
  {
  }

  /** It is the largest such number. */
  lemma LimitIsLargest(nrPages: nat, suggested: nat, n: nat)
    requires n <= MAX_THREADS && n <= suggested && n * 16384 * 8 <= nrPages * 4096
    ensures n <= Ideal(nrPages, suggested)
  {
  }
}
