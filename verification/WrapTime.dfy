// 32-bit time that wraps (include/flowcan/time_utils.h). True time is an unbounded integer T;
// the code sees Stamp(T), T modulo 2^32.
module WrapTime {

  const WRAP := 0x1_0000_0000
  const HALF := 0x8000_0000

  type u32 = x: int | 0 <= x < 0x1_0000_0000

  function Stamp(t: int): u32 {
    t % WRAP
  }

  function Plus(a: u32, b: u32): u32 {
    (a + b) % WRAP
  }

  /** elapsed_u32 */
  function Elapsed(now: u32, since: u32): u32 {
    (now - since) % WRAP
  }

  /** The value of a word cast to int32_t. */
  function AsSigned(w: u32): int {
    if w >= HALF then w - WRAP else w
  }

  /** time_reached_u32 */
  predicate Reached(now: u32, deadline: u32) {
    AsSigned(Elapsed(now, deadline)) >= 0
  }

  lemma PlusIsTrue(t: int, d: u32)
    ensures Plus(Stamp(t), d) == Stamp(t + d)
  {}

  lemma ElapsedModulo(t: int, s: int)
    ensures Elapsed(Stamp(t), Stamp(s)) == Stamp(t - s)
  {}

  /** The measured elapsed time is the true one exactly for ages below 2^32. */
  lemma ElapsedExact(t: int, s: int)
    ensures Elapsed(Stamp(t), Stamp(s)) == t - s <==> 0 <= t - s < WRAP
  {
    ElapsedModulo(t, s);
  }

  /** What the comparison decides, for any two instants. */
  lemma ReachedModulo(t: int, deadline: int)
    ensures Reached(Stamp(t), Stamp(deadline)) <==> (t - deadline) % WRAP < HALF
  {
    ElapsedModulo(t, deadline);
  }

  /** Within half a period of each other the comparison is the comparison of true times. */
  lemma ReachedNear(t: int, deadline: int)
    requires -HALF <= t - deadline < HALF
    ensures Reached(Stamp(t), Stamp(deadline)) <==> t >= deadline
  {
    ReachedModulo(t, deadline);
  }

  /** Any word is the stamp of the instant that lies its measured distance after another. */
  lemma StampAfter(w: u32, since: int)
    ensures Stamp(since + Elapsed(w, Stamp(since))) == w
  {}
}
