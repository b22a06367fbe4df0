/** dynamic_snowflake: ids from a clock and a counter. */
module Snowflake {
  import opened Bits

  const LOW: nat := 0x100_0000
  const WORD: nat := 0x1_0000_0000

  /** Milliseconds shifted by 24 bits and cut to 32, with the whole counter put in. */
  function IdOf(elapsed: nat, count: nat): nat {
    Or(elapsed * LOW % WORD, count)
  }

  class DynamicSnowflake {
    var count: nat

    ghost predicate Valid()
      reads this
    {
      count < WORD
    }

    constructor ()
      ensures Valid() && count == 0
    {
      count := 0;
    }

    /** The counter wraps at 32 bits; the masked copy that the source makes of it is not used. */
    method Next(elapsed: nat) returns (id: nat)
      requires Valid()
      modifies this
      ensures Valid() && count == (old(count) + 1) % WORD && id == IdOf(elapsed, count)
    {
      var half := elapsed * LOW % WORD;
      count := (count + 1) % WORD;
      id := Or(half, count);
    }
  }

  // ---- the low bits -----------------------------------------------------------------------------

  lemma DivisionIs(n: nat, d: nat, q: nat, r: nat)
    requires d > 0 && n == q * d + r && r < d
    ensures n / d == q && n % d == r
  {
    var q1, r1 := n / d, n % d;
    Distributes(q1, q, d);
    AtLeast(q1 - q, d);
    AtLeast(q - q1, d);
  }

  lemma Distributes(a: int, b: int, d: nat)
    ensures (a - b) * d == a * d - b * d && (b - a) * d == b * d - a * d
  {
  }

  lemma AtLeast(x: int, d: nat)
    ensures x >= 1 ==> x * d >= d
  {
    if x >= 1 {
      Distributes(x, 1, d);
    }
  }

  lemma {:induction false} OrOnes(k: nat, m: nat)
    requires m < Pow2(k)
    ensures Or(Pow2(k) - 1, m) == Pow2(k) - 1
  {
    if k > 0 {
      var p := Pow2(k - 1);
      OrOnes(k - 1, m / 2);
      OrStep(Pow2(k) - 1, m);
      hide Or;
      assert (2 * p - 1) / 2 == p - 1 && (2 * p - 1) % 2 == 1;
    }
  }

  lemma Powers()
    ensures Pow2(8) == 256 && Pow2(24) == LOW
  {
    assert Pow2(4) == 16;
    assert Pow2(8) == 256;
    assert Pow2(12) == 4096;
    assert Pow2(16) == 65536;
    assert Pow2(20) == 0x10_0000;
  }

  /** The time part: eight bits above the low 24. */
  lemma HalfIs(elapsed: nat)
    ensures elapsed * LOW % WORD == elapsed % 256 * LOW
  {
    var q, r := elapsed / 256, elapsed % 256;
    DivisionIs(elapsed * LOW, WORD, q, r * LOW);
  }

  lemma IdParts(elapsed: nat, count: nat)
    ensures IdOf(elapsed, count) == Or(elapsed % 256, count / LOW) * LOW + count % LOW
  {
    HalfIs(elapsed);
    Powers();
    OrSplits(elapsed % 256, elapsed % 256 * LOW, count / LOW, count / LOW * LOW, count % LOW, 24);
  }

  lemma LowBits(high: nat, low: nat)
    requires low < LOW
    ensures (high * LOW + low) % LOW == low
  {
    DivisionIs(high * LOW + low, LOW, high, low);
  }

  ghost predicate CanCollide(i: nat, j: nat) {
    exists e: nat, d: nat :: IdOf(e, i) == IdOf(d, j)
  }

  /** Some clock makes two calls return the same id exactly when their counters agree in the low 24 bits. */
  lemma CollideIff(i: nat, j: nat)
    requires i < WORD && j < WORD
    ensures CanCollide(i, j) <==> i % LOW == j % LOW
  {
    if CanCollide(i, j) {
      var e: nat, d: nat :| IdOf(e, i) == IdOf(d, j);
      IdParts(e, i);
      IdParts(d, j);
      LowBits(Or(e % 256, i / LOW), i % LOW);
      LowBits(Or(d % 256, j / LOW), j % LOW);
    }
    if i % LOW == j % LOW {
      FullByte(i);
      FullByte(j);
    }
  }

  lemma FullByte(count: nat)
    requires count < WORD
    ensures IdOf(255, count) == 255 * LOW + count % LOW
  {
    hide IdOf, Or;
    IdParts(255, count);
    Powers();
    OrOnes(8, count / LOW);
  }

  // ---- runs -------------------------------------------------------------------------------------

  /** The ids of successive calls after `n` earlier ones, whatever the clock says at each. */
  function Ids(n: nat, clock: seq<nat>): (ids: seq<nat>)
    ensures |ids| == |clock|
    decreases |clock|
  {
    if |clock| == 0 then [] else [IdOf(clock[0], (n + 1) % WORD)] + Ids(n + 1, clock[1..])
  }

  lemma {:induction false} IdAt(n: nat, clock: seq<nat>, k: nat)
    requires k < |clock|
    ensures Ids(n, clock)[k] == IdOf(clock[k], (n + k + 1) % WORD)
    decreases k
  {
    if k > 0 {
      IdAt(n + 1, clock[1..], k - 1);
    }
  }

  ghost predicate AllDiffer(ids: seq<nat>) {
    forall i, j | 0 <= i < j < |ids| :: ids[i] != ids[j]
  }

  lemma TwoIdsDiffer(clock: seq<nat>, i: nat, j: nat)
    requires i < j < |clock| && j < LOW
    ensures Ids(0, clock)[i] != Ids(0, clock)[j]
  {
    hide IdOf, Ids;
    IdAt(0, clock, i);
    IdAt(0, clock, j);
    Small(i + 1);
    Small(j + 1);
    CollideIff(i + 1, j + 1);
  }

  lemma Small(n: nat)
    requires 0 < n <= LOW
    ensures n % WORD == n && n % LOW == if n == LOW then 0 else n
  {
  }

  /** Under a clock that stands at 255 the first id comes back after 2^24 more. */
  lemma IdComesBack(clock: seq<nat>)
    requires |clock| > LOW && clock[0] == 255 && clock[LOW] == 255
    ensures Ids(0, clock)[0] == Ids(0, clock)[LOW]
  {
    IdAt(0, clock, 0);
    IdAt(0, clock, LOW);
    FullByte(1);
    FullByte(LOW + 1);
  }

  /** The first `n` ids differ whatever the clock does exactly up to 2^24 of them. */
  lemma UniqueIff(n: nat)
    ensures (forall clock: seq<nat> | |clock| == n :: AllDiffer(Ids(0, clock))) <==> n <= LOW
  {
    if n <= LOW {
      forall clock: seq<nat> | |clock| == n ensures AllDiffer(Ids(0, clock)) {
        forall i, j | 0 <= i < j < |Ids(0, clock)| ensures Ids(0, clock)[i] != Ids(0, clock)[j] {
          TwoIdsDiffer(clock, i, j);
        }
      }
    } else {
      hide Ids;
      var clock: seq<nat> := seq(n, _ => 255);
      IdComesBack(clock);
      assert !AllDiffer(Ids(0, clock));
    }
  }
}
