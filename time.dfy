/** The firmware's millisecond clock: `millis()` is a 32-bit unsigned counter, so
    timestamps wrap around and ages are taken by unsigned subtraction. */
module Time {
  const U32: int := 0x1_0000_0000

  /** A `uint32_t` timestamp in milliseconds. */
  type Millis = x: int | 0 <= x < U32

  /** `t + d` in `uint32_t` arithmetic (an `int` operand is converted modulo 2^32). */
  function Add(t: Millis, d: int): (r: Millis)
  {
    (t + d) % U32
  }

  /** `now - since` in `uint32_t` arithmetic: the age of `since`, correct across a rollover. */
  function Elapsed(now: Millis, since: Millis): (r: Millis)
  {
    (now - since) % U32
  }

  /** The age of a timestamp `d` milliseconds after `t` is `d`, even when `t + d` rolls over. */
  lemma ElapsedAfterAdd(t: Millis, d: int)
    requires 0 <= d < U32
    ensures Elapsed(Add(t, d), t) == d
  {
    var s := t + d;
    if s < U32 {
      assert Add(t, d) == s;
    } else {
      assert Add(t, d) == s - U32;
      assert Add(t, d) - t == d - U32;
    }
  }

  /** Two waits in a row add up, across a rollover too. */
  lemma AddAdd(t: Millis, a: int, b: int)
    requires 0 <= a < U32 && 0 <= b < U32
    ensures Add(Add(t, a), b) == Add(t, a + b)
  {
    var s := t + a;
    if s >= U32 {
      assert Add(t, a) == s - U32;
      assert (s - U32 + b) % U32 == (s + b) % U32 by {
        if s + b >= 2 * U32 {
          assert (s - U32 + b) % U32 == s + b - 2 * U32;
        }
      }
    }
  }

  /** C's integer division, which truncates toward zero (Dafny's `/` is Euclidean). */
  function CDiv(a: int, b: int): (q: int)
    requires b != 0
    ensures a >= 0 && b > 0 ==> q == a / b
    ensures b > 0 ==> (if a >= 0 then q * b <= a < q * b + b else q * b - b < a <= q * b)
  {
    if (a >= 0) == (b > 0) then
      (if a >= 0 then a / b else (-a) / (-b))
    else
      -((if a >= 0 then a else -a) / (if b > 0 then b else -b))
  }
}
