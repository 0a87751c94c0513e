/** Types shared by every part of the logger: optional values, the 32-bit
    millisecond clock of the board (`unsigned long`, wrapping), and colours. */
module Common {

  datatype Option<+T> = None | Some(value: T)

  const TwoTo32: int := 0x1_0000_0000

  /** An `unsigned long` of the AVR target, as returned by `millis()`. */
  type U32 = x: int | 0 <= x < TwoTo32

  /** An `uint8_t` colour component. */
  type Byte = x: int | 0 <= x < 256

  datatype Color = Color(r: Byte, g: Byte, b: Byte)

  const Black: Color := Color(0, 0, 0)

  /** `now - since` computed on `unsigned long`: the difference modulo 2^32,
      so that a clock that wrapped around still yields the true elapsed time. */
  function Elapsed(now: U32, since: U32): (d: U32)
    ensures since <= now ==> d == now - since
    ensures now < since ==> d == now + TwoTo32 - since
  {
    (now - since) % TwoTo32
  }

  /** The clock value `d` milliseconds after `since`, wrapping like `millis()`. */
  function After(since: U32, d: U32): U32
  {
    (since + d) % TwoTo32
  }

  /** Time elapsed since `since`, read at `After(since, d)`, is `d`, whether
      or not the clock wrapped in between. */
  lemma ElapsedAfter(since: U32, d: U32)
    ensures Elapsed(After(since, d), since) == d
  {
    if since + d >= TwoTo32 {
      assert After(since, d) == since + d - TwoTo32;
    }
  }
}
