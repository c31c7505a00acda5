/** The test clock of the cron engine (src/cron/clock.rs). `FakeClock` is a handle on one
    shared atomic 64-bit counter of milliseconds: every clone holds the same counter, so
    a change made through one handle is seen through all of them. */
module Clock {

  const U64_MODULUS: nat := 0x1_0000_0000_0000_0000

  type U64 = x: int | 0 <= x < 0x1_0000_0000_0000_0000

  /** `AtomicU64::fetch_add`: addition that wraps around at 2^64. */
  function WrappingAdd(a: U64, b: U64): (r: U64)
    ensures a + b < U64_MODULUS ==> r == a + b
    ensures a + b >= U64_MODULUS ==> r == a + b - U64_MODULUS && r < a
  {
    (a + b) % U64_MODULUS
  }

  /** `u128 as u64`: keeps the low 64 bits. */
  function TruncateToU64(x: nat): (r: U64)
    ensures x < U64_MODULUS ==> r == x
    ensures (x - r) % U64_MODULUS == 0
  {
    x % U64_MODULUS
  }

  /** The counter behind the `Arc`. */
  class SharedCounter {
    var value: U64

    constructor (initial: U64)
      ensures value == initial
    {
      value := initial;
    }
  }

  class FakeClock {
    const counter: SharedCounter

    /** `FakeClock::new`: a fresh counter holding the initial time. */
    constructor (initialMs: U64)
      ensures fresh(counter)
      ensures NowMillis() == initialMs
    {
      counter := new SharedCounter(initialMs);
    }

    /** `Clone`: a second handle on the same counter. */
    constructor Share(other: FakeClock)
      ensures counter == other.counter
      ensures NowMillis() == other.NowMillis()
    {
      counter := other.counter;
    }

    /** `now_millis`: the counter's current value. */
    function NowMillis(): U64
      reads counter
    {
      counter.value
    }

    /** `advance_ms`: adds the duration to the shared counter, wrapping at 2^64. */
    method AdvanceMs(durationMs: U64)
      modifies counter
      ensures NowMillis() == WrappingAdd(old(NowMillis()), durationMs)
      ensures old(NowMillis()) + durationMs < U64_MODULUS ==> NowMillis() == old(NowMillis()) + durationMs
    {
      counter.value := WrappingAdd(counter.value, durationMs);
    }

    /** `advance`: a `Duration`'s milliseconds, truncated to 64 bits, then `advance_ms`. */
    method Advance(durationMs: nat)
      modifies counter
      ensures NowMillis() == WrappingAdd(old(NowMillis()), TruncateToU64(durationMs))
    {
      AdvanceMs(TruncateToU64(durationMs));
    }

    /** `set`: overwrites the shared counter, whatever it held. */
    method Set(timeMs: U64)
      modifies counter
      ensures NowMillis() == timeMs
    {
      counter.value := timeMs;
    }

    /** `sleep`: yields without touching the time. */
    method Sleep(durationMs: nat)
      ensures NowMillis() == old(NowMillis())
    {
    }
  }

  /** Two clones of one clock: time advanced or set through one is the time of both. */
  method ClonesShareTime(start: U64, step: U64, later: U64) returns (first: U64, second: U64, afterSet: U64)
    ensures start + step < U64_MODULUS ==> first == start + step
    ensures second == first
    ensures afterSet == later
  {
    var clock1 := new FakeClock(start);
    var clock2 := new FakeClock.Share(clock1);
    clock1.AdvanceMs(step);
    clock2.Sleep(1000);
    first := clock1.NowMillis();
    second := clock2.NowMillis();
    clock2.Set(later);
    afterSet := clock1.NowMillis();
  }
}
