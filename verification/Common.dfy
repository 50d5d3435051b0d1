/** Shared vocabulary: optional values and the machine-integer bounds the source relies on. */
module Common {
  datatype Option<+T> = None | Some(value: T)

  type Byte = b: int | 0 <= b < 256

  /** 2^64: `u64` counters and `usize` lengths live below it. */
  const TWO_64: int := 0x1_0000_0000_0000_0000

  /** 2^63: the first value past `i64::MAX`. */
  const TWO_63: int := 0x8000_0000_0000_0000

  /** 2^31: the first value past `i32::MAX` (`c_int`). */
  const TWO_31: int := 0x8000_0000

  const NANOS_PER_MILLI: nat := 1_000_000

  /** `Instant::elapsed().as_millis() as u64`, the instants being nanoseconds of a monotone clock. */
  function ElapsedMs(start: nat, now: nat): nat {
    if now < start then 0 else ((now - start) / NANOS_PER_MILLI) % TWO_64
  }

  /** `ms` whole milliseconds lie between the two instants. */
  predicate Spans(ms: int, start: nat, now: nat) {
    ms * 1_000_000 <= now - start < (ms + 1) * 1_000_000
  }

  /** The measured time is the number of whole milliseconds gone by, up to the 2^64 at which the source's cast
      wraps; a clock that has not reached `start` yet reads 0. */
  lemma ElapsedIsTheTime(start: nat, now: nat)
    ensures now < start ==> ElapsedMs(start, now) == 0
    ensures start <= now && now - start < TWO_64 * 1_000_000 ==> Spans(ElapsedMs(start, now), start, now)
  {
    if start <= now && now - start < TWO_64 * 1_000_000 {
      var q := (now - start) / 1_000_000;
      assert 0 <= q < TWO_64;
    }
  }

  lemma SpansBelow(ms: int, start: nat, now: nat, limit: nat)
    requires Spans(ms, start, now)
    ensures ms < limit <==> now - start < limit * 1_000_000
  {
    if ms < limit { assert (ms + 1) * 1_000_000 <= limit * 1_000_000; }
  }

  function Min(a: nat, b: nat): nat { if a < b then a else b }

  function Total(sizes: seq<nat>): nat {
    if sizes == [] then 0 else Total(sizes[..|sizes| - 1]) + sizes[|sizes| - 1]
  }
}

/** ASCII case folding, as `eq_ignore_ascii_case` and SQLite's name comparison do it. */
module Ascii {
  function Lower(c: char): char {
    if 'A' <= c <= 'Z' then (c as int - 'A' as int + 'a' as int) as char else c
  }

  predicate SameName(a: string, b: string) {
    |a| == |b| && forall i :: 0 <= i < |a| ==> Lower(a[i]) == Lower(b[i])
  }
}
