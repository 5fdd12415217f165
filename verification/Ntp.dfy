/** Wall-clock instants as 32.32 fixed-point NTP timestamps, and back. */
module Ntp {
  import opened StampCodec

  const NTP_UNIX_OFFSET := 2208988800
  const BILLION := 1_000_000_000
  const WORD := 0x1_0000_0000
  const FIVES := 1953125

  /** Seconds since 1970, possibly negative, and nanoseconds within the second. */
  datatype Instant = Instant(seconds: int, nanos: int)

  predicate Valid(t: Instant) {
    0 <= t.nanos < BILLION
  }

  predicate Earlier(a: Instant, b: Instant) {
    a.seconds < b.seconds || (a.seconds == b.seconds && a.nanos < b.nanos)
  }

  predicate Less(a: Timestamp, b: Timestamp) {
    a.seconds < b.seconds || (a.seconds == b.seconds && a.fraction < b.fraction)
  }

  /** From 1900 to early 2036. */
  predicate InEra0(t: Instant) {
    0 <= t.seconds + NTP_UNIX_OFFSET < WORD
  }

  /** `generateNtpTimestamp`, with its conversions to 32 bits. */
  function ToNtp(t: Instant): Timestamp
    requires Valid(t)
  {
    Timestamp((t.seconds + NTP_UNIX_OFFSET) % WORD, (t.nanos * WORD / BILLION) % WORD)
  }

  /** `wireNTPTimestampToTime` */
  function FromNtp(ts: Timestamp): (t: Instant)
    ensures Valid(t) && InEra0(t)
  {
    Instant(ts.seconds - NTP_UNIX_OFFSET, ts.fraction * BILLION / WORD)
  }

  /** What a timestamp means: seconds since 1900, which 1970 follows after seventy years and seventeen
      leap days, and the fraction of a second in 2^32nds, rounded down. */
  lemma ToNtpMeans(t: Instant)
    requires Valid(t)
    ensures InEra0(t) ==> ToNtp(t).seconds == t.seconds + (70 * 365 + 17) * 86400
    ensures ToNtp(t).fraction * BILLION <= t.nanos * 0x1_0000_0000 < (ToNtp(t).fraction + 1) * BILLION
  {
    NothingOverflows(t, ToNtp(t));
  }

  /** Neither product leaves 64 bits, and the fraction always fits into 32. */
  lemma NothingOverflows(t: Instant, ts: Timestamp)
    requires Valid(t)
    ensures t.nanos * WORD < WORD * WORD && t.nanos * WORD / BILLION < WORD
    ensures ts.fraction * BILLION < WORD * WORD
  {
  }

  /** A nanosecond is more than four units of fraction, so fractions keep the order strictly. */
  lemma FractionsAscend(m: int, n: int)
    requires 0 <= m < n < BILLION
    ensures m * WORD / BILLION < n * WORD / BILLION < WORD
  {
    assert n * WORD >= m * WORD + WORD;
  }

  /** Order is kept in both directions between any two instants of era 0. */
  lemma OrderIsKept(a: Instant, b: Instant)
    requires Valid(a) && Valid(b) && InEra0(a) && InEra0(b)
    ensures Earlier(a, b) <==> Less(ToNtp(a), ToNtp(b))
    ensures ToNtp(a) == ToNtp(b) <==> a == b
  {
    NothingOverflows(a, ToNtp(a));
    NothingOverflows(b, ToNtp(b));
    if a.nanos < b.nanos {
      FractionsAscend(a.nanos, b.nanos);
    } else if b.nanos < a.nanos {
      FractionsAscend(b.nanos, a.nanos);
    }
  }

  lemma DividesIff(n: nat)
    ensures n * WORD % BILLION == 0 <==> n % FIVES == 0
  {
    if n % FIVES == 0 {
      var k := n / FIVES;
      assert n * WORD == BILLION * (0x80_0000 * k);
    }
    if n * WORD % BILLION == 0 {
      var k := n * WORD / BILLION;
      assert n * 0x80_0000 == FIVES * k;
      assert n == FIVES * (3054701 * n - 711228 * k);
    }
  }

  lemma NanosBack(n: nat)
    requires n < BILLION
    ensures var f := n * WORD / BILLION; f < WORD && f * BILLION / WORD == if n % FIVES == 0 then n else n - 1
  {
    var f, r := n * WORD / BILLION, n * WORD % BILLION;
    assert n * WORD == BILLION * f + r;
    DividesIff(n);
  }

  /** The round trip restores the second exactly when the instant is in era 0. It restores the
      nanoseconds exactly when they are a multiple of 1953125 and is one short otherwise. */
  lemma RoundTrip(t: Instant)
    requires Valid(t)
    ensures var back := FromNtp(ToNtp(t));
            && (back.seconds == t.seconds <==> InEra0(t))
            && back.nanos == if t.nanos % FIVES == 0 then t.nanos else t.nanos - 1
  {
    NanosBack(t.nanos);
  }
}
