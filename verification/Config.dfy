/** notify/config.go: the defaults that make a loaded configuration usable. */
module Config {
  import opened Clock

  /** The settings one history is run with. `digest` stands for hex(SHA-256(.)). */
  datatype Policy = Policy(n: int, cooldown: int, sendRecovery: bool, digest: string -> string) {
    ghost predicate Valid() {
      n >= 1 && 0 < cooldown <= MAX_DURATION && forall s :: digest(s) != ""
    }
  }

  const DEFAULT_MINUTES: int := 120
  const DEFAULT_RUNS: int := 2

  /** The largest number of minutes a Duration can hold. */
  const MAX_MINUTES: int := MAX_DURATION / MINUTE

  /** Two's complement on 64 bits, as Go multiplies. */
  function Wrap(x: int): int {
    (x + 0x8000_0000_0000_0000) % 0x1_0000_0000_0000_0000 - 0x8000_0000_0000_0000
  }

  /** `time.Duration(minutes) * time.Minute` in `Dispatch`. */
  function Cooldown(minutes: int): int {
    Wrap(minutes * MINUTE)
  }

  /** What wraps: 64 bits are kept, and read with a sign. */
  lemma WrapKeepsLowBits(x: int)
    ensures -0x8000_0000_0000_0000 <= Wrap(x) <= 0x7FFF_FFFF_FFFF_FFFF
    ensures (x - Wrap(x)) % 0x1_0000_0000_0000_0000 == 0
  {
    var y := x + 0x8000_0000_0000_0000;
    assert y == y / 0x1_0000_0000_0000_0000 * 0x1_0000_0000_0000_0000 + y % 0x1_0000_0000_0000_0000;
    assert x - Wrap(x) == y / 0x1_0000_0000_0000_0000 * 0x1_0000_0000_0000_0000;
  }

  class Settings {
    var minIntervalMinutes: int
    var consecutiveRuns: int
    var sendRecovery: bool

    constructor (minutes: int, runs: int, sendRecovery: bool)
      ensures minIntervalMinutes == minutes && consecutiveRuns == runs && this.sendRecovery == sendRecovery
    {
      minIntervalMinutes, consecutiveRuns, this.sendRecovery := minutes, runs, sendRecovery;
    }

    /** The last part of `Load`: fields without a usable value get their default. */
    method ApplyDefaults()
      modifies this
      ensures minIntervalMinutes == if old(minIntervalMinutes) > 0 then old(minIntervalMinutes) else 120
      ensures consecutiveRuns == if old(consecutiveRuns) > 0 then old(consecutiveRuns) else 2
      ensures sendRecovery == old(sendRecovery)
    {
      if minIntervalMinutes <= 0 {
        minIntervalMinutes := DEFAULT_MINUTES;
      }
      if consecutiveRuns <= 0 {
        consecutiveRuns := DEFAULT_RUNS;
      }
    }

    /** Loaded settings give a valid policy as long as the interval fits a Duration. */
    method ToPolicy(digest: string -> string) returns (p: Policy)
      requires forall s :: digest(s) != ""
      modifies this
      ensures p.sendRecovery == old(sendRecovery)
      ensures p.n == if old(consecutiveRuns) > 0 then old(consecutiveRuns) else 2
      ensures minIntervalMinutes == if old(minIntervalMinutes) > 0 then old(minIntervalMinutes) else 120
      ensures minIntervalMinutes * 60_000_000_000 <= 0x7FFF_FFFF_FFFF_FFFF ==>
                p.Valid() && p.cooldown == minIntervalMinutes * 60_000_000_000
      ensures p.cooldown == Cooldown(minIntervalMinutes) && p.n == consecutiveRuns && p.digest == digest
    {
      ApplyDefaults();
      CooldownIsExactWhen(minIntervalMinutes);
      p := Policy(consecutiveRuns, Cooldown(minIntervalMinutes), sendRecovery, digest);
    }
  }

  /** A positive interval gives the cooldown it says exactly when it fits a Duration; beyond that the
      multiplication wraps around. */
  lemma CooldownIsExactWhen(minutes: int)
    requires minutes > 0
    ensures Cooldown(minutes) == minutes * 60_000_000_000 <==> minutes <= MAX_MINUTES
    ensures minutes <= MAX_MINUTES <==> minutes * 60_000_000_000 <= 0x7FFF_FFFF_FFFF_FFFF
  {
    var x := minutes * MINUTE;
    if minutes > MAX_MINUTES {
      assert x >= (MAX_MINUTES + 1) * MINUTE > MAX_DURATION;
    } else {
      assert x <= MAX_MINUTES * MINUTE <= MAX_DURATION;
    }
  }

  /** One minute more, and the cooldown is negative: every run may then repeat the mail. */
  lemma CooldownCanBeNegative()
    ensures Cooldown(MAX_MINUTES + 1) < 0
  {
    assert (MAX_MINUTES + 1) * MINUTE == 9_223_372_080_000_000_000;
  }
}
