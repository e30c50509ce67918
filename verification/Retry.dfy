/** The retry delays of internal/delivery (policy.go, backoff.go, retryafter.go) in the machine's
    own 64-bit integers: every expression below is checked not to leave their range. */
module Retry {
  import opened Numbers
  import opened Options

  const MAX_DURATION: int64 := 0x7FFF_FFFF_FFFF_FFFF
  const SECOND := 1_000_000_000

  newtype int64 = x: int | -0x8000_0000_0000_0000 <= x < 0x8000_0000_0000_0000

  // ----- what the arithmetic means, over unbounded integers ---------------------------------------

  function Pow2(n: nat): nat {
    if n == 0 then 1 else 2 * Pow2(n - 1)
  }

  function Max(a: int, b: int): int {
    if a <= b then b else a
  }

  /** `value` in int64, saturated at its largest. */
  function Saturated(value: nat): int {
    Min(value, MAX_DURATION as int)
  }

  /** `value` under a cap, where a cap of zero or less is none. */
  function Capped(value: int, cap: int): int {
    if cap > 0 then Min(value, cap) else value
  }

  lemma {:induction false} Pow2Grows(m: nat, n: nat)
    requires m <= n
    ensures 1 <= Pow2(m) <= Pow2(n)
    decreases n
  {
    if m < n {
      Pow2Grows(m, n - 1);
    } else if m > 0 {
      Pow2Grows(m - 1, n - 1);
    }
  }

  lemma Pow2At63()
    ensures Pow2(62) == 0x4000_0000_0000_0000 && Pow2(63) == MAX_DURATION as int + 1
  {
    assert Pow2(8) == 256;
    assert Pow2(16) == 65536;
    assert Pow2(24) == 0x100_0000;
    assert Pow2(32) == 0x1_0000_0000;
    assert Pow2(40) == 0x100_0000_0000;
    assert Pow2(48) == 0x1_0000_0000_0000;
    assert Pow2(56) == 0x100_0000_0000_0000;
  }

  // ----- backoff.go -------------------------------------------------------------------------------

  function PositiveDuration(value: int64): (r: int64)
    ensures r as int == Max(value as int, 0)
  {
    if value < 0 then 0 else value
  }

  function ClampDuration(value: int64, maximum: int64): (r: int64)
    ensures r as int == Capped(value as int, maximum as int)
  {
    if maximum > 0 && value > maximum then maximum else value
  }

  /** A product that saturates instead of wrapping. */
  function MultiplyDuration(value: int64, factor: int64): (r: int64)
    ensures value >= 0 && factor >= 0 ==> r as int == Saturated(value as int * factor as int)
    ensures value <= 0 || factor <= 0 ==> r == 0
  {
    if value <= 0 || factor <= 0 then 0
    else
      ProductFits(value as int, factor as int);
      if Exceeds(value, factor) then MAX_DURATION else value * factor
  }

  /** The guard against overflow, in the machine's own division. */
  predicate Exceeds(value: int64, factor: int64)
    requires value > 0
    ensures Exceeds(value, factor) <==> factor as int > MAX_DURATION as int / value as int
  {
    factor > MAX_DURATION / value
  }

  lemma ProductFits(value: nat, factor: nat)
    requires value > 0
    ensures factor > MAX_DURATION as int / value <==> value * factor > MAX_DURATION as int
  {
    var q := MAX_DURATION as int / value;
    assert q * value <= MAX_DURATION as int < (q + 1) * value;
    if factor > q {
      assert value * factor >= value * (q + 1);
    } else {
      assert value * factor <= value * q;
    }
  }

  function PowerOfTwo(exponent: int64): (r: int64)
    ensures exponent >= 0 ==> r as int == Saturated(Pow2(exponent as int))
    ensures exponent <= 0 ==> r == 1
  {
    Pow2At63();
    if exponent <= 0 then 1
    else if exponent >= 63 then
      Pow2Grows(63, exponent as nat);
      MAX_DURATION
    else
      Pow2Grows(exponent as nat, 62);
      Pow2(exponent as nat) as int64
  }

  // ----- policy.go --------------------------------------------------------------------------------

  /** A uniform draw from [0, bound); nothing is assumed of the values it returns. */
  type JitterFunc = int64 -> int64

  datatype Policy = Policy(maxAttempts: int64, backoff: string, initialInterval: int64, maxInterval: int64, jitter: bool) {

    /** The exponential ladder is base * 2^(n-1) saturated and capped, the linear one base * n, and
        every other mode is the base alone; an attempt below one is the first. */
    function Ladder(attempt: int64): (delay: int64)
      ensures var n := Max(attempt as int, 1);
              var base: nat := Max(initialInterval as int, 0);
              delay as int == Capped(if backoff == "linear" then Saturated(base * n)
                                     else if backoff == "exponential" then Saturated(base * Pow2(n - 1))
                                     else base, maxInterval as int)
    {
      var attempt := if attempt < 1 then 1 else attempt;
      var base := PositiveDuration(initialInterval);
      var delay :=
        if backoff == "linear" then MultiplyDuration(base, attempt)
        else if backoff == "exponential" then
          SaturatedFactor(base as int, Pow2(attempt as int - 1));
          MultiplyDuration(base, PowerOfTwo(attempt - 1))
        else base;
      ClampDuration(delay, maxInterval)
    }

    /** Full jitter stays within the ladder, whatever is drawn; without it the ladder is exact. */
    function DelayWith(attempt: int64, draw: Option<JitterFunc>): (delay: int64)
      ensures !jitter || draw.None? ==> delay == Ladder(attempt)
      ensures 0 <= Ladder(attempt) ==> 0 <= delay <= Ladder(attempt)
    {
      var limit := Ladder(attempt);
      if !jitter || draw.None? || limit <= 0 then limit
      else
        var bound := if limit < MAX_DURATION then limit + 1 else limit;
        var value := draw.value(bound);
        if value < 0 then 0 else if value > limit then limit else value
    }

    function DelayAfter(attempt: int64, retryAfter: int64, draw: Option<JitterFunc>): int64 {
      EffectiveDelay(DelayWith(attempt, draw), retryAfter, maxInterval)
    }
  }

  function EffectiveDelay(ladder: int64, retryAfter: int64, maxInterval: int64): int64 {
    var delay := PositiveDuration(ladder);
    ClampDuration(if retryAfter > delay then retryAfter else delay, maxInterval)
  }

  /** Saturating a factor does not change a saturated product. */
  lemma SaturatedFactor(base: nat, factor: nat)
    ensures Saturated(base * Saturated(factor)) == Saturated(base * factor)
  {
    if factor > MAX_DURATION as int && base > 0 {
      assert base * factor >= 1 * factor;
      assert base * Saturated(factor) >= 1 * Saturated(factor);
    }
  }

  /** Waiting longer never shortens the wait: the ladder never decreases with the attempt. */
  lemma LadderNeverDecreases(p: Policy, m: int64, n: int64)
    requires m <= n
    ensures p.Ladder(m) <= p.Ladder(n)
  {
    var i, j := Max(m as int, 1), Max(n as int, 1);
    var base: nat := Max(p.initialInterval as int, 0);
    Pow2Grows(i - 1, j - 1);
    Scaled(base, i, j);
    Scaled(base, Pow2(i - 1), Pow2(j - 1));
  }

  lemma Scaled(base: nat, a: nat, b: nat)
    requires a <= b
    ensures base * a <= base * b
  {}

  lemma LadderIsNeverNegative(p: Policy, attempt: int64)
    ensures 0 <= p.Ladder(attempt)
  {
    LadderNeverDecreases(p, if attempt < 1 then attempt else 1, attempt);
    LadderNeverDecreases(p, 1, if attempt < 1 then 1 else attempt);
    assert Pow2(0) == 1;
  }

  /** Whatever the jitter draws: the final delay honours a Retry-After up to the cap, never passes
      the cap, is never negative, and passes the ladder only because a Retry-After asked for it. */
  lemma FinalDelayIsBounded(p: Policy, attempt: int64, retryAfter: int64, draw: Option<JitterFunc>)
    ensures var delay := p.DelayAfter(attempt, retryAfter, draw) as int;
            && delay >= Capped(retryAfter as int, p.maxInterval as int)
            && (p.maxInterval > 0 ==> delay <= p.maxInterval as int)
            && 0 <= delay <= Max(p.Ladder(attempt) as int, Max(retryAfter as int, 0))
  {
    LadderIsNeverNegative(p, attempt);
    EffectiveDelayIsBounded(p.DelayWith(attempt, draw), retryAfter, p.maxInterval);
  }

  lemma EffectiveDelayIsBounded(ladder: int64, retryAfter: int64, maxInterval: int64)
    requires 0 <= ladder
    ensures var delay := EffectiveDelay(ladder, retryAfter, maxInterval);
            && delay as int >= Capped(retryAfter as int, maxInterval as int)
            && (maxInterval > 0 ==> delay <= maxInterval)
            && 0 <= delay as int <= Max(ladder as int, Max(retryAfter as int, 0))
  {}

  // ----- retryafter.go ----------------------------------------------------------------------------

  predicate IsDigit(c: char) {
    '0' <= c <= '9'
  }

  predicate IsDecimal(text: string) {
    forall k :: 0 <= k < |text| ==> IsDigit(text[k])
  }

  function Decimal(text: string): nat
    requires IsDecimal(text)
  {
    if text == "" then 0
    else Decimal(text[..|text| - 1]) * 10 + (text[|text| - 1] as int - '0' as int)
  }

  const MAX_UINT64 := 0xFFFF_FFFF_FFFF_FFFF

  /** strconv.ParseUint(text, 10, 64) on digits: an error when empty or too large. */
  function ParseUint(text: string): Option<nat>
    requires IsDecimal(text)
  {
    if text == "" || Decimal(text) > MAX_UINT64 then None else Some(Decimal(text))
  }

  /** Delta-seconds (section 10.2.3 of RFC 9110): any number of digits is read as exactly that many
      seconds, saturated at the longest duration, and anything else is not delta-seconds. */
  method ParseDeltaSeconds(value: string) returns (delay: Option<int64>)
    ensures delay.Some? <==> IsDecimal(value)
    ensures value != "" && IsDecimal(value) ==> delay.value as int == Saturated(Decimal(value) * SECOND)
    ensures value == "" ==> delay == Some(MAX_DURATION)
  {
    for k := 0 to |value|
      invariant IsDecimal(value[..k])
    {
      if !IsDigit(value[k]) {
        return None;
      }
      assert value[..k + 1] == value[..k] + [value[k]];
    }
    assert value[..|value|] == value;
    var parsed := ParseUint(value);
    if parsed.None? {
      return Some(MAX_DURATION);
    }
    if parsed.value > MAX_DURATION as int / SECOND {
      return Some(MAX_DURATION);
    }
    return Some((parsed.value * SECOND) as int64);
  }
}
