/** How long a claimed event may be held locally and how often the loop polls
    (internal/delivery/hold.go), in nanoseconds of int64. */
module Lease {
  import opened Retry

  const MILLISECOND: int64 := 1_000_000
  const DEFAULT_LEASE_TIMEOUT: int64 := 300_000_000_000
  const DEFAULT_POLL_INTERVAL: int64 := 1_000_000_000

  function EffectiveLease(configured: int64): int64 {
    if configured <= 0 then DEFAULT_LEASE_TIMEOUT else configured
  }

  function LeaseHoldLimit(configured: int64): int64 {
    var lease := EffectiveLease(configured);
    var margin := if lease / 10 < MILLISECOND then MILLISECOND else lease / 10;
    lease - if margin >= lease then lease / 2 else margin
  }

  function PollInterval(configured: int64, lease: int64): int64 {
    var interval := if configured <= 0 then DEFAULT_POLL_INTERVAL else configured;
    var limit := LeaseHoldLimit(lease);
    var bound := if limit / 2 <= 0 then limit else limit / 2;
    if interval > bound then bound else interval
  }

  /** A held event is abandoned while its lease still runs exactly for leases of at least two
      nanoseconds; a lease of one nanosecond has no margin at all. */
  lemma HoldEndsBeforeTheLeaseIff(configured: int64)
    ensures 0 < LeaseHoldLimit(configured) <= EffectiveLease(configured)
    ensures LeaseHoldLimit(configured) < EffectiveLease(configured) <==> EffectiveLease(configured) >= 2
    ensures EffectiveLease(configured) > 2 * MILLISECOND ==>
              EffectiveLease(configured) - LeaseHoldLimit(configured) >= MILLISECOND
  {}

  /** Whatever interval is configured, a retained event is polled for at least twice before its hold
      runs out, unless the hold is a single nanosecond. */
  lemma PollsTwiceWithinTheHold(configured: int64, lease: int64)
    ensures 0 < PollInterval(configured, lease) <= LeaseHoldLimit(lease)
    ensures LeaseHoldLimit(lease) >= 2 ==> PollInterval(configured, lease) as int * 2 <= LeaseHoldLimit(lease) as int
  {}
}
