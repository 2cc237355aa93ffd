/** Aged priorities. */
module Fairness {
  const AGING_INTERVAL: int := 30_000_000_000
  const AGING_INCREMENT: int := 1
  const MAX_AGING_BONUS: int := 20
  const MAX_PRIORITY: int := 100
  const MAX_DURATION: int := 0x7FFF_FFFF_FFFF_FFFF

  /** Conversion to a signed 32-bit integer. */
  function Wrap32(x: int): int
  {
    (x + 0x8000_0000) % 0x1_0000_0000 - 0x8000_0000
  }

  /** A duration is a signed 64-bit count that saturates. */
  function Elapsed(since: int, now: int): int
  {
    if now - since > MAX_DURATION then MAX_DURATION else now - since
  }

  function EffectivePriority(priority: int, createdAt: int, now: int): int
  {
    if now <= createdAt then priority
    else
      var waited := Elapsed(createdAt, now);
      var bonus := Wrap32(Wrap32(waited / AGING_INTERVAL) * AGING_INCREMENT);
      Wrap32(priority + if bonus > MAX_AGING_BONUS then MAX_AGING_BONUS else bonus)
  }

  /** On submitted priorities nothing wraps: the bonus is one per full waiting
      interval of thirty seconds, never negative and never above twenty. */
  lemma AgingExact(priority: int, createdAt: int, now: int)
    requires 0 <= priority <= MAX_PRIORITY
    ensures var e := EffectivePriority(priority, createdAt, now);
      && priority <= e <= priority + 20
      && (forall k :: 0 <= k <= 20 ==> (e >= priority + k <==> k == 0 || now - createdAt >= k * 30_000_000_000))
  {
    if now > createdAt {
      var waited := Elapsed(createdAt, now);
      assert 0 < waited <= MAX_DURATION;
      assert 0 <= waited / AGING_INTERVAL <= MAX_DURATION / AGING_INTERVAL < 0x8000_0000;
    }
  }

  /** Waiting at least as long with at least the priority never ranks lower. */
  lemma AgingMonotone(p: int, createdP: int, q: int, createdQ: int, now: int)
    requires 0 <= q <= p <= MAX_PRIORITY && createdP <= createdQ
    ensures EffectivePriority(p, createdP, now) >= EffectivePriority(q, createdQ, now)
  {
    AgingExact(p, createdP, now);
    AgingExact(q, createdQ, now);
    var k := EffectivePriority(q, createdQ, now) - q;
    assert k != 0 ==> now - createdQ >= k * AGING_INTERVAL;
  }
}
