/**
 * The `time.Duration` arithmetic of the watchers: int64 nanoseconds that wrap around, a subtraction that
 * saturates, the doubled-timeout sentinel and the renewal threshold.
 */
module GoTime {
  import opened Decimal

  const SECOND: int := 1_000_000_000
  const HOUR: int := 3600 * SECOND
  const DAY: int := 24 * HOUR

  /** Both watchers accept only positive delays and thresholds. */
  predicate PositiveInt(x: int) {
    1 <= x <= MAX_INT64
  }

  /** `time.Duration(delay) * time.Second` */
  function Timeout(delay: int): int {
    Wrap(delay * SECOND)
  }

  /** `timeout * 2`, which a wait returns in place of a duration when the deadline passed. */
  function Sentinel(timeout: int): int {
    Wrap(timeout * 2)
  }

  /** The cronjob's reading of a wait that returned without an error. */
  predicate CronjobRenewed(timeout: int, successTime: int) {
    !(successTime > timeout)
  }

  /** The operator's reading of the same value. */
  predicate OperatorRenewed(timeout: int, successTime: int) {
    successTime != Sentinel(timeout)
  }

  /** The test that guards the operator's renewals counter. */
  predicate OperatorCounted(timeout: int, successTime: int) {
    successTime <= timeout
  }

  /** `cert.NotAfter.Sub(time.Now())`: the exact difference, clamped to int64. */
  function Saturate(exact: int): (r: int)
    ensures IsInt64(r)
    ensures IsInt64(exact) ==> r == exact
  {
    if exact > MAX_INT64 then MAX_INT64 else if exact < MIN_INT64 then MIN_INT64 else exact
  }

  /** `time.Duration(threshold*24) * time.Hour` */
  function Threshold(days: int): int {
    Wrap(Wrap(days * 24) * HOUR)
  }

  /** The comparison that decides whether a certificate's secret is deleted. */
  predicate DueForRenewal(exactRemaining: int, days: int) {
    Saturate(exactRemaining) <= Threshold(days)
  }

  /** Wrapping a factor before the product changes nothing. */
  lemma {:induction false} WrapProduct(a: int, b: int)
    ensures Wrap(Wrap(a) * b) == Wrap(a * b)
  {
    var k := (Wrap(a) - a) / TWO64;
    assert Wrap(a) == a + k * TWO64;
    assert Wrap(a) * b == a * b + (k * b) * TWO64 by {
      assert (k * TWO64) * b == (k * b) * TWO64;
    }
    WrapShift(a * b, k * b);
  }

  lemma {:induction false} WrapShift(x: int, k: int)
    ensures Wrap(x + k * TWO64) == Wrap(x)
  {
    WrapUnique(x + k * TWO64, Wrap(x), k + (x - Wrap(x)) / TWO64);
  }

  lemma {:induction false} WrapUnique(x: int, r: int, k: int)
    requires IsInt64(r) && x == r + k * TWO64
    ensures Wrap(x) == r
  {
    var y := x - MIN_INT64;
    assert 0 <= r - MIN_INT64 < TWO64;
    assert y == k * TWO64 + (r - MIN_INT64);
  }

  /** The sentinel is the exact double of the delay exactly up to 4611686018 seconds. */
  lemma {:induction false} SentinelExactness(delay: int)
    requires PositiveInt(delay)
    ensures Sentinel(Timeout(delay)) == 2 * delay * SECOND <==> delay <= 4_611_686_018
  {
    WrapProduct(delay * SECOND, 2);
    if delay <= 4_611_686_018 {
      assert IsInt64(2 * delay * SECOND);
    }
  }

  /** For every int64 timeout, wrapped ones included: a deadline that passed is read as "renewed" by the cronjob
      exactly if twice the timeout overflows upwards, or the timeout is not positive and twice it fits. */
  lemma {:induction false} CronjobTimeoutVerdict(timeout: int)
    requires IsInt64(timeout)
    ensures CronjobRenewed(timeout, Sentinel(timeout)) <==> 2 * timeout > MAX_INT64 || MIN_INT64 <= 2 * timeout <= 0
  {
    if 2 * timeout > MAX_INT64 {
      WrapUnique(timeout * 2, timeout * 2 - TWO64, 1);
    } else if 2 * timeout < MIN_INT64 {
      WrapUnique(timeout * 2, timeout * 2 + TWO64, 0 - 1);
    }
  }

  /** So up to 4611686018 seconds of delay the cronjob never takes a missed deadline for a renewal. */
  lemma {:induction false} DeadlineIsNotRenewed(delay: int)
    requires 1 <= delay <= 4_611_686_018
    ensures !CronjobRenewed(Timeout(delay), Sentinel(Timeout(delay)))
  {
    CronjobTimeoutVerdict(delay * SECOND);
  }

  /** The operator reads the sentinel as "not renewed" at every timeout. */
  lemma {:induction false} OperatorTimeoutVerdict(timeout: int, successTime: int)
    ensures !OperatorRenewed(timeout, successTime) <==> (successTime - 2 * timeout) % TWO64 == 0 && IsInt64(successTime)
  {
    var s := Sentinel(timeout);
    if (successTime - 2 * timeout) % TWO64 == 0 && IsInt64(successTime) {
      var k := (2 * timeout - successTime) / TWO64;
      assert 2 * timeout == successTime + k * TWO64;
      WrapUnique(2 * timeout, successTime, k);
    }
  }

  /** The cronjob's "renewed" implies the operator's on every value exactly if the cronjob does not take a missed
      deadline for a renewal. Then the two disagree exactly on a success that came late and is not the sentinel, and
      what the operator counts it also reports. Otherwise they disagree on everything late and on the sentinel. */
  lemma {:induction false} VerdictsDiffer(timeout: int, successTime: int)
    requires IsInt64(timeout)
    ensures (forall t :: CronjobRenewed(timeout, t) ==> OperatorRenewed(timeout, t))
       <==> !CronjobRenewed(timeout, Sentinel(timeout))
    ensures !CronjobRenewed(timeout, Sentinel(timeout)) ==>
      && (CronjobRenewed(timeout, successTime) != OperatorRenewed(timeout, successTime)
          <==> successTime > timeout && successTime != Sentinel(timeout))
      && (OperatorCounted(timeout, successTime) ==> OperatorRenewed(timeout, successTime))
    ensures CronjobRenewed(timeout, Sentinel(timeout)) ==>
      (CronjobRenewed(timeout, successTime) != OperatorRenewed(timeout, successTime)
       <==> successTime > timeout || successTime == Sentinel(timeout))
  {
    hide Sentinel;
    assert !OperatorRenewed(timeout, Sentinel(timeout));
  }

  /** For a threshold of any positive number of days, the int64 test decides what the exact one does on every
      remaining time exactly up to 106751 days. */
  lemma {:induction false} ThresholdExactness(days: int)
    requires PositiveInt(days)
    ensures (forall remaining :: DueForRenewal(remaining, days) <==> remaining <= days * DAY) <==> days <= 106_751
  {
    ThresholdIsEven(days);
    if days > 106_751 {
      assert !DueForRenewal(MAX_INT64, days) && MAX_INT64 <= days * DAY;
    } else {
      WrapProduct(days * 24, HOUR);
    }
  }

  lemma {:induction false} ThresholdIsEven(days: int)
    ensures Threshold(days) % 2 == 0
  {
    var w := Wrap(days * 24);
    assert Threshold(days) == Wrap(w * HOUR);
    hide Wrap;
    EvenProduct(w, HOUR, 1800 * SECOND);
    WrapIsEven(w * HOUR);
  }

  lemma {:induction false} EvenProduct(w: int, b: int, half: int)
    requires b == half * 2
    ensures w * b % 2 == 0
  {
    assert w * b == (w * half) * 2;
  }

  lemma {:induction false} WrapIsEven(x: int)
    requires x % 2 == 0
    ensures Wrap(x) % 2 == 0
  {
    var k := (Wrap(x) - x) / TWO64;
    assert Wrap(x) == x + k * TWO64;
  }
}
