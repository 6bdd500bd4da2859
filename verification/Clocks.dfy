/** Timestamps and timeouts, in the wrapping, checked and saturating arithmetic of the source. */
module Clocks {
  import opened Wrappers
  import opened Bytes
  import opened Wasi

  const NANOS: nat := 1_000_000_000

  datatype Datetime = Datetime(seconds: u64, nanoseconds: u32)

  /** The nanoseconds that a datetime stands for. */
  function Exact(d: Datetime): nat { d.seconds * NANOS + d.nanoseconds }

  // ----- machine arithmetic -----

  function WrapSub64(a: u64, b: u64): u64 { if a >= b then a - b else a + TWO_64 - b }

  function CheckedMul64(a: u64, b: u64): Option<u64> { if a * b < TWO_64 then Some(a * b) else None }

  function CheckedAdd64(a: u64, b: u64): Option<u64> { if a + b < TWO_64 then Some(a + b) else None }

  function SaturatingMul64(a: u64, b: u64): u64 { if a * b < TWO_64 then a * b else TWO_64 - 1 }

  function SaturatingAdd64(a: u64, b: u64): u64 { if a + b < TWO_64 then a + b else TWO_64 - 1 }

  // ----- timestamps -----

  datatype NewTimestamp = NoChange | Now | At(datetime: Datetime)

  function ToDatetime(ts: u64): Datetime { Datetime(ts / NANOS, ts % NANOS) }

  /** The timestamp that a call is to set. */
  function Systimespec(set_: bool, ts: u64, now: bool): (r: Result<NewTimestamp, Errno>)
  {
    if set_ && now then Failure(INVAL)
    else if set_ then Success(At(ToDatetime(ts)))
    else if now then Success(Now)
    else Success(NoChange)
  }

  /** What two flags say of a timestamp: both contradict each other, neither leaves it alone, and each sets it
      to the given time or to the current one. */
  lemma {:induction false} SystimespecIs(set_: bool, ts: u64, now: bool)
    ensures Systimespec(set_, ts, now) == Failure(INVAL) <==> set_ && now
    ensures Systimespec(set_, ts, now) == Success(NoChange) <==> !set_ && !now
    ensures Systimespec(set_, ts, now) == Success(Now) <==> !set_ && now
    ensures Systimespec(set_, ts, now).Success? && Systimespec(set_, ts, now).value.At? ==>
              Exact(Systimespec(set_, ts, now).value.datetime) == ts
  {
  }

  /** The adapter's saturating conversion. */
  function DatetimeToTimestamp(d: Datetime): u64
  {
    SaturatingAdd64(d.nanoseconds, SaturatingMul64(d.seconds, NANOS))
  }

  /** The checked conversion, as the host and the adapter's clock calls make it. */
  function CheckedTimestamp(d: Datetime): (r: Result<u64, Errno>)
  {
    match CheckedMul64(d.seconds, NANOS)
    case None => Failure(OVERFLOW)
    case Some(ns) =>
      match CheckedAdd64(ns, d.nanoseconds)
      case None => Failure(OVERFLOW)
      case Some(t) => Success(t)
  }

  /** The saturating conversion is the exact value, or the largest timestamp if that is smaller; the
      checked one agrees with it wherever it answers, and answers exactly where nothing is lost. */
  lemma {:induction false} ConversionsAreExact(d: Datetime)
    ensures DatetimeToTimestamp(d) == Min(Exact(d), TWO_64 - 1)
    ensures CheckedTimestamp(d) == if Exact(d) < TWO_64 then Success(DatetimeToTimestamp(d)) else Failure(OVERFLOW)
  {
  }

  /** Later datetimes never get earlier timestamps. */
  lemma {:induction false} ConversionIsMonotone(a: Datetime, b: Datetime)
    requires Exact(a) <= Exact(b)
    ensures DatetimeToTimestamp(a) <= DatetimeToTimestamp(b)
  {
    ConversionsAreExact(a);
    ConversionsAreExact(b);
  }

  /** Splitting a timestamp and putting it together again loses nothing. */
  lemma {:induction false} TimestampRoundTrip(ts: u64)
    ensures match Systimespec(true, ts, false)
            case Success(At(d)) =>
              d.nanoseconds < NANOS && DatetimeToTimestamp(d) == ts && CheckedTimestamp(d) == Success(ts)
            case _ => false
  {
    ConversionsAreExact(ToDatetime(ts));
  }

  // ----- absolute timeouts -----

  /** The relative timeout of an absolute realtime clock subscription, step by step: subtract the
      seconds, borrow if the nanoseconds need it, subtract those, and convert. */
  function RelativeTimeout(timeout: u64, now: Datetime): (r: Result<u64, Errno>)
  {
    var due := ToDatetime(timeout);
    var seconds := WrapSub64(due.seconds, now.seconds);
    var borrow := due.nanoseconds < now.nanoseconds;
    var seconds' := if borrow then WrapSub64(seconds, 1) else seconds;
    var nanos := if borrow then WrapAdd32(due.nanoseconds, NANOS) else due.nanoseconds;
    CheckedTimestamp(Datetime(seconds', WrapSub32(nanos, now.nanoseconds)))
  }

  /** What the subscription should wait for. */
  function TimeLeft(timeout: u64, now: Datetime): (r: Result<u64, Errno>)
  {
    if timeout >= Exact(now) then Success(timeout - Exact(now)) else Failure(OVERFLOW)
  }

  /** The steps add up to the exact difference, plus 2^64 seconds if the deadline has passed. */
  lemma {:induction false} RelativeTimeoutIs(timeout: u64, now: Datetime)
    requires now.nanoseconds < NANOS
    ensures var left := timeout - Exact(now) + if timeout >= Exact(now) then 0 else TWO_64 * NANOS;
            left >= 0 && RelativeTimeout(timeout, now) == if left < TWO_64 then Success(left) else Failure(OVERFLOW)
  {
    var due := ToDatetime(timeout);
    assert timeout == due.seconds * NANOS + due.nanoseconds;
    var borrow := if due.nanoseconds < now.nanoseconds then 1 else 0;
    var d := Datetime(if due.seconds >= now.seconds + borrow then due.seconds - now.seconds - borrow
                      else due.seconds + TWO_64 - now.seconds - borrow,
                      due.nanoseconds + borrow * NANOS - now.nanoseconds);
    assert RelativeTimeout(timeout, now) == CheckedTimestamp(d);
    ConversionsAreExact(d);
  }

  /** The answer is right exactly when the clock is not so far past the deadline that the wrapped
      difference fits a timestamp again. */
  lemma {:induction false} TimeoutIsRightIff(timeout: u64, now: Datetime)
    requires now.nanoseconds < NANOS
    ensures RelativeTimeout(timeout, now) == TimeLeft(timeout, now)
            <==> Exact(now) - timeout <= TWO_64 * NANOS - TWO_64
  {
    RelativeTimeoutIs(timeout, now);
  }

  /** A clock at the very end of its range makes a long past deadline look a second away. */
  lemma {:induction false} TimeoutWraps()
    ensures RelativeTimeout(0, Datetime(TWO_64 - 1, 0)) == Success(NANOS)
    ensures TimeLeft(0, Datetime(TWO_64 - 1, 0)) == Failure(OVERFLOW)
  {
    RelativeTimeoutIs(0, Datetime(TWO_64 - 1, 0));
  }

  /** Before 2^63 seconds the answer is right for every deadline. */
  lemma {:induction false} TimeoutIsRightInRange(timeout: u64, now: Datetime)
    requires now.nanoseconds < NANOS && now.seconds < TWO_63
    ensures RelativeTimeout(timeout, now) == TimeLeft(timeout, now)
  {
    TimeoutIsRightIff(timeout, now);
  }
}
