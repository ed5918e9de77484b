/** Shared vocabulary for the whole model: optional values, results carrying
    the errors the Go code returns or dies with, Go's 64-bit integers with
    their two's-complement wrap-around, and a filter over sequences used to
    count the effects a worker produces. */
module Common {

  /** Go's `value, ok` pairs and nil pointers. */
  datatype Option<+T> = None | Some(value: T) {

    /** The carried value, or `default` when there is none. */
    function GetOr(default: T): T
    {
      match this
      case Some(v) => v
      case None => default
    }
  }

  /** Every way an operation of the model can end without a value. */
  datatype Error =
    | Fatal(reason: string)       // log.Fatalln: the process exits
    | PoolNotFound                // db.POOL_NOT_FOUND
    | TypeConversionFailed        // db.TYPE_CONVERSION_FAILED
    | PoolGetFailed(reason: string)
    | CannotConnect(reason: string)
    | NilSubscriber               // a method called on the nil package-level subscriber

  datatype Result<+T> = Ok(value: T) | Err(error: Error)

  const MinInt64: int := -0x8000_0000_0000_0000
  const MaxInt64: int := 0x7fff_ffff_ffff_ffff
  const TwoTo64: int := 0x1_0000_0000_0000_0000

  /** Go's `int` and `int64` on a 64-bit platform. */
  type Int64 = x: int | MinInt64 <= x <= MaxInt64

  /** `time.Duration`: a count of nanoseconds held in an int64. */
  type Duration = Int64

  const Second: int := 1_000_000_000

  /** The int64 that Go's arithmetic leaves when the exact result is `x`. */
  function Wrap64(x: int): (r: Int64)
    ensures MinInt64 <= x <= MaxInt64 ==> r == x
    ensures (x - r) % TwoTo64 == 0
  {
    (x - MinInt64) % TwoTo64 + MinInt64
  }

  /** `a + b` on two durations, wrapping like Go. */
  function AddDuration(a: Duration, b: Duration): (r: Duration)
    ensures MinInt64 <= a + b <= MaxInt64 ==> r == a + b
    ensures 0 <= a && 0 <= b && a + b <= MaxInt64 ==> a <= r && b <= r
  {
    Wrap64(a + b)
  }

  /** The elements of `s` that satisfy `p`, in their original order. */
  function Filter<T>(p: T -> bool, s: seq<T>): (r: seq<T>)
    ensures |r| <= |s|
    ensures forall i :: 0 <= i < |r| ==> p(r[i])
  {
    if s == [] then []
    else (if p(s[0]) then [s[0]] else []) + Filter(p, s[1..])
  }

  lemma {:induction false} FilterConcat<T>(p: T -> bool, a: seq<T>, b: seq<T>)
    ensures Filter(p, a + b) == Filter(p, a) + Filter(p, b)
  {
    if a == [] {
      assert a + b == b;
    } else {
      assert (a + b)[1..] == a[1..] + b;
      FilterConcat(p, a[1..], b);
    }
  }

  /** Filtering a sequence none of whose elements qualify leaves nothing. */
  lemma {:induction false} FilterNone<T>(p: T -> bool, s: seq<T>)
    requires forall i :: 0 <= i < |s| ==> !p(s[i])
    ensures Filter(p, s) == []
  {
    if s != [] {
      FilterNone(p, s[1..]);
    }
  }
}
