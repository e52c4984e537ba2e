/** Values shared by every component: optional values and clock readings. */
module Foundation {

  datatype Option<+T> = None | Some(value: T)

  /** Nanoseconds since an arbitrary origin. */
  type Time = int

  const SECOND: int := 1_000_000_000

  /** What is left of an instant after it is written as an RFC 3339 timestamp without a
      fraction and read back: API timestamps and SDK timestamps both lose their fraction. */
  function Stored(t: Time): (s: Time)
    ensures s <= t < s + SECOND
    ensures s % SECOND == 0
  {
    t - t % SECOND
  }

  /** Storing is idempotent and monotone, and a strict order between stored readings is a
      strict order between the instants they came from. */
  lemma StoredOrder(a: Time, b: Time)
    ensures Stored(Stored(a)) == Stored(a)
    ensures a <= b ==> Stored(a) <= Stored(b)
    ensures Stored(a) < Stored(b) ==> a < b
    ensures Stored(a) < Stored(b) <==> Stored(a) + SECOND <= b
  {
  }
}
