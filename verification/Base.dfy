/** Result codes, machine limits and the checked arithmetic every other module relies on. */
module Base {

  /** `size_t` and `uint64_t` on the 64-bit targets the project builds for. */
  const SIZE_MAX: nat := 0xFFFF_FFFF_FFFF_FFFF
  const U64_MAX: nat := 0xFFFF_FFFF_FFFF_FFFF
  const U32_MAX: nat := 0xFFFF_FFFF

  /** Values a `size_t` or `uint64_t` can hold. */
  type size = n: nat | n <= 0xFFFF_FFFF_FFFF_FFFF

  newtype byte = x: int | 0 <= x < 256

  datatype Option<+T> = None | Some(value: T)

  datatype Code =
    | Ok
    | InvalidArgument
    | Range
    | Overflow
    | NoMemory
    | NotFound
    | Busy
    | Timeout
    | Cancelled
    | Io
    | Protocol
    | Database
    | Internal

  /** Names one use of one pool slot: the pool, the slot, and the generation that use was issued under. */
  datatype Lease = Lease(pool: nat, slot: nat, generation: nat)
  const NO_LEASE := Lease(0, 0, 0)

  predicate LeaseShaped(l: Lease)
  {
    l.pool != 0 && l.generation != 0
  }

  /** A value together with the result code that guards it: the value is present exactly on `Ok`. */
  datatype Checked = Good(value: nat) | Bad(code: Code)

  /** The guard is evaluated before the sum, so nothing wraps. */
  function CheckedAdd(left: nat, right: nat): (r: Checked)
    requires left <= SIZE_MAX && right <= SIZE_MAX
    ensures r.Good? <==> left + right <= SIZE_MAX
    ensures r.Good? ==> r.value == left + right
    ensures r.Bad? ==> r.code == Overflow
  {
    if right > SIZE_MAX - left then Bad(Overflow) else Good(left + right)
  }

  lemma Spacing(n: nat, a: nat, b: nat)
    ensures a < b ==> n * a + n <= n * b
    ensures a == b ==> n * a == n * b
  {
    if a < b {
      var k: nat := b - a - 1;
      Distribute(n, a, k);
    }
  }

  lemma Distribute(n: nat, a: nat, k: nat)
    ensures n * (a + 1 + k) == n * a + n + n * k && n * k >= 0
  {
  }

  lemma QuotientBound(limit: nat, left: nat, right: nat)
    requires left != 0
    ensures right <= limit / left <==> left * right <= limit
  {
    Spacing(left, right, limit / left);
    Spacing(left, limit / left, right);
  }

  /** Overflow is reported exactly when the true product does not fit. */
  function CheckedMul(left: nat, right: nat): (r: Checked)
    requires left <= SIZE_MAX && right <= SIZE_MAX
    ensures r.Good? <==> left * right <= SIZE_MAX
    ensures r.Good? ==> r.value == left * right
    ensures r.Bad? ==> r.code == Overflow
  {
    if left != 0 && right > SIZE_MAX / left then
      QuotientBound(SIZE_MAX, left, right);
      Bad(Overflow)
    else
      assert left * right <= SIZE_MAX by {
        if left != 0 { QuotientBound(SIZE_MAX, left, right); }
      }
      Good(left * right)
  }

  /** `[offset, offset + length)` lies inside `[0, limit)`, decided without forming the sum. */
  function CheckedRange(offset: nat, length: nat, limit: nat): (r: Code)
    ensures r == Ok <==> offset + length <= limit
    ensures r == Ok || r == Range
  {
    if offset > limit then Range
    else if length > limit - offset then Range
    else Ok
  }

  /** The least multiple of `alignment` that is at least `value`, or Overflow when it does not fit. */
  function CheckedAlignUp(value: nat, alignment: nat): (r: Checked)
    requires value <= SIZE_MAX && alignment <= SIZE_MAX
    ensures alignment == 0 ==> r == Bad(InvalidArgument)
    ensures alignment != 0 && r.Bad? ==>
              r.code == Overflow && forall m: nat :: value <= m <= SIZE_MAX ==> m % alignment != 0
    ensures r.Good? ==>
              value <= r.value <= SIZE_MAX && r.value % alignment == 0 && r.value < value + alignment
  {
    if alignment == 0 then Bad(InvalidArgument)
    else
      var remainder := value % alignment;
      if remainder == 0 then Good(value)
      else
        var increment := alignment - remainder;
        assert (value + increment) % alignment == 0 by { NextMultiple(value, alignment); }
        assert forall m: nat :: value <= m < value + increment ==> m % alignment != 0 by {
          forall m: nat | value <= m < value + increment ensures m % alignment != 0 {
            NoMultipleBetween(value, alignment, m);
          }
        }
        CheckedAdd(value, increment)
  }

  lemma NextMultiple(value: nat, alignment: nat)
    requires alignment != 0 && value % alignment != 0
    ensures (value + (alignment - value % alignment)) % alignment == 0
  {
    var q := value / alignment;
    assert value + (alignment - value % alignment) == alignment * (q + 1);
    MultipleHasNoRemainder(q + 1, alignment);
  }

  lemma MultipleHasNoRemainder(k: nat, n: nat)
    requires n != 0
    ensures (n * k) % n == 0
  {
    Spacing(n, k, n * k / n);
    Spacing(n, n * k / n, k);
  }

  lemma NoMultipleBetween(value: nat, alignment: nat, m: nat)
    requires alignment != 0 && value % alignment != 0
    requires value <= m < value + (alignment - value % alignment)
    ensures m % alignment != 0
  {
    Spacing(alignment, value / alignment, m / alignment);
    Spacing(alignment, m / alignment, value / alignment);
  }
}
