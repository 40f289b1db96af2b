/** Fixed-width arithmetic as the released program performs it: `+` on `u64`
    wraps around, the `saturating_*` operations clamp, and casts between
    `u64` and `i64` reinterpret the bits. */
module Words {

  const LIMIT: int := 0x1_0000_0000_0000_0000
  const HALF: int := 0x8000_0000_0000_0000

  type u64 = x: int | 0 <= x < LIMIT

  const MAX: u64 := LIMIT - 1

  /** The low 64 bits of a non-negative integer. */
  function Wrap(x: nat): u64 {
    x % LIMIT
  }

  function Add(a: u64, b: u64): (r: u64) {
    if a + b < LIMIT then a + b else a + b - LIMIT
  }

  function SatAdd(a: u64, b: u64): u64 {
    if a + b < LIMIT then a + b else MAX
  }

  function SatSub(a: u64, b: u64): u64 {
    if b <= a then a - b else 0
  }

  function SatMul(a: u64, b: u64): u64 {
    if a * b < LIMIT then
      assert 0 <= a * b by { MulNonNegative(a, b); }
      a * b
    else MAX
  }

  lemma MulNonNegative(a: int, b: int)
    requires 0 <= a && 0 <= b
    ensures 0 <= a * b
  {}

  function Min(a: u64, b: u64): u64 {
    if a <= b then a else b
  }

  function Max(a: u64, b: u64): u64 {
    if a <= b then b else a
  }

  function AsI64(x: u64): int {
    if x < HALF then x else x - LIMIT
  }

  function AsU64(x: int): u64
    requires -HALF <= x < HALF
  {
    if 0 <= x then x else x + LIMIT
  }

  function NegI64(x: int): (r: int)
    requires -HALF <= x < HALF
    ensures -HALF <= r < HALF
  {
    if x == -HALF then x else -x
  }

  /** The casts undo each other. */
  lemma CastsRoundTrip(x: u64, y: int)
    requires -HALF <= y < HALF
    ensures AsU64(AsI64(x)) == x && AsI64(AsU64(y)) == y
  {}

  // ------------------------------------------------- multiples and residues

  lemma NextMultiple(q: nat, n: nat)
    ensures (q + 1) * n == q * n + n
  {}

  lemma NoSmallMultiple(x: int, n: int)
    requires n > 0
    ensures x >= 1 ==> x * n >= n
    ensures x <= -1 ==> x * n <= -n
  {}

  lemma Residue(x: nat, n: nat, q: nat, r: nat)
    requires r < n && x == q * n + r
    ensures x % n == r
  {
    var q', r' := x / n, x % n;
    assert x == q' * n + r';
    assert (q - q') * n == r' - r;
    NoSmallMultiple(q - q', n);
  }

  lemma WrapAdd(x: nat, w: u64)
    ensures Add(Wrap(x), w) == Wrap(x + w)
  {
    var q, r := x / LIMIT, x % LIMIT;
    assert x == q * LIMIT + r;
    if r + w < LIMIT {
      Residue(x + w, LIMIT, q, r + w);
    } else {
      NextMultiple(q, LIMIT);
      Residue(x + w, LIMIT, q + 1, r + w - LIMIT);
    }
  }

  lemma WrapAtMost(x: nat)
    ensures Wrap(x) <= x
    ensures x < LIMIT ==> Wrap(x) == x
  {}
}
