/** Machine integers of the indexer: 64-bit ranges, saturating arithmetic and `as` casts. */
module Ints {
  const U64_MAX: int := 0xFFFF_FFFF_FFFF_FFFF
  const TWO_63: int := 0x8000_0000_0000_0000
  const TWO_64: int := 0x1_0000_0000_0000_0000

  type u64 = x: int | 0 <= x <= 0xFFFF_FFFF_FFFF_FFFF
  type i64 = x: int | -0x8000_0000_0000_0000 <= x < 0x8000_0000_0000_0000

  datatype Option<+T> = None | Some(value: T) {
    function GetOr(default: T): T {
      match this
      case Some(v) => v
      case None => default
    }
  }

  function Get<K, V>(m: map<K, V>, k: K): Option<V> {
    if k in m then Some(m[k]) else None
  }

  lemma SameMaps<K, V>(a: map<K, V>, b: map<K, V>)
    requires forall k :: Get(a, k) == Get(b, k)
    ensures a == b
  {
    forall k
      ensures k in a <==> k in b
      ensures k in a ==> a[k] == b[k]
    {
      assert Get(a, k) == Get(b, k);
    }
  }

  /** Amount maps never hold a zero: setting one removes the key. */
  function SetAmount<K>(m: map<K, u64>, k: K, amount: u64): map<K, u64> {
    if amount == 0 then m - {k} else m[k := amount]
  }

  /** `u64::saturating_add`. */
  function SatAdd(a: u64, b: u64): u64 {
    if a + b <= U64_MAX then a + b else U64_MAX
  }

  /** `u64::saturating_sub`. */
  function SatSub(a: u64, b: u64): u64 {
    if a >= b then a - b else 0
  }

  /** The nearest 64-bit value. */
  function Clamped(n: int): u64 {
    if n < 0 then 0 else if n > 0xFFFF_FFFF_FFFF_FFFF then 0xFFFF_FFFF_FFFF_FFFF else n
  }

  /** Saturating again and again is saturating once. */
  lemma ClampedAdds(x: nat, a: nat)
    ensures Clamped(Clamped(x) + a) == Clamped(x + a)
  {
  }

  /** `x as u64` for a signed 64-bit `x`. */
  function AsU64(x: i64): u64 {
    if x >= 0 then x else x + TWO_64
  }

  /** `x as i64`: wraps at 2^63, is undone by `AsU64`, and is positive exactly for 0 < x < 2^63. */
  function AsI64(x: u64): (r: i64)
    ensures AsU64(r) == x
    ensures r > 0 <==> 0 < x < TWO_63
  {
    if x < TWO_63 then x else x - TWO_64
  }

  lemma AsU64Inverts(x: i64)
    ensures AsI64(AsU64(x)) == x
  {
  }

  lemma AsI64Injective(x: u64, y: u64)
    requires AsI64(x) == AsI64(y)
    ensures x == y
  {
  }
}
