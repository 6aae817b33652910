/** Types shared by every module of the model. */
module Common {
  datatype Option<+T> = None | Some(value: T)

  const TWO_TO_THE_32: int := 0x1_0000_0000

  /** A C `uint32_t`. */
  type uint32 = x: int | 0 <= x < TWO_TO_THE_32

  /** `s` with its n-th element taken out. */
  function Without<T>(s: seq<T>, n: nat): (r: seq<T>)
    requires n < |s|
  {
    s[..n] + s[n + 1..]
  }

  /** Where `x` first occurs in `s`, or the length. */
  function Position<T(==)>(s: seq<T>, x: T): (n: nat)
    ensures n <= |s| && (n < |s| ==> s[n] == x)
    ensures forall k :: 0 <= k < n ==> s[k] != x
  {
    if s == [] || s[0] == x then 0 else 1 + Position(s[1..], x)
  }

  lemma PositionUnique<T>(s: seq<T>, x: T, n: nat)
    requires n <= |s| && (n < |s| ==> s[n] == x) && forall k :: 0 <= k < n ==> s[k] != x
    ensures Position(s, x) == n
  {
  }
}
