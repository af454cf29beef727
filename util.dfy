/** Small shared vocabulary: an option type and the slot-map keys of the scene pools. */
module Util {

  datatype Option<T> = None | Some(value: T)

  /** A slot-map key. The pools issue keys 1, 2, 3, ... in insertion order. */
  type Key = nat

  /** The key `MaterialKey::default()` / `TextureKey::default()`: the null key, which no pool ever issues. */
  const NullKey: Key := 0

  function Abs(x: real): (r: real)
    ensures r >= 0.0 && (r == x || r == -x)
  {
    if x < 0.0 then -x else x
  }

  function MinR(a: real, b: real): (r: real)
    ensures r <= a && r <= b && (r == a || r == b)
  {
    if a <= b then a else b
  }

  function MaxR(a: real, b: real): (r: real)
    ensures a <= r && b <= r && (r == a || r == b)
  {
    if a >= b then a else b
  }
}
