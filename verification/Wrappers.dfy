/**
  What the modules of the model share: the Option type, the lesser and greater of two numbers, clamping,
  and how far n steps reach.
*/
module Wrappers {
  datatype Option<+T> = None | Some(value: T)

  function Min(x: int, y: int): int { if x < y then x else y }

  function Max(x: int, y: int): int { if x < y then y else x }

  /** v held between lo and hi; hi wins when they cross. */
  function ClampReal(v: real, lo: real, hi: real): real {
    if v < lo then (if lo < hi then lo else hi) else if v < hi then v else hi
  }

  function Distance(a: real, b: real): real { if a < b then b - a else a - b }

  /** n steps of the given size. */
  function Reach(n: nat, step: real): real {
    if n == 0 then 0.0 else Reach(n - 1, step) + step
  }

  lemma {:induction false} ReachIs(n: nat, step: real)
    ensures Reach(n, step) == n as real * step
  {
    if n > 0 {
      ReachIs(n - 1, step);
    }
  }
}
