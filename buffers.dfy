/** The few NumPy array constructors the solver uses, as allocations of
    fresh Dafny arrays: np.zeros, np.copy, and a vectorised expression
    materialised into a new array. */
module Buffers {

  /** n zeros, the contents of np.zeros(n). */
  function Zeros(n: nat): (z: seq<real>)
  {
    seq(n, _ => 0.0)
  }

  /** A fresh array holding s (the result of a vectorised NumPy expression). */
  method FromSeq(s: seq<real>) returns (a: array<real>)
    ensures fresh(a) && a[..] == s
  {
    a := new real[|s|](i requires 0 <= i < |s| => s[i]);
  }

  /** np.zeros(n). */
  method NewZeros(n: nat) returns (a: array<real>)
    ensures fresh(a) && a[..] == Zeros(n)
  {
    a := new real[n](_ => 0.0);
  }

  /** np.copy(a): a fresh array with the same contents. */
  method Copy(a: array<real>) returns (r: array<real>)
    ensures fresh(r) && r[..] == a[..]
  {
    r := FromSeq(a[..]);
  }
}
