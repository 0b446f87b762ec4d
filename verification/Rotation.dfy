/** Positions on a ring of `n` places. */
module Rotation {

  /** `i` brought back onto the ring, for `i` less than one round too far. */
  function Wrap(i: nat, n: nat): nat {
    if i >= n then i - n else i
  }

  /** How many places `to` is behind `first`. */
  function Distance(first: nat, to: nat, n: nat): (d: nat)
    requires first < n && to < n
    ensures d < n && Wrap(first + d, n) == to
  {
    if to >= first then to - first else to + n - first
  }
}
