/** How many signers a validator set needs. */
module Threshold {
  import opened Wrappers
  import opened ByteCodec

  /** Two thirds rounded down, in integers, but at least two. */
  function CalcMinSigners(maxSigners: uint16): Option<uint16> {
    if maxSigners < 2 then None
    else
      var twoThirds := maxSigners * 2 / 3;
      Some(if twoThirds < 2 then 2 else twoThirds)
  }

  /** The most signers whose threefold does not exceed twice the set, but never fewer than two. */
  lemma ThresholdExactly(maxSigners: uint16)
    ensures CalcMinSigners(maxSigners).None? <==> maxSigners <= 1
    ensures maxSigners >= 2 ==>
              var m := CalcMinSigners(maxSigners).value;
              m >= 2 && m <= maxSigners && (3 * m <= 2 * maxSigners || m == 2) && 3 * (m + 1) > 2 * maxSigners
  {
  }
}
