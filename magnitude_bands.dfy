/** The magnitude bands `< 5`, `[5, 6)`, `[6, 7)` and `>= 7` used by the statistics
    histogram, the sidebar badge and the map marker colour. */
module MagnitudeBands {

  /** The index of the band holding `m`. */
  function Band(m: real): (b: nat)
    ensures b < 4
  {
    if m < 5.0 then 0 else if m < 6.0 then 1 else if m < 7.0 then 2 else 3
  }

  /** The half-open interval each band covers. */
  predicate InBand(m: real, b: nat)
  {
    match b
    case 0 => m < 5.0
    case 1 => 5.0 <= m < 6.0
    case 2 => 6.0 <= m < 7.0
    case _ => b == 3 && 7.0 <= m
  }

  /** Every magnitude lies in exactly one band, the one `Band` names. */
  lemma BandIsUnique(m: real, b: nat)
    ensures InBand(m, b) <==> b == Band(m)
  {
  }
}
