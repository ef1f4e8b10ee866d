/** Three-way comparison results, standing for the source's `core::cmp::Ordering`. */
module Orderings {

  datatype Ordering = Less | Equal | Greater

  /** The comparison of two integers (`Ord for` integer types). */
  function CompareInt(a: int, b: int): (r: Ordering)
    ensures r == Less <==> a < b
    ensures r == Equal <==> a == b
    ensures r == Greater <==> a > b
  {
    if a < b then Less else if a == b then Equal else Greater
  }
}
