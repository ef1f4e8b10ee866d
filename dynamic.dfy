/** Dynamic markings: forte and piano with a magnitude, and their mezzo forms. */
module Dynamics {
  import opened Ints

  datatype Dynamic = Forte(magnitude: U8) | MezzoForte | MezzoPiano | Piano(magnitude: U8)

  const DefaultDynamic := MezzoForte
}
