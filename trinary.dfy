/** The three-valued answer of every subtype and capability query: a fact
    may be proven (`Yes`), refuted (`No`), or undecidable from the
    reflection facts at hand (`Maybe`). */
module Trinary {

  datatype TrinaryLogic = Yes | No | Maybe
}
