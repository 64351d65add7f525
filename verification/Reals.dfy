/** Products of reals under a name, so that equal factors give equal products. */
module Reals {
  function Times(a: real, b: real): real {
    a * b
  }
}
