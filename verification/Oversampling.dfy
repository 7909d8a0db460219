/** The SP 800-90C discount on the entropy of a conditioned pool. */
module Oversampling {

  /** esdm_reduce_by_osr */
  function ReduceByOsr(bits: nat, osr: nat): nat {
    if bits >= osr then bits - osr else 0
  }
}
