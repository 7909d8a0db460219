/** The auxiliary entropy pool: what is credited, advertised, handed out and put back. */
module AuxPool {
  import opened Octets
  import opened Oversampling

  /** The counter after an insertion: a 32-bit sum, capped by the digest size. */
  function CreditAfter(credit: nat, worth: nat, digest: nat): nat {
    Min(Wrap32(worth + credit), digest)
  }

  /** An insertion never lowers the credit, exactly when the sum does not wrap; when it does not, the
      credit is the capped sum. A claim of 2^32 - 1 bits on top of one bit leaves nothing. */
  lemma CreditKeptIff(credit: nat, worth: nat, digest: nat)
    requires credit <= digest <= 512 && worth < 0x1_0000_0000
    ensures CreditAfter(credit, worth, digest) >= credit <==> credit + worth < 0x1_0000_0000
    ensures credit + worth < 0x1_0000_0000 ==> CreditAfter(credit, worth, digest) == Min(credit + worth, digest)
    ensures CreditAfter(1, 0xffff_ffff, 512) == 0
  {
  }

  class Pool {
    /** Digest size of the hash in bits, at most 512, and the oversampling discount. */
    const digest: nat
    const osr: nat
    var credit: nat
    var initialized: bool

    /** All bits credited by insertions, and all bits handed out. */
    ghost var credited: nat
    ghost var returned: nat

    ghost predicate Valid()
      reads this
    {
      && digest <= 512 && osr < 0x1_0000_0000 - 512
      && credit <= digest && (!initialized ==> credit == 0)
      && returned + credit <= credited
    }

    constructor (digest: nat, osr: nat)
      requires digest <= 512 && osr < 0x1_0000_0000 - 512
      ensures Valid() && this.digest == digest && this.osr == osr && credit == credited == returned == 0 && !initialized
    {
      this.digest, this.osr := digest, osr;
      credit, initialized, credited, returned := 0, false, 0, 0;
    }

    /** esdm_aux_avail_entropy */
    function Available(): nat
      reads this
    {
      ReduceByOsr(Min(digest, credit), osr)
    }

    /** The credit a successful insertion may add: no more than the data has bits, in 32-bit arithmetic. */
    function Worth(len: nat, bits: nat): nat {
      Min(bits, Wrap32(len * 8))
    }

    /** esdm_aux_pool_insert_locked; the outcomes of the hash calls are inputs. */
    method Insert(len: nat, bits: nat, initOk: bool, updateOk: bool) returns (ok: bool)
      requires Valid() && bits < 0x1_0000_0000
      modifies this
      ensures Valid() && returned == old(returned)
      ensures ok <==> (old(initialized) || initOk) && updateOk
      ensures initialized <==> old(initialized) || initOk
      ensures !ok ==> credit == old(credit) && credited == old(credited)
      ensures ok ==> credited == old(credited) + Worth(len, bits)
      ensures ok ==> credit == CreditAfter(old(credit), Worth(len, bits), digest)
    {
      var worth := Worth(len, bits);
      if !initialized {
        if !initOk {
          return false;
        }
        initialized := true;
      }
      if !updateOk {
        return false;
      }
      credited := credited + worth;
      credit := CreditAfter(credit, worth, digest);
      ok := true;
    }

    /** esdm_aux_get_pool */
    method Extract(requested: nat, finalOk: bool, initOk: bool) returns (bits: nat)
      requires Valid()
      modifies this`credit, this`returned
      ensures Valid() && credited == old(credited) && returned == old(returned) + bits
      ensures finalOk && initOk ==> bits == Min(requested, old(Available()))
      ensures !(finalOk && initOk) ==> bits == 0
      ensures credit == old(credit) - Min(old(credit), Min(requested, digest) + osr)
    {
      if !initialized {
        return 0;
      }
      var r := Min(Min(requested, digest), 512) + osr;
      var collected := Min(digest, credit);
      credit := 0;
      if collected > r {
        credit := credit + (collected - r);
        collected := r;
      }
      bits := ReduceByOsr(collected, osr);
      if !finalOk || !initOk {
        bits := 0;
      }
      returned := returned + bits;
    }

    /** esdm_aux_get_backtrack: extraction, then the extracted block goes back in for nothing. */
    method Get(requested: nat, size: nat, finalOk: bool, reinitOk: bool, initOk: bool, updateOk: bool)
      returns (bits: nat)
      requires Valid()
      modifies this
      ensures Valid() && credited == old(credited) && returned == old(returned) + bits
      ensures finalOk && reinitOk ==> bits == Min(requested, old(Available()))
      ensures !(finalOk && reinitOk) ==> bits == 0
      ensures credit == old(credit) - Min(old(credit), Min(requested, digest) + osr)
    {
      bits := Extract(requested, finalOk, reinitOk);
      var ok := Insert(size, 0, initOk, updateOk);
    }
  }
}
