/** The ring of Jitter RNG blocks: monitors fill slots, readers drain them, all interleaved.
    Only the compare-and-swap on a slot state and the increment of the index are atomic; block
    contents move one cell at a time, in any order. */
module JentRing {
  import opened Masks
  import opened Octets
  import opened Options

  datatype SlotState = Empty | Filling | Filled | Reading

  /** An entropy_es: the seed cells and the entropy credited to them. */
  datatype Block = Block(cells: seq<int>, bits: nat)

  /** held is a history variable: the round whose block lies here and was not handed out yet. */
  datatype Slot = Slot(state: SlotState, block: Block, held: Option<nat>)

  /** Where a thread is. mine is what a monitor itself wrote to its slot; got and bits are what a
      reader copied so far. */
  datatype Thread =
    | Idle
    | Scanning(i: nat)
    | Writing(i: nat, mine: Block)
    | Ticket(i: nat)
    | Copying(i: nat, got: map<nat, int>, bits: Option<nat>)
    | Wiping(i: nat)

  /** published and delivered are history variables: the blocks monitors completed, in order, and
      the rounds and blocks readers obtained. */
  datatype Ring = Ring(slots: seq<Slot>, idx: nat, threads: seq<Thread>,
                       published: seq<Block>, delivered: seq<(Option<nat>, Block)>)

  ghost predicate At(r: Ring, p: nat) {
    p < |r.threads| && !r.threads[p].Idle? && r.threads[p].i < |r.slots|
  }

  /** Thread p goes on to t, its slot i becomes s. */
  function Moved(r: Ring, p: nat, t: Thread, i: nat, s: Slot): Ring
    requires p < |r.threads| && i < |r.slots|
  {
    r.(threads := r.threads[p := t], slots := r.slots[i := s])
  }

  // The monitor, one thread of which is any number of calls to esdm_jent_async_monitor.

  ghost predicate StartScan(r: Ring, r': Ring, p: nat) {
    p < |r.threads| && r.threads[p].Idle? && r' == r.(threads := r.threads[p := Scanning(0)])
  }

  /** The compare-and-swap from empty to filling fails. */
  ghost predicate SkipSlot(r: Ring, r': Ring, p: nat) {
    && At(r, p) && r.threads[p].Scanning? && r.slots[r.threads[p].i].state != Empty
    && r' == r.(threads := r.threads[p := Scanning(r.threads[p].i + 1)])
  }

  ghost predicate ClaimEmpty(r: Ring, r': Ring, p: nat) {
    && At(r, p) && r.threads[p].Scanning?
    && var i := r.threads[p].i; var s := r.slots[i];
    && s.state == Empty && r' == Moved(r, p, Writing(i, s.block), i, s.(state := Filling))
  }

  ghost predicate WriteCell(r: Ring, r': Ring, p: nat, j: nat, v: int) {
    && At(r, p) && r.threads[p].Writing?
    && var t := r.threads[p]; var s := r.slots[t.i];
    && j < |t.mine.cells| && j < |s.block.cells|
    && r' == Moved(r, p, t.(mine := t.mine.(cells := t.mine.cells[j := v])),
                   t.i, s.(block := s.block.(cells := s.block.cells[j := v])))
  }

  ghost predicate WriteBits(r: Ring, r': Ring, p: nat, v: nat) {
    && At(r, p) && r.threads[p].Writing?
    && var t := r.threads[p]; var s := r.slots[t.i];
    && r' == Moved(r, p, t.(mine := t.mine.(bits := v)), t.i, s.(block := s.block.(bits := v)))
  }

  /** The plain write of filled. The round stands for what the monitor itself stored. */
  ghost predicate Publish(r: Ring, r': Ring, p: nat) {
    && At(r, p) && r.threads[p].Writing?
    && var t := r.threads[p]; var s := r.slots[t.i];
    && r' == Moved(r, p, Scanning(t.i + 1), t.i, s.(state := Filled, held := Some(|r.published|)))
             .(published := r.published + [t.mine])
  }

  ghost predicate EndScan(r: Ring, r': Ring, p: nat) {
    && p < |r.threads| && r.threads[p].Scanning? && r.threads[p].i >= |r.slots|
    && r' == r.(threads := r.threads[p := Idle])
  }

  // The reader, esdm_jent_async_get.

  /** The atomic increment of the 32-bit index; a mask picks the slot. */
  ghost predicate TakeTicket(r: Ring, r': Ring, p: nat) {
    && p < |r.threads| && r.threads[p].Idle? && 0 < |r.slots|
    && var idx := Wrap32(r.idx + 1);
    && r' == r.(idx := idx, threads := r.threads[p := Ticket(Place(idx, |r.slots|))])
  }

  /** The compare-and-swap from filled to reading fails; the reader takes the synchronous path. */
  ghost predicate FallBack(r: Ring, r': Ring, p: nat) {
    && At(r, p) && r.threads[p].Ticket? && r.slots[r.threads[p].i].state != Filled
    && r' == r.(threads := r.threads[p := Idle])
  }

  ghost predicate ClaimFilled(r: Ring, r': Ring, p: nat) {
    && At(r, p) && r.threads[p].Ticket?
    && var i := r.threads[p].i; var s := r.slots[i];
    && s.state == Filled && r' == Moved(r, p, Copying(i, map[], None), i, s.(state := Reading))
  }

  ghost predicate CopyCell(r: Ring, r': Ring, p: nat, j: nat) {
    && At(r, p) && r.threads[p].Copying?
    && var t := r.threads[p]; var s := r.slots[t.i];
    && j < |s.block.cells| && r' == Moved(r, p, t.(got := t.got[j := s.block.cells[j]]), t.i, s)
  }

  ghost predicate CopyBits(r: Ring, r': Ring, p: nat) {
    && At(r, p) && r.threads[p].Copying?
    && var t := r.threads[p]; var s := r.slots[t.i];
    && r' == Moved(r, p, t.(bits := Some(s.block.bits)), t.i, s)
  }

  ghost predicate CopiedAll(got: map<nat, int>, cells: nat) {
    forall j :: 0 <= j < cells ==> j in got
  }

  /** Cells and bits are copied: the reader has its block. */
  ghost predicate Deliver(r: Ring, r': Ring, p: nat) {
    && At(r, p) && r.threads[p].Copying?
    && var t := r.threads[p]; var s := r.slots[t.i];
    && t.bits.Some? && CopiedAll(t.got, |s.block.cells|)
    && var b := Block(seq(|s.block.cells|, j requires 0 <= j < |s.block.cells| => t.got[j]), t.bits.value);
    && r' == Moved(r, p, Wiping(t.i), t.i, s.(held := None)).(delivered := r.delivered + [(s.held, b)])
  }

  ghost predicate WipeCell(r: Ring, r': Ring, p: nat, j: nat) {
    && At(r, p) && r.threads[p].Wiping?
    && var t := r.threads[p]; var s := r.slots[t.i];
    && j < |s.block.cells| && r' == Moved(r, p, t, t.i, s.(block := s.block.(cells := s.block.cells[j := 0])))
  }

  ghost predicate WipeBits(r: Ring, r': Ring, p: nat) {
    && At(r, p) && r.threads[p].Wiping?
    && var t := r.threads[p]; var s := r.slots[t.i];
    && r' == Moved(r, p, t, t.i, s.(block := s.block.(bits := 0)))
  }

  ghost predicate Release(r: Ring, r': Ring, p: nat) {
    && At(r, p) && r.threads[p].Wiping?
    && var t := r.threads[p]; var s := r.slots[t.i];
    && r' == Moved(r, p, Idle, t.i, s.(state := Empty))
  }

  datatype Step =
    | StartScanning | Skip | ToFilling | Write(j: nat, v: int) | SetBits(n: nat) | ToFilled | EndScanning
    | Increment | Synchronous | ToReading | Copy(j: nat) | TakeBits | Obtain | Wipe(j: nat) | ClearBits | ToEmpty

  ghost predicate Takes(r: Ring, r': Ring, p: nat, step: Step) {
    match step
    case StartScanning => StartScan(r, r', p)
    case Skip => SkipSlot(r, r', p)
    case ToFilling => ClaimEmpty(r, r', p)
    case Write(j, v) => WriteCell(r, r', p, j, v)
    case SetBits(n) => WriteBits(r, r', p, n)
    case ToFilled => Publish(r, r', p)
    case EndScanning => EndScan(r, r', p)
    case Increment => TakeTicket(r, r', p)
    case Synchronous => FallBack(r, r', p)
    case ToReading => ClaimFilled(r, r', p)
    case Copy(j) => CopyCell(r, r', p, j)
    case TakeBits => CopyBits(r, r', p)
    case Obtain => Deliver(r, r', p)
    case Wipe(j) => WipeCell(r, r', p, j)
    case ClearBits => WipeBits(r, r', p)
    case ToEmpty => Release(r, r', p)
  }

  /** Some thread takes some step. */
  ghost predicate Next(r: Ring, r': Ring) {
    exists p: nat, step :: Takes(r, r', p, step)
  }

  /** All slots empty, every thread outside, the index at -1 as an unsigned 32-bit number. */
  ghost predicate Init(r: Ring) {
    && 0 < |r.slots| && r.idx == 0xffff_ffff && r.published == [] && r.delivered == []
    && (forall i :: 0 <= i < |r.slots| ==> r.slots[i].state == Empty && r.slots[i].held == None)
    && (forall p :: 0 <= p < |r.threads| ==> r.threads[p] == Idle)
  }

  ghost predicate Run(rs: seq<Ring>) {
    && 0 < |rs| && Init(rs[0])
    && forall k :: 0 <= k < |rs| - 1 ==> Next(rs[k], rs[k + 1])
  }

  predicate Owns(t: Thread) { t.Writing? || t.Copying? || t.Wiping? }

  /** An owner's slot carries the owner's state. */
  ghost predicate Owned(r: Ring) {
    forall p :: 0 <= p < |r.threads| && Owns(r.threads[p]) ==>
      && r.threads[p].i < |r.slots|
      && r.slots[r.threads[p].i].state == (if r.threads[p].Writing? then Filling else Reading)
  }

  /** No slot has two owners. */
  ghost predicate Exclusive(r: Ring) {
    forall p, q :: 0 <= p < q < |r.threads| && Owns(r.threads[p]) && Owns(r.threads[q]) ==>
      r.threads[p].i != r.threads[q].i
  }

  /** What a monitor wrote is what lies in its slot. */
  ghost predicate Mirrored(r: Ring) {
    forall p :: 0 <= p < |r.threads| && r.threads[p].Writing? && r.threads[p].i < |r.slots| ==>
      r.slots[r.threads[p].i].block == r.threads[p].mine
  }

  ghost predicate Outstanding(r: Ring, n: nat) {
    forall k :: 0 <= k < |r.delivered| ==> r.delivered[k].0 != Some(n)
  }

  /** A slot that holds a round holds what was published, and the round is outstanding. */
  ghost predicate HeldIntact(r: Ring) {
    forall i :: 0 <= i < |r.slots| ==>
      && (r.slots[i].state == Filled ==> r.slots[i].held.Some?)
      && (r.slots[i].held.Some? ==>
        && (r.slots[i].state == Filled || r.slots[i].state == Reading)
        && r.slots[i].held.value < |r.published|
        && r.slots[i].block == r.published[r.slots[i].held.value]
        && Outstanding(r, r.slots[i].held.value))
  }

  ghost predicate HeldOnce(r: Ring) {
    forall i, j :: 0 <= i < j < |r.slots| && r.slots[i].held.Some? && r.slots[j].held.Some? ==>
      r.slots[i].held != r.slots[j].held
  }

  /** What a reader copied so far agrees with its slot, which still holds the round. */
  ghost predicate CopyAgrees(r: Ring) {
    forall p :: 0 <= p < |r.threads| && r.threads[p].Copying? && r.threads[p].i < |r.slots| ==>
      var t := r.threads[p]; var s := r.slots[t.i];
      && s.held.Some?
      && (forall j :: j in t.got && j < |s.block.cells| ==> t.got[j] == s.block.cells[j])
      && (t.bits.Some? ==> t.bits.value == s.block.bits)
  }

  /** A slot that is being wiped holds no round. */
  ghost predicate WipedFree(r: Ring) {
    forall p :: 0 <= p < |r.threads| && r.threads[p].Wiping? && r.threads[p].i < |r.slots| ==>
      r.slots[r.threads[p].i].held == None
  }

  /** Every reader got exactly the block a monitor stored in that round. */
  ghost predicate DeliveredIntact(r: Ring) {
    forall k :: 0 <= k < |r.delivered| ==>
      && r.delivered[k].0.Some? && r.delivered[k].0.value < |r.published|
      && r.delivered[k].1 == r.published[r.delivered[k].0.value]
  }

  /** No round was delivered twice. */
  ghost predicate DeliveredOnce(r: Ring) {
    forall k, l :: 0 <= k < l < |r.delivered| ==> r.delivered[k].0 != r.delivered[l].0
  }

  ghost predicate InSlot(r: Ring, n: nat) {
    exists i :: 0 <= i < |r.slots| && r.slots[i].held == Some(n)
  }

  /** No round is lost: it was delivered or still lies in a slot. */
  ghost predicate Accounted(r: Ring) {
    forall n :: 0 <= n < |r.published| ==> Outstanding(r, n) ==> InSlot(r, n)
  }

  ghost predicate Inv(r: Ring) {
    && Owned(r) && Exclusive(r) && Mirrored(r) && HeldIntact(r) && HeldOnce(r)
    && CopyAgrees(r) && WipedFree(r) && DeliveredIntact(r) && DeliveredOnce(r) && Accounted(r)
  }

  lemma InitInv(r: Ring)
    requires Init(r)
    ensures Inv(r)
  {
  }

  lemma HeldKept(r: Ring, r': Ring)
    requires Accounted(r) && r'.published == r.published && r'.delivered == r.delivered && |r'.slots| == |r.slots|
    requires forall i :: 0 <= i < |r.slots| ==> r'.slots[i].held == r.slots[i].held
    ensures Accounted(r')
  {
    forall n | 0 <= n < |r'.published| && Outstanding(r', n) ensures InSlot(r', n) {
      assert Outstanding(r, n);
      var i :| 0 <= i < |r.slots| && r.slots[i].held == Some(n);
      assert r'.slots[i].held == Some(n);
    }
  }

  /** Steps of a thread that owns no slot before or after. */
  lemma OutsideStep(r: Ring, r': Ring, p: nat)
    requires Inv(r) && p < |r.threads| && |r'.threads| == |r.threads| && r'.slots == r.slots
    requires r'.published == r.published && r'.delivered == r.delivered
    requires r'.threads == r.threads[p := r'.threads[p]] && !Owns(r.threads[p]) && !Owns(r'.threads[p])
    ensures Inv(r')
  {
    HeldKept(r, r');
  }

  lemma ClaimEmptyStep(r: Ring, r': Ring, p: nat)
    requires Inv(r) && ClaimEmpty(r, r', p)
    ensures Inv(r')
  {
    HeldKept(r, r');
  }

  lemma ClaimFilledStep(r: Ring, r': Ring, p: nat)
    requires Inv(r) && ClaimFilled(r, r', p)
    ensures Inv(r')
  {
    HeldKept(r, r');
  }

  lemma WriteCellStep(r: Ring, r': Ring, p: nat, j: nat, v: int)
    requires Inv(r) && WriteCell(r, r', p, j, v)
    ensures Inv(r')
  {
    HeldKept(r, r');
  }

  lemma WriteBitsStep(r: Ring, r': Ring, p: nat, n: nat)
    requires Inv(r) && WriteBits(r, r', p, n)
    ensures Inv(r')
  {
    HeldKept(r, r');
  }

  lemma CopyCellStep(r: Ring, r': Ring, p: nat, j: nat)
    requires Inv(r) && CopyCell(r, r', p, j)
    ensures Inv(r')
  {
    HeldKept(r, r');
  }

  lemma CopyBitsStep(r: Ring, r': Ring, p: nat)
    requires Inv(r) && CopyBits(r, r', p)
    ensures Inv(r')
  {
    HeldKept(r, r');
  }

  lemma WipeCellStep(r: Ring, r': Ring, p: nat, j: nat)
    requires Inv(r) && WipeCell(r, r', p, j)
    ensures Inv(r')
  {
    HeldKept(r, r');
  }

  lemma WipeBitsStep(r: Ring, r': Ring, p: nat)
    requires Inv(r) && WipeBits(r, r', p)
    ensures Inv(r')
  {
    HeldKept(r, r');
  }

  lemma ReleaseStep(r: Ring, r': Ring, p: nat)
    requires Inv(r) && Release(r, r', p)
    ensures Inv(r')
  {
    HeldKept(r, r');
  }

  lemma PublishStep(r: Ring, r': Ring, p: nat)
    requires Inv(r) && Publish(r, r', p)
    ensures Inv(r')
  {
    var i := r.threads[p].i;
    forall n | 0 <= n < |r'.published| && Outstanding(r', n) ensures InSlot(r', n) {
      if n == |r.published| {
        assert r'.slots[i].held == Some(n);
      } else {
        assert Outstanding(r, n);
        var k :| 0 <= k < |r.slots| && r.slots[k].held == Some(n);
        assert r'.slots[k].held == Some(n);
      }
    }
  }

  lemma DeliverStep(r: Ring, r': Ring, p: nat)
    requires Inv(r) && Deliver(r, r', p)
    ensures Inv(r')
  {
    var t := r.threads[p];
    var s := r.slots[t.i];
    var d := |r.delivered|;
    assert r'.delivered[d].1.cells == s.block.cells;
    forall n | 0 <= n < |r'.published| && Outstanding(r', n) ensures InSlot(r', n) {
      assert r'.delivered[d].0 != Some(n);
      assert Outstanding(r, n) by {
        forall k | 0 <= k < |r.delivered| ensures r.delivered[k].0 != Some(n) {
          assert r'.delivered[k] == r.delivered[k];
        }
      }
      var k :| 0 <= k < |r.slots| && r.slots[k].held == Some(n);
      assert r'.slots[k].held == Some(n);
    }
  }

  lemma NextInv(r: Ring, r': Ring)
    requires Inv(r) && Next(r, r')
    ensures Inv(r')
  {
    var p: nat, step :| Takes(r, r', p, step);
    match step {
      case ToFilling => ClaimEmptyStep(r, r', p);
      case Write(j, v) => WriteCellStep(r, r', p, j, v);
      case SetBits(n) => WriteBitsStep(r, r', p, n);
      case ToFilled => PublishStep(r, r', p);
      case ToReading => ClaimFilledStep(r, r', p);
      case Copy(j) => CopyCellStep(r, r', p, j);
      case TakeBits => CopyBitsStep(r, r', p);
      case Obtain => DeliverStep(r, r', p);
      case Wipe(j) => WipeCellStep(r, r', p, j);
      case ClearBits => WipeBitsStep(r, r', p);
      case ToEmpty => ReleaseStep(r, r', p);
      case _ => OutsideStep(r, r', p);
    }
  }

  lemma RunStep(rs: seq<Ring>, k: nat)
    requires Run(rs) && k + 1 < |rs| && Inv(rs[k])
    ensures Inv(rs[k + 1])
  {
    NextInv(rs[k], rs[k + 1]);
  }

  lemma {:induction false} RunInv(rs: seq<Ring>, k: nat)
    requires Run(rs) && k < |rs|
    ensures Inv(rs[k])
  {
    if k == 0 {
      InitInv(rs[0]);
    } else {
      RunInv(rs, k - 1);
      RunStep(rs, k - 1);
    }
  }

  /** In every state of every run: no slot is worked on by two threads, so none is filled while it is
      read; every delivered block is the one its monitor stored; no round is delivered twice; and a
      round that was not delivered still lies, unchanged, in exactly one slot. */
  lemma Safety(rs: seq<Ring>, k: nat)
    requires Run(rs) && k < |rs|
    ensures Exclusive(rs[k]) && DeliveredIntact(rs[k]) && DeliveredOnce(rs[k])
    ensures forall n :: 0 <= n < |rs[k].published| && Outstanding(rs[k], n) ==> LiesOnce(rs[k], n)
  {
    RunInv(rs, k);
  }

  ghost predicate LiesOnce(r: Ring, n: nat)
    requires n < |r.published|
  {
    exists i :: 0 <= i < |r.slots| && r.slots[i].held == Some(n) && r.slots[i].block == r.published[n]
      && forall j :: 0 <= j < |r.slots| && j != i ==> r.slots[j].held != Some(n)
  }
}
