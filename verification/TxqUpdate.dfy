/** Announcing a signaled fence to the controller: the transmit-queue payload is filled in from the
    slot that the caller's handle names. */
module TxqUpdates {
  import opened HwFences
  import opened FenceTables
  import RingQueues

  /** What the controller is told about the fence in slot `handle`. */
  function Announcement(t: seq<HwFence>, handle: u64, flags: u64, error: u32): RingQueues.Payload
    requires handle < |t|
  {
    RingQueues.Payload(t[handle].key.ctx, t[handle].key.seqno, handle, flags, 0, error)
  }

  /** `msm_hw_fence_update_txq`. A full queue is not reported: the call still succeeds. */
  method UpdateTxq(table: FenceTable, txq: RingQueues.RingQueue, handle: u64, flags: u64, error: u32, qtime: u64)
      returns (ok: bool)
    requires txq.Valid()
    modifies txq`writeIdx, txq`txWm, txq.words
    ensures txq.Valid() && ok == (handle < table.slots.Length)
    ensures var taken := |old(txq.Published())| + if txq.staged then |old(txq.Staged())| else 0;
            var sent := if ok && taken < txq.Slots() - 1
                        then [Announcement(table.slots[..], handle, flags, error)] else [];
            if txq.staged then txq.Published() == old(txq.Published()) && txq.Staged() == old(txq.Staged()) + sent
            else txq.Published() == old(txq.Published()) + sent
  {
    hide RingQueues.Ring, RingQueues.Segment, RingQueues.Dist;
    if handle >= table.slots.Length {
      return false;
    }
    var fence := table.slots[handle];
    var _ := txq.Update(RingQueues.Payload(fence.key.ctx, fence.key.seqno, handle, flags, 0, error), qtime);
    ok := true;
  }

  /** Whatever runs after the create, as long as the fence is not destroyed, announcing its handle
      tells the controller that fence's context and sequence number. */
  lemma AnnouncesTheCreatedFence(t: seq<HwFence>, k: Key, client: u32, calls: seq<Call>, flags: u64, error: u32)
    requires TableInv(t) && |t| < U32_LIMIT && k != FREE_KEY && client > 0 && k !in Abs(t) && |Abs(t)| < |t|
    requires forall c | c in calls && c.op.Destroy? :: c.k != k
    ensures Probe(t, Create, k).Hit?
    ensures var h := Probe(t, Create, k).slot;
            var p := Announcement(Run(Lookup(t, Create, k, client, 0), calls), h, flags, error);
            Key(p.ctx, p.seqno) == k && p.hash == h && p.flags == flags && p.error == error && p.clientData == 0
  {
    hide HomeSlot, Probe, Abs, TableInv;
    CreateProbe(t, Create, k);
    HandleStable(Lookup(t, Create, k, client, 0), Probe(t, Create, k).slot, calls);
  }
}
