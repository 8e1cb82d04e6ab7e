/** The global fence table: open addressing with linear probing, no tombstones. */
module FenceTables {
  import opened HwFences

  datatype LookupOp = Create | Destroy | CreateJoin | Find {
    predicate Creates() {
      Create? || CreateJoin?
    }
  }

  /** Where a probe ends: at the slot that was processed, at a live slot that already holds the key
      being created, or nowhere. */
  datatype Outcome = Hit(slot: nat) | Duplicate(slot: nat) | Exhausted

  const HASH_A_MULT: u64 := 4969
  const HASH_C_MULT: u64 := 907

  /** Slot of the first probe: every product and sum wraps at 64 bits. */
  function HomeSlot(m: nat, k: Key): (h: nat)
    requires m > 0
    ensures h < m
  {
    var oddMultiplier := WrapU64(k.ctx + WrapU64(k.ctx - 1));
    WrapU64(WrapU64(WrapU64(HASH_A_MULT * k.seqno) * oddMultiplier) + WrapU64(HASH_C_MULT * k.ctx)) % m
  }

  /** Slot of probe number `step`. */
  function ProbeSlot(home: nat, m: nat, step: nat): (slot: nat)
    requires home < m && step < m
    ensures slot < m
  {
    if home + step < m then home + step else home + step - m
  }

  /** The probe that reaches a slot. */
  function StepOf(home: nat, m: nat, slot: nat): (step: nat)
    requires home < m && slot < m
    ensures step < m
  {
    if home <= slot then slot - home else slot - home + m
  }

  /** The comparison an operation probes with. Matching does not look at `valid`. */
  predicate Compare(op: LookupOp, f: HwFence, k: Key) {
    if op.Creates() then !f.valid else f.key == k
  }

  /** A probe goes no further than a slot that compares, or that shows a create its own key. */
  predicate Stops(op: LookupOp, f: HwFence, k: Key) {
    Compare(op, f, k) || (op.Creates() && f.key == k)
  }

  function Scan(t: seq<HwFence>, home: nat, step: nat, op: LookupOp, k: Key): (r: Outcome)
    requires home < |t| && step <= |t|
    ensures !r.Exhausted? ==> r.slot < |t|
    decreases |t| - step
  {
    if step == |t| then Exhausted
    else
      var slot := ProbeSlot(home, |t|, step);
      if Compare(op, t[slot], k) then Hit(slot)
      else if Stops(op, t[slot], k) then Duplicate(slot)
      else Scan(t, home, step + 1, op, k)
  }

  /** What an operation does to the slot that it hits. */
  function Process(op: LookupOp, f: HwFence, k: Key, client: u32, pending: u32): HwFence {
    match op
    case Create => Reserved(k, client, 0)
    case CreateJoin => Reserved(k, client, pending)
    case Destroy => CLEAN_FENCE
    case Find => f
  }

  function Probe(t: seq<HwFence>, op: LookupOp, k: Key): (r: Outcome)
    ensures !r.Exhausted? ==> r.slot < |t|
  {
    if t == [] then Exhausted else Scan(t, HomeSlot(|t|, k), 0, op, k)
  }

  /** The table after a lookup. */
  function Lookup(t: seq<HwFence>, op: LookupOp, k: Key, client: u32, pending: u32): (t': seq<HwFence>)
    ensures |t'| == |t|
  {
    var r := Probe(t, op, k);
    if r.Hit? then t[r.slot := Process(op, t[r.slot], k, client, pending)] else t
  }

  class FenceTable {
    const slots: array<HwFence>

    constructor (entries: nat)
      ensures fresh(slots)
      ensures slots[..] == seq(entries, _ => ZERO_FENCE)
      ensures TableInv(slots[..]) && Abs(slots[..]) == map[]
    {
      slots := new HwFence[entries](_ => ZERO_FENCE);
    }

    /** `_hw_fence_lookup_and_process`, with `_calculate_hash` stepping the hash one slot at a time. */
    method LookupAndProcess(op: LookupOp, k: Key, client: u32, pending: u32) returns (found: bool, hash: u64)
      requires slots.Length < U32_LIMIT
      modifies slots
      ensures found <==> Probe(old(slots[..]), op, k).Hit?
      ensures !Probe(old(slots[..]), op, k).Exhausted? ==> hash == Probe(old(slots[..]), op, k).slot
      ensures slots[..] == Lookup(old(slots[..]), op, k, client, pending)
    {
      found, hash := false, U64_LIMIT - 1;
      ghost var t := slots[..];
      var m := slots.Length;
      var step := 0;
      while !found && step < m
        invariant 0 <= step <= m
        invariant !found ==> slots[..] == t
        invariant !found && 0 < step ==> hash == ProbeSlot(HomeSlot(m, k), m, step - 1)
        invariant !found && 0 < m ==> Probe(t, op, k) == Scan(t, HomeSlot(m, k), step, op, k)
        invariant found ==> Probe(t, op, k) == Hit(hash) && slots[..] == Lookup(t, op, k, client, pending)
      {
        if step == 0 {
          hash := HomeSlot(m, k);
        } else {
          hash := if hash + 1 < m then hash + 1 else 0;
        }
        if Compare(op, slots[hash], k) {
          slots[hash] := Process(op, slots[hash], k, client, pending);
          found := true;
        } else if op.Creates() && slots[hash].key == k {
          return;
        }
        step := step + 1;
      }
    }

    method DestroyWithHash(handle: u64, client: u32) returns (ok: bool)
      requires slots.Length < U32_LIMIT
      modifies slots
      ensures (ok, slots[..]) == DestroyHandle(old(slots[..]), handle, client)
    {
      if handle >= slots.Length || slots[handle].allocator != client {
        return false;
      }
      var hash: u64;
      ok, hash := LookupAndProcess(Destroy, slots[handle].key, client, 0);
    }
  }

  /** `hw_fence_destroy_with_hash`: only the client that allocated the slot may free it. */
  function DestroyHandle(t: seq<HwFence>, handle: u64, client: u32): (r: (bool, seq<HwFence>))
    ensures |r.1| == |t|
  {
    if handle >= |t| || t[handle].allocator != client then (false, t)
    else (Probe(t, Destroy, t[handle].key).Hit?, Lookup(t, Destroy, t[handle].key, client, 0))
  }

  // ----- The probe sequence -----

  /** Probing visits every slot exactly once. */
  lemma ProbeVisitsEachSlotOnce(home: nat, m: nat, slot: nat, step: nat)
    requires home < m && slot < m && step < m
    ensures ProbeSlot(home, m, step) == slot <==> step == StepOf(home, m, slot)
  {
  }

  /** A scan ends at the first stopping probe, and is exhausted iff there is none. */
  lemma {:induction false} ScanIsFirstStop(t: seq<HwFence>, home: nat, step: nat, op: LookupOp, k: Key)
    requires home < |t| && step <= |t|
    ensures match Scan(t, home, step, op, k)
            case Exhausted =>
              forall p: nat | step <= p < |t| :: !Stops(op, t[ProbeSlot(home, |t|, p)], k)
            case Hit(s) =>
              && Compare(op, t[s], k) && step <= StepOf(home, |t|, s)
              && forall p: nat | step <= p < StepOf(home, |t|, s) :: !Stops(op, t[ProbeSlot(home, |t|, p)], k)
            case Duplicate(s) =>
              && op.Creates() && t[s].valid && t[s].key == k && step <= StepOf(home, |t|, s)
              && forall p: nat | step <= p < StepOf(home, |t|, s) :: !Stops(op, t[ProbeSlot(home, |t|, p)], k)
    decreases |t| - step
  {
    if step < |t| {
      var slot := ProbeSlot(home, |t|, step);
      ProbeVisitsEachSlotOnce(home, |t|, slot, step);
      if !Stops(op, t[slot], k) {
        ScanIsFirstStop(t, home, step + 1, op, k);
      }
    }
  }

  // ----- The table as a map -----

  /** Free slots carry the free key and no allocator, live slots a key of their own. */
  ghost predicate TableInv(t: seq<HwFence>) {
    && (forall i | 0 <= i < |t| && !t[i].valid :: t[i].key == FREE_KEY && t[i].allocator == 0)
    && (forall i | 0 <= i < |t| && t[i].valid :: t[i].key != FREE_KEY)
    && (forall i, j | 0 <= i < |t| && 0 <= j < |t| && t[i].valid && t[j].valid && t[i].key == t[j].key :: i == j)
  }

  /** The map that the table stands for. */
  ghost function Abs(t: seq<HwFence>): map<Key, HwFence>
    requires TableInv(t)
  {
    map i | 0 <= i < |t| && t[i].valid :: t[i].key := t[i]
  }

  ghost predicate Holds(t: seq<HwFence>, slot: nat, k: Key) {
    slot < |t| && t[slot].valid && t[slot].key == k
  }

  lemma AbsLookup(t: seq<HwFence>, slot: nat, k: Key)
    requires TableInv(t) && Holds(t, slot, k)
    ensures k in Abs(t) && Abs(t)[k] == t[slot]
  {
  }

  lemma AbsSlot(t: seq<HwFence>, k: Key) returns (slot: nat)
    requires TableInv(t) && k in Abs(t)
    ensures Holds(t, slot, k) && Abs(t)[k] == t[slot]
  {
    var i :| 0 <= i < |t| && t[i].valid && t[i].key == k;
    slot := i;
  }

  /** The map is determined by which slot holds which key. */
  lemma AbsIs(t: seq<HwFence>, m: map<Key, HwFence>)
    requires TableInv(t)
    requires forall s: nat | s < |t| && t[s].valid :: t[s].key in m && m[t[s].key] == t[s]
    requires forall q | q in m :: exists s: nat :: Holds(t, s, q)
    ensures Abs(t) == m
  {
    forall q | q in m ensures q in Abs(t) && Abs(t)[q] == m[q] {
      var s: nat :| Holds(t, s, q);
      AbsLookup(t, s, q);
    }
    forall q | q in Abs(t) ensures q in m {
      var s := AbsSlot(t, q);
    }
  }

  ghost predicate AllLive(t: seq<HwFence>) {
    forall i | 0 <= i < |t| :: t[i].valid
  }

  /** The map is as large as the table iff every slot is live. */
  lemma {:induction false} AbsSize(t: seq<HwFence>)
    requires TableInv(t)
    ensures |Abs(t)| <= |t|
    ensures |Abs(t)| == |t| <==> AllLive(t)
  {
    if t != [] {
      var init, f := t[..|t| - 1], t[|t| - 1];
      assert t == init + [f];
      AbsSize(init);
      AbsGrows(init, f);
    }
  }

  lemma LastKeyIsNew(init: seq<HwFence>, f: HwFence)
    requires TableInv(init + [f]) && TableInv(init) && f.valid
    ensures f.key !in Abs(init)
  {
    forall s: nat | s < |init| && init[s].valid ensures init[s].key != f.key {
      var t := init + [f];
      assert t[s] == init[s] && t[|init|] == f;
    }
  }

  lemma AbsGrows(init: seq<HwFence>, f: HwFence)
    requires TableInv(init + [f]) && TableInv(init)
    ensures |Abs(init + [f])| == |Abs(init)| + if f.valid then 1 else 0
  {
    var t := init + [f];
    var m := if f.valid then Abs(init)[f.key := f] else Abs(init);
    if f.valid {
      LastKeyIsNew(init, f);
    }
    forall q | q in m ensures exists s: nat :: Holds(t, s, q) {
      if f.valid && q == f.key {
        assert Holds(t, |init|, q);
      } else {
        var s := AbsSlot(init, q);
        assert Holds(t, s, q);
      }
    }
    forall s: nat | s < |t| && t[s].valid ensures t[s].key in m && m[t[s].key] == t[s] {
      if s < |init| {
        assert t[s] == init[s] && t[|init|] == f;
        AbsLookup(init, s, t[s].key);
      }
    }
    AbsIs(t, m);
  }

  /** Find and destroy stop at the slot that holds the key, wherever deletions left free slots. */
  lemma MatchProbe(t: seq<HwFence>, op: LookupOp, k: Key)
    requires TableInv(t) && k != FREE_KEY && !op.Creates()
    ensures k in Abs(t) ==> Probe(t, op, k).Hit? && Holds(t, Probe(t, op, k).slot, k)
    ensures k !in Abs(t) ==> Probe(t, op, k).Exhausted?
  {
    if t == [] { return; }
    var home := HomeSlot(|t|, k);
    ScanIsFirstStop(t, home, 0, op, k);
    if k in Abs(t) {
      var slot := AbsSlot(t, k);
      ProbeVisitsEachSlotOnce(home, |t|, slot, StepOf(home, |t|, slot));
    }
  }

  /** Creating an absent key stops at a free slot, and fails only in a full table. */
  lemma CreateProbe(t: seq<HwFence>, op: LookupOp, k: Key)
    requires TableInv(t) && k != FREE_KEY && op.Creates() && k !in Abs(t)
    ensures |Abs(t)| < |t| ==> Probe(t, op, k).Hit? && !t[Probe(t, op, k).slot].valid
    ensures |Abs(t)| == |t| ==> Probe(t, op, k).Exhausted?
  {
    AbsSize(t);
    if t == [] { return; }
    var home := HomeSlot(|t|, k);
    ScanIsFirstStop(t, home, 0, op, k);
    var r := Probe(t, op, k);
    if r.Duplicate? {
      AbsLookup(t, r.slot, k);
    } else if r.Exhausted? && |Abs(t)| < |t| {
      var i :| 0 <= i < |t| && !t[i].valid;
      ProbeVisitsEachSlotOnce(home, |t|, i, StepOf(home, |t|, i));
    }
  }

  /** Reserving a free slot for an absent key adds that key. */
  lemma ReserveRefines(t: seq<HwFence>, slot: nat, f: HwFence)
    requires TableInv(t) && slot < |t| && !t[slot].valid
    requires f.valid && f.key != FREE_KEY && f.key !in Abs(t)
    ensures TableInv(t[slot := f]) && Abs(t[slot := f]) == Abs(t)[f.key := f]
  {
    var t' := t[slot := f];
    forall i: nat | i < |t| && i != slot && t[i].valid ensures t[i].key in Abs(t) && Abs(t)[t[i].key] == t[i] {
      AbsLookup(t, i, t[i].key);
    }
    var m := Abs(t)[f.key := f];
    forall q | q in m ensures exists s: nat :: Holds(t', s, q) {
      if q == f.key {
        assert Holds(t', slot, q);
      } else {
        var s := AbsSlot(t, q);
        assert Holds(t', s, q);
      }
    }
    AbsIs(t', m);
  }

  lemma CleanKeepsInv(t: seq<HwFence>, slot: nat)
    requires TableInv(t) && slot < |t|
    ensures TableInv(t[slot := CLEAN_FENCE])
  {
  }

  /** Cleaning a live slot removes its key. */
  lemma CleanRefines(t: seq<HwFence>, slot: nat)
    requires TableInv(t) && slot < |t| && t[slot].valid
    ensures TableInv(t[slot := CLEAN_FENCE]) && Abs(t[slot := CLEAN_FENCE]) == Abs(t) - {t[slot].key}
  {
    var t' := t[slot := CLEAN_FENCE];
    CleanKeepsInv(t, slot);
    assert forall s: nat | s < |t| && t'[s].valid :: s != slot && t'[s] == t[s];
    var m := Abs(t) - {t[slot].key};
    forall s: nat | s < |t'| && t'[s].valid ensures t'[s].key in m && m[t'[s].key] == t'[s] {
      AbsLookup(t, s, t[s].key);
    }
    forall q | q in m ensures exists s: nat :: Holds(t', s, q) {
      var s := AbsSlot(t, q);
      assert Holds(t', s, q);
    }
    AbsIs(t', m);
  }

  /** One table operation refines one map operation. */
  lemma LookupRefinesMap(t: seq<HwFence>, op: LookupOp, k: Key, client: u32, pending: u32)
    requires TableInv(t) && k != FREE_KEY
    requires op.Creates() ==> k !in Abs(t)
    ensures TableInv(Lookup(t, op, k, client, pending))
    ensures Probe(t, op, k).Hit? <==> if op.Creates() then |Abs(t)| < |t| else k in Abs(t)
    ensures Abs(Lookup(t, op, k, client, pending)) ==
            if !Probe(t, op, k).Hit? || op.Find? then Abs(t)
            else if op.Destroy? then Abs(t) - {k}
            else Abs(t)[k := Process(op, CLEAN_FENCE, k, client, pending)]
  {
    AbsSize(t);
    var r := Probe(t, op, k);
    if op.Creates() {
      CreateProbe(t, op, k);
      if r.Hit? {
        ReserveRefines(t, r.slot, Process(op, t[r.slot], k, client, pending));
      }
    } else {
      MatchProbe(t, op, k);
      if r.Hit? && op.Destroy? {
        CleanRefines(t, r.slot);
      } else if r.Hit? {
        assert t[r.slot := t[r.slot]] == t;
      }
    }
  }

  // ----- Entries -----

  /** A create leaves in the slot that it hits a fence of that key and allocator on which nobody waits:
      unsignaled, without parents or data. Only a join fence has children pending. */
  lemma CreatedEntry(t: seq<HwFence>, op: LookupOp, k: Key, client: u32, pending: u32)
    requires op.Creates() && Probe(t, op, k).Hit?
    ensures var slot := Probe(t, op, k).slot;
            var t' := Lookup(t, op, k, client, pending);
            var f := t'[slot];
            && f.valid && f.key == k && f.allocator == client && f.waitMask == {} && !f.signaled
            && f.parentsCnt == 0 && (forall p | 0 <= p < MAX_JOIN_PARENTS :: f.parents[p] == INVALID_PARENT)
            && f.pendingChildCnt == (if op.CreateJoin? then pending else 0)
            && (forall d | 0 <= d < CLIENTS_WITH_DATA :: f.clientData[d] == 0)
            && !t[slot].valid && forall i | 0 <= i < |t| && i != slot :: t'[i] == t[i]
  {
    hide HomeSlot;
    if t != [] {
      ScanIsFirstStop(t, HomeSlot(|t|, k), 0, op, k);
    }
  }

  /** A destroy leaves in the slot that held the key an entry that no key finds and nobody owns. */
  lemma DestroyedEntry(t: seq<HwFence>, k: Key, client: u32)
    requires Probe(t, Destroy, k).Hit?
    ensures var slot := Probe(t, Destroy, k).slot;
            var t' := Lookup(t, Destroy, k, client, 0);
            var f := t'[slot];
            && t[slot].key == k
            && !f.valid && f.key == FREE_KEY && f.allocator == 0 && f.waitMask == {} && !f.signaled
            && f.parentsCnt == 0 && f.pendingChildCnt == 0
            && (forall d | 0 <= d < CLIENTS_WITH_DATA :: f.clientData[d] == 0)
            && forall i | 0 <= i < |t| && i != slot :: t'[i] == t[i]
  {
    hide HomeSlot;
    if t != [] {
      ScanIsFirstStop(t, HomeSlot(|t|, k), 0, Destroy, k);
    }
  }

  /** A find changes nothing. */
  lemma FoundEntry(t: seq<HwFence>, k: Key, client: u32)
    ensures Lookup(t, Find, k, client, 0) == t
  {
    hide HomeSlot;
  }

  // ----- Runs -----

  datatype Call = Call(op: LookupOp, k: Key, client: u32, pending: u32)

  function Run(t: seq<HwFence>, calls: seq<Call>): (t': seq<HwFence>)
    ensures |t'| == |t|
    decreases |calls|
  {
    if calls == [] then t
    else var c := calls[0]; Run(Lookup(t, c.op, c.k, c.client, c.pending), calls[1..])
  }

  /** Which calls of a run succeed. */
  function RunResults(t: seq<HwFence>, calls: seq<Call>): (r: seq<bool>)
    decreases |calls|
  {
    if calls == [] then []
    else
      var c := calls[0];
      [Probe(t, c.op, c.k).Hit?] + RunResults(Lookup(t, c.op, c.k, c.client, c.pending), calls[1..])
  }

  /** The same calls on a map that can hold `cap` keys. */
  function MapSucceeds(m: map<Key, HwFence>, cap: nat, c: Call): bool {
    if c.op.Creates() then |m| < cap else c.k in m
  }

  function MapStep(m: map<Key, HwFence>, cap: nat, c: Call): map<Key, HwFence> {
    if !MapSucceeds(m, cap, c) || c.op.Find? then m
    else if c.op.Destroy? then m - {c.k}
    else m[c.k := Process(c.op, CLEAN_FENCE, c.k, c.client, c.pending)]
  }

  function MapRun(m: map<Key, HwFence>, cap: nat, calls: seq<Call>): map<Key, HwFence>
    decreases |calls|
  {
    if calls == [] then m else MapRun(MapStep(m, cap, calls[0]), cap, calls[1..])
  }

  function MapResults(m: map<Key, HwFence>, cap: nat, calls: seq<Call>): seq<bool>
    decreases |calls|
  {
    if calls == [] then []
    else [MapSucceeds(m, cap, calls[0])] + MapResults(MapStep(m, cap, calls[0]), cap, calls[1..])
  }

  /** The callers' side: keys are real, and only absent keys are created. */
  predicate CallersKeepUnique(m: map<Key, HwFence>, cap: nat, calls: seq<Call>)
    decreases |calls|
  {
    calls != [] ==>
      && calls[0].k != FREE_KEY
      && (calls[0].op.Creates() ==> calls[0].k !in m)
      && CallersKeepUnique(MapStep(m, cap, calls[0]), cap, calls[1..])
  }

  /** Every run of the table, deletions anywhere, is a run of a map of the same capacity. */
  lemma {:induction false} RunRefinesMap(t: seq<HwFence>, calls: seq<Call>)
    requires TableInv(t) && CallersKeepUnique(Abs(t), |t|, calls)
    ensures TableInv(Run(t, calls))
    ensures Abs(Run(t, calls)) == MapRun(Abs(t), |t|, calls)
    ensures RunResults(t, calls) == MapResults(Abs(t), |t|, calls)
    decreases |calls|
  {
    if calls != [] {
      var c := calls[0];
      LookupRefinesMap(t, c.op, c.k, c.client, c.pending);
      RunRefinesMap(Lookup(t, c.op, c.k, c.client, c.pending), calls[1..]);
    }
  }

  // ----- Handles -----

  /** No call but a destroy of its own key touches a live slot. */
  lemma LookupKeepsLiveSlot(t: seq<HwFence>, h: nat, op: LookupOp, k: Key, client: u32, pending: u32)
    requires h < |t| && t[h].valid && (op.Destroy? ==> k != t[h].key)
    ensures Lookup(t, op, k, client, pending)[h] == t[h]
  {
    ScanIsFirstStop(t, HomeSlot(|t|, k), 0, op, k);
  }

  lemma {:induction false} HandleStable(t: seq<HwFence>, h: nat, calls: seq<Call>)
    requires h < |t| && t[h].valid
    requires forall c | c in calls && c.op.Destroy? :: c.k != t[h].key
    ensures Run(t, calls)[h] == t[h]
    decreases |calls|
  {
    if calls != [] {
      var c := calls[0];
      assert c in calls;
      LookupKeepsLiveSlot(t, h, c.op, c.k, c.client, c.pending);
      HandleStable(Lookup(t, c.op, c.k, c.client, c.pending), h, calls[1..]);
    }
  }

  /** A handle frees its slot for the client that allocated it, and does nothing for any other. */
  lemma DestroyHandleFreesSlot(t: seq<HwFence>, handle: u64, client: u32)
    requires TableInv(t) && client > 0
    ensures DestroyHandle(t, handle, client) ==
            if handle < |t| && t[handle].valid && t[handle].allocator == client
            then (true, t[handle := CLEAN_FENCE]) else (false, t)
  {
    if handle < |t| && t[handle].allocator == client {
      AbsLookup(t, handle, t[handle].key);
      MatchProbe(t, Destroy, t[handle].key);
    }
  }

  /** The life of a handle: whatever runs between a create and the allocator's destroy-with-handle
      (short of destroying that key), the handle still names the fence and frees that slot alone. */
  lemma HandleLife(t: seq<HwFence>, k: Key, client: u32, calls: seq<Call>)
    requires TableInv(t) && |t| < U32_LIMIT && k != FREE_KEY && client > 0 && k !in Abs(t) && |Abs(t)| < |t|
    requires CallersKeepUnique(Abs(Lookup(t, Create, k, client, 0)), |t|, calls)
    requires forall c | c in calls && c.op.Destroy? :: c.k != k
    ensures Probe(t, Create, k).Hit?
    ensures var h := Probe(t, Create, k).slot;
            var t' := Run(Lookup(t, Create, k, client, 0), calls);
            && t'[h] == Reserved(k, client, 0)
            && DestroyHandle(t', h, client) == (true, t'[h := CLEAN_FENCE])
  {
    CreateProbe(t, Create, k);
    LookupRefinesMap(t, Create, k, client, 0);
    var created := Lookup(t, Create, k, client, 0);
    var h := Probe(t, Create, k).slot;
    HandleStable(created, h, calls);
    RunRefinesMap(created, calls);
    DestroyHandleFreesSlot(Run(created, calls), h, client);
  }

  // ----- Creating a key that is already present -----

  /** Creating a present key is rejected exactly when no free slot precedes it on its probe path;
      otherwise the key ends up in two slots. */
  lemma DuplicateRejectedIff(t: seq<HwFence>, op: LookupOp, k: Key, slot: nat, client: u32, pending: u32)
    requires TableInv(t) && op.Creates() && Holds(t, slot, k)
    ensures var home := HomeSlot(|t|, k);
            var packed := forall p: nat | p < StepOf(home, |t|, slot) :: t[ProbeSlot(home, |t|, p)].valid;
            && (!Probe(t, op, k).Hit? <==> packed)
            && (!packed ==> exists other: nat :: other != slot
                                                 && Holds(Lookup(t, op, k, client, pending), other, k)
                                                 && Holds(Lookup(t, op, k, client, pending), slot, k))
  {
    var home := HomeSlot(|t|, k);
    ScanIsFirstStop(t, home, 0, op, k);
    ProbeVisitsEachSlotOnce(home, |t|, slot, StepOf(home, |t|, slot));
    var r := Probe(t, op, k);
    if r.Hit? {
      ProbeVisitsEachSlotOnce(home, |t|, r.slot, StepOf(home, |t|, r.slot));
      assert !t[ProbeSlot(home, |t|, StepOf(home, |t|, r.slot))].valid;
      assert Holds(Lookup(t, op, k, client, pending), r.slot, k);
      assert Holds(Lookup(t, op, k, client, pending), slot, k);
    }
  }

  /** Every slot from a live key's home to its own slot is live. */
  ghost predicate Packed(t: seq<HwFence>) {
    forall i: nat, p: nat | i < |t| && t[i].valid && p < StepOf(HomeSlot(|t|, t[i].key), |t|, i) ::
      t[ProbeSlot(HomeSlot(|t|, t[i].key), |t|, p)].valid
  }

  lemma PackedStep(t: seq<HwFence>, c: Call)
    requires TableInv(t) && Packed(t) && c.k != FREE_KEY && !c.op.Destroy?
    ensures TableInv(Lookup(t, c.op, c.k, c.client, c.pending)) && Packed(Lookup(t, c.op, c.k, c.client, c.pending))
    ensures c.op.Creates() && c.k in Abs(t) ==> !Probe(t, c.op, c.k).Hit?
  {
    if c.op.Creates() && c.k in Abs(t) {
      var slot := AbsSlot(t, c.k);
      DuplicateRejectedIff(t, c.op, c.k, slot, c.client, c.pending);
    } else {
      LookupRefinesMap(t, c.op, c.k, c.client, c.pending);
      var r := Probe(t, c.op, c.k);
      if r.Hit? && c.op.Creates() {
        ScanIsFirstStop(t, HomeSlot(|t|, c.k), 0, c.op, c.k);
      }
    }
  }

  /** As long as nothing is destroyed, the table rejects every duplicate by itself. */
  lemma {:induction false} NoDestroyRejectsDuplicates(t: seq<HwFence>, calls: seq<Call>, c: Call)
    requires TableInv(t) && Packed(t)
    requires forall d | d in calls :: d.k != FREE_KEY && !d.op.Destroy?
    requires c.op.Creates() && c.k != FREE_KEY
    ensures TableInv(Run(t, calls))
    ensures c.k in Abs(Run(t, calls)) ==> !Probe(Run(t, calls), c.op, c.k).Hit?
    decreases |calls|
  {
    if calls == [] {
      PackedStep(t, c);
    } else {
      var d := calls[0];
      assert d in calls;
      PackedStep(t, d);
      NoDestroyRejectsDuplicates(Lookup(t, d.op, d.k, d.client, d.pending), calls[1..], c);
    }
  }

  /** After one destroy it need not: in a table of two slots, two keys with the same home. */
  lemma DuplicateAfterDestroy()
    ensures var a, b := Key(1, 1), Key(1, 3);
            var t := Run([ZERO_FENCE, ZERO_FENCE],
                         [Call(Create, a, 1, 0), Call(Create, b, 1, 0), Call(Destroy, a, 1, 0), Call(Create, b, 1, 0)]);
            Holds(t, 0, b) && Holds(t, 1, b)
  {
    var a, b := Key(1, 1), Key(1, 3);
    assert HomeSlot(2, a) == 0 && HomeSlot(2, b) == 0;
    var t0 := [ZERO_FENCE, ZERO_FENCE];
    var t1 := Lookup(t0, Create, a, 1, 0);
    assert Scan(t0, 0, 0, Create, a) == Hit(0);
    var t2 := Lookup(t1, Create, b, 1, 0);
    assert Scan(t1, 0, 0, Create, b) == Scan(t1, 0, 1, Create, b) == Hit(1);
    var t3 := Lookup(t2, Destroy, a, 1, 0);
    assert Scan(t2, 0, 0, Destroy, a) == Hit(0);
    var t4 := Lookup(t3, Create, b, 1, 0);
    assert Scan(t3, 0, 0, Create, b) == Hit(0);
    var c0, c1, c2, c3 := Call(Create, a, 1, 0), Call(Create, b, 1, 0), Call(Destroy, a, 1, 0), Call(Create, b, 1, 0);
    calc {
      Run(t0, [c0, c1, c2, c3]);
    == { assert [c0, c1, c2, c3][1..] == [c1, c2, c3]; }
      Run(t1, [c1, c2, c3]);
    == { assert [c1, c2, c3][1..] == [c2, c3]; }
      Run(t2, [c2, c3]);
    == { assert [c2, c3][1..] == [c3]; }
      Run(t3, [c3]);
    == { assert [c3][1..] == []; }
      t4;
    }
  }
}
