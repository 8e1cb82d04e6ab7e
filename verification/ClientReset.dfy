/** Resetting a client: its wait bit is taken out of every fence, the fences it allocated notify
    their waiters and are destroyed. */
module ClientReset {
  import opened HwFences
  import opened FenceTables
  import opened JoinFences

  /** The fixed surroundings of a reset: the client, the clients that are registered, the highest id
      with a receive queue, the error to report and whether fences are kept. */
  datatype Reset = Reset(client: u32, registered: set<u32>, rxqClients: waitId, error: u32, withoutDestroy: bool)

  // ----- Notifying the waiters of one fence -----

  /** `_signal_all_wait_clients` from client `w` on. The data of the last client that had any is
      carried on to the clients that have none. */
  function SignalsFrom(f: HwFence, hash: u64, r: Reset, w: nat, carried: u64): seq<Signal>
    decreases r.rxqClients + 1 - w
  {
    if w > r.rxqClients then []
    else if w !in f.waitMask then SignalsFrom(f, hash, r, w + 1, carried)
    else
      var data := if ClientDataId(w) < CLIENTS_WITH_DATA then f.clientData[ClientDataId(w)] else carried;
      (if w in r.registered then [Signal(w, f.key, hash, data, r.error)] else [])
      + SignalsFrom(f, hash, r, w + 1, data)
  }

  method SignalAllWaitClients(f: HwFence, hash: u64, r: Reset) returns (sent: seq<Signal>)
    ensures sent == SignalsFrom(f, hash, r, 0, 0)
  {
    sent := [];
    var clientData: u64 := 0;
    var w := 0;
    while w <= r.rxqClients
      invariant 0 <= w <= r.rxqClients + 1
      invariant sent + SignalsFrom(f, hash, r, w, clientData) == SignalsFrom(f, hash, r, 0, 0)
    {
      if w in f.waitMask {
        var dataId := ClientDataId(w);
        if dataId < CLIENTS_WITH_DATA {
          clientData := f.clientData[dataId];
        }
        if w in r.registered {
          sent := sent + [Signal(w, f.key, hash, clientData, r.error)];
        }
      }
      w := w + 1;
    }
  }

  /** The data that reaches waiter `w`: its own, or else that of the nearest waiter below that has a
      data slot, or else 0. */
  function DataReaching(f: HwFence, w: u32): u64 {
    if w in f.waitMask && ClientDataId(w) < CLIENTS_WITH_DATA then f.clientData[ClientDataId(w)]
    else if w == 0 then 0
    else DataReaching(f, w - 1)
  }

  /** The notification that waiter `w` gets. */
  function SignalTo(f: HwFence, hash: u64, r: Reset, w: u32): Signal {
    Signal(w, f.key, hash, DataReaching(f, w), r.error)
  }

  predicate Notified(f: HwFence, r: Reset, w: u32) {
    w in f.waitMask && w in r.registered && w <= r.rxqClients
  }

  lemma {:induction false} SignalsFromAre(f: HwFence, hash: u64, r: Reset, w: nat, carried: u64)
    requires w <= r.rxqClients + 1
    requires carried == if w == 0 then 0 else DataReaching(f, w - 1)
    ensures forall g | g in SignalsFrom(f, hash, r, w, carried) ::
              w <= g.client && Notified(f, r, g.client) && g == SignalTo(f, hash, r, g.client)
    decreases r.rxqClients + 1 - w
  {
    if w <= r.rxqClients {
      var data := if w in f.waitMask && ClientDataId(w) < CLIENTS_WITH_DATA then f.clientData[ClientDataId(w)] else carried;
      assert data == DataReaching(f, w);
      SignalsFromAre(f, hash, r, w + 1, data);
    }
  }

  lemma {:induction false} SignalsFromCount(f: HwFence, hash: u64, r: Reset, w: nat, carried: u64, x: u32)
    requires w <= r.rxqClients + 1
    requires carried == if w == 0 then 0 else DataReaching(f, w - 1)
    ensures multiset(SignalsFrom(f, hash, r, w, carried))[SignalTo(f, hash, r, x)]
            == if w <= x && Notified(f, r, x) then 1 else 0
    decreases r.rxqClients + 1 - w
  {
    if w <= r.rxqClients {
      var data := if w in f.waitMask && ClientDataId(w) < CLIENTS_WITH_DATA then f.clientData[ClientDataId(w)] else carried;
      assert data == DataReaching(f, w);
      SignalsFromCount(f, hash, r, w + 1, data, x);
      var rest := SignalsFrom(f, hash, r, w + 1, data);
      var all := SignalsFrom(f, hash, r, w, carried);
      if Notified(f, r, w) {
        assert all == [SignalTo(f, hash, r, w)] + rest;
        assert multiset(all) == multiset{SignalTo(f, hash, r, w)} + multiset(rest);
      } else {
        assert all == rest;
      }
    }
  }

  /** Every registered waiter with a receive queue is notified exactly once, nobody else is; a waiter
      with a data slot gets its own data, one without gets what a waiter below it left behind. */
  lemma WaitersNotifiedOnce(f: HwFence, hash: u64, r: Reset, x: u32)
    ensures var sent := SignalsFrom(f, hash, r, 0, 0);
            && multiset(sent)[SignalTo(f, hash, r, x)] == (if Notified(f, r, x) then 1 else 0)
            && (forall g | g in sent :: Notified(f, r, g.client) && g == SignalTo(f, hash, r, g.client))
  {
    SignalsFromAre(f, hash, r, 0, 0);
    SignalsFromCount(f, hash, r, 0, 0, x);
  }

  // ----- The loop over the table -----

  function WithoutWaiter(f: HwFence, client: u32): HwFence {
    f.(waitMask := f.waitMask - {client})
  }

  /** `hw_fence_utils_cleanup_fence` of slot `i`: the table and the notifications. */
  function CleanupFence(t: seq<HwFence>, i: nat, r: Reset): (res: (seq<HwFence>, seq<Signal>))
    requires i < |t| < U32_LIMIT
    ensures |res.0| == |t|
  {
    var t1 := t[i := WithoutWaiter(t[i], r.client)];
    if t1[i].allocator != r.client then (t1, [])
    else
      (if r.withoutDestroy then t1 else Lookup(t1, Destroy, t1[i].key, r.client, 0),
       if t1[i].signaled then [] else SignalsFrom(t1[i], i, r, 0, 0))
  }

  function ResetFrom(t: seq<HwFence>, i: nat, r: Reset): (res: (seq<HwFence>, seq<Signal>))
    requires i <= |t| < U32_LIMIT
    ensures |res.0| == |t|
    decreases |t| - i
  {
    if i == |t| then (t, [])
    else
      var c := CleanupFence(t, i, r);
      var rest := ResetFrom(c.0, i + 1, r);
      (rest.0, c.1 + rest.1)
  }

  method ResetClient(table: FenceTable, r: Reset) returns (sent: seq<Signal>)
    requires table.slots.Length < U32_LIMIT
    modifies table.slots
    ensures table.slots[..] == ResetFrom(old(table.slots[..]), 0, r).0
    ensures sent == ResetFrom(old(table.slots[..]), 0, r).1
  {
    hide CleanupFence;
    sent := [];
    var i := 0;
    ghost var want := ResetFrom(table.slots[..], 0, r);
    while i < table.slots.Length
      invariant 0 <= i <= table.slots.Length
      invariant ResetFrom(table.slots[..], i, r).0 == want.0
      invariant sent + ResetFrom(table.slots[..], i, r).1 == want.1
    {
      var more := CleanupOneFence(table, i, r);
      sent := sent + more;
      i := i + 1;
    }
  }

  method CleanupOneFence(table: FenceTable, i: nat, r: Reset) returns (sent: seq<Signal>)
    requires i < table.slots.Length < U32_LIMIT
    modifies table.slots
    ensures (table.slots[..], sent) == CleanupFence(old(table.slots[..]), i, r)
  {
    hide HomeSlot;
    sent := [];
    table.slots[i] := WithoutWaiter(table.slots[i], r.client);
    if table.slots[i].allocator == r.client {
      if !table.slots[i].signaled {
        sent := SignalAllWaitClients(table.slots[i], i, r);
      }
      if !r.withoutDestroy {
        var _, _ := table.LookupAndProcess(Destroy, table.slots[i].key, r.client, 0);
      }
    }
  }

  /** What a reset makes of a slot by itself. */
  function ResetSlot(f: HwFence, r: Reset): HwFence {
    if f.allocator == r.client && !r.withoutDestroy then CLEAN_FENCE else WithoutWaiter(f, r.client)
  }

  function SlotSignals(f: HwFence, i: nat, r: Reset): seq<Signal>
    requires i < U32_LIMIT
  {
    if f.allocator == r.client && !f.signaled then SignalsFrom(WithoutWaiter(f, r.client), i, r, 0, 0) else []
  }

  function SignalsOfSlots(t: seq<HwFence>, i: nat, r: Reset): seq<Signal>
    requires i <= |t| < U32_LIMIT
    decreases |t| - i
  {
    if i == |t| then [] else SlotSignals(t[i], i, r) + SignalsOfSlots(t, i + 1, r)
  }

  /** Destroying by key hits the very slot the loop is at. */
  lemma CleanupIsLocal(t: seq<HwFence>, i: nat, r: Reset)
    requires TableInv(t) && i < |t| < U32_LIMIT && r.client > 0
    ensures CleanupFence(t, i, r) == (t[i := ResetSlot(t[i], r)], SlotSignals(t[i], i, r))
    ensures TableInv(t[i := ResetSlot(t[i], r)])
  {
    hide HomeSlot;
    var t1 := t[i := WithoutWaiter(t[i], r.client)];
    assert TableInv(t1);
    CleanKeepsInv(t, i);
    if t[i].allocator == r.client {
      AbsLookup(t1, i, t1[i].key);
      MatchProbe(t1, Destroy, t1[i].key);
      assert Probe(t1, Destroy, t1[i].key).slot == i;
      assert t1[i := CLEAN_FENCE] == t[i := CLEAN_FENCE];
    }
  }

  lemma {:induction false} ResetFromIsSlotwise(t: seq<HwFence>, i: nat, r: Reset)
    requires TableInv(t) && i <= |t| < U32_LIMIT && r.client > 0
    ensures var res := ResetFrom(t, i, r);
            && TableInv(res.0)
            && (forall s | 0 <= s < |t| :: res.0[s] == if s < i then t[s] else ResetSlot(t[s], r))
            && res.1 == SignalsOfSlots(t, i, r)
    decreases |t| - i
  {
    hide HomeSlot, CleanupFence, SlotSignals;
    if i < |t| {
      CleanupIsLocal(t, i, r);
      var t' := t[i := ResetSlot(t[i], r)];
      ResetFromIsSlotwise(t', i + 1, r);
      SignalsOfLaterSlots(t, t', i + 1, r);
    }
  }

  lemma {:induction false} SignalsOfLaterSlots(t: seq<HwFence>, t': seq<HwFence>, i: nat, r: Reset)
    requires |t'| == |t| < U32_LIMIT && i <= |t| && t[i..] == t'[i..]
    ensures SignalsOfSlots(t, i, r) == SignalsOfSlots(t', i, r)
    decreases |t| - i
  {
    if i < |t| {
      assert t[i] == t[i..][0] == t'[i];
      assert t[i + 1..] == t[i..][1..] == t'[i + 1..];
      SignalsOfLaterSlots(t, t', i + 1, r);
    }
  }

  /** After a reset no fence waits for the client, none is allocated by it unless fences are kept, and
      every other slot differs in the client's wait bit alone. The notifications are those of its
      unsignaled fences, slot by slot. */
  lemma ResetOutcome(t: seq<HwFence>, r: Reset)
    requires TableInv(t) && |t| < U32_LIMIT && r.client > 0
    ensures var res := ResetFrom(t, 0, r);
            && TableInv(res.0)
            && (forall s | 0 <= s < |t| :: r.client !in res.0[s].waitMask)
            && (!r.withoutDestroy ==> forall s | 0 <= s < |t| :: res.0[s].allocator != r.client)
            && (forall s | 0 <= s < |t| ::
                  res.0[s] == if t[s].allocator == r.client && !r.withoutDestroy then CLEAN_FENCE
                              else t[s].(waitMask := t[s].waitMask - {r.client}))
            && res.1 == SignalsOfSlots(t, 0, r)
  {
    ResetFromIsSlotwise(t, 0, r);
  }

  /** Each waiter of each unsignaled fence of the client hears of it exactly once. */
  lemma {:induction false} EachWaiterHearsOnce(t: seq<HwFence>, i: nat, r: Reset, s: nat, w: u32)
    requires i <= |t| < U32_LIMIT && s < |t|
    ensures var f := WithoutWaiter(t[s], r.client);
            multiset(SignalsOfSlots(t, i, r))[SignalTo(f, s, r, w)] ==
            if i <= s && t[s].allocator == r.client && !t[s].signaled && Notified(f, r, w) then 1 else 0
    ensures forall g | g in SignalsOfSlots(t, i, r) :: i <= g.hash
    decreases |t| - i
  {
    hide SlotSignals, SignalTo, Notified, WithoutWaiter;
    if i < |t| {
      EachWaiterHearsOnce(t, i + 1, r, s, w);
      SlotNotifiesOnce(t[i], i, r, w);
      var here, rest := SlotSignals(t[i], i, r), SignalsOfSlots(t, i + 1, r);
      assert multiset(here + rest) == multiset(here) + multiset(rest);
      var g := SignalTo(WithoutWaiter(t[s], r.client), s, r, w);
      SignalCarriesHash(WithoutWaiter(t[s], r.client), s, r, w);
      if s != i {
        assert g !in here;
      } else {
        assert g !in rest;
      }
    }
  }

  lemma SignalCarriesHash(f: HwFence, hash: u64, r: Reset, w: u32)
    ensures SignalTo(f, hash, r, w).hash == hash
  {
  }

  lemma SlotNotifiesOnce(f: HwFence, i: nat, r: Reset, w: u32)
    requires i < U32_LIMIT
    ensures multiset(SlotSignals(f, i, r))[SignalTo(WithoutWaiter(f, r.client), i, r, w)] ==
            if f.allocator == r.client && !f.signaled && Notified(WithoutWaiter(f, r.client), r, w) then 1 else 0
    ensures forall g | g in SlotSignals(f, i, r) :: g.hash == i
  {
    WaitersNotifiedOnce(WithoutWaiter(f, r.client), i, r, w);
  }

  /** What a waiter is told: the fence, its slot as hash, the reset's error, and its own data if it has a
      data slot. */
  lemma SignalToIs(f: HwFence, hash: u64, r: Reset, w: u32)
    ensures var g := SignalTo(f, hash, r, w);
            && g.client == w && g.key == f.key && g.hash == hash && g.error == r.error
            && (w in f.waitMask && ClientDataId(w) < CLIENTS_WITH_DATA ==> g.clientData == f.clientData[ClientDataId(w)])
    ensures Notified(f, r, w) <==> w in f.waitMask && w in r.registered && w <= r.rxqClients
  {
  }

  /** So, over the whole reset and in the fences' own terms: for each unsignaled fence of the client, each
      other client that waits, is registered and has a receive queue is told exactly once. */
  lemma ResetTellsEachOnce(t: seq<HwFence>, r: Reset, s: nat, w: u32)
    requires TableInv(t) && |t| < U32_LIMIT && r.client > 0 && s < |t|
    ensures var sent := ResetFrom(t, 0, r).1;
            var g := SignalTo(WithoutWaiter(t[s], r.client), s, r, w);
            && g.client == w && g.key == t[s].key && g.hash == s && g.error == r.error
            && multiset(sent)[g] ==
               (if t[s].allocator == r.client && !t[s].signaled
                   && w in t[s].waitMask && w != r.client && w in r.registered && w <= r.rxqClients then 1 else 0)
  {
    hide ResetFrom, SignalsOfSlots;
    ResetFromIsSlotwise(t, 0, r);
    EachWaiterHearsOnce(t, 0, r, s, w);
    SignalToIs(WithoutWaiter(t[s], r.client), s, r, w);
  }
}
