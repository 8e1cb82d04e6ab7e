/** The exported calls: the HW-fence flag in each dma-fence is what keeps the keys of the table unique.
    Distinct dma-fences have distinct keys, so a fence's flag is recorded by its key. */
module FenceApi {
  import opened HwFences
  import opened FenceTables
  import opened JoinFences
  import opened JoinFenceProperties
  import opened ClientReset
  import WaitRegistration

  datatype ApiState = ApiState(t: seq<HwFence>, enabled: set<Key>)

  /** The calls, and the controller signaling a fence between them. */
  datatype ApiCall =
    | CreateFence(fence: DmaFence, client: u32)
    | DestroyFence(fence: DmaFence, client: u32)
    | DestroyByHandle(handle: u64, client: u32)
    | ResetClient(reset: Reset)
    | WaitFence(fence: DmaFence, client: u32, data: u64)
    | WaitArray(arr: DmaFenceArray, client: u32, data: u64)
    | ControllerSignals(slot: nat)

  function CreateStep(s: ApiState, f: DmaFence, client: u32): (r: (bool, ApiState)) {
    if f.isArray || f.key in s.enabled || !Probe(s.t, Create, f.key).Hit? then (false, s)
    else (true, ApiState(Lookup(s.t, Create, f.key, client, 0), s.enabled + {f.key}))
  }

  function DestroyStep(s: ApiState, f: DmaFence, client: u32): (r: (bool, ApiState)) {
    if f.isArray || f.key !in s.enabled || !Probe(s.t, Destroy, f.key).Hit? then (false, s)
    else (true, ApiState(Lookup(s.t, Destroy, f.key, client, 0), s.enabled - {f.key}))
  }

  /** The flags that the driver finds in the fences of a wait. */
  function AsSeen(s: ApiState, f: DmaFence): DmaFence {
    f.(enabled := f.key in s.enabled)
  }

  function ArrayAsSeen(s: ApiState, arr: DmaFenceArray): (r: DmaFenceArray)
    ensures |r.fences| == |arr.fences|
  {
    arr.(fences := seq(|arr.fences|, i requires 0 <= i < |arr.fences| => AsSeen(s, arr.fences[i])))
  }

  /** The number of fences of an array is a 32-bit number. */
  predicate Sized(c: ApiCall) {
    c.WaitArray? ==> |c.arr.fences| < U32_LIMIT
  }

  /** Of these, only creating and destroying by fence change a flag. */
  function ApiStep(s: ApiState, c: ApiCall): (r: (bool, ApiState))
    requires |s.t| < U32_LIMIT && Sized(c)
    ensures |r.1.t| == |s.t|
  {
    match c
    case CreateFence(f, client) => CreateStep(s, f, client)
    case DestroyFence(f, client) => DestroyStep(s, f, client)
    case DestroyByHandle(handle, client) =>
      var d := DestroyHandle(s.t, handle, client);
      (d.0, s.(t := d.1))
    case ResetClient(r) => (true, s.(t := ResetFrom(s.t, 0, r).0))
    case WaitFence(f, client, data) =>
      var w := WaitRegistration.Waited(s.t, AsSeen(s, f), client, data);
      if f.isArray || !w.ok then (false, s) else (true, s.(t := w.t))
    case WaitArray(arr, client, data) =>
      var r := ProcessArray(s.t, client, ArrayAsSeen(s, arr), data);
      (r.ok, s.(t := r.t))
    case ControllerSignals(slot) =>
      if slot < |s.t| && s.t[slot].valid then (true, s.(t := s.t[slot := s.t[slot].(signaled := true)])) else (false, s)
  }

  class FenceDriver {
    const table: FenceTable
    var enabled: set<Key>

    constructor (table: FenceTable)
      ensures this.table == table && enabled == {}
    {
      this.table := table;
      enabled := {};
    }

    function State(): ApiState
      reads this, table.slots
    {
      ApiState(table.slots[..], enabled)
    }

    /** `msm_hw_fence_create` */
    method Create(fence: DmaFence, client: u32) returns (ok: bool, handle: u64)
      requires table.slots.Length < U32_LIMIT
      modifies this, table.slots
      ensures (ok, State()) == CreateStep(old(State()), fence, client)
      ensures ok ==> Probe(old(table.slots[..]), FenceTables.Create, fence.key) == Hit(handle)
    {
      hide HomeSlot;
      ok, handle := false, U64_LIMIT - 1;
      if fence.isArray || fence.key in enabled {
        return;
      }
      ghost var t := table.slots[..];
      ok, handle := table.LookupAndProcess(FenceTables.Create, fence.key, client, 0);
      if ok {
        enabled := enabled + {fence.key};
      } else {
        assert table.slots[..] == t;
      }
    }

    /** `msm_hw_fence_destroy` */
    method Destroy(fence: DmaFence, client: u32) returns (ok: bool)
      requires table.slots.Length < U32_LIMIT
      modifies this, table.slots
      ensures (ok, State()) == DestroyStep(old(State()), fence, client)
    {
      hide HomeSlot;
      if fence.isArray || fence.key !in enabled {
        return false;
      }
      ghost var t := table.slots[..];
      var hash;
      ok, hash := table.LookupAndProcess(FenceTables.Destroy, fence.key, client, 0);
      if ok {
        enabled := enabled - {fence.key};
      } else {
        assert table.slots[..] == t;
      }
    }
  }

  // ----- Every run of the exported calls -----

  /** Parents are join fences. */
  ghost predicate ParentsAreJoins(t: seq<HwFence>) {
    forall i, p | 0 <= i < |t| && t[i].valid && 0 <= p < t[i].parentsCnt && p < MAX_JOIN_PARENTS ::
      t[i].parents[p] < |t| && t[t[i].parents[p]].allocator == JOIN_CLIENT_ID
  }

  /** Live individual fences have the flag on; live join fences have keys of arrays, which have no flag. */
  ghost predicate ApiInv(s: ApiState, arrayKeys: set<Key>) {
    && TableInv(s.t) && |s.t| < U32_LIMIT && ParentsInv(s.t) && ParentsAreJoins(s.t) && s.enabled !! arrayKeys
    && (forall i | 0 <= i < |s.t| && s.t[i].valid ::
          if s.t[i].allocator == JOIN_CLIENT_ID then s.t[i].key in arrayKeys else s.t[i].key in s.enabled)
  }

  /** Calls as clients make them: real keys, registered clients, and no array's key for a fence. */
  predicate GoodCall(c: ApiCall, arrayKeys: set<Key>) {
    match c
    case CreateFence(f, client) => f.key != FREE_KEY && f.key !in arrayKeys && 0 < client < JOIN_CLIENT_ID
    case DestroyFence(f, client) => f.key != FREE_KEY && 0 < client < JOIN_CLIENT_ID
    case DestroyByHandle(handle, client) => 0 < client < JOIN_CLIENT_ID
    case ResetClient(r) => 0 < r.client < JOIN_CLIENT_ID
    case WaitFence(f, client, data) => f.key != FREE_KEY && client < JOIN_CLIENT_ID
    case WaitArray(arr, client, data) =>
      && arr.key != FREE_KEY && arr.key in arrayKeys && client < JOIN_CLIENT_ID && |arr.fences| < U32_LIMIT
      && forall f | f in arr.fences :: f.key != FREE_KEY && f.key != arr.key
    case ControllerSignals(slot) => true
  }

  predicate NotLive(t: seq<HwFence>, k: Key) {
    forall i | 0 <= i < |t| && t[i].valid :: t[i].key != k
  }

  /** A wait on an array is made while no other wait on it is pending. */
  predicate Timely(s: ApiState, c: ApiCall) {
    c.WaitArray? ==> NotLive(s.t, c.arr.key)
  }

  lemma NotLiveIsAbsent(t: seq<HwFence>, k: Key)
    requires TableInv(t)
    ensures NotLive(t, k) <==> k !in Abs(t)
  {
    if k in Abs(t) {
      var i := AbsSlot(t, k);
    }
    forall i | 0 <= i < |t| && t[i].valid ensures t[i].key in Abs(t) {
      AbsLookup(t, i, t[i].key);
    }
  }

  /** A fence whose flag is off is not in the table. */
  lemma FlagOffMeansAbsent(s: ApiState, arrayKeys: set<Key>, k: Key)
    requires ApiInv(s, arrayKeys) && k !in s.enabled && k !in arrayKeys
    ensures NotLive(s.t, k) && k !in Abs(s.t)
  {
    NotLiveIsAbsent(s.t, k);
  }

  // ----- Every call keeps the invariant -----

  /** One slot's entry changes in nothing that the invariant looks at. */
  ghost predicate SameLinks(f: HwFence, f': HwFence) {
    && f'.valid == f.valid && f'.key == f.key && f'.allocator == f.allocator
    && f'.parents == f.parents && f'.parentsCnt == f.parentsCnt
  }

  lemma SlotsKeepInv(s: ApiState, t': seq<HwFence>, arrayKeys: set<Key>)
    requires ApiInv(s, arrayKeys) && |t'| == |s.t|
    requires forall i | 0 <= i < |s.t| :: SameLinks(s.t[i], t'[i])
               || (s.t[i].allocator != JOIN_CLIENT_ID && t'[i] == CLEAN_FENCE)
    ensures ApiInv(s.(t := t'), arrayKeys)
  {
    forall i | 0 <= i < |t'| ensures if t'[i].valid then ParentListInv(t', t'[i]) else t'[i].parentsCnt == 0 {
      if t'[i].valid {
        assert SameLinks(s.t[i], t'[i]) && ParentListInv(s.t, s.t[i]);
      }
    }
  }

  lemma CreateKeepsInv(s: ApiState, f: DmaFence, client: u32, arrayKeys: set<Key>)
    requires ApiInv(s, arrayKeys) && GoodCall(CreateFence(f, client), arrayKeys)
    ensures ApiInv(CreateStep(s, f, client).1, arrayKeys)
  {
    hide HomeSlot;
    if !f.isArray && f.key !in s.enabled && Probe(s.t, Create, f.key).Hit? {
      FlagOffMeansAbsent(s, arrayKeys, f.key);
      AbsSize(s.t);
      CreateProbe(s.t, Create, f.key);
      LookupRefinesMap(s.t, Create, f.key, client, 0);
      hide Probe, Abs;
      var slot := Probe(s.t, Create, f.key).slot;
      NewSlotKeepsInv(s, slot, f.key, client, arrayKeys);
    }
  }

  lemma NewSlotKeepsInv(s: ApiState, slot: nat, k: Key, client: u32, arrayKeys: set<Key>)
    requires ApiInv(s, arrayKeys) && slot < |s.t| && !s.t[slot].valid && client != JOIN_CLIENT_ID
    requires k !in arrayKeys && TableInv(s.t[slot := Reserved(k, client, 0)])
    ensures ApiInv(ApiState(s.t[slot := Reserved(k, client, 0)], s.enabled + {k}), arrayKeys)
  {
    var t' := s.t[slot := Reserved(k, client, 0)];
    forall i | 0 <= i < |t'| ensures if t'[i].valid then ParentListInv(t', t'[i]) else t'[i].parentsCnt == 0 {
      if i != slot && t'[i].valid {
        assert ParentListInv(s.t, s.t[i]);
      }
    }
    ParentsElsewhere(s.t, slot);
  }

  /** A free slot is nobody's parent. */
  lemma ParentsElsewhere(t: seq<HwFence>, slot: nat)
    requires ParentsInv(t) && slot < |t| && !t[slot].valid
    ensures forall i, p | 0 <= i < |t| && t[i].valid && 0 <= p < t[i].parentsCnt && p < MAX_JOIN_PARENTS ::
              t[i].parents[p] != slot
  {
    forall i, p | 0 <= i < |t| && t[i].valid && 0 <= p < t[i].parentsCnt && p < MAX_JOIN_PARENTS
      ensures t[i].parents[p] != slot
    {
      assert ParentListInv(t, t[i]);
    }
  }

  lemma DestroyKeepsInv(s: ApiState, f: DmaFence, client: u32, arrayKeys: set<Key>)
    requires ApiInv(s, arrayKeys) && GoodCall(DestroyFence(f, client), arrayKeys)
    ensures ApiInv(DestroyStep(s, f, client).1, arrayKeys)
  {
    hide HomeSlot, Probe, Lookup, ApiInv;
    var r := Probe(s.t, Destroy, f.key);
    if !f.isArray && f.key in s.enabled && r.Hit? {
      DestroyedSlot(s, f, client, arrayKeys);
      SlotDestroyedKeepsInv(s, r.slot, arrayKeys);
    }
  }

  lemma DestroyedSlot(s: ApiState, f: DmaFence, client: u32, arrayKeys: set<Key>)
    requires ApiInv(s, arrayKeys) && f.key != FREE_KEY && f.key in s.enabled && Probe(s.t, Destroy, f.key).Hit?
    ensures var slot := Probe(s.t, Destroy, f.key).slot;
            && slot < |s.t| && Holds(s.t, slot, f.key) && s.t[slot].allocator != JOIN_CLIENT_ID
            && Lookup(s.t, Destroy, f.key, client, 0) == s.t[slot := CLEAN_FENCE]
  {
    hide HomeSlot;
    MatchProbe(s.t, Destroy, f.key);
  }

  lemma SlotDestroyedKeepsInv(s: ApiState, slot: nat, arrayKeys: set<Key>)
    requires ApiInv(s, arrayKeys) && slot < |s.t| && s.t[slot].valid && s.t[slot].allocator != JOIN_CLIENT_ID
    ensures ApiInv(ApiState(s.t[slot := CLEAN_FENCE], s.enabled - {s.t[slot].key}), arrayKeys)
  {
    SlotsKeepInv(s, s.t[slot := CLEAN_FENCE], arrayKeys);
    OthersKeepTheirKeys(s.t, slot);
    hide ParentsInv, ParentsAreJoins, TableInv;
  }

  lemma OthersKeepTheirKeys(t: seq<HwFence>, slot: nat)
    requires TableInv(t) && slot < |t| && t[slot].valid
    ensures forall i | 0 <= i < |t| && i != slot && t[i].valid :: t[i].key != t[slot].key
  {
  }

  lemma ArrayKeepsInv(s: ApiState, arr: DmaFenceArray, client: u32, data: u64, arrayKeys: set<Key>)
    requires ApiInv(s, arrayKeys) && GoodCall(WaitArray(arr, client, data), arrayKeys) && NotLive(s.t, arr.key)
    ensures ApiInv(ApiStep(s, WaitArray(arr, client, data)).1, arrayKeys)
  {
    var seen := ArrayAsSeen(s, arr);
    ArrayIsReady(s, arr, arrayKeys);
    var r := ProcessArray(s.t, client, seen, data);
    hide HomeSlot, ProcessArray, Abs, Probe, TableInv;
    CallKeepsInvariants(s.t, client, seen, data);
    forall i: nat | i < |s.t| ensures |r.t| == |s.t| && CalledSlot(s.t, r.t, seen, r.hash, i) {
      CallChangesLittle(s.t, client, seen, data, i);
    }
    if s.t != [] {
      assert CalledSlot(s.t, r.t, seen, r.hash, 0);
      ArraySlots(s, r.t, seen, r.hash, arrayKeys);
    }
  }

  lemma ArrayIsReady(s: ApiState, arr: DmaFenceArray, arrayKeys: set<Key>)
    requires ApiInv(s, arrayKeys) && NotLive(s.t, arr.key) && arr.key != FREE_KEY && |arr.fences| < U32_LIMIT
    requires forall f | f in arr.fences :: f.key != FREE_KEY && f.key != arr.key
    ensures Ready(s.t, ArrayAsSeen(s, arr))
  {
    NotLiveIsAbsent(s.t, arr.key);
    var seen := ArrayAsSeen(s, arr);
    forall f | f in seen.fences ensures f.key != FREE_KEY && f.key != arr.key {
      var i :| 0 <= i < |seen.fences| && seen.fences[i] == f;
      assert arr.fences[i] in arr.fences;
    }
  }

  lemma ArraySlots(s: ApiState, t': seq<HwFence>, arr: DmaFenceArray, h: u64, arrayKeys: set<Key>)
    requires ApiInv(s, arrayKeys) && |t'| == |s.t| && TableInv(t') && ParentsInv(t') && arr.key in arrayKeys
    requires forall i: nat | i < |s.t| :: CalledSlot(s.t, t', arr, h, i)
    ensures ApiInv(s.(t := t'), arrayKeys)
  {
    hide TableInv;
    forall i, p | 0 <= i < |t'| && t'[i].valid && 0 <= p < t'[i].parentsCnt && p < MAX_JOIN_PARENTS
      ensures t'[i].parents[p] < |t'| && t'[t'[i].parents[p]].allocator == JOIN_CLIENT_ID
    {
      assert CalledSlot(s.t, t', arr, h, i) && ParentListInv(t', t'[i]);
      assert s.t[i].valid ==> ParentListInv(s.t, s.t[i]);
      var g := t'[i].parents[p];
      assert CalledSlot(s.t, t', arr, h, g);
    }
    forall i | 0 <= i < |t'| && t'[i].valid
      ensures if t'[i].allocator == JOIN_CLIENT_ID then t'[i].key in arrayKeys else t'[i].key in s.enabled
    {
      assert CalledSlot(s.t, t', arr, h, i);
    }
  }

  lemma ApiStepKeepsInv(s: ApiState, c: ApiCall, arrayKeys: set<Key>)
    requires ApiInv(s, arrayKeys) && GoodCall(c, arrayKeys) && Timely(s, c)
    ensures ApiInv(ApiStep(s, c).1, arrayKeys)
  {
    hide HomeSlot, Probe, ProcessArray, ApiInv;
    match c
    case CreateFence(f, client) => CreateKeepsInv(s, f, client, arrayKeys);
    case DestroyFence(f, client) => DestroyKeepsInv(s, f, client, arrayKeys);
    case DestroyByHandle(handle, client) => HandleKeepsInv(s, handle, client, arrayKeys);
    case ResetClient(r) => ResetKeepsInv(s, r, arrayKeys);
    case WaitFence(f, client, data) => WaitKeepsInv(s, f, client, data, arrayKeys);
    case WaitArray(arr, client, data) => ArrayKeepsInv(s, arr, client, data, arrayKeys);
    case ControllerSignals(slot) => SignalKeepsInv(s, slot, arrayKeys);
  }

  lemma HandleKeepsInv(s: ApiState, handle: u64, client: u32, arrayKeys: set<Key>)
    requires ApiInv(s, arrayKeys) && 0 < client < JOIN_CLIENT_ID
    ensures ApiInv(s.(t := DestroyHandle(s.t, handle, client).1), arrayKeys)
  {
    hide HomeSlot;
    DestroyHandleFreesSlot(s.t, handle, client);
    hide DestroyHandle;
    SlotsKeepInv(s, DestroyHandle(s.t, handle, client).1, arrayKeys);
  }

  lemma ResetKeepsInv(s: ApiState, r: Reset, arrayKeys: set<Key>)
    requires ApiInv(s, arrayKeys) && 0 < r.client < JOIN_CLIENT_ID
    ensures ApiInv(s.(t := ResetFrom(s.t, 0, r).0), arrayKeys)
  {
    hide HomeSlot, ResetFrom;
    ResetFromIsSlotwise(s.t, 0, r);
    SlotsKeepInv(s, ResetFrom(s.t, 0, r).0, arrayKeys);
  }

  lemma WaitKeepsInv(s: ApiState, f: DmaFence, client: u32, data: u64, arrayKeys: set<Key>)
    requires ApiInv(s, arrayKeys)
    ensures ApiInv(ApiStep(s, WaitFence(f, client, data)).1, arrayKeys)
  {
    hide WaitRegistration.Waited, Probe;
    var w := WaitRegistration.Waited(s.t, AsSeen(s, f), client, data);
    if w.ok {
      SlotsKeepInv(s, w.t, arrayKeys);
    }
  }

  lemma SignalKeepsInv(s: ApiState, slot: nat, arrayKeys: set<Key>)
    requires ApiInv(s, arrayKeys)
    ensures ApiInv(ApiStep(s, ControllerSignals(slot)).1, arrayKeys)
  {
    SlotsKeepInv(s, ApiStep(s, ControllerSignals(slot)).1.t, arrayKeys);
  }

  // ----- Runs -----

  /** Calls as clients make them, one after the other. */
  predicate GoodRun(s: ApiState, calls: seq<ApiCall>, arrayKeys: set<Key>)
    requires |s.t| < U32_LIMIT
    decreases |calls|
  {
    calls != [] ==>
      && GoodCall(calls[0], arrayKeys) && Timely(s, calls[0])
      && GoodRun(ApiStep(s, calls[0]).1, calls[1..], arrayKeys)
  }

  function ApiRun(s: ApiState, calls: seq<ApiCall>, arrayKeys: set<Key>): (s': ApiState)
    requires |s.t| < U32_LIMIT && GoodRun(s, calls, arrayKeys)
    decreases |calls|
  {
    if calls == [] then s else ApiRun(ApiStep(s, calls[0]).1, calls[1..], arrayKeys)
  }

  lemma {:induction false} RunKeepsInv(s: ApiState, calls: seq<ApiCall>, arrayKeys: set<Key>)
    requires ApiInv(s, arrayKeys) && GoodRun(s, calls, arrayKeys)
    ensures ApiInv(ApiRun(s, calls, arrayKeys), arrayKeys)
    decreases |calls|
  {
    if calls != [] {
      ApiStepKeepsInv(s, calls[0], arrayKeys);
      hide ApiInv, ApiStep, GoodCall, Timely;
      RunKeepsInv(ApiStep(s, calls[0]).1, calls[1..], arrayKeys);
    }
  }

  /** In every run of the exported calls no key ever occupies two slots, and whenever a create gets
      past the flag test its key is absent; so it succeeds iff a slot is free. */
  lemma FlagsKeepKeysUnique(s: ApiState, calls: seq<ApiCall>, arrayKeys: set<Key>, f: DmaFence, client: u32)
    requires ApiInv(s, arrayKeys) && GoodRun(s, calls, arrayKeys)
    requires GoodCall(CreateFence(f, client), arrayKeys) && !f.isArray
    ensures var s' := ApiRun(s, calls, arrayKeys);
            && TableInv(s'.t)
            && (f.key !in s'.enabled ==> f.key !in Abs(s'.t))
            && (CreateStep(s', f, client).0 <==> f.key !in s'.enabled && |Abs(s'.t)| < |s'.t|)
  {
    hide HomeSlot, Probe, Abs;
    RunKeepsInv(s, calls, arrayKeys);
    var s' := ApiRun(s, calls, arrayKeys);
    AbsSize(s'.t);
    if f.key !in s'.enabled {
      FlagOffMeansAbsent(s', arrayKeys, f.key);
      CreateProbe(s'.t, Create, f.key);
    }
  }

  // ----- What the calls do, after any run -----

  /** A create succeeds iff the flag is off and a slot is free. It adds exactly that fence, unsignaled and
      with nobody waiting, for its client, and puts the flag on; refused, it changes nothing. */
  lemma CreateOutcome(s: ApiState, calls: seq<ApiCall>, arrayKeys: set<Key>, f: DmaFence, client: u32)
    requires ApiInv(s, arrayKeys) && GoodRun(s, calls, arrayKeys) && GoodCall(CreateFence(f, client), arrayKeys)
    ensures var s1 := ApiRun(s, calls, arrayKeys);
            var r := CreateStep(s1, f, client);
            && TableInv(s1.t) && TableInv(r.1.t)
            && (r.0 <==> !f.isArray && f.key !in s1.enabled && |Abs(s1.t)| < |s1.t|)
            && (!r.0 ==> r.1 == s1)
            && (r.0 ==>
                  && r.1.enabled == s1.enabled + {f.key}
                  && f.key !in Abs(s1.t) && f.key in Abs(r.1.t) && Abs(r.1.t) - {f.key} == Abs(s1.t)
                  && var e := Abs(r.1.t)[f.key];
                  && e.allocator == client && e.waitMask == {} && !e.signaled && e.parentsCnt == 0 && e.pendingChildCnt == 0)
  {
    hide HomeSlot, Probe, Abs;
    RunKeepsInv(s, calls, arrayKeys);
    var s1 := ApiRun(s, calls, arrayKeys);
    AbsSize(s1.t);
    if f.key !in s1.enabled {
      FlagOffMeansAbsent(s1, arrayKeys, f.key);
      CreateProbe(s1.t, Create, f.key);
      LookupRefinesMap(s1.t, Create, f.key, client, 0);
      if Probe(s1.t, Create, f.key).Hit? {
        AddedOnly(Abs(s1.t), f.key, Process(Create, CLEAN_FENCE, f.key, client, 0));
      }
    }
  }

  lemma AddedOnly<K, V>(m: map<K, V>, k: K, v: V)
    requires k !in m
    ensures m[k := v] - {k} == m
  {
  }

  /** A destroy succeeds iff the flag is on and the fence is in the table. It takes out exactly that fence
      and its flag; refused, it changes nothing. */
  lemma DestroyOutcome(s: ApiState, calls: seq<ApiCall>, arrayKeys: set<Key>, f: DmaFence, client: u32)
    requires ApiInv(s, arrayKeys) && GoodRun(s, calls, arrayKeys) && GoodCall(DestroyFence(f, client), arrayKeys)
    ensures var s1 := ApiRun(s, calls, arrayKeys);
            var r := DestroyStep(s1, f, client);
            && TableInv(s1.t) && TableInv(r.1.t)
            && (r.0 <==> !f.isArray && f.key in s1.enabled && f.key in Abs(s1.t))
            && (r.0 ==> Abs(r.1.t) == Abs(s1.t) - {f.key} && r.1.enabled == s1.enabled - {f.key})
            && (!r.0 ==> r.1 == s1)
  {
    hide HomeSlot, Probe, Abs;
    RunKeepsInv(s, calls, arrayKeys);
    var s1 := ApiRun(s, calls, arrayKeys);
    LookupRefinesMap(s1.t, Destroy, f.key, client, 0);
  }

  /** A fence that was created can be destroyed, by any client, which undoes the create. */
  lemma DestroyUndoesCreate(s: ApiState, arrayKeys: set<Key>, f: DmaFence, client: u32, other: u32)
    requires ApiInv(s, arrayKeys) && GoodCall(CreateFence(f, client), arrayKeys) && 0 < other < JOIN_CLIENT_ID
    requires CreateStep(s, f, client).0
    ensures var s1 := CreateStep(s, f, client).1;
            var r := DestroyStep(s1, f, other);
            r.0 && r.1.enabled == s.enabled && TableInv(s.t) && TableInv(r.1.t) && Abs(r.1.t) == Abs(s.t)
  {
    hide HomeSlot, Probe, Abs;
    CreateOutcome(s, [], arrayKeys, f, client);
    CreateKeepsInv(s, f, client, arrayKeys);
    DestroyOutcome(CreateStep(s, f, client).1, [], arrayKeys, f, other);
  }

  /** The other calls leave all flags alone. Handles, resets and waits do what is said of them for the table
      alone; a wait sees exactly the flags that are on. */
  lemma OtherCallsOutcome(s: ApiState, c: ApiCall, arrayKeys: set<Key>)
    requires ApiInv(s, arrayKeys) && GoodCall(c, arrayKeys) && Timely(s, c)
    requires !c.CreateFence? && !c.DestroyFence?
    ensures ApiStep(s, c).1.enabled == s.enabled
    ensures match c
            case DestroyByHandle(handle, client) =>
              ApiStep(s, c) == if handle < |s.t| && s.t[handle].valid && s.t[handle].allocator == client
                               then (true, s.(t := s.t[handle := CLEAN_FENCE])) else (false, s)
            case ResetClient(r) => ApiStep(s, c).0 && ApiStep(s, c).1.t == ResetFrom(s.t, 0, r).0
            case WaitFence(f, client, data) =>
              && (ApiStep(s, c).0 <==> !f.isArray && f.key in s.enabled && f.key in Abs(s.t)
                                       && (data == 0 || ClientDataId(client) < CLIENTS_WITH_DATA))
              && (!ApiStep(s, c).0 ==> ApiStep(s, c).1 == s)
              && (ApiStep(s, c).0 ==>
                    ApiStep(s, c).1.t == WaitRegistration.Waited(s.t, DmaFence(false, true, f.key), client, data).t)
            case ControllerSignals(slot) =>
              slot < |s.t| && s.t[slot].valid ==> ApiStep(s, c).1.t == s.t[slot := s.t[slot].(signaled := true)]
            case _ => true
  {
    hide HomeSlot, Probe, ProcessArray, ResetFrom, DestroyHandle, Abs, AcceptsChild, Count;
    match c
    case DestroyByHandle(handle, client) => DestroyHandleFreesSlot(s.t, handle, client);
    case WaitFence(f, client, data) =>
      WaitRegistration.WaitOutcome(s.t, AsSeen(s, f), client, data);
      SeenFlag(s, f);
    case WaitArray(arr, client, data) =>
    case ResetClient(r) =>
    case ControllerSignals(slot) =>
  }

  /** A wait on an array succeeds iff the client may attach data if it does, a slot is free, there are
      children, and every child is a single fence with its flag on that is in the table and is signaled
      or has room in its parent list, as often as it occurs. Refused, it leaves the fences as they were. */
  lemma ArrayWaitOutcome(s: ApiState, arr: DmaFenceArray, client: u32, data: u64, arrayKeys: set<Key>)
    requires ApiInv(s, arrayKeys) && GoodCall(WaitArray(arr, client, data), arrayKeys) && NotLive(s.t, arr.key)
    ensures var r, n := ApiStep(s, WaitArray(arr, client, data)), |arr.fences|;
            && r.1.enabled == s.enabled
            && (r.0 <==>
                  && (data == 0 || ClientDataId(client) < CLIENTS_WITH_DATA)
                  && |Abs(s.t)| < |s.t| && n > 0
                  && forall q | 0 <= q < n ::
                       var k := arr.fences[q].key;
                       && !arr.fences[q].isArray && k in s.enabled && k in Abs(s.t)
                       && (Abs(s.t)[k].signaled || Abs(s.t)[k].parentsCnt + Count(arr.fences, n, k) <= 2))
            && (!r.0 ==> TableInv(r.1.t) && Abs(r.1.t) == Abs(s.t))
  {
    hide HomeSlot, Probe, ProcessArray, Abs, TableInv, Count;
    var seen, n := ArrayAsSeen(s, arr), |arr.fences|;
    ArrayIsReady(s, arr, arrayKeys);
    FailedCallLeavesNoTrace(s.t, client, seen, data);
    forall q | 0 <= q < n ensures Count(seen.fences, n, arr.fences[q].key) == Count(arr.fences, n, arr.fences[q].key) {
      SeenCount(s, arr, n, arr.fences[q].key);
    }
    forall q | 0 <= q < n ensures seen.fences[q] == DmaFence(arr.fences[q].isArray, arr.fences[q].key in s.enabled, arr.fences[q].key) {
      SeenFlag(s, arr.fences[q]);
    }
    AcceptsIs(Abs(s.t), seen.fences);
  }

  /** What a wait on an array that succeeds leaves: nothing if all its children are signaled; otherwise, in
      a slot that was free, a join fence that counts the others, which list it as often as they occur. */
  lemma ArrayWaitLeaves(s: ApiState, arr: DmaFenceArray, client: u32, data: u64, arrayKeys: set<Key>) returns (h: nat)
    requires ApiInv(s, arrayKeys) && GoodCall(WaitArray(arr, client, data), arrayKeys) && NotLive(s.t, arr.key)
    requires ApiStep(s, WaitArray(arr, client, data)).0
    ensures var t', n := ApiStep(s, WaitArray(arr, client, data)).1.t, |arr.fences|;
            var signaled := SignaledAmong(Abs(s.t), arr.fences, n);
            && h < |s.t| == |t'| && !s.t[h].valid
            && if signaled == n then t' == s.t[h := CLEAN_FENCE]
               else
                 && IsPendingJoin(t'[h], client, arr, data, n - signaled)
                 && forall i | 0 <= i < |t'| && i != h ::
                      ListsMore(s.t[i], t'[i], h, if s.t[i].signaled then 0 else Count(arr.fences, n, s.t[i].key))
  {
    hide HomeSlot, Probe, ProcessArray, Abs, TableInv, Count, SignaledAmong, Accepts, IsPendingJoin, ListsMore;
    var seen, n := ArrayAsSeen(s, arr), |arr.fences|;
    ArrayIsReady(s, arr, arrayKeys);
    FailedCallLeavesNoTrace(s.t, client, seen, data);
    SeenSignaled(s, arr, n);
    h := ProcessArray(s.t, client, seen, data).hash;
    if SignaledAmong(Abs(s.t), seen.fences, n) == n {
      SignaledCallFinishes(s.t, client, seen, data);
    } else {
      PendingCallRegisters(s.t, client, seen, data);
      PendingForArray(s, arr, client, data, h);
    }
  }

  lemma PendingForArray(s: ApiState, arr: DmaFenceArray, client: u32, data: u64, h: nat)
    requires Ready(s.t, ArrayAsSeen(s, arr)) && Proceeds(s.t, client, ArrayAsSeen(s, arr), data)
    requires SignaledAmong(Abs(s.t), arr.fences, |arr.fences|) < |arr.fences|
    requires h == ProcessArray(s.t, client, ArrayAsSeen(s, arr), data).hash < |s.t|
    ensures var t', n := ProcessArray(s.t, client, ArrayAsSeen(s, arr), data).t, |arr.fences|;
            && IsPendingJoin(t'[h], client, arr, data, n - SignaledAmong(Abs(s.t), arr.fences, n))
            && forall i | 0 <= i < |t'| && i != h ::
                 ListsMore(s.t[i], t'[i], h, if s.t[i].signaled then 0 else Count(arr.fences, n, s.t[i].key))
  {
    hide HomeSlot, ProcessArray, Abs, TableInv, Proceeds, Count, SignaledAmong, ListsMore;
    var seen, n := ArrayAsSeen(s, arr), |arr.fences|;
    SeenSignaled(s, arr, n);
    var t' := ProcessArray(s.t, client, seen, data).t;
    PendingOutcome(s.t, client, seen, data, h);
    forall i | 0 <= i < |t'| && i != h
      ensures ListsMore(s.t[i], t'[i], h, if s.t[i].signaled then 0 else Count(arr.fences, n, s.t[i].key))
    {
      PendingOutcome(s.t, client, seen, data, i);
      SeenCount(s, arr, n, s.t[i].key);
    }
  }

  lemma {:induction false} SeenSignaled(s: ApiState, arr: DmaFenceArray, n: nat)
    requires TableInv(s.t) && n <= |arr.fences|
    ensures SignaledAmong(Abs(s.t), ArrayAsSeen(s, arr).fences, n) == SignaledAmong(Abs(s.t), arr.fences, n)
    decreases n
  {
    hide Abs;
    if n > 0 {
      SeenSignaled(s, arr, n - 1);
      SeenFlag(s, arr.fences[n - 1]);
    }
  }

  lemma AcceptsIs(m: map<Key, HwFence>, cs: seq<DmaFence>)
    ensures Accepts(m, cs, |cs|) <==>
            forall q | 0 <= q < |cs| ::
              && !cs[q].isArray && cs[q].enabled && cs[q].key in m
              && (m[cs[q].key].signaled || m[cs[q].key].parentsCnt + Count(cs, |cs|, cs[q].key) <= 2)
  {
    hide Count;
    assert forall q | 0 <= q < |cs| :: AcceptsChild(m, cs[q], Count(cs, |cs|, cs[q].key)) <==>
      && !cs[q].isArray && cs[q].enabled && cs[q].key in m
      && (m[cs[q].key].signaled || m[cs[q].key].parentsCnt + Count(cs, |cs|, cs[q].key) <= 2);
  }

  lemma {:induction false} SeenCount(s: ApiState, arr: DmaFenceArray, n: nat, k: Key)
    requires n <= |arr.fences|
    ensures Count(ArrayAsSeen(s, arr).fences, n, k) == Count(arr.fences, n, k)
    decreases n
  {
    if n > 0 {
      SeenCount(s, arr, n - 1, k);
    }
  }

  lemma SeenFlag(s: ApiState, f: DmaFence)
    ensures AsSeen(s, f) == DmaFence(f.isArray, f.key in s.enabled, f.key)
  {
  }

  // ----- Flags without fences -----

  /** The flag is on, and no slot has the fence. */
  predicate StrandedFlag(s: ApiState, k: Key) {
    k in s.enabled && NotLive(s.t, k)
  }

  /** Of all calls, exactly two take a fence out of the table and leave its flag on: destroying it by its
      handle, and resetting its client. */
  lemma StrandedIff(s: ApiState, c: ApiCall, arrayKeys: set<Key>, i: nat)
    requires ApiInv(s, arrayKeys) && GoodCall(c, arrayKeys) && Timely(s, c)
    requires i < |s.t| && s.t[i].valid && s.t[i].key in s.enabled
    ensures StrandedFlag(ApiStep(s, c).1, s.t[i].key) <==>
            || (c.DestroyByHandle? && c.handle == i && c.client == s.t[i].allocator)
            || (c.ResetClient? && !c.reset.withoutDestroy && c.reset.client == s.t[i].allocator)
  {
    hide HomeSlot, Probe, ProcessArray, ResetFrom, DestroyHandle, Abs;
    var k := s.t[i].key;
    match c
    case CreateFence(f, client) => CreateKeepsSlot(s, f, client, arrayKeys, i);
    case DestroyFence(f, client) => DestroyTakesFlag(s, f, client, arrayKeys, i);
    case DestroyByHandle(handle, client) =>
      DestroyHandleFreesSlot(s.t, handle, client);
      OthersKeepTheirKeys(s.t, i);
      if handle != i || client != s.t[i].allocator {
        assert DestroyHandle(s.t, handle, client).1[i] == s.t[i];
      }
    case ResetClient(r) =>
      ResetFromIsSlotwise(s.t, 0, r);
      OthersKeepTheirKeys(s.t, i);
    case WaitFence(f, client, data) => assert ApiStep(s, c).1.t[i].valid && ApiStep(s, c).1.t[i].key == k;
    case WaitArray(arr, client, data) =>
      ArrayIsReady(s, arr, arrayKeys);
      CallChangesLittle(s.t, client, ArrayAsSeen(s, arr), data, i);
    case ControllerSignals(slot) => assert ApiStep(s, c).1.t[i].valid && ApiStep(s, c).1.t[i].key == k;
  }

  lemma CreateKeepsSlot(s: ApiState, f: DmaFence, client: u32, arrayKeys: set<Key>, i: nat)
    requires ApiInv(s, arrayKeys) && GoodCall(CreateFence(f, client), arrayKeys) && i < |s.t| && s.t[i].valid
    ensures CreateStep(s, f, client).1.t[i] == s.t[i]
  {
    hide HomeSlot;
    LookupKeepsLiveSlot(s.t, i, Create, f.key, client, 0);
  }

  lemma DestroyTakesFlag(s: ApiState, f: DmaFence, client: u32, arrayKeys: set<Key>, i: nat)
    requires ApiInv(s, arrayKeys) && GoodCall(DestroyFence(f, client), arrayKeys) && i < |s.t| && s.t[i].valid
    ensures !StrandedFlag(DestroyStep(s, f, client).1, s.t[i].key)
  {
    hide HomeSlot;
    if f.key != s.t[i].key {
      LookupKeepsLiveSlot(s.t, i, Destroy, f.key, client, 0);
    } else {
      AbsLookup(s.t, i, f.key);
      MatchProbe(s.t, Destroy, f.key);
    }
  }

  lemma StepKeepsStrandedFlag(s: ApiState, c: ApiCall, arrayKeys: set<Key>, k: Key)
    requires ApiInv(s, arrayKeys) && GoodCall(c, arrayKeys) && Timely(s, c) && StrandedFlag(s, k)
    ensures StrandedFlag(ApiStep(s, c).1, k)
  {
    hide HomeSlot, Probe, ProcessArray, ResetFrom, DestroyHandle, Abs;
    match c
    case CreateFence(f, client) => CreateAddsOnly(s, f, client, arrayKeys, k);
    case DestroyFence(f, client) => DestroyOfAbsent(s, f, client, k);
    case DestroyByHandle(handle, client) => DestroyHandleFreesSlot(s.t, handle, client);
    case ResetClient(r) => ResetFromIsSlotwise(s.t, 0, r);
    case WaitFence(f, client, data) =>
    case WaitArray(arr, client, data) =>
      ArrayIsReady(s, arr, arrayKeys);
      var t' := ApiStep(s, c).1.t;
      forall i | 0 <= i < |t'| && t'[i].valid ensures t'[i].key != k {
        CallChangesLittle(s.t, client, ArrayAsSeen(s, arr), data, i);
      }
    case ControllerSignals(slot) =>
  }

  lemma CreateAddsOnly(s: ApiState, f: DmaFence, client: u32, arrayKeys: set<Key>, k: Key)
    requires ApiInv(s, arrayKeys) && GoodCall(CreateFence(f, client), arrayKeys) && StrandedFlag(s, k)
    ensures StrandedFlag(CreateStep(s, f, client).1, k)
  {
    hide HomeSlot;
  }

  lemma DestroyOfAbsent(s: ApiState, f: DmaFence, client: u32, k: Key)
    requires TableInv(s.t) && f.key != FREE_KEY && StrandedFlag(s, k)
    ensures StrandedFlag(DestroyStep(s, f, client).1, k) && (f.key == k ==> !DestroyStep(s, f, client).0)
  {
    hide HomeSlot;
    NotLiveIsAbsent(s.t, k);
    MatchProbe(s.t, Destroy, f.key);
  }

  /** Once a fence is gone and its flag is on, that is so in every run that follows: the fence is never in
      the table again, and every create and destroy of it is refused. */
  lemma {:induction false} StrandedForever(s: ApiState, calls: seq<ApiCall>, arrayKeys: set<Key>, f: DmaFence, client: u32)
    requires ApiInv(s, arrayKeys) && GoodRun(s, calls, arrayKeys) && StrandedFlag(s, f.key) && f.key != FREE_KEY
    ensures var s' := ApiRun(s, calls, arrayKeys);
            && StrandedFlag(s', f.key)
            && !CreateStep(s', f, client).0 && !DestroyStep(s', f, client).0
    decreases |calls|
  {
    if calls == [] {
      DestroyOfAbsent(s, f, client, f.key);
    } else {
      ApiStepKeepsInv(s, calls[0], arrayKeys);
      StepKeepsStrandedFlag(s, calls[0], arrayKeys, f.key);
      hide ApiInv, ApiStep, GoodCall, Timely, CreateStep, DestroyStep;
      StrandedForever(ApiStep(s, calls[0]).1, calls[1..], arrayKeys, f, client);
    }
  }

  /** So a fence that was created and then freed by its handle is refused from then on, whatever its
      clients do. */
  lemma FreedByHandleStaysFlagged(s: ApiState, arrayKeys: set<Key>, f: DmaFence, client: u32, calls: seq<ApiCall>, other: u32)
    requires ApiInv(s, arrayKeys) && GoodCall(CreateFence(f, client), arrayKeys) && CreateStep(s, f, client).0
    ensures var s1, h := CreateStep(s, f, client).1, Probe(s.t, Create, f.key).slot;
            && h < |s1.t| < U32_LIMIT
            && var s2 := ApiStep(s1, DestroyByHandle(h, client)).1;
            GoodRun(s2, calls, arrayKeys) ==>
              !CreateStep(ApiRun(s2, calls, arrayKeys), f, other).0 && !DestroyStep(ApiRun(s2, calls, arrayKeys), f, other).0
  {
    hide HomeSlot;
    CreateKeepsInv(s, f, client, arrayKeys);
    hide ApiInv;
    var s1, h := CreateStep(s, f, client).1, Probe(s.t, Create, f.key).slot;
    CreatedSlot(s, arrayKeys, f, client);
    hide CreateStep, Probe;
    StrandedIff(s1, DestroyByHandle(h, client), arrayKeys, h);
    ApiStepKeepsInv(s1, DestroyByHandle(h, client), arrayKeys);
    hide ApiStep;
    var s2 := ApiStep(s1, DestroyByHandle(h, client)).1;
    if GoodRun(s2, calls, arrayKeys) {
      StrandedForever(s2, calls, arrayKeys, f, other);
    }
  }

  lemma CreatedSlot(s: ApiState, arrayKeys: set<Key>, f: DmaFence, client: u32)
    requires ApiInv(s, arrayKeys) && GoodCall(CreateFence(f, client), arrayKeys) && CreateStep(s, f, client).0
    ensures var s1, h := CreateStep(s, f, client).1, Probe(s.t, Create, f.key).slot;
            && h < |s1.t| < U32_LIMIT && Holds(s1.t, h, f.key) && s1.t[h].allocator == client && f.key in s1.enabled
  {
    hide HomeSlot;
  }
}
