/** Join fences: a wait on a fence array reserves a fence of its own, which counts its unsignaled
    children and is listed as a parent in each of them. One call, run without interference. */
module JoinFences {
  import opened HwFences
  import opened FenceTables

  /** A dma-fence as the driver sees it: whether it is itself an array, whether its HW-fence flag
      is on, and its key. */
  datatype DmaFence = DmaFence(isArray: bool, enabled: bool, key: Key)

  datatype DmaFenceArray = DmaFenceArray(key: Key, fences: seq<DmaFence>)

  /** One notification of a waiting client (`_fence_ctl_signal`). */
  datatype Signal = Signal(client: u32, key: Key, hash: u64, clientData: u64, error: u32)

  // ----- One child -----

  function AppendParent(f: HwFence, h: u64): HwFence {
    if f.parentsCnt < MAX_JOIN_PARENTS
    then f.(parents := f.parents[f.parentsCnt := h], parentsCnt := f.parentsCnt + 1)
    else f
  }

  datatype ChildVisit = ChildVisit(ok: bool, t: seq<HwFence>, reachedZero: bool)

  /** What visiting one child does to the table; `reachedZero` when it takes the join's count to 0. */
  function VisitChild(t: seq<HwFence>, h: u64, c: DmaFence): (r: ChildVisit)
    requires h < |t|
    ensures |r.t| == |t|
    ensures !r.ok ==> r.t == t && !r.reachedZero
  {
    if c.isArray || !c.enabled || !Probe(t, Find, c.key).Hit? then ChildVisit(false, t, false)
    else
      var s := Probe(t, Find, c.key).slot;
      var count := WrapU32(t[s].parentsCnt + 1);
      if t[s].signaled then
        var pending := WrapU32(t[h].pendingChildCnt - 1);
        ChildVisit(true, t[h := t[h].(pendingChildCnt := pending)], pending == 0)
      else if count >= MAX_JOIN_PARENTS || count < 1 then ChildVisit(false, t, false)
      else ChildVisit(true, t[s := AppendParent(t[s], h)], false)
  }

  datatype VisitEnd = VisitEnd(ok: bool, t: seq<HwFence>, next: nat, signal: bool)

  function VisitAll(t: seq<HwFence>, h: u64, cs: seq<DmaFence>, i: nat, signal: bool): (r: VisitEnd)
    requires h < |t| && i <= |cs|
    ensures |r.t| == |t| && i <= r.next <= |cs| && (r.ok <==> r.next == |cs|)
    decreases |cs| - i
  {
    if i == |cs| then VisitEnd(true, t, i, signal)
    else
      var v := VisitChild(t, h, cs[i]);
      if v.ok then VisitAll(v.t, h, cs, i + 1, signal || v.reachedZero) else VisitEnd(false, t, i, signal)
  }

  /** Rolling a parent back out of one child: entries are cleared from position `j` down, and are
      not moved together. */
  function DropParents(f: HwFence, h: u64, j: nat): (f': HwFence)
    decreases j
  {
    if j == 0 then f
    else
      var p := if j > MAX_JOIN_PARENTS then MAX_JOIN_PARENTS else j;
      var f' := if f.parents[p - 1] == h
                then f.(parents := f.parents[p - 1 := INVALID_PARENT],
                        parentsCnt := if f.parentsCnt > 0 then f.parentsCnt - 1 else 0)
                else f;
      DropParents(f', h, p - 1)
  }

  function RollbackChild(t: seq<HwFence>, h: u64, c: DmaFence): (t': seq<HwFence>)
    ensures |t'| == |t|
  {
    var r := Probe(t, Find, c.key);
    if r.Hit? then t[r.slot := DropParents(t[r.slot], h, t[r.slot].parentsCnt)] else t
  }

  /** Children `n - 1` down to 0. */
  function Rollback(t: seq<HwFence>, h: u64, cs: seq<DmaFence>, n: nat): (t': seq<HwFence>)
    requires n <= |cs|
    ensures |t'| == |t|
    decreases n
  {
    if n == 0 then t else Rollback(RollbackChild(t, h, cs[n - 1]), h, cs, n - 1)
  }

  // ----- The whole call -----

  datatype ArrayResult = ArrayResult(ok: bool, hash: u64, t: seq<HwFence>, sent: seq<Signal>, arraySignaled: bool)

  function WithWaiter(f: HwFence, client: u32): HwFence {
    f.(waitMask := f.waitMask + {client})
  }

  function WithData(f: HwFence, client: u32, data: u64): HwFence {
    if data != 0 && ClientDataId(client) < CLIENTS_WITH_DATA
    then f.(clientData := f.clientData[ClientDataId(client) := data]) else f
  }

  /** `hw_fence_process_fence_array` as a function of the table. */
  function ProcessArray(t: seq<HwFence>, client: u32, arr: DmaFenceArray, data: u64): (r: ArrayResult)
    requires |t| < U32_LIMIT && |arr.fences| < U32_LIMIT
    ensures |r.t| == |t|
  {
    var created := Probe(t, CreateJoin, arr.key);
    if data != 0 && ClientDataId(client) >= CLIENTS_WITH_DATA then ArrayResult(false, 0, t, [], false)
    else if !created.Hit? then ArrayResult(false, 0, t, [], false)
    else
      var h := created.slot;
      var t1 := Lookup(t, CreateJoin, arr.key, JOIN_CLIENT_ID, |arr.fences|);
      var v := VisitAll(t1[h := WithWaiter(t1[h], client)], h, arr.fences, 0, false);
      if !v.ok then
        ArrayResult(false, h, Lookup(Rollback(v.t, h, arr.fences, v.next + 1), Destroy, arr.key, JOIN_CLIENT_ID, 0),
                    [], false)
      else
        var t2 := v.t[h := WithData(v.t[h], client, data)];
        if v.signal then
          ArrayResult(true, h, Lookup(t2, Destroy, arr.key, JOIN_CLIENT_ID, 0),
                      [Signal(client, t2[h].key, h, 0, WrapU32(data))], true)
        else if arr.fences == [] then
          ArrayResult(false, h, Lookup(t2, Destroy, arr.key, JOIN_CLIENT_ID, 0), [], false)
        else ArrayResult(true, h, t2, [], false)
  }

  /** The inner loop of `_cleanup_join_and_child_fences`, under the child's lock. */
  method DropParentsOf(table: FenceTable, s: nat, h: u64)
    requires s < table.slots.Length
    modifies table.slots
    ensures table.slots[..] ==
            old(table.slots[..])[s := DropParents(old(table.slots[s]), h, old(table.slots[s].parentsCnt))]
  {
    ghost var f := table.slots[s];
    var j := table.slots[s].parentsCnt;
    while j > 0
      invariant 0 <= j && table.slots[..] == old(table.slots[..])[s := table.slots[s]]
      invariant DropParents(table.slots[s], h, j) == DropParents(f, h, f.parentsCnt)
      decreases j
    {
      if j > MAX_JOIN_PARENTS {
        j := MAX_JOIN_PARENTS;
      }
      var g := table.slots[s];
      if g.parents[j - 1] == h {
        var count := if g.parentsCnt > 0 then g.parentsCnt - 1 else 0;
        table.slots[s] := g.(parents := g.parents[j - 1 := INVALID_PARENT], parentsCnt := count);
      }
      j := j - 1;
    }
  }

  /** `_cleanup_join_and_child_fences`, `iteration` being the child that failed. */
  method CleanupJoinAndChildren(table: FenceTable, iteration: nat, arr: DmaFenceArray, h: u64)
    requires table.slots.Length < U32_LIMIT && (arr.fences != [] ==> iteration < |arr.fences|)
    modifies table.slots
    ensures table.slots[..] ==
            Lookup(if arr.fences == [] then old(table.slots[..])
                   else Rollback(old(table.slots[..]), h, arr.fences, iteration + 1),
                   Destroy, arr.key, JOIN_CLIENT_ID, 0)
  {
    if arr.fences != [] {
      RollbackChildren(table, h, arr.fences, iteration + 1);
    }
    var _, _ := table.LookupAndProcess(Destroy, arr.key, JOIN_CLIENT_ID, 0);
  }

  /** Its outer loop, from the child that failed down to the first. */
  method RollbackChildren(table: FenceTable, h: u64, cs: seq<DmaFence>, count: nat)
    requires table.slots.Length < U32_LIMIT && count <= |cs|
    modifies table.slots
    ensures table.slots[..] == Rollback(old(table.slots[..]), h, cs, count)
  {
    hide HomeSlot, RollbackChild;
    var n := count;
    while n > 0
      invariant 0 <= n <= count
      invariant Rollback(table.slots[..], h, cs, n) == Rollback(old(table.slots[..]), h, cs, count)
    {
      n := n - 1;
      RollbackOneChild(table, h, cs[n]);
    }
  }

  method RollbackOneChild(table: FenceTable, h: u64, c: DmaFence)
    requires table.slots.Length < U32_LIMIT
    modifies table.slots
    ensures table.slots[..] == RollbackChild(old(table.slots[..]), h, c)
  {
    hide HomeSlot;
    FindChangesNothing(table.slots[..], c.key, JOIN_CLIENT_ID);
    var found, s := table.LookupAndProcess(Find, c.key, JOIN_CLIENT_ID, 0);
    if found {
      DropParentsOf(table, s, h);
    }
  }

  lemma FindChangesNothing(t: seq<HwFence>, k: Key, client: u32)
    ensures Lookup(t, Find, k, client, 0) == t
  {
  }

  /** The body of the child loop of `hw_fence_process_fence_array`. */
  method VisitOneChild(table: FenceTable, h: u64, c: DmaFence, client: u32) returns (ok: bool, reachedZero: bool)
    requires table.slots.Length < U32_LIMIT && h < table.slots.Length
    modifies table.slots
    ensures ChildVisit(ok, table.slots[..], reachedZero) == VisitChild(old(table.slots[..]), h, c)
  {
    hide HomeSlot;
    reachedZero := false;
    if c.isArray {
      return false, false;
    }
    if !c.enabled {
      return false, false;
    }
    FindChangesNothing(table.slots[..], c.key, client);
    var s;
    ok, s := table.LookupAndProcess(Find, c.key, client, 0);
    if !ok {
      return;
    }
    var f := table.slots[s];
    if f.signaled {
      var pending := WrapU32(table.slots[h].pendingChildCnt - 1);
      table.slots[h] := table.slots[h].(pendingChildCnt := pending);
      reachedZero := pending == 0;
    } else {
      var count := WrapU32(f.parentsCnt + 1);
      if count >= MAX_JOIN_PARENTS || count < 1 {
        ok := false;
      } else {
        table.slots[s] := f.(parents := f.parents[count - 1 := h], parentsCnt := count);
      }
    }
  }

  method ProcessFenceArray(table: FenceTable, client: u32, arr: DmaFenceArray, data: u64)
    returns (ok: bool, hash: u64, sent: seq<Signal>, arraySignaled: bool)
    requires table.slots.Length < U32_LIMIT && |arr.fences| < U32_LIMIT
    modifies table.slots
    ensures var r := ProcessArray(old(table.slots[..]), client, arr, data);
            && ok == r.ok && sent == r.sent && arraySignaled == r.arraySignaled
            && (ok ==> hash == r.hash) && table.slots[..] == r.t
  {
    hide HomeSlot, VisitChild;
    ok, hash, sent, arraySignaled := false, U64_LIMIT - 1, [], false;
    var dataId := ClientDataId(client);
    if data != 0 && dataId >= CLIENTS_WITH_DATA {
      return;
    }
    var found;
    found, hash := table.LookupAndProcess(CreateJoin, arr.key, JOIN_CLIENT_ID, |arr.fences|);
    if !found {
      return;
    }
    var h := hash;
    table.slots[h] := WithWaiter(table.slots[h], client);

    ghost var all := VisitAll(table.slots[..], h, arr.fences, 0, false);
    var signal, i := false, 0;
    while i < |arr.fences|
      invariant i <= |arr.fences| && h < table.slots.Length
      invariant VisitAll(table.slots[..], h, arr.fences, i, signal) == all
    {
      var good, zero := VisitOneChild(table, h, arr.fences[i], client);
      if !good {
        CleanupJoinAndChildren(table, i, arr, h);
        return;
      }
      signal := signal || zero;
      i := i + 1;
    }

    if data != 0 {
      table.slots[h] := table.slots[h].(clientData := table.slots[h].clientData[dataId := data]);
    }
    assert table.slots[..] == all.t[h := WithData(all.t[h], client, data)];
    if signal {
      sent := [Signal(client, table.slots[h].key, h, 0, WrapU32(data))];
      arraySignaled := true;
      var _, _ := table.LookupAndProcess(Destroy, arr.key, JOIN_CLIENT_ID, 0);
    } else if |arr.fences| == 0 {
      CleanupJoinAndChildren(table, i, arr, h);
      return;
    }
    ok := true;
  }
}
