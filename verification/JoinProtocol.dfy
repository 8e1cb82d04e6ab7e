/** Join fences under interference: any number of drivers registering arrays, one step per child,
    while fence controllers signal children and count down their parents one by one.

    A step is what happens under one lock. A controller keeps the lock of the child that it signals
    until it has counted down every parent in its list, so no driver visits that child meanwhile. */
module JoinProtocol {
  import opened HwFences
  import opened FenceTables
  import opened JoinFences

  /** How far a registering driver is: the next child, or rolling back with so many children left. */
  datatype Phase = Visiting(i: nat) | Signaling | Registered | RollingBack(left: nat)

  datatype Party = Driver | Controller

  /** A child: the slot its fence is in, and the fence's key. */
  datatype Child = Child(slot: nat, key: Key)

  /** A join fence that is in the table: its children, its driver's phase, and history: which parties
      have taken its count to zero, and how many of its entries other joins' rollbacks have lost. */
  datatype Join = Join(children: seq<Child>, phase: Phase, zeroBy: seq<Party>, lost: nat)

  /** The table, the joins by slot, and for each child that a controller is signaling the number of
      parents counted down so far. */
  datatype State = State(t: seq<HwFence>, joins: map<nat, Join>, draining: map<nat, nat>)

  datatype Step =
    | CreateFence(slot: nat, key: Key, client: u32)
    | DestroyFence(slot: nat)
    | Begin(h: nat, key: Key, client: u32, children: seq<Child>)
    | Visit(h: nat, c: Child)
    | FinishVisits(h: nat)
    | DriverSignals(h: nat)
    | Abort(h: nat)
    | RollbackOne(h: nat, c: Child)
    | FinishRollback(h: nat)
    | SignalChild(slot: nat)
    | CountDown(slot: nat)
    | FinishSignal(slot: nat)
    | Retire(h: nat)

  // ----- Parent lists -----

  function Live(f: HwFence): seq<u64> {
    if f.parentsCnt <= MAX_JOIN_PARENTS then f.parents[..f.parentsCnt] else f.parents
  }

  /** The parents that a fence has yet to count down. */
  function Owed(t: seq<HwFence>, draining: map<nat, nat>, c: nat): seq<u64>
    requires c < |t|
  {
    var live := Live(t[c]);
    if c in draining then (if draining[c] <= |live| then live[draining[c]..] else [])
    else if t[c].valid && !t[c].signaled then live
    else []
  }

  function Times(l: seq<u64>, h: u64): nat {
    multiset(l)[h]
  }

  /** How many times a join is owed to by the first `n` slots. */
  function OwedTo(t: seq<HwFence>, draining: map<nat, nat>, h: u64, n: nat): nat
    requires n <= |t|
    decreases n
  {
    if n == 0 then 0 else OwedTo(t, draining, h, n - 1) + Times(Owed(t, draining, n - 1), h)
  }

  /** The join's entries are the last of the list. */
  predicate AtTail(l: seq<u64>, h: u64) {
    forall a, b | 0 <= a < b < |l| && l[a] == h :: l[b] == h
  }

  // ----- Steps -----

  predicate IsChild(t: seq<HwFence>, c: nat) {
    c < |t| && t[c].valid && t[c].allocator != JOIN_CLIENT_ID
  }

  /** The child's fence is still in its slot. */
  predicate StillThere(t: seq<HwFence>, c: Child) {
    c.slot < |t| && t[c.slot].valid && t[c.slot].key == c.key
  }

  /** Arrays hold references to their children, so no new fence gets the key of one. */
  predicate FreshKey(s: State, key: Key) {
    forall h, q | h in s.joins && 0 <= q < |s.joins[h].children| :: s.joins[h].children[q].key != key
  }

  predicate AbsentKey(t: seq<HwFence>, key: Key) {
    key != FREE_KEY && forall i | 0 <= i < |t| && t[i].valid :: t[i].key != key
  }

  /** The child that a registering driver visits next. */
  predicate VisitsNext(s: State, h: nat, c: Child) {
    && h in s.joins && s.joins[h].phase.Visiting? && s.joins[h].phase.i < |s.joins[h].children|
    && c == s.joins[h].children[s.joins[h].phase.i]
  }

  /** The child that a driver rolls back next. */
  predicate RollsBackNext(s: State, h: nat, c: Child) {
    && h in s.joins && s.joins[h].phase.RollingBack? && 0 < s.joins[h].phase.left <= |s.joins[h].children|
    && c == s.joins[h].children[s.joins[h].phase.left - 1]
  }

  predicate CanRollBack(s: State, h: nat, c: Child) {
    RollsBackNext(s, h, c) && h < |s.t| && h < U64_LIMIT && c.slot !in s.draining
  }

  predicate Enabled(s: State, a: Step) {
    match a
    case CreateFence(c, key, client) =>
      c < |s.t| && !s.t[c].valid && client != JOIN_CLIENT_ID && FreshKey(s, key) && AbsentKey(s.t, key)
    case DestroyFence(c) =>
      // the proviso: no child is destroyed while it is registered and unsignaled
      IsChild(s.t, c) && c !in s.draining && (s.t[c].signaled || s.t[c].parentsCnt == 0)
    case Begin(h, key, client, children) =>
      && h < |s.t| && !s.t[h].valid && 0 < |children| < U32_LIMIT && FreshKey(s, key) && AbsentKey(s.t, key)
      && forall c | c in children :: StillThere(s.t, c) && IsChild(s.t, c.slot) && c.key != key
    case Visit(h, c) =>
      && VisitsNext(s, h, c) && h < |s.t| && StillThere(s.t, c) && c.slot !in s.draining
      && (s.t[c.slot].signaled || s.t[c.slot].parentsCnt < MAX_JOIN_PARENTS - 1)
    case FinishVisits(h) => h in s.joins && s.joins[h].phase == Visiting(|s.joins[h].children|)
    case DriverSignals(h) => h in s.joins && s.joins[h].phase.Signaling? && h < |s.t|
    case Abort(h) => h in s.joins && s.joins[h].phase.Visiting? && s.joins[h].phase.i < |s.joins[h].children|
    case RollbackOne(h, c) => CanRollBack(s, h, c)
    case FinishRollback(h) => h in s.joins && s.joins[h].phase == RollingBack(0) && h < |s.t|
    case SignalChild(c) => IsChild(s.t, c) && !s.t[c].signaled && c !in s.draining
    case CountDown(c) => c in s.draining && c < |s.t| && s.draining[c] < |Live(s.t[c])|
    case FinishSignal(c) => c in s.draining && c < |s.t| && s.draining[c] == |Live(s.t[c])|
    case Retire(h) => h in s.joins && s.joins[h].phase.Registered? && h < |s.t| && s.t[h].pendingChildCnt == 0
  }

  function ReservedJoin(key: Key, client: u32, n: u32): HwFence {
    WithWaiter(Reserved(key, JOIN_CLIENT_ID, n), client)
  }

  /** A join's count goes down by one, at the hands of `who`. */
  function CountedDown(s: State, h: nat, who: Party): State {
    if h >= |s.t| then s
    else
      var pending := WrapU32(s.t[h].pendingChildCnt - 1);
      var s' := s.(t := s.t[h := s.t[h].(pendingChildCnt := pending)]);
      if pending == 0 && h in s.joins
      then s'.(joins := s.joins[h := s.joins[h].(zeroBy := s.joins[h].zeroBy + [who])]) else s'
  }

  function WithPhase(s: State, h: nat, p: Phase): State
    requires h in s.joins
  {
    s.(joins := s.joins[h := s.joins[h].(phase := p)])
  }

  /** How many entries of join `g` a step has taken from fence `c` without counting them down. */
  function LostAt(s: State, s': State, c: nat, g: nat): nat
    requires |s'.t| == |s.t|
  {
    if c < |s.t| && g < U64_LIMIT && Times(Owed(s.t, s.draining, c), g) > Times(Owed(s'.t, s'.draining, c), g)
    then Times(Owed(s.t, s.draining, c), g) - Times(Owed(s'.t, s'.draining, c), g) else 0
  }

  /** A rollback of `h` writes down what it takes from others. */
  function Charged(s: State, s': State, h: nat, c: nat): (r: State)
    requires |s'.t| == |s.t|
    ensures r == s'.(joins := r.joins) && r.joins.Keys == s'.joins.Keys
    ensures h in s'.joins ==> r.joins[h] == s'.joins[h]
  {
    s'.(joins := map g | g in s'.joins ::
      if g == h then s'.joins[g] else s'.joins[g].(lost := s'.joins[g].lost + LostAt(s, s', c, g)))
  }

  function RolledBack(s: State, h: nat, c: Child): (s': State)
    requires CanRollBack(s, h, c)
    ensures |s'.t| == |s.t|
  {
    var s' := if StillThere(s.t, c)
              then s.(t := s.t[c.slot := DropParents(s.t[c.slot], h, s.t[c.slot].parentsCnt)]) else s;
    WithPhase(Charged(s, s', h, c.slot), h, RollingBack(s.joins[h].phase.left - 1))
  }

  function Do(s: State, a: Step): (s': State)
    requires Enabled(s, a) && |s.t| < U32_LIMIT
    ensures |s'.t| == |s.t|
  {
    match a
    case CreateFence(c, key, client) => s.(t := s.t[c := Reserved(key, client, 0)])
    case DestroyFence(c) => s.(t := s.t[c := CLEAN_FENCE])
    case Begin(h, key, client, children) =>
      s.(t := s.t[h := ReservedJoin(key, client, |children|)],
      joins := s.joins[h := Join(children, Visiting(0), [], 0)])
    case Visit(h, c) =>
      var s' := if s.t[c.slot].signaled then CountedDown(s, h, Driver)
                else s.(t := s.t[c.slot := AppendParent(s.t[c.slot], h)]);
      WithPhase(s', h, Visiting(s.joins[h].phase.i + 1))
    case FinishVisits(h) =>
      WithPhase(s, h, if Driver in s.joins[h].zeroBy then Signaling else Registered)
    case DriverSignals(h) => s.(t := s.t[h := CLEAN_FENCE], joins := s.joins - {h})
    case Abort(h) => WithPhase(s, h, RollingBack(s.joins[h].phase.i + 1))
    case RollbackOne(h, c) => RolledBack(s, h, c)
    case FinishRollback(h) => s.(t := s.t[h := CLEAN_FENCE], joins := s.joins - {h})
    case SignalChild(c) => s.(t := s.t[c := s.t[c].(signaled := true)], draining := s.draining[c := 0])
    case CountDown(c) =>
      var j := s.draining[c];
      CountedDown(s, Live(s.t[c])[j], Controller).(draining := s.draining[c := j + 1])
    case FinishSignal(c) => s.(draining := s.draining - {c})
    case Retire(h) => s.(t := s.t[h := CLEAN_FENCE], joins := s.joins - {h})
  }

  // ----- The invariant -----

  /** How many children a join's driver has visited, or has yet to roll back. */
  function Seen(j: Join): nat {
    match j.phase
    case Visiting(i) => i
    case Signaling => |j.children|
    case Registered => |j.children|
    case RollingBack(left) => left
  }

  function OwedToAll(s: State, h: u64): nat {
    OwedTo(s.t, s.draining, h, |s.t|)
  }

  /** A fence that owes to a join is one of the children that the join's driver has seen. */
  ghost predicate OwesAsChild(s: State, h: nat, c: nat)
    requires h in s.joins && c < |s.t|
  {
    h in Owed(s.t, s.draining, c) ==>
      exists q :: 0 <= q < Seen(s.joins[h]) && q < |s.joins[h].children| && s.joins[h].children[q] == Child(c, s.t[c].key)
  }

  /** A child's fence, while it is there, is an individual fence; once visited it is signaled or
      lists the join, unless the join has lost an entry. */
  ghost predicate ChildInv(s: State, h: nat, q: nat)
    requires h in s.joins && q < |s.joins[h].children|
  {
    var j, c := s.joins[h], s.joins[h].children[q];
    StillThere(s.t, c) ==>
      && IsChild(s.t, c.slot)
      && (q < Seen(j) && !j.phase.RollingBack? ==>
            s.t[c.slot].signaled || h in Live(s.t[c.slot]) || j.lost > 0)
  }

  ghost predicate JoinInv(s: State, h: nat)
    requires h in s.joins
  {
    var j := s.joins[h];
    && h < |s.t| < U32_LIMIT && h !in s.draining
    && s.t[h].valid && s.t[h].allocator == JOIN_CLIENT_ID && s.t[h].parentsCnt == 0
    && 0 < |j.children| < U32_LIMIT && Seen(j) <= |j.children|
    && (if j.phase.RollingBack? then s.t[h].pendingChildCnt >= 1 + OwedToAll(s, h)
        else s.t[h].pendingChildCnt == |j.children| - Seen(j) + OwedToAll(s, h) + j.lost)
    && |j.zeroBy| == (if s.t[h].pendingChildCnt == 0 then 1 else 0)
    && (j.phase.Signaling? ==> j.zeroBy == [Driver])
    && (j.phase.Registered? ==> Driver !in j.zeroBy)
    && (forall c | 0 <= c < |s.t| :: OwesAsChild(s, h, c))
    && (forall q: nat | q < |j.children| :: ChildInv(s, h, q))
  }

  ghost predicate SlotInv(s: State, c: nat)
    requires c < |s.t|
  {
    && s.t[c].parentsCnt <= MAX_JOIN_PARENTS - 1
    && (c in s.draining ==> IsChild(s.t, c) && s.t[c].signaled && s.draining[c] <= s.t[c].parentsCnt)
    && (forall h | h in Owed(s.t, s.draining, c) :: h in s.joins || h == INVALID_PARENT)
    && (s.t[c].parentsCnt == 2 ==> s.t[c].parents[1] != INVALID_PARENT)
  }

  ghost predicate Inv(s: State) {
    TableInv(s.t) && LinksInv(s)
  }

  /** Joins and the fences that list them agree. */
  ghost predicate LinksInv(s: State) {
    && |s.t| < U32_LIMIT
    && (forall c | c in s.draining :: c < |s.t|)
    && (forall c: nat | c < |s.t| :: SlotInv(s, c))
    && (forall h: nat | h in s.joins :: JoinInv(s, h))
  }

  // ----- Counting what is owed -----

  /** When one slot's debts change, a join's total changes by as much. */
  lemma {:induction false} OwedUpdate(t: seq<HwFence>, d: map<nat, nat>, t': seq<HwFence>, d': map<nat, nat>, c: nat, h: u64, n: nat)
    requires |t'| == |t| && n <= |t| && c < |t|
    requires forall i: nat | i < |t| && i != c :: Owed(t', d', i) == Owed(t, d, i)
    ensures OwedTo(t', d', h, n) ==
            OwedTo(t, d, h, n) + if c < n then Times(Owed(t', d', c), h) - Times(Owed(t, d, c), h) else 0
    decreases n
  {
    hide Owed, Times;
    if n > 0 {
      OwedUpdate(t, d, t', d', c, h, n - 1);
    }
  }

  lemma {:induction false} OwedSame(t: seq<HwFence>, d: map<nat, nat>, t': seq<HwFence>, d': map<nat, nat>, h: u64, n: nat)
    requires |t'| == |t| && n <= |t|
    requires forall i: nat | i < |t| :: Owed(t', d', i) == Owed(t, d, i)
    ensures OwedTo(t', d', h, n) == OwedTo(t, d, h, n)
    decreases n
  {
    hide Owed, Times;
    if n > 0 {
      OwedSame(t, d, t', d', h, n - 1);
    }
  }

  lemma TimesIn(l: seq<u64>, h: u64)
    ensures Times(l, h) == 0 <==> h !in l
  {
  }

  lemma {:induction false} OwedToZeroIff(t: seq<HwFence>, d: map<nat, nat>, h: u64, n: nat)
    requires n <= |t|
    ensures OwedTo(t, d, h, n) == 0 <==> forall c: nat | c < n :: h !in Owed(t, d, c)
    decreases n
  {
    hide Owed, Times;
    if n > 0 {
      TimesIn(Owed(t, d, n - 1), h);
      OwedToZeroIff(t, d, h, n - 1);
    }
  }

  // ----- Every step keeps the invariant -----

  /** Steps that change nothing a join depends on: its own slot, its record, and the debts. */
  lemma JoinKept(s: State, s': State, h: nat)
    requires h in s.joins && h in s'.joins && s'.joins[h] == s.joins[h] && JoinInv(s, h)
    requires |s'.t| == |s.t| && s'.t[h] == s.t[h] && h !in s'.draining
    requires OwedToAll(s', h) == OwedToAll(s, h)
    requires forall c: nat | c < |s.t| && h in Owed(s'.t, s'.draining, c) ::
               h in Owed(s.t, s.draining, c) && s'.t[c].key == s.t[c].key
    requires forall q: nat | q < |s.joins[h].children| && StillThere(s'.t, s.joins[h].children[q]) ::
               ChildKept(s, s', h, s.joins[h].children[q].slot)
    ensures JoinInv(s', h)
  {
    forall c | 0 <= c < |s'.t| ensures OwesAsChild(s', h, c) {
      assert OwesAsChild(s, h, c);
    }
    forall q: nat | q < |s.joins[h].children| ensures ChildInv(s', h, q) {
      assert ChildInv(s, h, q);
    }
  }

  ghost predicate ChildKept(s: State, s': State, h: nat, c: nat) {
    && c < |s.t| && c < |s'.t|
    && s.t[c].valid && s.t[c].key == s'.t[c].key && s'.t[c].allocator == s.t[c].allocator
    && (s.t[c].signaled ==> s'.t[c].signaled)
    && (h in Live(s.t[c]) ==> s'.t[c].signaled || h in Live(s'.t[c]))
  }

  /** A slot without debts that takes or loses an individual fence. */
  lemma FenceSlotKeepsInv(s: State, s': State, c: nat)
    requires LinksInv(s) && c < |s.t| && c !in s.draining && c !in s.joins
    requires SameDebts(s, s') && s'.joins == s.joins && s'.draining == s.draining
    requires s'.t == s.t[c := s'.t[c]] && s'.t[c].parentsCnt == 0
    requires Owed(s.t, s.draining, c) == []
    requires s'.t[c].valid ==> FreshKey(s, s'.t[c].key)
    ensures LinksInv(s')
  {
    hide Owed, Times, OwedTo, Live;
    SameTotals(s, s');
    forall h: nat | h in s'.joins ensures JoinInv(s', h) {
      assert JoinInv(s, h);
      forall q: nat | q < |s.joins[h].children| && StillThere(s'.t, s.joins[h].children[q])
        ensures ChildKept(s, s', h, s.joins[h].children[q].slot)
      {
        assert ChildInv(s, h, q);
      }
      JoinKept(s, s', h);
    }
    forall i: nat | i < |s'.t| ensures SlotInv(s', i) {
      assert SlotInv(s, i);
      SlotKept(s, s', i);
    }
  }

  lemma CreateFenceKeepsInv(s: State, c: nat, key: Key, client: u32)
    requires LinksInv(s) && Enabled(s, CreateFence(c, key, client))
    ensures LinksInv(Do(s, CreateFence(c, key, client)))
  {
    var s' := Do(s, CreateFence(c, key, client));
    assert SlotInv(s, c);
    assert SameDebts(s, s');
    FenceSlotKeepsInv(s, s', c);
  }

  lemma DestroyFenceKeepsInv(s: State, c: nat)
    requires LinksInv(s) && Enabled(s, DestroyFence(c))
    ensures LinksInv(Do(s, DestroyFence(c)))
  {
    var s' := Do(s, DestroyFence(c));
    assert SlotInv(s, c);
    assert SameDebts(s, s');
    FenceSlotKeepsInv(s, s', c);
  }

  lemma BeginKeepsInv(s: State, h: nat, key: Key, client: u32, children: seq<Child>)
    requires LinksInv(s) && Enabled(s, Begin(h, key, client, children))
    ensures LinksInv(Do(s, Begin(h, key, client, children)))
  {
    hide Owed, Times, OwedTo;
    var s' := Do(s, Begin(h, key, client, children));
    assert SlotInv(s, h);
    BeginOwesNothing(s, h, key, client, children);
    forall g: nat | g in s'.joins ensures JoinInv(s', g) {
      if g != h {
        assert JoinInv(s, g);
        JoinKept(s, s', g);
      } else {
        NewJoin(s', h, key, client, children);
      }
    }
    forall i: nat | i < |s'.t| ensures SlotInv(s', i) {
      assert SlotInv(s, i);
    }
  }

  lemma NoJoinInFreeSlot(s: State, h: nat)
    requires LinksInv(s) && h < |s.t| && !s.t[h].valid
    ensures h !in s.joins
  {
  }

  lemma BeginOwesNothing(s: State, h: nat, key: Key, client: u32, children: seq<Child>)
    requires LinksInv(s) && Enabled(s, Begin(h, key, client, children))
    ensures var s' := Do(s, Begin(h, key, client, children));
            && h !in s.joins
            && (forall i: nat | i < |s.t| :: Owed(s'.t, s'.draining, i) == Owed(s.t, s.draining, i))
            && (forall g: u64 :: OwedToAll(s', g) == OwedToAll(s, g))
            && OwedToAll(s', h) == 0
            && Owed(s.t, s.draining, h) == []
  {
    var s' := Do(s, Begin(h, key, client, children));
    assert SlotInv(s, h);
    NoJoinInFreeSlot(s, h);
    assert h != INVALID_PARENT;
    forall c: nat | c < |s.t| ensures h !in Owed(s.t, s.draining, c) {
      assert SlotInv(s, c);
    }
    OwedToZeroIff(s.t, s.draining, h, |s.t|);
    forall g: u64 ensures OwedToAll(s', g) == OwedToAll(s, g) {
      OwedSame(s.t, s.draining, s'.t, s'.draining, g, |s.t|);
    }
  }

  lemma NewJoin(s: State, h: nat, key: Key, client: u32, children: seq<Child>)
    requires h < |s.t| < U32_LIMIT && h !in s.draining && 0 < |children| < U32_LIMIT
    requires s.t[h] == ReservedJoin(key, client, |children|)
    requires h in s.joins && s.joins[h] == Join(children, Visiting(0), [], 0) && OwedToAll(s, h) == 0
    requires forall c | c in children && StillThere(s.t, c) :: IsChild(s.t, c.slot)
    ensures JoinInv(s, h)
  {
    OwedToZeroIff(s.t, s.draining, h, |s.t|);
    forall q: nat | q < |children| ensures ChildInv(s, h, q) {
      assert children[q] in children;
    }
  }

  /** A join whose count and record move on together with what is owed to it. */
  lemma JoinMoves(s: State, s': State, h: nat)
    requires h in s.joins && h in s'.joins && JoinInv(s, h)
    requires s'.joins[h].children == s.joins[h].children && s'.joins[h].lost == s.joins[h].lost
    requires Seen(s.joins[h]) <= Seen(s'.joins[h]) <= |s.joins[h].children|
    requires !s.joins[h].phase.RollingBack? && !s'.joins[h].phase.RollingBack?
    requires |s'.t| == |s.t| && h !in s'.draining
    requires s'.t[h] == s.t[h].(pendingChildCnt := s'.t[h].pendingChildCnt)
    requires s'.t[h].pendingChildCnt - s.t[h].pendingChildCnt
             == Seen(s.joins[h]) - Seen(s'.joins[h]) + OwedToAll(s', h) - OwedToAll(s, h)
    requires |s'.joins[h].zeroBy| == if s'.t[h].pendingChildCnt == 0 then 1 else 0
    requires s'.joins[h].phase.Signaling? ==> s'.joins[h].zeroBy == [Driver]
    requires s'.joins[h].phase.Registered? ==> Driver !in s'.joins[h].zeroBy
    requires forall c: nat | c < |s.t| && h in Owed(s'.t, s'.draining, c) ::
               || (h in Owed(s.t, s.draining, c) && s'.t[c].key == s.t[c].key)
               || (Seen(s.joins[h]) < Seen(s'.joins[h])
                   && s.joins[h].children[Seen(s.joins[h])] == Child(c, s'.t[c].key))
    requires forall q: nat | q < |s.joins[h].children| && StillThere(s'.t, s.joins[h].children[q]) ::
               ChildKept(s, s', h, s.joins[h].children[q].slot)
    requires forall q: nat | Seen(s.joins[h]) <= q < Seen(s'.joins[h]) :: ChildInv(s', h, q)
    ensures JoinInv(s', h)
  {
    hide Owed, Times, OwedTo;
    forall c | 0 <= c < |s'.t| ensures OwesAsChild(s', h, c) {
      assert OwesAsChild(s, h, c);
    }
    forall q: nat | q < |s.joins[h].children| ensures ChildInv(s', h, q) {
      assert ChildInv(s, h, q);
    }
  }

  ghost predicate SameDebts(s: State, s': State) {
    |s'.t| == |s.t| && forall i: nat | i < |s.t| :: Owed(s'.t, s'.draining, i) == Owed(s.t, s.draining, i)
  }

  lemma SameTotals(s: State, s': State)
    requires SameDebts(s, s')
    ensures forall g: u64 :: OwedToAll(s', g) == OwedToAll(s, g)
  {
    hide Owed, Times;
    forall g: u64 ensures OwedToAll(s', g) == OwedToAll(s, g) {
      OwedSame(s.t, s.draining, s'.t, s'.draining, g, |s.t|);
    }
  }

  /** Nothing about a slot matters to the others but its fence's identity and debts. */
  lemma SlotKept(s: State, s': State, i: nat)
    requires i < |s.t| && |s'.t| == |s.t| && SlotInv(s, i)
    requires s'.t[i].parentsCnt <= MAX_JOIN_PARENTS - 1
    requires i in s'.draining ==> IsChild(s'.t, i) && s'.t[i].signaled && s'.draining[i] <= s'.t[i].parentsCnt
    requires forall h | h in Owed(s'.t, s'.draining, i) :: h in Owed(s.t, s.draining, i) && (h in s.joins ==> h in s'.joins)
    requires s'.t[i].parentsCnt == 2 ==> s'.t[i].parents[1] != INVALID_PARENT
    ensures SlotInv(s', i)
  {
    hide Owed;
  }

  /** Steps of a join's driver that change only the join's own count and record. */
  lemma OwnStepKeepsInv(s: State, s': State, h: nat, p: u32, j: Join)
    requires LinksInv(s) && h in s.joins && h < |s.t|
    requires s' == State(s.t[h := s.t[h].(pendingChildCnt := p)], s.joins[h := j], s.draining)
    requires JoinInv(s, h) && SameDebts(s, s') && JoinInv(s', h)
    ensures LinksInv(s')
  {
    hide Owed, Times, OwedTo;
    SameTotals(s, s');
    forall g: nat | g in s'.joins ensures JoinInv(s', g) {
      if g != h {
        assert JoinInv(s, g);
        JoinKept(s, s', g);
      }
    }
    forall i: nat | i < |s'.t| ensures SlotInv(s', i) {
      assert SlotInv(s, i);
      SlotKept(s, s', i);
    }
  }

  lemma OwnStepSameDebts(s: State, s': State, h: nat, p: u32, j: Join)
    requires h in s.joins && JoinInv(s, h)
    requires s' == State(s.t[h := s.t[h].(pendingChildCnt := p)], s.joins[h := j], s.draining)
    ensures SameDebts(s, s')
  {
  }

  lemma VisitSignaledKeepsInv(s: State, h: nat, c: Child)
    requires LinksInv(s) && Enabled(s, Visit(h, c)) && s.t[c.slot].signaled
    ensures LinksInv(Do(s, Visit(h, c)))
  {
    hide Owed, Times, OwedTo;
    var s' := Do(s, Visit(h, c));
    assert JoinInv(s, h);
    assert ChildInv(s, h, s.joins[h].phase.i);
    var p := WrapU32(s.t[h].pendingChildCnt - 1);
    OwnStepSameDebts(s, s', h, p, s'.joins[h]);
    SameTotals(s, s');
    JoinMoves(s, s', h);
    OwnStepKeepsInv(s, s', h, p, s'.joins[h]);
  }

  lemma FinishVisitsKeepsInv(s: State, h: nat)
    requires LinksInv(s) && Enabled(s, FinishVisits(h))
    ensures LinksInv(Do(s, FinishVisits(h)))
  {
    hide Owed, Times, OwedTo, Live;
    var s' := Do(s, FinishVisits(h));
    assert JoinInv(s, h);
    var p := s.t[h].pendingChildCnt;
    assert s'.t == s.t[h := s.t[h].(pendingChildCnt := p)];
    OwnStepSameDebts(s, s', h, p, s'.joins[h]);
    SameTotals(s, s');
    JoinMoves(s, s', h);
    OwnStepKeepsInv(s, s', h, p, s'.joins[h]);
  }

  lemma AbortKeepsInv(s: State, h: nat)
    requires LinksInv(s) && Enabled(s, Abort(h))
    ensures LinksInv(Do(s, Abort(h)))
  {
    hide Owed, Times, OwedTo, Live;
    var s' := Do(s, Abort(h));
    assert JoinInv(s, h);
    var p := s.t[h].pendingChildCnt;
    assert s'.t == s.t[h := s.t[h].(pendingChildCnt := p)];
    OwnStepSameDebts(s, s', h, p, s'.joins[h]);
    SameTotals(s, s');
    forall c | 0 <= c < |s'.t| ensures OwesAsChild(s', h, c) {
      assert OwesAsChild(s, h, c);
    }
    forall q: nat | q < |s.joins[h].children| ensures ChildInv(s', h, q) {
      assert ChildInv(s, h, q);
    }
    OwnStepKeepsInv(s, s', h, p, s'.joins[h]);
  }

  // ----- Steps that change a child's parent list -----

  /** One slot's fence keeps its identity and its debts to all joins but one. */
  ghost predicate DebtsChangeAt(s: State, s': State, c: nat, h: u64) {
    && |s'.t| == |s.t| && c < |s.t|
    && (forall i: nat | i < |s.t| && i != c :: Owed(s'.t, s'.draining, i) == Owed(s.t, s.draining, i))
    && (forall g: u64 | g != h ::
          Times(Owed(s'.t, s'.draining, c), g) == Times(Owed(s.t, s.draining, c), g))
  }

  lemma TotalsChangeAt(s: State, s': State, c: nat, h: u64)
    requires DebtsChangeAt(s, s', c, h)
    ensures forall g: u64 | g != h :: OwedToAll(s', g) == OwedToAll(s, g)
    ensures OwedToAll(s', h) == OwedToAll(s, h) + Times(Owed(s'.t, s'.draining, c), h) - Times(Owed(s.t, s.draining, c), h)
    ensures forall i: nat, g: u64 | i < |s.t| && g != h ::
              g in Owed(s'.t, s'.draining, i) <==> g in Owed(s.t, s.draining, i)
  {
    hide Owed, Times;
    forall g: u64 | g != h ensures OwedToAll(s', g) == OwedToAll(s, g) {
      OwedUpdate(s.t, s.draining, s'.t, s'.draining, c, g, |s.t|);
    }
    OwedUpdate(s.t, s.draining, s'.t, s'.draining, c, h, |s.t|);
    forall i: nat, g: u64 | i < |s.t| && g != h
      ensures g in Owed(s'.t, s'.draining, i) <==> g in Owed(s.t, s.draining, i)
    {
      TimesIn(Owed(s.t, s.draining, i), g);
      TimesIn(Owed(s'.t, s'.draining, i), g);
    }
  }

  /** A driver's step that changes one child's parent list and the join's record. */
  lemma ChildStepKeepsInv(s: State, s': State, h: nat, c: nat, f: HwFence, j: Join)
    requires LinksInv(s) && h in s.joins && h < |s.t| && c < |s.t| && c != h && !(c in s.joins)
    requires s' == State(s.t[c := f], s.joins[h := j], s.draining)
    requires f == s.t[c].(parents := f.parents, parentsCnt := f.parentsCnt) && f.parentsCnt <= MAX_JOIN_PARENTS - 1
    requires f.parentsCnt == 2 ==> f.parents[1] != INVALID_PARENT
    requires c !in s.draining
    requires f.signaled || forall g: u64 | g != h && g in Live(s.t[c]) :: g in Live(f)
    requires DebtsChangeAt(s, s', c, h) && JoinInv(s', h)
    ensures LinksInv(s')
  {
    hide Owed, Times, OwedTo, Live;
    TotalsChangeAt(s, s', c, h);
    forall g: nat | g in s'.joins ensures JoinInv(s', g) {
      if g != h {
        assert JoinInv(s, g);
        JoinKept(s, s', g);
      }
    }
    forall i: nat | i < |s'.t| ensures SlotInv(s', i) {
      assert SlotInv(s, i);
    }
  }

  lemma AppendOwes(f: HwFence, h: u64)
    requires f.parentsCnt < MAX_JOIN_PARENTS
    ensures Live(AppendParent(f, h)) == Live(f) + [h]
    ensures forall g: u64 :: Times(Live(f) + [h], g) == Times(Live(f), g) + if g == h then 1 else 0
  {
    assert multiset(Live(f) + [h]) == multiset(Live(f)) + multiset{h};
  }

  lemma VisitUnsignaledKeepsInv(s: State, h: nat, c: Child)
    requires LinksInv(s) && Enabled(s, Visit(h, c)) && !s.t[c.slot].signaled
    ensures LinksInv(Do(s, Visit(h, c)))
  {
    var s' := Do(s, Visit(h, c));
    var j, f := s'.joins[h], AppendParent(s.t[c.slot], h);
    assert JoinInv(s, h);
    assert ChildInv(s, h, s.joins[h].phase.i);
    AppendOwes(s.t[c.slot], h);
    VisitUnsignaledDebts(s, h, c);
    TotalsChangeAt(s, s', c.slot, h);
    ChildIsNoJoin(s, c.slot);
    VisitUnsignaledOwn(s, s', h, c);
    ChildStepKeepsInv(s, s', h, c.slot, f, j);
  }

  lemma ChildIsNoJoin(s: State, c: nat)
    requires LinksInv(s) && IsChild(s.t, c)
    ensures c !in s.joins
  {
  }

  lemma VisitUnsignaledDebts(s: State, h: nat, c: Child)
    requires LinksInv(s) && Enabled(s, Visit(h, c)) && !s.t[c.slot].signaled
    ensures var s' := Do(s, Visit(h, c));
            && DebtsChangeAt(s, s', c.slot, h)
            && Owed(s'.t, s'.draining, c.slot) == Owed(s.t, s.draining, c.slot) + [h]
            && Times(Owed(s'.t, s'.draining, c.slot), h) == Times(Owed(s.t, s.draining, c.slot), h) + 1
  {
    AppendOwes(s.t[c.slot], h);
  }

  lemma VisitUnsignaledOwn(s: State, s': State, h: nat, c: Child)
    requires LinksInv(s) && Enabled(s, Visit(h, c)) && !s.t[c.slot].signaled && s' == Do(s, Visit(h, c))
    requires c.slot != h && IsChild(s.t, c.slot)
    requires OwedToAll(s', h) == OwedToAll(s, h) + 1
    requires DebtsChangeAt(s, s', c.slot, h)
    requires Live(AppendParent(s.t[c.slot], h)) == Live(s.t[c.slot]) + [h]
    ensures JoinInv(s', h)
  {
    hide Owed, Times, OwedTo, Live;
    assert JoinInv(s, h);
    JoinMoves(s, s', h);
  }

  // ----- Rolling back under interference -----

  /** One turn of the rollback loop. */
  function DropOne(f: HwFence, h: u64, p: nat): HwFence
    requires p < MAX_JOIN_PARENTS
  {
    if f.parents[p] == h
    then f.(parents := f.parents[p := INVALID_PARENT], parentsCnt := if f.parentsCnt > 0 then f.parentsCnt - 1 else 0)
    else f
  }

  lemma {:induction false} DropShape(f: HwFence, h: u64, j: nat)
    ensures var g := DropParents(f, h, j);
            g == f.(parents := g.parents, parentsCnt := g.parentsCnt) && g.parentsCnt <= f.parentsCnt
    decreases j
  {
    if j > 0 {
      var p := if j > MAX_JOIN_PARENTS then MAX_JOIN_PARENTS else j;
      DropShape(DropOne(f, h, p - 1), h, p - 1);
    }
  }

  /** What is left of a list of two. */
  lemma DropOfTwo(f: HwFence, h: u64)
    requires f.parentsCnt == 2 && h != INVALID_PARENT && f.parents[1] != INVALID_PARENT
    ensures Live(f) == [f.parents[0], f.parents[1]]
    ensures var f', a, b := DropParents(f, h, 2), f.parents[0], f.parents[1];
            && Live(f') == (if b == h then (if a == h then [] else [a]) else if a == h then [INVALID_PARENT] else [a, b])
            && (f'.parentsCnt == 2 ==> f' == f)
  {
    var a, b := f.parents[0], f.parents[1];
    var g1 := DropOne(f, h, 1);
    var g := DropOne(g1, h, 0);
    assert DropParents(f, h, 2) == DropParents(g1, h, 1) == g;
    assert g.parentsCnt == 0 ==> Live(g) == [];
    assert g.parentsCnt == 1 ==> Live(g) == [g.parents[0]];
    assert g.parentsCnt == 2 ==> Live(g) == [g.parents[0], g.parents[1]];
  }

  lemma DropOfOne(f: HwFence, h: u64)
    requires f.parentsCnt == 1 && h != INVALID_PARENT
    ensures Live(f) == [f.parents[0]]
    ensures var f' := DropParents(f, h, 1); Live(f') == (if f.parents[0] == h then [] else [f.parents[0]]) && f'.parentsCnt <= 1
  {
    assert DropParents(f, h, 1) == DropOne(f, h, 0);
  }

  /** Whether a rollback takes away an entry that is not the join's own: the list is not moved together,
      so the entry after the join's falls off its end. */
  predicate LosesLast(l: seq<u64>, h: u64, g: u64) {
    !AtTail(l, h) && |l| == 2 && g == l[1]
  }

  /** Rolling a join back takes its own entries out of a list, and if they are not the last ones, the
      last entry with them. */
  lemma DropTakes(f: HwFence, h: u64)
    requires f.parentsCnt <= MAX_JOIN_PARENTS - 1 && h != INVALID_PARENT
    requires f.parentsCnt == 2 ==> f.parents[1] != INVALID_PARENT
    ensures var f' := DropParents(f, h, f.parentsCnt);
            && h !in Live(f')
            && (forall g: u64 | g in Live(f') :: g in Live(f) || g == INVALID_PARENT)
            && (f'.parentsCnt == 2 ==> f'.parents[1] != INVALID_PARENT)
            && (!AtTail(Live(f), h) ==> |Live(f)| == 2 && Live(f)[1] != h && Live(f)[1] != INVALID_PARENT)
            && (forall g: u64 | g != h && g != INVALID_PARENT ::
                  Times(Live(f'), g) == Times(Live(f), g) - if LosesLast(Live(f), h, g) then 1 else 0)
  {
    hide DropParents;
    if f.parentsCnt == 1 {
      DropOfOne(f, h);
    } else if f.parentsCnt == 2 {
      DropOfTwo(f, h);
      assert AtTail([f.parents[0], f.parents[1]], h) <==> (f.parents[0] == h ==> f.parents[1] == h);
    } else {
      DropNone(f, h);
    }
  }

  lemma DropNone(f: HwFence, h: u64)
    ensures f.parentsCnt == 0 ==> Live(f) == [] && DropParents(f, h, 0) == f
  {
  }

  /** What rolling back one child does to its debts: others lose what is charged to them. */
  lemma RollbackDebts(s: State, h: nat, c: Child)
    requires LinksInv(s) && CanRollBack(s, h, c) && StillThere(s.t, c)
    ensures var f := DropParents(s.t[c.slot], h, s.t[c.slot].parentsCnt);
            var s' := RolledBack(s, h, c);
            var owed, owed' := Owed(s.t, s.draining, c.slot), Owed(s'.t, s'.draining, c.slot);
            && f == s.t[c.slot].(parents := f.parents, parentsCnt := f.parentsCnt) && f.parentsCnt <= MAX_JOIN_PARENTS - 1
            && (f.parentsCnt == 2 ==> f.parents[1] != INVALID_PARENT)
            && (forall i: nat | i < |s.t| && i != c.slot :: Owed(s'.t, s'.draining, i) == Owed(s.t, s.draining, i))
            && h !in owed'
            && (forall g: u64 | g in owed' :: g in owed || g == INVALID_PARENT)
            && (forall g: u64 | g != h && g != INVALID_PARENT :: Times(owed', g) + LostAt(s, s', c.slot, g) == Times(owed, g))
            && (f.signaled || (owed == Live(s.t[c.slot]) && owed' == Live(f)))
            && (forall g: u64 | g != h && g != INVALID_PARENT ::
                  LostAt(s, s', c.slot, g) == if !f.signaled && LosesLast(Live(s.t[c.slot]), h, g) then 1 else 0)
  {
    hide DropParents, Times;
    var f0 := s.t[c.slot];
    assert SlotInv(s, c.slot);
    DropShape(f0, h, f0.parentsCnt);
    JoinSlotsBounded(s);
    DropTakes(f0, h);
    if f0.signaled {
      assert Owed(s.t, s.draining, c.slot) == [];
    }
  }

  lemma JoinSlotsBounded(s: State)
    requires LinksInv(s)
    ensures forall h | h in s.joins :: h < U32_LIMIT
  {
  }

  lemma OwedDependsOn(s: State, s': State, c: nat)
    requires s'.t == s.t && s'.draining == s.draining
    ensures forall g :: LostAt(s, s', c, g) == 0
  {
  }

  lemma DropTakesLast(s: State, h: nat, c: Child)
    requires LinksInv(s) && CanRollBack(s, h, c) && StillThere(s.t, c)
    ensures var l := Live(s.t[c.slot]);
            !s.t[c.slot].signaled && !AtTail(l, h) ==> |l| == 2 && l[1] != h && l[1] in s.joins && l[1] != INVALID_PARENT
  {
    hide DropParents;
    assert SlotInv(s, c.slot);
    JoinSlotsBounded(s);
    DropTakes(s.t[c.slot], h);
    var l := Live(s.t[c.slot]);
    assert |l| == 2 ==> l[1] in l;
  }

  lemma TotalsDropAt(s: State, s': State, c: nat, g: u64)
    requires |s'.t| == |s.t| && c < |s.t|
    requires forall i: nat | i < |s.t| && i != c :: Owed(s'.t, s'.draining, i) == Owed(s.t, s.draining, i)
    ensures OwedToAll(s', g) == OwedToAll(s, g) + Times(Owed(s'.t, s'.draining, c), g) - Times(Owed(s.t, s.draining, c), g)
  {
    hide Owed, Times;
    OwedUpdate(s.t, s.draining, s'.t, s'.draining, c, g, |s.t|);
  }

  ghost predicate ChildKeptOrLost(s: State, s': State, h: nat, c: nat, lost: nat) {
    && c < |s.t| && c < |s'.t|
    && s.t[c].valid && s.t[c].key == s'.t[c].key && s'.t[c].allocator == s.t[c].allocator
    && s'.t[c].signaled == s.t[c].signaled
    && (h in Live(s.t[c]) ==> s.t[c].signaled || lost > 0 || h in Live(s'.t[c]))
  }

  /** A join that loses entries to another's rollback: they are not owed any more, but still counted. */
  lemma JoinLoses(s: State, s': State, g: nat, lost: nat)
    requires g in s.joins && g in s'.joins && JoinInv(s, g)
    requires s'.joins[g] == s.joins[g].(lost := s.joins[g].lost + lost)
    requires |s'.t| == |s.t| && s'.t[g] == s.t[g] && g !in s'.draining
    requires OwedToAll(s', g) + lost == OwedToAll(s, g)
    requires forall c: nat | c < |s.t| && g in Owed(s'.t, s'.draining, c) ::
               g in Owed(s.t, s.draining, c) && s'.t[c].key == s.t[c].key
    requires forall q: nat | q < |s.joins[g].children| && StillThere(s'.t, s.joins[g].children[q]) ::
               ChildKeptOrLost(s, s', g, s.joins[g].children[q].slot, lost)
    ensures JoinInv(s', g)
  {
    hide Owed, Times, OwedTo, Live;
    forall c | 0 <= c < |s'.t| ensures OwesAsChild(s', g, c) {
      assert OwesAsChild(s, g, c);
    }
    forall q: nat | q < |s.joins[g].children| ensures ChildInv(s', g, q) {
      assert ChildInv(s, g, q);
    }
  }

  /** The rollback step of a child that is still there. */
  ghost predicate RollsBack(s: State, s': State, h: nat, c: nat) {
    && h in s.joins && h < |s.t| < U32_LIMIT && c < |s.t| && |s'.t| == |s.t|
    && s'.t == s.t[c := s'.t[c]] && s'.draining == s.draining && s'.joins.Keys == s.joins.Keys
    && s'.t[c] == s.t[c].(parents := s'.t[c].parents, parentsCnt := s'.t[c].parentsCnt)
    && (forall g | g in s.joins && g != h :: s'.joins[g] == s.joins[g].(lost := s.joins[g].lost + LostAt(s, s', c, g)))
  }

  lemma RollbackStep(s: State, h: nat, c: Child)
    requires LinksInv(s) && CanRollBack(s, h, c) && StillThere(s.t, c)
    ensures RollsBack(s, RolledBack(s, h, c), h, c.slot)
    ensures RolledBack(s, h, c).t[c.slot] == DropParents(s.t[c.slot], h, s.t[c.slot].parentsCnt)
    ensures RolledBack(s, h, c).joins[h] == s.joins[h].(phase := RollingBack(s.joins[h].phase.left - 1))
  {
    hide DropParents, LinksInv, Owed;
    DropShape(s.t[c.slot], h, s.t[c.slot].parentsCnt);
    LinksBound(s);
    var s' := RolledBack(s, h, c);
    assert s'.t[c.slot] == DropParents(s.t[c.slot], h, s.t[c.slot].parentsCnt);
  }

  lemma LinksBound(s: State)
    requires LinksInv(s)
    ensures |s.t| < U32_LIMIT && forall h | h in s.joins :: JoinInv(s, h) && h < |s.t|
    ensures forall i: nat | i < |s.t| :: SlotInv(s, i)
  {
    hide JoinInv, SlotInv;
    forall h | h in s.joins ensures h < |s.t| {
      JoinSlot(s, h);
    }
  }

  /** A rollback loses an entry of another join exactly if the child is still there, unsignaled, and
      another driver has registered with it since. */
  lemma RollbackLosesIff(s: State, h: nat, c: Child)
    requires LinksInv(s) && CanRollBack(s, h, c)
    ensures (exists g | g in s.joins :: g != h && RolledBack(s, h, c).joins[g].lost > s.joins[g].lost)
            <==> StillThere(s.t, c) && !s.t[c.slot].signaled && !AtTail(Live(s.t[c.slot]), h)
  {
    if StillThere(s.t, c) {
      RollbackLosesThere(s, h, c);
    } else {
      hide LinksInv, Owed, Times;
      OwedDependsOn(s, RolledBack(s, h, c), c.slot);
    }
  }

  lemma RollbackLosesThere(s: State, h: nat, c: Child)
    requires LinksInv(s) && CanRollBack(s, h, c) && StillThere(s.t, c)
    ensures (exists g | g in s.joins :: g != h && RolledBack(s, h, c).joins[g].lost > s.joins[g].lost)
            <==> !s.t[c.slot].signaled && !AtTail(Live(s.t[c.slot]), h)
  {
    hide LinksInv, RolledBack, DropParents, LostAt, Times, Owed, Live, AtTail, CanRollBack;
    RollbackStep(s, h, c);
    RollbackDebts(s, h, c);
    DropTakesLast(s, h, c);
    JoinSlotsBounded(s);
    var s' := RolledBack(s, h, c);
    var l := Live(s.t[c.slot]);
    if !s.t[c.slot].signaled && !AtTail(l, h) {
      assert LosesLast(l, h, l[1]);
      assert s'.joins[l[1]].lost > s.joins[l[1]].lost;
    }
  }

  /** The joins other than the one that is rolled back. */
  lemma RollbackOthers(s: State, h: nat, c: Child, g: nat)
    requires LinksInv(s) && CanRollBack(s, h, c) && StillThere(s.t, c) && c.slot !in s.joins
    requires g in s.joins && g != h
    ensures JoinInv(RolledBack(s, h, c), g)
  {
    hide LinksInv, RolledBack, Times, OwedTo, DropParents, LosesLast, LostAt, Owed, Live, JoinInv, SlotInv;
    var s' := RolledBack(s, h, c);
    RollbackStep(s, h, c);
    RollbackDebts(s, h, c);
    LinksBound(s);
    var lost := LostAt(s, s', c.slot, g);
    TotalsDropAt(s, s', c.slot, g);
    TimesIn(Owed(s.t, s.draining, c.slot), g);
    TimesIn(Owed(s'.t, s'.draining, c.slot), g);
    JoinSlot(s, g);
    RollbackKeepsChildren(s, s', h, c, g, lost);
    JoinLoses(s, s', g, lost);
  }

  lemma RollbackKeepsChildren(s: State, s': State, h: nat, c: Child, g: nat, lost: nat)
    requires LinksInv(s) && RollsBack(s, s', h, c.slot) && StillThere(s.t, c) && g in s.joins && JoinInv(s, g)
    requires s.t[c.slot].signaled || (Owed(s.t, s.draining, c.slot) == Live(s.t[c.slot]) && Owed(s'.t, s'.draining, c.slot) == Live(s'.t[c.slot]))
    requires Times(Owed(s'.t, s'.draining, c.slot), g) + lost == Times(Owed(s.t, s.draining, c.slot), g)
    ensures forall q: nat | q < |s.joins[g].children| && StillThere(s'.t, s.joins[g].children[q]) ::
               ChildKeptOrLost(s, s', g, s.joins[g].children[q].slot, lost)
  {
    TimesIn(Owed(s.t, s.draining, c.slot), g);
    TimesIn(Owed(s'.t, s'.draining, c.slot), g);
    hide LinksInv, Times, OwedTo, Owed, Live, JoinInv, LostAt;
  }

  lemma RollbackSlots(s: State, h: nat, c: Child, i: nat)
    requires LinksInv(s) && CanRollBack(s, h, c) && StillThere(s.t, c) && i < |s.t|
    ensures SlotInv(RolledBack(s, h, c), i)
  {
    hide LinksInv, RolledBack, Times, OwedTo, DropParents, LosesLast, LostAt, JoinInv, Owed, Live;
    RollbackStep(s, h, c);
    RollbackDebts(s, h, c);
    LinksBound(s);
    assert SlotInv(s, i);
  }

  lemma RollbackOneKeepsInv(s: State, h: nat, c: Child)
    requires LinksInv(s) && CanRollBack(s, h, c)
    ensures LinksInv(RolledBack(s, h, c))
  {
    LinksBound(s);
    if StillThere(s.t, c) {
      ChildToRollBack(s, h, c);
      RollbackStep(s, h, c);
      RollbackOwn(s, h, c);
      hide JoinInv, SlotInv, RolledBack;
      var s' := RolledBack(s, h, c);
      forall g: nat | g in s'.joins ensures JoinInv(s', g) {
        if g != h {
          RollbackOthers(s, h, c, g);
        }
      }
      forall i: nat | i < |s'.t| ensures SlotInv(s', i) {
        RollbackSlots(s, h, c, i);
      }
    } else {
      RollbackOfNothing(s, h, c);
    }
  }

  lemma ChildToRollBack(s: State, h: nat, c: Child)
    requires LinksInv(s) && CanRollBack(s, h, c) && StillThere(s.t, c)
    ensures c.slot !in s.joins
  {
    hide Owed, Times, OwedTo, Live;
    assert JoinInv(s, h);
    assert ChildInv(s, h, s.joins[h].phase.left - 1);
    ChildIsNoJoin(s, c.slot);
  }

  lemma RollbackOfNothing(s: State, h: nat, c: Child)
    requires LinksInv(s) && CanRollBack(s, h, c) && !StillThere(s.t, c)
    ensures LinksInv(RolledBack(s, h, c))
  {
    hide Owed, Times, OwedTo, Live;
    var s' := RolledBack(s, h, c);
    assert JoinInv(s, h);
    OwedIsLive(s);
    var p := s.t[h].pendingChildCnt;
    assert s'.t == s.t[h := s.t[h].(pendingChildCnt := p)];
    OwedDependsOn(s, s', c.slot);
    assert s'.joins == s.joins[h := s'.joins[h]];
    OwnStepSameDebts(s, s', h, p, s'.joins[h]);
    SameTotals(s, s');
    RolledBackOwn(s, s', h, c);
    OwnStepKeepsInv(s, s', h, p, s'.joins[h]);
  }

  lemma RollbackOwn(s: State, h: nat, c: Child)
    requires LinksInv(s) && CanRollBack(s, h, c) && StillThere(s.t, c) && c.slot !in s.joins
    ensures JoinInv(RolledBack(s, h, c), h)
  {
    hide LinksInv, RolledBack, Times, OwedTo, DropParents, LosesLast, LostAt, Owed, Live, JoinInv, SlotInv, RollsBackNext;
    var s' := RolledBack(s, h, c);
    LinksBound(s);
    OwedIsLive(s);
    RollbackStep(s, h, c);
    RollbackDebts(s, h, c);
    assert RollsBackNext(s, h, c);
    TotalsDropAt(s, s', c.slot, h);
    TimesIn(Owed(s'.t, s'.draining, c.slot), h);
    RolledBackOwn(s, s', h, c);
  }

  lemma OwedIsLive(s: State)
    requires LinksInv(s)
    ensures forall i: nat | i < |s.t| && Owed(s.t, s.draining, i) != [] :: s.t[i].valid
  {
    forall i: nat | i < |s.t| && Owed(s.t, s.draining, i) != [] ensures s.t[i].valid {
      assert SlotInv(s, i);
    }
  }

  lemma RolledBackOwn(s: State, s': State, h: nat, c: Child)
    requires h in s.joins && h in s'.joins && JoinInv(s, h) && RollsBackNext(s, h, c)
    requires s'.joins[h] == s.joins[h].(phase := RollingBack(s.joins[h].phase.left - 1))
    requires |s'.t| == |s.t| && s'.t[h] == s.t[h] && s'.draining == s.draining
    requires OwedToAll(s', h) <= OwedToAll(s, h)
    requires forall i: nat | i < |s.t| :: s'.t[i].key == s.t[i].key && s'.t[i].valid == s.t[i].valid && s'.t[i].allocator == s.t[i].allocator
    requires forall i: nat | i < |s.t| && h in Owed(s'.t, s'.draining, i) ::
               h in Owed(s.t, s.draining, i) && s.t[i].valid && !(StillThere(s.t, c) && i == c.slot)
    ensures JoinInv(s', h)
  {
    hide Owed, Times, OwedTo, Live;
    forall i | 0 <= i < |s'.t| ensures OwesAsChild(s', h, i) {
      assert OwesAsChild(s, h, i);
    }
    forall q: nat | q < |s.joins[h].children| ensures ChildInv(s', h, q) {
      assert ChildInv(s, h, q);
    }
  }

  // ----- Joins that leave the table -----

  lemma JoinLeavesKeepsInv(s: State, s': State, h: nat)
    requires LinksInv(s) && h in s.joins && h < |s.t| && OwedToAll(s, h) == 0
    requires s' == State(s.t[h := CLEAN_FENCE], s.joins - {h}, s.draining)
    ensures LinksInv(s')
  {
    assert JoinInv(s, h);
    assert SameDebts(s, s');
    SameTotals(s, s');
    OwedToZeroIff(s.t, s.draining, h, |s.t|);
    JoinLeaves(s, s', h);
  }

  lemma JoinLeaves(s: State, s': State, h: nat)
    requires LinksInv(s) && h in s.joins && h < |s.t|
    requires s' == State(s.t[h := CLEAN_FENCE], s.joins - {h}, s.draining)
    requires SameDebts(s, s') && forall g: u64 :: OwedToAll(s', g) == OwedToAll(s, g)
    requires Owed(s.t, s.draining, h) == []
    requires forall c: nat | c < |s.t| :: h !in Owed(s.t, s.draining, c)
    ensures LinksInv(s')
  {
    hide Owed, Times, OwedTo, Live;
    assert JoinInv(s, h);
    forall g: nat | g in s'.joins ensures JoinInv(s', g) {
      assert JoinInv(s, g);
      JoinKept(s, s', g);
    }
    forall i: nat | i < |s'.t| ensures SlotInv(s', i) {
      assert SlotInv(s, i);
      SlotKept(s, s', i);
    }
  }

  /** A join that has been rolled back completely is owed nothing. */
  lemma RolledBackOwedNothing(s: State, h: nat)
    requires LinksInv(s) && h in s.joins && Seen(s.joins[h]) == 0 && h < |s.t|
    ensures OwedToAll(s, h) == 0
  {
    hide Owed, Times;
    assert JoinInv(s, h);
    forall c: nat | c < |s.t| ensures h !in Owed(s.t, s.draining, c) {
      assert OwesAsChild(s, h, c);
    }
    OwedToZeroIff(s.t, s.draining, h, |s.t|);
  }

  lemma LeavingKeepsInv(s: State, h: nat)
    requires LinksInv(s) && h in s.joins && h < |s.t|
    requires Enabled(s, DriverSignals(h)) || Enabled(s, FinishRollback(h)) || Enabled(s, Retire(h))
    ensures OwedToAll(s, h) == 0
    ensures LinksInv(State(s.t[h := CLEAN_FENCE], s.joins - {h}, s.draining))
  {
    hide Owed, Times, OwedTo, Live;
    assert JoinInv(s, h);
    if s.joins[h].phase.RollingBack? {
      RolledBackOwedNothing(s, h);
    }
    JoinLeavesKeepsInv(s, State(s.t[h := CLEAN_FENCE], s.joins - {h}, s.draining), h);
  }

  // ----- The controllers' steps -----

  /** A controller takes or releases a child's lock. */
  lemma LockStepKeepsInv(s: State, s': State, c: nat)
    requires LinksInv(s) && c < |s.t| && IsChild(s.t, c) && s'.joins == s.joins && SameDebts(s, s')
    requires s'.t == s.t[c := s.t[c].(signaled := true)]
    requires s'.draining == s.draining[c := 0] || s'.draining == s.draining - {c}
    ensures LinksInv(s')
  {
    hide Owed, Times, OwedTo;
    SameTotals(s, s');
    assert SlotInv(s, c);
    forall g: nat | g in s'.joins ensures JoinInv(s', g) {
      assert JoinInv(s, g);
      JoinKept(s, s', g);
    }
    forall i: nat | i < |s'.t| ensures SlotInv(s', i) {
      assert SlotInv(s, i);
      SlotKept(s, s', i);
    }
  }

  lemma SignalChildKeepsInv(s: State, c: nat)
    requires LinksInv(s) && Enabled(s, SignalChild(c))
    ensures LinksInv(Do(s, SignalChild(c)))
  {
    var s' := Do(s, SignalChild(c));
    assert SlotInv(s, c);
    assert SameDebts(s, s');
    LockStepKeepsInv(s, s', c);
  }

  lemma FinishSignalKeepsInv(s: State, c: nat)
    requires LinksInv(s) && Enabled(s, FinishSignal(c))
    ensures LinksInv(Do(s, FinishSignal(c)))
  {
    var s' := Do(s, FinishSignal(c));
    assert SlotInv(s, c);
    assert SameDebts(s, s');
    assert s.t == s.t[c := s.t[c].(signaled := true)];
    LockStepKeepsInv(s, s', c);
  }

  lemma HeadOff(l: seq<u64>, j: nat)
    requires j < |l|
    ensures l[j] in l[j..] && forall g | g in l[j + 1..] :: g in l[j..]
    ensures forall g: u64 :: Times(l[j + 1..], g) == Times(l[j..], g) - if g == l[j] then 1 else 0
  {
    assert l[j..] == [l[j]] + l[j + 1..];
    assert multiset(l[j..]) == multiset{l[j]} + multiset(l[j + 1..]);
  }

  lemma CountDownDebts(s: State, c: nat)
    requires LinksInv(s) && Enabled(s, CountDown(c)) && Live(s.t[c])[s.draining[c]] != INVALID_PARENT
    ensures var h := Live(s.t[c])[s.draining[c]];
            var s' := Do(s, CountDown(c));
            && IsChild(s.t, c) && s.t[c].signaled && s.draining[c] < s.t[c].parentsCnt
            && h in Owed(s.t, s.draining, c) && h in s.joins && JoinInv(s, h) && c != h
            && DebtsChangeAt(s, s', c, h)
            && Times(Owed(s'.t, s'.draining, c), h) == Times(Owed(s.t, s.draining, c), h) - 1
            && (forall g | g in Owed(s'.t, s'.draining, c) :: g in Owed(s.t, s.draining, c))
  {
    hide Times, OwedTo, Live, JoinInv;
    assert SlotInv(s, c);
    var live, j := Live(s.t[c]), s.draining[c];
    var h := live[j];
    HeadOff(live, j);
    assert h in Owed(s.t, s.draining, c) && h in s.joins;
    JoinSlot(s, h);
    assert |live| == s.t[c].parentsCnt by {
      LiveSize(s.t[c]);
    }
    CountedDownDebts(s, c, h);
  }

  lemma LiveSize(f: HwFence)
    requires f.parentsCnt <= MAX_JOIN_PARENTS
    ensures |Live(f)| == f.parentsCnt
  {
  }

  lemma JoinSlot(s: State, h: nat)
    requires LinksInv(s) && h in s.joins
    ensures JoinInv(s, h) && h < |s.t| && s.t[h].allocator == JOIN_CLIENT_ID && s.t[h].parentsCnt == 0 && h !in s.draining
  {
  }

  lemma CountedDownDebts(s: State, c: nat, h: nat)
    requires c < |s.t| < U32_LIMIT && c in s.draining && s.draining[c] < |Live(s.t[c])|
    requires h == Live(s.t[c])[s.draining[c]] && h < |s.t| && h != c && h in s.joins
    ensures var s' := Do(s, CountDown(c));
            && |s'.t| == |s.t|
            && (forall i: nat | i < |s.t| && i != c :: Owed(s'.t, s'.draining, i) == Owed(s.t, s.draining, i))
            && Owed(s'.t, s'.draining, c) == Live(s.t[c])[s.draining[c] + 1..]
            && Owed(s.t, s.draining, c) == Live(s.t[c])[s.draining[c]..]
  {
    var s' := Do(s, CountDown(c));
    assert s'.t == s.t[h := s.t[h].(pendingChildCnt := WrapU32(s.t[h].pendingChildCnt - 1))];
  }

  /** Counting down a hole in the list changes nothing else. */
  lemma CountDownHoleKeepsInv(s: State, c: nat)
    requires LinksInv(s) && Enabled(s, CountDown(c)) && Live(s.t[c])[s.draining[c]] == INVALID_PARENT
    ensures LinksInv(Do(s, CountDown(c)))
  {
    hide Times, OwedTo, Live;
    var s' := Do(s, CountDown(c));
    assert SlotInv(s, c);
    LiveSize(s.t[c]);
    HeadOff(Live(s.t[c]), s.draining[c]);
    assert s' == s.(draining := s.draining[c := s.draining[c] + 1]);
    assert DebtsChangeAt(s, s', c, INVALID_PARENT);
    TotalsChangeAt(s, s', c, INVALID_PARENT);
    JoinSlotsBounded(s);
    hide Owed;
    forall g: nat | g in s'.joins ensures JoinInv(s', g) {
      assert JoinInv(s, g);
      JoinKept(s, s', g);
    }
    forall i: nat | i < |s'.t| ensures SlotInv(s', i) {
      assert SlotInv(s, i);
      SlotKept(s, s', i);
    }
  }

  lemma CountDownKeepsInv(s: State, c: nat)
    requires LinksInv(s) && Enabled(s, CountDown(c)) && Live(s.t[c])[s.draining[c]] != INVALID_PARENT
    ensures LinksInv(Do(s, CountDown(c)))
  {
    hide Owed, Times, OwedTo;
    var h := Live(s.t[c])[s.draining[c]];
    var s' := Do(s, CountDown(c));
    CountDownDebts(s, c);
    TotalsChangeAt(s, s', c, h);
    CountedDownOwn(s, s', h, c);
    forall g: nat | g in s'.joins ensures JoinInv(s', g) {
      assert JoinInv(s, g);
      if g != h {
        JoinKept(s, s', g);
      }
    }
    forall i: nat | i < |s'.t| ensures SlotInv(s', i) {
      assert SlotInv(s, i);
      SlotKept(s, s', i);
    }
  }

  lemma CountedDownOwn(s: State, s': State, h: nat, c: nat)
    requires LinksInv(s) && Enabled(s, CountDown(c)) && s' == Do(s, CountDown(c))
    requires h in s.joins && JoinInv(s, h) && h == Live(s.t[c])[s.draining[c]] && c != h
    requires OwedToAll(s', h) == OwedToAll(s, h) - 1
    requires DebtsChangeAt(s, s', c, h)
    requires forall g | g in Owed(s'.t, s'.draining, c) :: g in Owed(s.t, s.draining, c)
    ensures JoinInv(s', h)
  {
    hide Owed, Times, OwedTo;
    if s.joins[h].phase.RollingBack? {
      forall i | 0 <= i < |s'.t| ensures OwesAsChild(s', h, i) {
        assert OwesAsChild(s, h, i);
      }
      forall q: nat | q < |s.joins[h].children| ensures ChildInv(s', h, q) {
        assert ChildInv(s, h, q);
      }
    } else {
      JoinMoves(s, s', h);
    }
  }

  // ----- The protocol -----

  lemma LinksKept(s: State, a: Step)
    requires LinksInv(s) && Enabled(s, a)
    ensures LinksInv(Do(s, a))
  {
    hide Owed, Times, OwedTo, Live, JoinInv, SlotInv;
    match a
    case CreateFence(c, key, client) => CreateFenceKeepsInv(s, c, key, client);
    case DestroyFence(c) => DestroyFenceKeepsInv(s, c);
    case Begin(h, key, client, children) => BeginKeepsInv(s, h, key, client, children);
    case Visit(h, c) =>
      if s.t[c.slot].signaled {
        VisitSignaledKeepsInv(s, h, c);
      } else {
        VisitUnsignaledKeepsInv(s, h, c);
      }
    case FinishVisits(h) => FinishVisitsKeepsInv(s, h);
    case DriverSignals(h) => LeavingKeepsInv(s, h);
    case Abort(h) => AbortKeepsInv(s, h);
    case RollbackOne(h, c) => RollbackOneKeepsInv(s, h, c);
    case FinishRollback(h) => LeavingKeepsInv(s, h);
    case SignalChild(c) => SignalChildKeepsInv(s, c);
    case CountDown(c) =>
      if Live(s.t[c])[s.draining[c]] == INVALID_PARENT {
        CountDownHoleKeepsInv(s, c);
      } else {
        CountDownKeepsInv(s, c);
      }
    case FinishSignal(c) => FinishSignalKeepsInv(s, c);
    case Retire(h) => LeavingKeepsInv(s, h);
  }

  /** Slots keep their identity, are cleaned, or take an absent key. */
  predicate SlotIdentity(t: seq<HwFence>, f: HwFence, f': HwFence) {
    || (f'.valid == f.valid && f'.key == f.key && f'.allocator == f.allocator)
    || f' == CLEAN_FENCE
    || (f'.valid && AbsentKey(t, f'.key))
  }

  lemma OneSlotKeepsTable(t: seq<HwFence>, i: nat, f: HwFence)
    requires TableInv(t) && i < |t| && SlotIdentity(t, t[i], f)
    ensures TableInv(t[i := f])
  {
  }

  lemma RollbackKeepsTable(s: State, h: nat, c: Child)
    requires LinksInv(s) && TableInv(s.t) && CanRollBack(s, h, c)
    ensures TableInv(RolledBack(s, h, c).t)
  {
    if StillThere(s.t, c) {
      hide LinksInv, RolledBack, TableInv, DropParents;
      RollbackStep(s, h, c);
      OneSlotKeepsTable(s.t, c.slot, RolledBack(s, h, c).t[c.slot]);
    }
  }

  /** Steps that clean a slot or fill a free one. */
  lemma TableKeptByFilling(s: State, a: Step)
    requires Inv(s) && Enabled(s, a)
    requires a.CreateFence? || a.DestroyFence? || a.Begin? || a.DriverSignals? || a.FinishRollback? || a.Retire?
    ensures TableInv(Do(s, a).t)
  {
    InvBound(s);
    assert TableInv(s.t);
    hide TableInv, LinksInv, AbsentKey, FreshKey;
    match a
    case CreateFence(c, key, client) => OneSlotKeepsTable(s.t, c, Reserved(key, client, 0));
    case DestroyFence(c) => OneSlotKeepsTable(s.t, c, CLEAN_FENCE);
    case Begin(h, key, client, children) => OneSlotKeepsTable(s.t, h, ReservedJoin(key, client, |children|));
    case DriverSignals(h) => OneSlotKeepsTable(s.t, h, CLEAN_FENCE);
    case FinishRollback(h) => OneSlotKeepsTable(s.t, h, CLEAN_FENCE);
    case Retire(h) => OneSlotKeepsTable(s.t, h, CLEAN_FENCE);
  }

  lemma CountedDownKeepsTable(s: State, h: nat, who: Party)
    requires TableInv(s.t)
    ensures TableInv(CountedDown(s, h, who).t)
  {
    hide TableInv;
    if h < |s.t| {
      OneSlotKeepsTable(s.t, h, s.t[h].(pendingChildCnt := WrapU32(s.t[h].pendingChildCnt - 1)));
    }
  }

  lemma TableKept(s: State, a: Step)
    requires Inv(s) && Enabled(s, a)
    ensures TableInv(Do(s, a).t)
  {
    InvBound(s);
    assert TableInv(s.t);
    hide TableInv, LinksInv, AbsentKey, FreshKey, CountedDown, RolledBack, Live;
    match a
    case Visit(h, c) =>
      CountedDownKeepsTable(s, h, Driver);
      OneSlotKeepsTable(s.t, c.slot, AppendParent(s.t[c.slot], h));
    case RollbackOne(h, c) => RollbackKeepsTable(s, h, c);
    case SignalChild(c) => OneSlotKeepsTable(s.t, c, s.t[c].(signaled := true));
    case CountDown(c) => CountedDownKeepsTable(s, Live(s.t[c])[s.draining[c]], Controller);
    case FinishVisits(h) =>
    case Abort(h) =>
    case FinishSignal(c) =>
    case _ => TableKeptByFilling(s, a);
  }

  lemma StepKeepsInv(s: State, a: Step)
    requires Inv(s) && Enabled(s, a)
    ensures Inv(Do(s, a))
  {
    hide LinksInv, TableInv, Do, Enabled;
    LinksKept(s, a);
    TableKept(s, a);
  }

  /** The zeroed table, before any call. */
  predicate Initial(s: State) {
    |s.t| < U32_LIMIT && s.joins == map[] && s.draining == map[] && forall i | 0 <= i < |s.t| :: s.t[i] == ZERO_FENCE
  }

  function After(s: State, run: seq<Step>): (s': State)
    requires |s.t| < U32_LIMIT && ValidRun(s, run)
    ensures |s'.t| == |s.t|
    decreases |run|
  {
    if run == [] then s else After(Do(s, run[0]), run[1..])
  }

  /** Any interleaving of enabled steps. */
  predicate ValidRun(s: State, run: seq<Step>)
    requires |s.t| < U32_LIMIT
    decreases |run|
  {
    run != [] ==> Enabled(s, run[0]) && ValidRun(Do(s, run[0]), run[1..])
  }

  lemma {:induction false} RunKeepsInv(s: State, run: seq<Step>)
    requires Inv(s) && ValidRun(s, run)
    ensures Inv(After(s, run))
    decreases |run|
  {
    hide Inv, Enabled, Do;
    if run != [] {
      InvBound(s);
      StepKeepsInv(s, run[0]);
      RunKeepsInv(Do(s, run[0]), run[1..]);
    }
  }

  lemma InvBound(s: State)
    requires Inv(s)
    ensures |s.t| < U32_LIMIT
  {
  }

  lemma InitialInv(s: State)
    requires Initial(s)
    ensures Inv(s)
  {
  }

  /** In every interleaving, the count of a join in the table is the number of children not visited
      yet, plus the number of its entries that fences have yet to count down, plus the number that
      rollbacks of other joins have lost; a join being rolled back has at least one more than it is
      owed. No fence owes to a slot that is not a join's. */
  lemma JoinConservation(s0: State, run: seq<Step>)
    requires Initial(s0) && ValidRun(s0, run)
    ensures var s := After(s0, run);
            && (forall h: nat | h in s.joins ::
                  && h < |s.t| < U32_LIMIT
                  && var j, pending := s.joins[h], s.t[h].pendingChildCnt;
                    if j.phase.RollingBack? then pending >= 1 + OwedToAll(s, h)
                    else pending == |j.children| - Seen(j) + OwedToAll(s, h) + j.lost)
            && (forall c: nat, h | c < |s.t| && h in Owed(s.t, s.draining, c) :: h in s.joins || h == INVALID_PARENT)
  {
    hide Owed, OwedTo, Times, Live;
    InitialInv(s0);
    RunKeepsInv(s0, run);
    var s := After(s0, run);
    forall h: nat | h in s.joins ensures JoinInv(s, h) {
    }
    forall c: nat, h | c < |s.t| && h in Owed(s.t, s.draining, c) ensures h in s.joins || h == INVALID_PARENT {
      assert SlotInv(s, c);
    }
  }

  /** A child is settled for a join once its fence is gone, or signaled with the join counted down. */
  ghost predicate Settled(s: State, h: u64, c: Child) {
    StillThere(s.t, c) ==> s.t[c.slot].signaled && h !in Owed(s.t, s.draining, c.slot)
  }

  /** A join's count is zero exactly when its driver has visited every child, every child is settled
      and none of its entries was lost; then exactly one party has taken it there, and the driver
      signals iff it was that one. */
  lemma ZeroIffAllSettled(s0: State, run: seq<Step>, h: nat)
    requires Initial(s0) && ValidRun(s0, run) && h in After(s0, run).joins
    ensures var s := After(s0, run);
            && h < |s.t| < U32_LIMIT
            && var j := s.joins[h];
            && (s.t[h].pendingChildCnt == 0 <==>
                  && !j.phase.RollingBack? && Seen(j) == |j.children| && j.lost == 0
                  && forall q: nat | q < |j.children| :: Settled(s, h, j.children[q]))
            && |j.zeroBy| == (if s.t[h].pendingChildCnt == 0 then 1 else 0)
            && (j.phase.Signaling? ==> j.zeroBy == [Driver])
            && (j.phase.Registered? ==> Driver !in j.zeroBy)
  {
    InitialInv(s0);
    RunKeepsInv(s0, run);
    ZeroIff(After(s0, run), h);
  }

  lemma ZeroIff(s: State, h: nat)
    requires LinksInv(s) && h in s.joins
    ensures JoinInv(s, h)
    ensures s.t[h].pendingChildCnt == 0 <==>
            && !s.joins[h].phase.RollingBack? && Seen(s.joins[h]) == |s.joins[h].children| && s.joins[h].lost == 0
            && forall q: nat | q < |s.joins[h].children| :: Settled(s, h, s.joins[h].children[q])
  {
    hide Times, OwedTo, Owed;
    var j := s.joins[h];
    assert JoinInv(s, h);
    OwedToZeroIff(s.t, s.draining, h, |s.t|);
    if s.t[h].pendingChildCnt == 0 {
      forall q: nat | q < |j.children| ensures Settled(s, h, j.children[q]) {
        assert ChildInv(s, h, q);
        if StillThere(s.t, j.children[q]) {
          UnsignaledOwesAll(s, j.children[q].slot);
        }
      }
    } else if !j.phase.RollingBack? && Seen(j) == |j.children| && j.lost == 0 {
      var c: nat :| c < |s.t| && h in Owed(s.t, s.draining, c);
      assert OwesAsChild(s, h, c);
      OwedIsLive(s);
    }
  }

  lemma UnsignaledOwesAll(s: State, c: nat)
    requires LinksInv(s) && c < |s.t| && s.t[c].valid
    ensures !s.t[c].signaled ==> Owed(s.t, s.draining, c) == Live(s.t[c])
  {
    assert SlotInv(s, c);
  }

  // ----- What the steps do -----

  /** A registration starts with a join fence that its client alone waits for and that counts all children. */
  lemma BeginOutcome(s: State, h: nat, key: Key, client: u32, children: seq<Child>)
    requires Inv(s) && |s.t| < U32_LIMIT && Enabled(s, Begin(h, key, client, children))
    ensures var s' := Do(s, Begin(h, key, client, children));
            && s'.t == s.t[h := s'.t[h]] && s'.draining == s.draining
            && s'.joins == s.joins[h := Join(children, Visiting(0), [], 0)]
            && var f := s'.t[h];
            && f.valid && f.key == key && f.allocator == JOIN_CLIENT_ID && f.waitMask == {client} && !f.signaled
            && f.parentsCnt == 0 && f.pendingChildCnt == |children|
  {
    InvBound(s);
    hide Owed, Times, OwedTo, Live, TableInv, LinksInv;
  }

  /** Single fences come into free slots and leave them free. */
  lemma FenceOutcome(s: State, c: nat, key: Key, client: u32)
    requires Inv(s) && |s.t| < U32_LIMIT
    ensures Enabled(s, CreateFence(c, key, client)) ==>
              var s' := Do(s, CreateFence(c, key, client));
              && !s.t[c].valid && s' == s.(t := s.t[c := s'.t[c]])
              && s'.t[c].valid && s'.t[c].key == key && s'.t[c].allocator == client && !s'.t[c].signaled
              && s'.t[c].parentsCnt == 0
    ensures Enabled(s, DestroyFence(c)) ==>
              var s' := Do(s, DestroyFence(c)); s.t[c].valid && s' == s.(t := s.t[c := s'.t[c]]) && !s'.t[c].valid
    ensures Enabled(s, SignalChild(c)) ==>
              var s' := Do(s, SignalChild(c));
              !s.t[c].signaled && s'.joins == s.joins && s'.t == s.t[c := s.t[c].(signaled := true)] && c in s'.draining
  {
    InvBound(s);
    hide Owed, Times, OwedTo, Live, TableInv, LinksInv;
  }

  /** Visiting a signaled child takes one off the join's count, and if that was the last, the driver has taken
      it to zero; visiting another puts the join at the end of its parent list. The driver moves on. */
  lemma VisitOutcome(s: State, h: nat, c: Child)
    requires Inv(s) && Enabled(s, Visit(h, c))
    ensures h < |s.t| < U32_LIMIT && c.slot < |s.t| && c.slot != h
    ensures var s' := Do(s, Visit(h, c));
            && h in s'.joins && s'.joins[h].phase == Visiting(s.joins[h].phase.i + 1)
            && s'.joins[h].children == s.joins[h].children && s'.draining == s.draining
            && (if s.t[c.slot].signaled then
                  && s'.t == s.t[h := s.t[h].(pendingChildCnt := s'.t[h].pendingChildCnt)]
                  && s'.t[h].pendingChildCnt == s.t[h].pendingChildCnt - 1
                  && s'.joins[h].zeroBy == s.joins[h].zeroBy + (if s'.t[h].pendingChildCnt == 0 then [Driver] else [])
                else
                  && s'.t == s.t[c.slot := s'.t[c.slot]] && Live(s'.t[c.slot]) == Live(s.t[c.slot]) + [h]
                  && s'.joins[h].zeroBy == s.joins[h].zeroBy)
  {
    hide Owed, Times, OwedTo, Live, TableInv, LostAt;
    assert JoinInv(s, h);
    assert ChildInv(s, h, s.joins[h].phase.i);
    ChildIsNoJoin(s, c.slot);
    if !s.t[c.slot].signaled {
      AppendOwes(s.t[c.slot], h);
    }
  }

  /** Counting down a parent takes one off its count, and if that was the last, the controller has taken it to
      zero; the controller moves on to the next. */
  lemma CountDownOutcome(s: State, c: nat)
    requires Inv(s) && Enabled(s, CountDown(c)) && Live(s.t[c])[s.draining[c]] != INVALID_PARENT
    ensures var h, s' := Live(s.t[c])[s.draining[c]], Do(s, CountDown(c));
            && h in s.joins && h < |s.t| && h in s'.joins
            && s'.t == s.t[h := s.t[h].(pendingChildCnt := s'.t[h].pendingChildCnt)]
            && s'.t[h].pendingChildCnt == s.t[h].pendingChildCnt - 1
            && s'.joins == s.joins[h := s.joins[h].(zeroBy := s'.joins[h].zeroBy)]
            && s'.joins[h].zeroBy == s.joins[h].zeroBy + (if s'.t[h].pendingChildCnt == 0 then [Controller] else [])
            && s'.draining == s.draining[c := s.draining[c] + 1]
  {
    hide Owed, Times, OwedTo, Live, LinksInv, TableInv, JoinInv;
    HeadIsPending(s, c);
  }

  lemma HeadIsPending(s: State, c: nat)
    requires LinksInv(s) && Enabled(s, CountDown(c)) && Live(s.t[c])[s.draining[c]] != INVALID_PARENT
    ensures var h := Live(s.t[c])[s.draining[c]]; h in s.joins && h < |s.t| < U32_LIMIT && s.t[h].pendingChildCnt > 0
  {
    CountDownDebts(s, c);
    LinksBound(s);
    var h := Live(s.t[c])[s.draining[c]];
    hide Owed, Times, Live, LinksInv;
    OwedToZeroIff(s.t, s.draining, h, |s.t|);
    JoinSlot(s, h);
  }

  /** A join that leaves takes its slot's entry with it and nothing else. */
  lemma LeavingOutcome(s: State, a: Step, h: nat)
    requires Inv(s) && Enabled(s, a) && (a == DriverSignals(h) || a == FinishRollback(h) || a == Retire(h))
    ensures h in s.joins && h < |s.t| && Do(s, a) == State(s.t[h := CLEAN_FENCE], s.joins - {h}, s.draining)
    ensures !a.FinishRollback? ==> s.t[h].pendingChildCnt == 0 && |s.joins[h].zeroBy| == 1
    ensures a.DriverSignals? <==> s.joins[h].phase.Signaling?
  {
    hide Owed, Times, OwedTo, Live, TableInv;
    JoinSlot(s, h);
    assert JoinInv(s, h);
  }

  /** A driver that has visited all children signals iff it has taken the count to zero itself. */
  lemma FinishOutcome(s: State, h: nat)
    requires Inv(s) && Enabled(s, FinishVisits(h))
    ensures var s' := Do(s, FinishVisits(h));
            && s' == s.(joins := s.joins[h := s.joins[h].(phase := s'.joins[h].phase)])
            && s'.joins[h].phase == if s.joins[h].zeroBy == [Driver] then Signaling else Registered
  {
    hide Owed, Times, OwedTo, Live, TableInv;
    assert JoinInv(s, h);
  }

  // ----- Joins that have lost an entry -----

  /** A registered join that has lost an entry: its count is above what it is owed, for good. */
  ghost predicate Stranded(s: State, h: nat) {
    h in s.joins && s.joins[h].phase.Registered? && s.joins[h].lost > 0
  }

  lemma StrandedIsPending(s: State, h: nat)
    requires LinksInv(s) && Stranded(s, h)
    ensures h < |s.t| && s.t[h].pendingChildCnt > OwedToAll(s, h) && s.joins[h].zeroBy == []
  {
    hide OwedTo, Owed;
    assert JoinInv(s, h);
  }

  lemma StepKeepsStranded(s: State, a: Step, h: nat)
    requires LinksInv(s) && Enabled(s, a) && Stranded(s, h)
    ensures Stranded(Do(s, a), h) && Do(s, a).joins[h].children == s.joins[h].children
  {
    hide LinksInv, Owed, Times, Live, DropParents, LostAt;
    StrandedIsPending(s, h);
    match a
    case Begin(g, key, client, children) => NoJoinInFreeSlot(s, g);
    case _ =>
  }

  /** Whatever happens to its children, a registered join that has lost an entry stays in the table with
      its count above zero: nobody ever signals it. */
  lemma {:induction false} NeverSignaled(s: State, run: seq<Step>, h: nat)
    requires Inv(s) && ValidRun(s, run) && Stranded(s, h)
    ensures var s' := After(s, run);
            && Stranded(s', h) && h < |s'.t| && s'.t[h].pendingChildCnt > 0 && s'.joins[h].zeroBy == []
    decreases |run|
  {
    hide LinksInv, TableInv, Enabled, Do, Stranded, OwedTo, Owed;
    if run == [] {
      StrandedIsPending(s, h);
      hide *;
      assert s.t[h].pendingChildCnt > 0;
    } else {
      InvBound(s);
      StepKeepsInv(s, run[0]);
      StepKeepsStranded(s, run[0], h);
      NeverSignaled(Do(s, run[0]), run[1..], h);
    }
  }

  // ----- The steps are those of the sequential call -----

  lemma FindsStillThere(t: seq<HwFence>, c: Child)
    requires TableInv(t) && StillThere(t, c)
    ensures Probe(t, Find, c.key) == Hit(c.slot)
  {
    hide HomeSlot;
    AbsLookup(t, c.slot, c.key);
    MatchProbe(t, Find, c.key);
  }

  /** A visit step does to the table what the child loop does, and takes the count to zero when it
      does; a rollback step does what the rollback loop does. */
  lemma StepsAreTheDrivers(s: State, h: nat, c: Child)
    requires Inv(s)
    ensures Enabled(s, Visit(h, c)) ==>
              var v := VisitChild(s.t, h, DmaFence(false, true, c.key));
              && v.ok && Do(s, Visit(h, c)).t == v.t
              && (v.reachedZero <==> |Do(s, Visit(h, c)).joins[h].zeroBy| > |s.joins[h].zeroBy|)
    ensures Enabled(s, RollbackOne(h, c)) && StillThere(s.t, c) ==>
              Do(s, RollbackOne(h, c)).t == RollbackChild(s.t, h, DmaFence(false, true, c.key))
  {
    if Enabled(s, Visit(h, c)) {
      VisitIsTheDrivers(s, h, c);
    }
    if Enabled(s, RollbackOne(h, c)) && StillThere(s.t, c) {
      RollbackIsTheDrivers(s, h, c);
    }
  }

  lemma VisitIsTheDrivers(s: State, h: nat, c: Child)
    requires |s.t| < U32_LIMIT && TableInv(s.t) && Enabled(s, Visit(h, c))
    ensures var v := VisitChild(s.t, h, DmaFence(false, true, c.key));
            && v.ok && Do(s, Visit(h, c)).t == v.t
            && (v.reachedZero <==> |Do(s, Visit(h, c)).joins[h].zeroBy| > |s.joins[h].zeroBy|)
  {
    hide Probe, Abs, TableInv;
    FindsStillThere(s.t, c);
  }

  lemma RollbackIsTheDrivers(s: State, h: nat, c: Child)
    requires |s.t| < U32_LIMIT && TableInv(s.t) && Enabled(s, RollbackOne(h, c)) && StillThere(s.t, c)
    ensures Do(s, RollbackOne(h, c)).t == RollbackChild(s.t, h, DmaFence(false, true, c.key))
  {
    hide Probe, Abs, TableInv, DropParents;
    FindsStillThere(s.t, c);
  }
}
