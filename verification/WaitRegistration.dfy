/** Waiting on an individual fence: the client's bit goes into the wait mask under the fence's lock,
    and the signal flag is tested after the lock was given back. The fence controller sets the flag
    and notifies the mask under the lock. */
module WaitRegistration {
  import opened HwFences
  import opened FenceTables
  import opened JoinFences

  // ----- One call, run without interference -----

  /** `fenceSignaled` is the bit that the driver sets in the dma-fence itself. */
  datatype WaitResult = WaitResult(ok: bool, hash: u64, t: seq<HwFence>, sent: seq<Signal>, fenceSignaled: bool)

  /** Only some clients may attach data. */
  predicate MayCarry(client: u32, data: u64) {
    data == 0 || ClientDataId(client) < CLIENTS_WITH_DATA
  }

  /** What is written under the lock. */
  function Marked(f: HwFence, client: u32, data: u64): HwFence {
    WithData(WithWaiter(f, client), client, data)
  }

  /** A wait on one fence, as a function of the table. */
  function Waited(t: seq<HwFence>, fence: DmaFence, client: u32, data: u64): (r: WaitResult)
    requires |t| < U32_LIMIT
    ensures r.ok <==> fence.enabled && MayCarry(client, data) && Probe(t, Find, fence.key).Hit?
    ensures !r.ok ==> r.t == t && r.sent == [] && !r.fenceSignaled
    ensures r.ok ==> r.hash < |t| && r.t == t[r.hash := Marked(t[r.hash], client, data)]
    ensures r.ok ==> (r.fenceSignaled <==> t[r.hash].signaled)
    ensures r.ok ==> r.sent == if r.fenceSignaled then [Signal(client, t[r.hash].key, r.hash, data, 0)] else []
  {
    var found := Probe(t, Find, fence.key);
    if !fence.enabled || !MayCarry(client, data) || !found.Hit? then WaitResult(false, 0, t, [], false)
    else
      var f := t[found.slot];
      WaitResult(true, found.slot, t[found.slot := Marked(f, client, data)],
                 if f.signaled then [Signal(client, f.key, found.slot, data, 0)] else [], f.signaled)
  }

  /** The wait goes to the fence's own entry and is refused exactly if there is none, the flag is off, or
      the client may not attach data. It adds the client to the entry's waiters, replaces the client's
      data if there is any, and changes nothing else; the client is notified now, with its data and no
      error, exactly if the fence is signaled. */
  lemma WaitOutcome(t: seq<HwFence>, fence: DmaFence, client: u32, data: u64)
    requires TableInv(t) && |t| < U32_LIMIT && fence.key != FREE_KEY
    ensures var r := Waited(t, fence, client, data);
            && (r.ok <==> fence.enabled && (data == 0 || ClientDataId(client) < CLIENTS_WITH_DATA) && fence.key in Abs(t))
            && (r.ok ==>
                  && Holds(t, r.hash, fence.key) && |r.t| == |t|
                  && (forall i | 0 <= i < |t| && i != r.hash :: r.t[i] == t[i])
                  && var f, f' := t[r.hash], r.t[r.hash];
                  && f' == f.(waitMask := f'.waitMask, clientData := f'.clientData)
                  && f'.waitMask == f.waitMask + {client}
                  && (forall d | 0 <= d < CLIENTS_WITH_DATA ::
                        f'.clientData[d] == if data != 0 && d == ClientDataId(client) then data else f.clientData[d])
                  && (r.fenceSignaled <==> f.signaled)
                  && (f.signaled ==> r.sent == [Signal(client, fence.key, r.hash, data, 0)])
                  && (!f.signaled ==> r.sent == []))
            && (!r.ok ==> r.t == t && r.sent == [] && !r.fenceSignaled)
  {
    hide HomeSlot;
    MatchProbe(t, Find, fence.key);
    hide Probe, Abs, TableInv;
  }

  /** `hw_fence_process_fence`, with the registration that it calls. */
  method ProcessFence(table: FenceTable, fence: DmaFence, client: u32, data: u64)
      returns (ok: bool, hash: u64, sent: seq<Signal>, fenceSignaled: bool)
    requires table.slots.Length < U32_LIMIT
    modifies table.slots
    ensures var r := Waited(old(table.slots[..]), fence, client, data);
            && ok == r.ok && table.slots[..] == r.t && sent == r.sent && fenceSignaled == r.fenceSignaled
            && (ok ==> hash == r.hash)
  {
    hide HomeSlot;
    ghost var t := table.slots[..];
    ok, hash, sent, fenceSignaled := false, U64_LIMIT - 1, [], false;
    if !fence.enabled || !MayCarry(client, data) {
      return;
    }
    ok, hash := table.LookupAndProcess(Find, fence.key, client, 0);
    if !ok {
      return;
    }
    table.slots[hash] := Marked(table.slots[hash], client, data);
    if table.slots[hash].signaled {
      fenceSignaled := true;
      sent := [Signal(client, table.slots[hash].key, hash, data, 0)];
    }
  }

  // ----- Any number of waits, the controller, and a destroy -----

  datatype Phase = Fresh | TestsNext | Done

  /** A wait in progress. The rest is history: how many notifications there were when it was marked,
      whether the fence was signaled then, whether the controller has set the flag since, and at the
      test: whether it had by then, whether the fence was gone, and whether the flag was seen. */
  datatype Wait = Wait(client: u32, data: u64, phase: Phase, since: nat, signaledAtMark: bool, setSince: bool,
                       setByTest: bool, goneByTest: bool, sawFlag: bool)

  /** The controller holds the lock while it notifies; `told` is whom it has notified so far. */
  datatype Controller = Quiet | Notifying(told: set<u32>)

  datatype State = State(fence: HwFence, gone: bool, hash: u64, waits: seq<Wait>, ctl: Controller, log: seq<Signal>)

  datatype Step =
    | Mark(j: nat)
    | TestFlag(j: nat)
    | SetFlag
    | Notify(w: u32, other: u64, error: u32)
    | GiveLockBack
    | DestroyFence

  predicate Enabled(s: State, a: Step) {
    match a
    case Mark(j) => j < |s.waits| && s.waits[j].phase.Fresh? && s.ctl.Quiet? && !s.gone
    case TestFlag(j) => j < |s.waits| && s.waits[j].phase.TestsNext?
    case SetFlag => s.ctl.Quiet? && !s.gone && !s.fence.signaled
    case Notify(w, other, error) => s.ctl.Notifying? && w in s.fence.waitMask && w !in s.ctl.told
    case GiveLockBack => s.ctl.Notifying? && s.fence.waitMask <= s.ctl.told
    case DestroyFence => s.ctl.Quiet? && !s.gone
  }

  /** What the controller sends to a waiter: its own data, and anything (`other`) to one without. */
  function DataFor(f: HwFence, w: u32, other: u64): u64 {
    if ClientDataId(w) < CLIENTS_WITH_DATA then f.clientData[ClientDataId(w)] else other
  }

  function SetSince(w: Wait): Wait {
    if w.phase.Fresh? then w else w.(setSince := true)
  }

  function Do(s: State, a: Step): (s': State)
    requires Enabled(s, a)
    ensures |s'.waits| == |s.waits|
  {
    match a
    case Mark(j) =>
      var w := s.waits[j];
      s.(fence := Marked(s.fence, w.client, w.data),
         waits := s.waits[j := w.(phase := TestsNext, since := |s.log|, signaledAtMark := s.fence.signaled,
                                  setSince := false)])
    case TestFlag(j) =>
      var w := s.waits[j];
      s.(waits := s.waits[j := w.(phase := Done, setByTest := w.setSince, goneByTest := s.gone,
                                  sawFlag := s.fence.signaled)],
         log := s.log + if s.fence.signaled then [Signal(w.client, s.fence.key, s.hash, w.data, 0)] else [])
    case SetFlag =>
      s.(fence := s.fence.(signaled := true), ctl := Notifying({}),
         waits := seq(|s.waits|, i requires 0 <= i < |s.waits| => SetSince(s.waits[i])))
    case Notify(w, other, error) =>
      s.(log := s.log + [Signal(w, s.fence.key, s.hash, DataFor(s.fence, w, other), error)],
         ctl := Notifying(s.ctl.told + {w}))
    case GiveLockBack => s.(ctl := Quiet)
    case DestroyFence => s.(fence := CLEAN_FENCE, gone := true)
  }

  // ----- What every step keeps -----

  /** How often a client was notified since. */
  function Told(log: seq<Signal>, since: nat, client: u32): nat {
    if |log| <= since then 0
    else Told(log[..|log| - 1], since, client) + if log[|log| - 1].client == client then 1 else 0
  }

  lemma ToldMore(log: seq<Signal>, since: nat, client: u32, g: Signal)
    requires since <= |log|
    ensures Told(log + [g], since, client) == Told(log, since, client) + if g.client == client then 1 else 0
  {
    assert (log + [g])[..|log|] == log;
  }

  lemma ToldNone(log: seq<Signal>, client: u32)
    ensures Told(log, |log|, client) == 0
  {
  }

  /** The histories of a wait agree with the fence and with each other. */
  predicate HistoryInv(s: State, w: Wait) {
    && w.since <= |s.log|
    && (!w.phase.Fresh? ==>
          && !(w.signaledAtMark && w.setSince)
          && (!s.gone ==> w.client in s.fence.waitMask && (s.fence.signaled <==> w.signaledAtMark || w.setSince))
          && (s.ctl.Notifying? ==> w.setSince))
    && (w.phase.Done? ==>
          && (w.sawFlag <==> !w.goneByTest && (w.signaledAtMark || w.setByTest))
          && (w.setByTest ==> w.setSince) && (w.goneByTest ==> s.gone))
  }

  /** The controller has yet to get to this waiter. */
  predicate WillHear(s: State, w: Wait) {
    s.ctl.Notifying? && w.client !in s.ctl.told
  }

  predicate WaitInv(s: State, w: Wait) {
    && HistoryInv(s, w)
    && (w.phase.Done? && w.sawFlag ==> Told(s.log, w.since, w.client) > 0)
    && (!w.phase.Fresh? && w.setSince ==> Told(s.log, w.since, w.client) > 0 || WillHear(s, w))
  }

  predicate Inv(s: State) {
    && (s.ctl.Notifying? ==> s.fence.signaled && !s.gone) && (s.gone ==> s.fence == CLEAN_FENCE)
    && forall j | 0 <= j < |s.waits| :: WaitInv(s, s.waits[j])
  }

  lemma StepKeepsHistory(s: State, a: Step, j: nat)
    requires Inv(s) && Enabled(s, a) && j < |s.waits|
    ensures HistoryInv(Do(s, a), Do(s, a).waits[j])
  {
    hide Told;
    assert WaitInv(s, s.waits[j]);
  }

  /** What a step adds to the notifications of one client. */
  lemma StepTells(s: State, a: Step, since: nat, client: u32)
    requires Enabled(s, a) && since <= |s.log|
    ensures Told(Do(s, a).log, since, client) == Told(s.log, since, client) +
              (match a
               case TestFlag(j) => if s.fence.signaled && s.waits[j].client == client then 1 else 0
               case Notify(w, other, error) => if w == client then 1 else 0
               case _ => 0)
  {
    match a
    case TestFlag(j) =>
      assert s.log + [] == s.log;
      if s.fence.signaled {
        ToldMore(s.log, since, client, Signal(s.waits[j].client, s.fence.key, s.hash, s.waits[j].data, 0));
      }
    case Notify(w, other, error) =>
      ToldMore(s.log, since, client, Signal(w, s.fence.key, s.hash, DataFor(s.fence, w, other), error));
    case _ =>
  }

  lemma StepKeepsInv(s: State, a: Step)
    requires Inv(s) && Enabled(s, a)
    ensures Inv(Do(s, a))
  {
    hide Told;
    var s' := Do(s, a);
    forall j | 0 <= j < |s'.waits| ensures WaitInv(s', s'.waits[j]) {
      assert WaitInv(s, s.waits[j]);
      StepKeepsHistory(s, a, j);
      StepTells(s, a, s.waits[j].since, s.waits[j].client);
      if a == Mark(j) {
        ToldNone(s.log, s.waits[j].client);
      }
    }
  }

  predicate IsRun(s: State, steps: seq<Step>)
    decreases |steps|
  {
    steps != [] ==> Enabled(s, steps[0]) && IsRun(Do(s, steps[0]), steps[1..])
  }

  function Final(s: State, steps: seq<Step>): (s': State)
    requires IsRun(s, steps)
    ensures |s'.waits| == |s.waits|
    decreases |steps|
  {
    if steps == [] then s else Final(Do(s, steps[0]), steps[1..])
  }

  lemma {:induction false} RunKeepsInv(s: State, steps: seq<Step>)
    requires Inv(s) && IsRun(s, steps)
    ensures Inv(Final(s, steps))
    decreases |steps|
  {
    hide Inv, Enabled, Do;
    if steps != [] {
      StepKeepsInv(s, steps[0]);
      RunKeepsInv(Do(s, steps[0]), steps[1..]);
    }
  }

  /** Before any of these waits: the fence is there and the controller not at work. */
  predicate Start(s: State) {
    s.ctl.Quiet? && !s.gone && forall j | 0 <= j < |s.waits| :: s.waits[j].phase.Fresh? && s.waits[j].since <= |s.log|
  }

  /** The fence was signaled before or after the wait was marked. */
  predicate WasSignaled(w: Wait) {
    w.signaledAtMark || w.setSince
  }

  /** However waits, the controller and a destroy interleave, and whoever else waits for the same client:
      once the controller is done, a wait that returned was notified if the fence was ever signaled,
      unless it was signaled before the mark and destroyed before the test. */
  lemma NoLostWakeUp(s: State, steps: seq<Step>, j: nat)
    requires Start(s) && IsRun(s, steps) && j < |s.waits|
    ensures var s' := Final(s, steps);
            var w := s'.waits[j];
            s'.ctl.Quiet? && w.phase.Done? && WasSignaled(w) ==>
              Told(s'.log, w.since, w.client) > 0 || (w.signaledAtMark && w.goneByTest)
  {
    RunKeepsInv(s, steps);
    var s' := Final(s, steps);
    assert WaitInv(s', s'.waits[j]);
  }

  // ----- Exactly how often -----

  /** No other wait is the same client's. */
  predicate OwnClient(s: State, j: nat)
    requires j < |s.waits|
  {
    forall k | 0 <= k < |s.waits| && k != j :: s.waits[k].client != s.waits[j].client
  }

  /** Notifications since the mark: one from the driver if it saw the flag, one from the controller if it
      set the flag after the mark and has got to the client. */
  predicate ToldExactly(s: State, w: Wait) {
    !w.phase.Fresh? ==>
      Told(s.log, w.since, w.client) ==
      (if w.phase.Done? && w.sawFlag then 1 else 0) + (if w.setSince && !WillHear(s, w) then 1 else 0)
  }

  lemma StepKeepsCount(s: State, a: Step, j: nat)
    requires Inv(s) && Enabled(s, a) && j < |s.waits| && OwnClient(s, j) && ToldExactly(s, s.waits[j])
    ensures OwnClient(Do(s, a), j) && ToldExactly(Do(s, a), Do(s, a).waits[j])
  {
    hide Told;
    assert WaitInv(s, s.waits[j]);
    StepTells(s, a, s.waits[j].since, s.waits[j].client);
    if a == Mark(j) {
      ToldNone(s.log, s.waits[j].client);
    }
    assert a.Notify? ==> a.w !in s.ctl.told;
  }

  lemma {:induction false} RunKeepsCount(s: State, steps: seq<Step>, j: nat)
    requires Inv(s) && IsRun(s, steps) && j < |s.waits| && OwnClient(s, j) && ToldExactly(s, s.waits[j])
    ensures ToldExactly(Final(s, steps), Final(s, steps).waits[j])
    decreases |steps|
  {
    hide Inv, Enabled, Do, OwnClient, ToldExactly;
    if steps != [] {
      StepKeepsInv(s, steps[0]);
      StepKeepsCount(s, steps[0], j);
      RunKeepsCount(Do(s, steps[0]), steps[1..], j);
    }
  }

  /** In every run, a wait that returned, of a client with no other wait, has been notified exactly as
      often as: once if the flag was seen at the test, and once if it was set after the mark. So if the
      fence was signaled at all, the client hears nothing iff it was signaled before the mark and
      destroyed before the test, and hears twice iff it was signaled between the two and not destroyed
      before the test. */
  lemma ToldHowOften(s: State, steps: seq<Step>, j: nat)
    requires Start(s) && IsRun(s, steps) && j < |s.waits| && OwnClient(s, j)
    ensures var s' := Final(s, steps);
            var w := s'.waits[j];
            var told := Told(s'.log, w.since, w.client);
            s'.ctl.Quiet? && w.phase.Done? ==>
              && told == (if w.sawFlag then 1 else 0) + (if w.setSince then 1 else 0)
              && (told == 0 <==> !WasSignaled(w) || (w.signaledAtMark && w.goneByTest))
              && (told == 2 <==> w.setByTest && !w.goneByTest)
  {
    RunKeepsInv(s, steps);
    RunKeepsCount(s, steps, j);
    var s' := Final(s, steps);
    assert WaitInv(s', s'.waits[j]);
  }

  // ----- The data that comes with it -----

  /** The data of client `c`, in its waits, its slot and its notifications, is among `ds`. */
  predicate DataAmong(s: State, c: u32, ds: set<u64>)
    requires ClientDataId(c) < CLIENTS_WITH_DATA
  {
    && (forall j | 0 <= j < |s.waits| && s.waits[j].client == c :: s.waits[j].data in ds)
    && (c in s.fence.waitMask ==> s.fence.clientData[ClientDataId(c)] in ds)
    && (s.fence.clientData[ClientDataId(c)] in ds || s.fence.clientData[ClientDataId(c)] == 0)
    && (forall i | 0 <= i < |s.log| && s.log[i].client == c :: s.log[i].clientData in ds)
  }

  lemma StepKeepsData(s: State, a: Step, c: u32, ds: set<u64>)
    requires ClientDataId(c) < CLIENTS_WITH_DATA && DataAmong(s, c, ds) && Enabled(s, a)
    ensures DataAmong(Do(s, a), c, ds)
  {
  }

  /** Whoever notifies it, a client with a data slot gets data that it registered; if all its waits carry
      the same, that. */
  lemma {:induction false} DataDelivered(s: State, steps: seq<Step>, c: u32, ds: set<u64>)
    requires ClientDataId(c) < CLIENTS_WITH_DATA && DataAmong(s, c, ds) && IsRun(s, steps)
    ensures forall i | 0 <= i < |Final(s, steps).log| && Final(s, steps).log[i].client == c ::
              Final(s, steps).log[i].clientData in ds
    decreases |steps|
  {
    hide Enabled, Do;
    if steps != [] {
      StepKeepsData(s, steps[0], c, ds);
      DataDelivered(Do(s, steps[0]), steps[1..], c, ds);
    }
  }

  /** Every notification names the fence, and the driver's own carry no error. */
  predicate LogIsOf(s: State, from: nat, key: Key, hash: u64) {
    && s.hash == hash && (s.gone || s.fence.key == key) && from <= |s.log|
    && forall i | from <= i < |s.log| :: s.log[i].key == key && s.log[i].hash == hash
  }

  lemma StepKeepsLog(s: State, a: Step, from: nat, key: Key, hash: u64)
    requires Enabled(s, a) && Inv(s) && LogIsOf(s, from, key, hash)
    ensures LogIsOf(Do(s, a), from, key, hash)
    ensures var g := Do(s, a).log;
            a.TestFlag? && |g| > |s.log| ==>
              g[|s.log|] == Signal(s.waits[a.j].client, key, hash, s.waits[a.j].data, 0)
  {
    hide Told;
  }

  /** In every run, whoever is notified is told the right fence. */
  lemma {:induction false} NotificationsNameTheFence(s: State, steps: seq<Step>, from: nat)
    requires Inv(s) && !s.gone && IsRun(s, steps) && from == |s.log|
    ensures forall i | from <= i < |Final(s, steps).log| ::
              Final(s, steps).log[i].key == s.fence.key && Final(s, steps).log[i].hash == s.hash
  {
    LogOfRun(s, steps, from, s.fence.key, s.hash);
  }

  lemma {:induction false} LogOfRun(s: State, steps: seq<Step>, from: nat, key: Key, hash: u64)
    requires Inv(s) && IsRun(s, steps) && LogIsOf(s, from, key, hash)
    ensures LogIsOf(Final(s, steps), from, key, hash)
    decreases |steps|
  {
    hide Inv, Enabled, Do, LogIsOf;
    if steps != [] {
      StepKeepsInv(s, steps[0]);
      StepKeepsLog(s, steps[0], from, key, hash);
      LogOfRun(Do(s, steps[0]), steps[1..], from, key, hash);
    }
  }

  // ----- Nothing and twice both happen -----

  /** One wait of client 1, with no data, on an unsignaled fence. */
  const ONE_WAIT: State := State(Reserved(Key(1, 1), 2, 0), false, 0,
                                 [Wait(1, 0, Fresh, 0, false, false, false, false, false)], Quiet, [])

  const BETWEEN: seq<Step> := [Mark(0), SetFlag, TestFlag(0), Notify(1, 0, 0), GiveLockBack]
  const AROUND: seq<Step> := [SetFlag, GiveLockBack, Mark(0), DestroyFence, TestFlag(0)]

  lemma NothingAndTwiceHappen()
    ensures Start(ONE_WAIT) && OwnClient(ONE_WAIT, 0) && IsRun(ONE_WAIT, BETWEEN) && IsRun(ONE_WAIT, AROUND)
    ensures Told(Final(ONE_WAIT, BETWEEN).log, 0, 1) == 2
    ensures Told(Final(ONE_WAIT, AROUND).log, 0, 1) == 0 && WasSignaled(Final(ONE_WAIT, AROUND).waits[0])
  {
    FiveSteps(ONE_WAIT, BETWEEN);
    FiveSteps(ONE_WAIT, AROUND);
    hide IsRun, Final, Told;
    ToldHowOften(ONE_WAIT, BETWEEN, 0);
    ToldHowOften(ONE_WAIT, AROUND, 0);
  }

  /** A run of five, spelled out. */
  lemma FiveSteps(s: State, r: seq<Step>)
    requires |r| == 5 && Enabled(s, r[0])
    requires var s1 := Do(s, r[0]);
             && Enabled(s1, r[1])
             && var s2 := Do(s1, r[1]);
             && Enabled(s2, r[2])
             && var s3 := Do(s2, r[2]);
             && Enabled(s3, r[3]) && Enabled(Do(s3, r[3]), r[4])
    ensures IsRun(s, r) && Final(s, r) == Do(Do(Do(Do(Do(s, r[0]), r[1]), r[2]), r[3]), r[4])
  {
    hide Enabled, Do;
    var s1 := Do(s, r[0]);
    var s2 := Do(s1, r[1]);
    var s3 := Do(s2, r[2]);
    var s4 := Do(s3, r[3]);
    assert r[4..][1..] == [];
    assert IsRun(s4, r[4..]) && Final(s4, r[4..]) == Do(s4, r[4]);
    assert r[3..][1..] == r[4..];
    assert IsRun(s3, r[3..]) && Final(s3, r[3..]) == Do(s4, r[4]);
    assert r[2..][1..] == r[3..];
    assert IsRun(s2, r[2..]) && Final(s2, r[2..]) == Do(s4, r[4]);
    assert r[1..][1..] == r[2..];
    assert IsRun(s1, r[1..]) && Final(s1, r[1..]) == Do(s4, r[4]);
  }
}
