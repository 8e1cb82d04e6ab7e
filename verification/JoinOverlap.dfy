/** Runs of the join protocol from the zeroed table: a join that the controller completes, one that its driver
    completes, and two arrays that share a child, where one driver's rollback makes the other's join wait for
    ever. */
module JoinOverlap {
  import opened HwFences
  import opened FenceTables
  import opened JoinFences
  import opened JoinProtocol

  lemma Extend(s: State, run: seq<Step>, a: Step, s': State)
    requires |s.t| < U32_LIMIT && ValidRun(s, run) && Enabled(After(s, run), a) && Do(After(s, run), a) == s'
    ensures ValidRun(s, run + [a]) && After(s, run + [a]) == s'
    decreases |run|
  {
    hide Enabled, Do;
    if run == [] {
      assert run + [a] == [a];
      assert [a][1..] == [];
    } else {
      assert (run + [a])[1..] == run[1..] + [a];
      Extend(Do(s, run[0]), run[1..], a, s');
    }
  }

  const CHILD: Child := Child(0, Key(1, 1))
  const CHILD_FENCE: HwFence := Reserved(Key(1, 1), 1, 0)
  const FIRST: HwFence := ReservedJoin(Key(2, 1), 1, 2)
  const SECOND: HwFence := ReservedJoin(Key(3, 1), 1, 1)

  /** The child with these entries in its parent list. */
  function Listing(a: u64, b: u64, count: u32, signaled: bool): HwFence {
    CHILD_FENCE.(parents := [a, b, INVALID_PARENT], parentsCnt := count, signaled := signaled)
  }

  /** The first join's driver visits the child, the second's registers with it, the first's gives up. */
  lemma SecondRegisters() returns (s0: State, run: seq<Step>)
    ensures Initial(s0) && ValidRun(s0, run)
    ensures After(s0, run) == State([Listing(1, 2, 2, false), FIRST, SECOND],
                                    map[1 := Join([CHILD, CHILD], Visiting(1), [], 0), 2 := Join([CHILD], Registered, [], 0)], map[])
  {
    hide ValidRun, After;
    s0 := State([ZERO_FENCE, ZERO_FENCE, ZERO_FENCE], map[], map[]);
    var s1 := State([CHILD_FENCE, ZERO_FENCE, ZERO_FENCE], map[], map[]);
    StartsEmpty(s0);
    Extend(s0, [], CreateFence(0, Key(1, 1), 1), s1);
    var j1 := Join([CHILD, CHILD], Visiting(0), [], 0);
    var s2 := State([CHILD_FENCE, FIRST, ZERO_FENCE], map[1 := j1], map[]);
    run := [] + [CreateFence(0, Key(1, 1), 1)];
    Extend(s0, run, Begin(1, Key(2, 1), 1, [CHILD, CHILD]), s2);
    run := run + [Begin(1, Key(2, 1), 1, [CHILD, CHILD])];
    var s3 := State([Listing(1, INVALID_PARENT, 1, false), FIRST, ZERO_FENCE], map[1 := j1.(phase := Visiting(1))], map[]);
    assert AppendParent(CHILD_FENCE, 1) == Listing(1, INVALID_PARENT, 1, false);
    Extend(s0, run, Visit(1, CHILD), s3);
    run := run + [Visit(1, CHILD)];
    SecondVisits(s0, run);
    run := run + [Begin(2, Key(3, 1), 1, [CHILD])] + [Visit(2, CHILD)] + [FinishVisits(2)];
  }

  lemma StartsEmpty(s: State)
    requires |s.t| < U32_LIMIT
    ensures ValidRun(s, []) && After(s, []) == s
  {
  }

  lemma SecondVisits(s0: State, run: seq<Step>)
    requires |s0.t| < U32_LIMIT && ValidRun(s0, run)
    requires After(s0, run) == State([Listing(1, INVALID_PARENT, 1, false), FIRST, ZERO_FENCE],
                                     map[1 := Join([CHILD, CHILD], Visiting(1), [], 0)], map[])
    ensures var run' := run + [Begin(2, Key(3, 1), 1, [CHILD])] + [Visit(2, CHILD)] + [FinishVisits(2)];
            && ValidRun(s0, run')
            && After(s0, run') == State([Listing(1, 2, 2, false), FIRST, SECOND],
                                     map[1 := Join([CHILD, CHILD], Visiting(1), [], 0), 2 := Join([CHILD], Registered, [], 0)], map[])
  {
    hide ValidRun, After;
    var j1, j2 := Join([CHILD, CHILD], Visiting(1), [], 0), Join([CHILD], Visiting(0), [], 0);
    var s4 := State([Listing(1, INVALID_PARENT, 1, false), FIRST, SECOND], map[1 := j1, 2 := j2], map[]);
    Extend(s0, run, Begin(2, Key(3, 1), 1, [CHILD]), s4);
    var run4 := run + [Begin(2, Key(3, 1), 1, [CHILD])];
    var s5 := State([Listing(1, 2, 2, false), FIRST, SECOND], map[1 := j1, 2 := j2.(phase := Visiting(1))], map[]);
    assert AppendParent(Listing(1, INVALID_PARENT, 1, false), 2) == Listing(1, 2, 2, false);
    Extend(s0, run4, Visit(2, CHILD), s5);
    var run5 := run4 + [Visit(2, CHILD)];
    var s6 := State([Listing(1, 2, 2, false), FIRST, SECOND], map[1 := j1, 2 := j2.(phase := Registered)], map[]);
    Extend(s0, run5, FinishVisits(2), s6);
  }

  /** Two arrays share a child, and the one that came first gives up after the other has registered: the
      other has lost its entry, and though its one child has signaled, it waits for ever. */
  lemma OverlapStrands() returns (s0: State, run: seq<Step>)
    ensures Initial(s0) && ValidRun(s0, run)
    ensures var s := After(s0, run);
            && Stranded(s, 2) && 2 < |s.t| && s.t[2].pendingChildCnt == 1
            && forall q: nat | q < |s.joins[2].children| :: Settled(s, 2, s.joins[2].children[q])
  {
    hide ValidRun, After;
    s0, run := SecondRegisters();
    RollbackLoses(s0, run);
    run := run + [Abort(1)] + [RollbackOne(1, CHILD)];
    ChildSignals(s0, run);
    run := run + [SignalChild(0)] + [CountDown(0)] + [FinishSignal(0)];
  }

  lemma RollbackLoses(s0: State, run: seq<Step>)
    requires |s0.t| < U32_LIMIT && ValidRun(s0, run)
    requires After(s0, run) == State([Listing(1, 2, 2, false), FIRST, SECOND],
                                     map[1 := Join([CHILD, CHILD], Visiting(1), [], 0), 2 := Join([CHILD], Registered, [], 0)], map[])
    ensures var run' := run + [Abort(1)] + [RollbackOne(1, CHILD)];
            && ValidRun(s0, run')
            && After(s0, run') == State([Listing(INVALID_PARENT, 2, 1, false), FIRST, SECOND],
                                     map[1 := Join([CHILD, CHILD], RollingBack(1), [], 0), 2 := Join([CHILD], Registered, [], 1)], map[])
  {
    hide ValidRun, After, RolledBack;
    var s7 := State([Listing(1, 2, 2, false), FIRST, SECOND],
                    map[1 := Join([CHILD, CHILD], RollingBack(2), [], 0), 2 := Join([CHILD], Registered, [], 0)], map[]);
    Extend(s0, run, Abort(1), s7);
    RolledBackOnce(s7);
    Extend(s0, run + [Abort(1)], RollbackOne(1, CHILD), RolledBack(s7, 1, CHILD));
  }

  lemma RolledBackOnce(s: State)
    requires s == State([Listing(1, 2, 2, false), FIRST, SECOND],
                        map[1 := Join([CHILD, CHILD], RollingBack(2), [], 0), 2 := Join([CHILD], Registered, [], 0)], map[])
    ensures CanRollBack(s, 1, CHILD)
    ensures RolledBack(s, 1, CHILD) ==
            State([Listing(INVALID_PARENT, 2, 1, false), FIRST, SECOND],
                  map[1 := Join([CHILD, CHILD], RollingBack(1), [], 0), 2 := Join([CHILD], Registered, [], 1)], map[])
  {
    hide DropParents, Owed, LostAt;
    DropsFirst(Listing(1, 2, 2, false));
    var s' := RolledBack(s, 1, CHILD);
    assert s'.t == [Listing(INVALID_PARENT, 2, 1, false), FIRST, SECOND];
    LosesSecond(s, State(s'.t, s.joins, s.draining));
    assert s'.joins == map[1 := Join([CHILD, CHILD], RollingBack(1), [], 0), 2 := Join([CHILD], Registered, [], 1)];
  }

  lemma DropsFirst(f: HwFence)
    requires f == Listing(1, 2, 2, false)
    ensures DropParents(f, 1, 2) == Listing(INVALID_PARENT, 2, 1, false)
  {
    assert DropParents(f, 1, 2) == DropParents(f, 1, 1);
  }

  lemma LosesSecond(s: State, s': State)
    requires |s.t| == |s'.t| == 3 && s.t[0] == Listing(1, 2, 2, false) && s'.t[0] == Listing(INVALID_PARENT, 2, 1, false)
    requires s.draining == s'.draining == map[]
    ensures LostAt(s, s', 0, 2) == 1
  {
    assert Owed(s.t, s.draining, 0) == [1, 2] && Owed(s'.t, s'.draining, 0) == [INVALID_PARENT];
  }

  lemma ChildSignals(s0: State, run: seq<Step>)
    requires |s0.t| < U32_LIMIT && ValidRun(s0, run)
    requires After(s0, run) == State([Listing(INVALID_PARENT, 2, 1, false), FIRST, SECOND],
                                     map[1 := Join([CHILD, CHILD], RollingBack(1), [], 0), 2 := Join([CHILD], Registered, [], 1)], map[])
    ensures var run' := run + [SignalChild(0)] + [CountDown(0)] + [FinishSignal(0)];
            && ValidRun(s0, run')
            && After(s0, run') == State([Listing(INVALID_PARENT, 2, 1, true), FIRST, SECOND],
                                     map[1 := Join([CHILD, CHILD], RollingBack(1), [], 0), 2 := Join([CHILD], Registered, [], 1)], map[])
  {
    hide ValidRun, After;
    var joins := map[1 := Join([CHILD, CHILD], RollingBack(1), [], 0), 2 := Join([CHILD], Registered, [], 1)];
    var t := [Listing(INVALID_PARENT, 2, 1, true), FIRST, SECOND];
    Extend(s0, run, SignalChild(0), State(t, joins, map[0 := 0]));
    assert Live(t[0]) == [INVALID_PARENT];
    Extend(s0, run + [SignalChild(0)], CountDown(0), State(t, joins, map[0 := 1]));
    Extend(s0, run + [SignalChild(0)] + [CountDown(0)], FinishSignal(0), State(t, joins, map[]));
  }

  // ----- Joins that complete -----

  /** A join of one child that signals later: the controller takes its count to zero, and it leaves. */
  lemma ControllerCompletes() returns (s0: State, run: seq<Step>)
    ensures Initial(s0) && ValidRun(s0, run)
    ensures After(s0, run) == State([Listing(2, INVALID_PARENT, 1, true), ZERO_FENCE, SECOND.(pendingChildCnt := 0)],
                                    map[2 := Join([CHILD], Registered, [Controller], 0)], map[])
    ensures ValidRun(s0, run + [Retire(2)])
    ensures After(s0, run + [Retire(2)]) == State([Listing(2, INVALID_PARENT, 1, true), ZERO_FENCE, CLEAN_FENCE], map[], map[])
  {
    hide ValidRun, After;
    s0, run := OneRegisters();
    OneIsCountedDown(s0, run);
    run := run + [SignalChild(0)] + [CountDown(0)] + [FinishSignal(0)];
    Extend(s0, run, Retire(2), State([Listing(2, INVALID_PARENT, 1, true), ZERO_FENCE, CLEAN_FENCE], map[], map[]));
  }

  lemma OneRegisters() returns (s0: State, run: seq<Step>)
    ensures Initial(s0) && ValidRun(s0, run)
    ensures After(s0, run) == State([Listing(2, INVALID_PARENT, 1, false), ZERO_FENCE, SECOND],
                                    map[2 := Join([CHILD], Registered, [], 0)], map[])
  {
    hide ValidRun, After;
    s0 := State([ZERO_FENCE, ZERO_FENCE, ZERO_FENCE], map[], map[]);
    var j := Join([CHILD], Visiting(0), [], 0);
    StartsEmpty(s0);
    Extend(s0, [], CreateFence(0, Key(1, 1), 1), State([CHILD_FENCE, ZERO_FENCE, ZERO_FENCE], map[], map[]));
    run := [] + [CreateFence(0, Key(1, 1), 1)];
    Extend(s0, run, Begin(2, Key(3, 1), 1, [CHILD]), State([CHILD_FENCE, ZERO_FENCE, SECOND], map[2 := j], map[]));
    run := run + [Begin(2, Key(3, 1), 1, [CHILD])];
    assert AppendParent(CHILD_FENCE, 2) == Listing(2, INVALID_PARENT, 1, false);
    Extend(s0, run, Visit(2, CHILD),
           State([Listing(2, INVALID_PARENT, 1, false), ZERO_FENCE, SECOND], map[2 := j.(phase := Visiting(1))], map[]));
    run := run + [Visit(2, CHILD)];
    Extend(s0, run, FinishVisits(2),
           State([Listing(2, INVALID_PARENT, 1, false), ZERO_FENCE, SECOND], map[2 := j.(phase := Registered)], map[]));
    run := run + [FinishVisits(2)];
  }

  lemma OneIsCountedDown(s0: State, run: seq<Step>)
    requires |s0.t| < U32_LIMIT && ValidRun(s0, run)
    requires After(s0, run) == State([Listing(2, INVALID_PARENT, 1, false), ZERO_FENCE, SECOND],
                                     map[2 := Join([CHILD], Registered, [], 0)], map[])
    ensures var run' := run + [SignalChild(0)] + [CountDown(0)] + [FinishSignal(0)];
            && ValidRun(s0, run')
            && After(s0, run') == State([Listing(2, INVALID_PARENT, 1, true), ZERO_FENCE, SECOND.(pendingChildCnt := 0)],
                                        map[2 := Join([CHILD], Registered, [Controller], 0)], map[])
  {
    hide ValidRun, After, CountedDown;
    var f := Listing(2, INVALID_PARENT, 1, true);
    var j := Join([CHILD], Registered, [], 0);
    assert Live(f) == [2];
    Extend(s0, run, SignalChild(0), State([f, ZERO_FENCE, SECOND], map[2 := j], map[0 := 0]));
    CountsDown(s0, run + [SignalChild(0)], f, j);
    Extend(s0, run + [SignalChild(0)] + [CountDown(0)], FinishSignal(0),
           State([f, ZERO_FENCE, SECOND.(pendingChildCnt := 0)], map[2 := j.(zeroBy := [Controller])], map[]));
  }

  lemma CountsDown(s0: State, run: seq<Step>, f: HwFence, j: Join)
    requires |s0.t| < U32_LIMIT && ValidRun(s0, run) && Live(f) == [2] && j.zeroBy == []
    requires After(s0, run) == State([f, ZERO_FENCE, SECOND], map[2 := j], map[0 := 0])
    ensures ValidRun(s0, run + [CountDown(0)])
    ensures After(s0, run + [CountDown(0)]) ==
            State([f, ZERO_FENCE, SECOND.(pendingChildCnt := 0)], map[2 := j.(zeroBy := [Controller])], map[0 := 1])
  {
    hide ValidRun, After, CountedDown, Live;
    var s := State([f, ZERO_FENCE, SECOND], map[2 := j], map[0 := 0]);
    SecondCountedDown(s, j, Controller);
    Extend(s0, run, CountDown(0),
           State([f, ZERO_FENCE, SECOND.(pendingChildCnt := 0)], map[2 := j.(zeroBy := [Controller])], map[0 := 1]));
  }

  /** A join of one child that has signaled already: its driver takes the count to zero, signals, and the join
      leaves. */
  lemma DriverCompletes() returns (s0: State, run: seq<Step>)
    ensures Initial(s0) && ValidRun(s0, run)
    ensures After(s0, run) == State([CHILD_FENCE.(signaled := true), ZERO_FENCE, SECOND.(pendingChildCnt := 0)],
                                    map[2 := Join([CHILD], Signaling, [Driver], 0)], map[])
    ensures ValidRun(s0, run + [DriverSignals(2)])
    ensures After(s0, run + [DriverSignals(2)]) == State([CHILD_FENCE.(signaled := true), ZERO_FENCE, CLEAN_FENCE], map[], map[])
  {
    hide ValidRun, After;
    s0 := State([ZERO_FENCE, ZERO_FENCE, ZERO_FENCE], map[], map[]);
    StartsEmpty(s0);
    var f := CHILD_FENCE.(signaled := true);
    assert Live(f) == [];
    Extend(s0, [], CreateFence(0, Key(1, 1), 1), State([CHILD_FENCE, ZERO_FENCE, ZERO_FENCE], map[], map[]));
    run := [] + [CreateFence(0, Key(1, 1), 1)];
    Extend(s0, run, SignalChild(0), State([f, ZERO_FENCE, ZERO_FENCE], map[], map[0 := 0]));
    run := run + [SignalChild(0)];
    Extend(s0, run, FinishSignal(0), State([f, ZERO_FENCE, ZERO_FENCE], map[], map[]));
    run := run + [FinishSignal(0)];
    DriverVisits(s0, run);
    run := run + [Begin(2, Key(3, 1), 1, [CHILD])] + [Visit(2, CHILD)] + [FinishVisits(2)];
    Extend(s0, run, DriverSignals(2), State([f, ZERO_FENCE, CLEAN_FENCE], map[], map[]));
  }

  lemma DriverVisits(s0: State, run: seq<Step>)
    requires |s0.t| < U32_LIMIT && ValidRun(s0, run)
    requires After(s0, run) == State([CHILD_FENCE.(signaled := true), ZERO_FENCE, ZERO_FENCE], map[], map[])
    ensures var run' := run + [Begin(2, Key(3, 1), 1, [CHILD])] + [Visit(2, CHILD)] + [FinishVisits(2)];
            && ValidRun(s0, run')
            && After(s0, run') == State([CHILD_FENCE.(signaled := true), ZERO_FENCE, SECOND.(pendingChildCnt := 0)],
                                        map[2 := Join([CHILD], Signaling, [Driver], 0)], map[])
  {
    hide ValidRun, After, CountedDown;
    var f := CHILD_FENCE.(signaled := true);
    var j := Join([CHILD], Visiting(0), [], 0);
    Extend(s0, run, Begin(2, Key(3, 1), 1, [CHILD]), State([f, ZERO_FENCE, SECOND], map[2 := j], map[]));
    var run1 := run + [Begin(2, Key(3, 1), 1, [CHILD])];
    var t := [f, ZERO_FENCE, SECOND.(pendingChildCnt := 0)];
    SecondCountedDown(State([f, ZERO_FENCE, SECOND], map[2 := j], map[]), j, Driver);
    Extend(s0, run1, Visit(2, CHILD), State(t, map[2 := j.(phase := Visiting(1), zeroBy := [Driver])], map[]));
    var run2 := run1 + [Visit(2, CHILD)];
    Extend(s0, run2, FinishVisits(2), State(t, map[2 := j.(phase := Signaling, zeroBy := [Driver])], map[]));
  }

  /** The one child of the second join is counted down. */
  lemma SecondCountedDown(s: State, j: Join, who: Party)
    requires |s.t| == 3 && s.t[2] == SECOND && s.joins == map[2 := j] && j.zeroBy == []
    ensures CountedDown(s, 2, who) ==
            State([s.t[0], s.t[1], SECOND.(pendingChildCnt := 0)], map[2 := j.(zeroBy := [who])], s.draining)
  {
    assert WrapU32(SECOND.pendingChildCnt - 1) == 0;
    assert s.t[2 := SECOND.(pendingChildCnt := 0)] == [s.t[0], s.t[1], SECOND.(pendingChildCnt := 0)];
    assert j.zeroBy + [who] == [who];
  }
}
