/** The lock word that the processors of this virtual machine share with a second one: exclusive
    loads and stores on this side; the other side atomically sets its bit, enters if this side's
    bit was clear, and otherwise sleeps until it is signaled. */
module InterVmLock {

  // ----- The word: bit 0 is ours, bit 1 theirs -----

  predicate Ours(w: bv32) { w & 1 != 0 }

  predicate Theirs(w: bv32) { w & 2 != 0 }

  function WithoutOurs(w: bv32): bv32 { w & 0xFFFF_FFFE }

  function WithTheirs(w: bv32): bv32 { w | 2 }

  function WithoutTheirs(w: bv32): bv32 { w & 0xFFFF_FFFD }

  predicate TwoBits(w: bv32) { w <= 3 }

  lemma BitsOfOurs(w: bv32)
    ensures !Ours(WithoutOurs(w)) && (Theirs(WithoutOurs(w)) <==> Theirs(w))
    ensures TwoBits(w) ==> TwoBits(WithoutOurs(w))
  {
  }

  lemma BitsOfTheirs(w: bv32)
    ensures Theirs(WithTheirs(w)) && (Ours(WithTheirs(w)) <==> Ours(w))
    ensures TwoBits(w) ==> TwoBits(WithTheirs(w))
  {
  }

  lemma BitsWithoutTheirs(w: bv32)
    ensures !Theirs(WithoutTheirs(w)) && (Ours(WithoutTheirs(w)) <==> Ours(w))
    ensures TwoBits(w) ==> TwoBits(WithoutTheirs(w))
  {
  }

  lemma BitsOfNone(w: bv32)
    ensures TwoBits(0) && TwoBits(1) && Ours(1) && !Theirs(1)
    ensures TwoBits(w) ==> (w == 0 <==> !Ours(w) && !Theirs(w))
  {
  }

  lemma Bits(w: bv32)
    ensures TwoBits(0) && TwoBits(1) && Ours(1) && !Theirs(1)
    ensures !Ours(WithoutOurs(w)) && (Theirs(WithoutOurs(w)) <==> Theirs(w))
    ensures Theirs(WithTheirs(w)) && (Ours(WithTheirs(w)) <==> Ours(w))
    ensures !Theirs(WithoutTheirs(w)) && (Ours(WithoutTheirs(w)) <==> Ours(w))
    ensures TwoBits(w) ==> TwoBits(WithoutOurs(w)) && TwoBits(WithTheirs(w)) && TwoBits(WithoutTheirs(w))
    ensures TwoBits(w) ==> (w == 0 <==> !Ours(w) && !Theirs(w))
  {
    hide *;
    BitsOfNone(w);
    BitsOfOurs(w);
    BitsOfTheirs(w);
    BitsWithoutTheirs(w);
  }

  /** Where a processor is, from `_lock` to the end of `_unlock`. */
  datatype Cpu =
    | Outside
    | LoadedForLock
    | Inside
    | LoadedForUnlock(v: bv32)
    | Cleared
    | Signaling

  datatype OtherVm = Away | Waiting | Entered

  /** `reserved` are the processors whose exclusive monitor is armed: any store to the word disarms
      every monitor. `wake` is a signal that the other machine has not yet taken. */
  datatype State = State(word: bv32, cpus: seq<Cpu>, reserved: set<nat>, other: OtherVm, wake: bool)

  datatype Step =
    | LoadForLock(c: nat)
    | StoreForLock(c: nat)
    | LoadForUnlock(c: nat)
    | StoreForUnlock(c: nat)
    | LoseReservation(c: nat)
    | ReadBack(c: nat)
    | Signal(c: nat)
    | OtherRequests
    | OtherWakes
    | OtherReleases

  predicate Enabled(s: State, a: Step) {
    match a
    case LoadForLock(c) => c < |s.cpus| && s.cpus[c].Outside?
    case StoreForLock(c) => c < |s.cpus| && s.cpus[c].LoadedForLock?
    case LoadForUnlock(c) => c < |s.cpus| && s.cpus[c].Inside?
    case StoreForUnlock(c) => c < |s.cpus| && s.cpus[c].LoadedForUnlock?
    case LoseReservation(c) => true
    case ReadBack(c) => c < |s.cpus| && s.cpus[c].Cleared?
    case Signal(c) => c < |s.cpus| && s.cpus[c].Signaling?
    case OtherRequests => s.other.Away?
    case OtherWakes => s.other.Waiting? && s.wake
    case OtherReleases => s.other.Entered?
  }

  /** A store that reaches memory. */
  function Stored(s: State, word: bv32): State {
    s.(word := word, reserved := {})
  }

  function At(s: State, c: nat, cpu: Cpu): (s': State)
    requires c < |s.cpus|
  {
    s.(cpus := s.cpus[c := cpu])
  }

  function Do(s: State, a: Step): (s': State)
    requires Enabled(s, a)
    ensures |s'.cpus| == |s.cpus|
  {
    match a
    case LoadForLock(c) =>
      At(s, c, if s.word != 0 then Outside else LoadedForLock).(reserved := s.reserved + {c})
    case StoreForLock(c) =>
      if c in s.reserved then At(Stored(s, 1), c, Inside) else At(s, c, Outside)
    case LoadForUnlock(c) => At(s, c, LoadedForUnlock(s.word)).(reserved := s.reserved + {c})
    case StoreForUnlock(c) =>
      if c in s.reserved then At(Stored(s, WithoutOurs(s.cpus[c].v)), c, Cleared) else At(s, c, Inside)
    case LoseReservation(c) => s.(reserved := s.reserved - {c})
    case ReadBack(c) => At(s, c, if Theirs(s.word) then Signaling else Outside)
    case Signal(c) => At(s, c, Outside).(wake := true)
    case OtherRequests =>
      Stored(s, WithTheirs(s.word)).(other := if !Ours(s.word) then Entered else Waiting)
    case OtherWakes => s.(wake := false, other := if !Ours(s.word) then Entered else Waiting)
    case OtherReleases => Stored(s, WithoutTheirs(s.word)).(other := Away)
  }

  // ----- What every step keeps -----

  /** From the store that takes the lock to the one that gives it back. */
  predicate Holds(cpu: Cpu) {
    cpu.Inside? || cpu.LoadedForUnlock?
  }

  predicate HolderInv(s: State) {
    && (forall c, d | 0 <= c < |s.cpus| && 0 <= d < |s.cpus| && Holds(s.cpus[c]) && Holds(s.cpus[d]) :: c == d)
    && (Ours(s.word) <==> exists c :: 0 <= c < |s.cpus| && Holds(s.cpus[c]))
  }

  predicate WordInv(s: State) {
    && TwoBits(s.word)
    && (Theirs(s.word) <==> !s.other.Away?)
    && (s.other.Entered? ==> !Ours(s.word))
  }

  /** An armed monitor means that the word is still what was loaded. */
  predicate MonitorInv(s: State) {
    forall c | 0 <= c < |s.cpus| && c in s.reserved ::
      match s.cpus[c]
      case LoadedForLock => s.word == 0
      case LoadedForUnlock(v) => s.word == v
      case _ => true
  }

  /** A processor that will still signal the other machine, or find out that it has to. */
  predicate WillSignal(cpu: Cpu) {
    cpu.Cleared? || cpu.Signaling?
  }

  /** Nobody sleeps on a free lock without a signal on its way. */
  predicate WakeInv(s: State) {
    s.other.Waiting? && !Ours(s.word) ==>
      s.wake || exists c :: 0 <= c < |s.cpus| && WillSignal(s.cpus[c])
  }

  predicate Inv(s: State) {
    HolderInv(s) && WordInv(s) && MonitorInv(s) && WakeInv(s)
  }

  lemma MonitorsKept(s: State, a: Step)
    requires Inv(s) && Enabled(s, a)
    ensures MonitorInv(Do(s, a))
  {
    hide Ours, Theirs, WithoutOurs, WithTheirs, WithoutTheirs, TwoBits;
  }

  lemma WordKept(s: State, a: Step)
    requires Inv(s) && Enabled(s, a)
    ensures WordInv(Do(s, a))
  {
    hide Ours, Theirs, WithoutOurs, WithTheirs, WithoutTheirs, TwoBits;
    Bits(s.word);
  }

  lemma HolderKeptByStore(s: State, a: Step, c: nat)
    requires Inv(s) && Enabled(s, a) && (a == StoreForLock(c) || a == StoreForUnlock(c)) && c in s.reserved
    ensures HolderInv(Do(s, a))
  {
    hide Ours, Theirs, WithoutOurs, WithTheirs, WithoutTheirs, TwoBits;
    Bits(s.word);
    var s' := Do(s, a);
    assert Holds(s.cpus[c]) || a.StoreForLock?;
    assert Holds(s'.cpus[c]) <==> a.StoreForLock?;
  }

  /** Nobody holds while bit 0 is clear; while it is set, exactly one does. */
  lemma HolderKept(s: State, a: Step)
    requires Inv(s) && Enabled(s, a)
    ensures HolderInv(Do(s, a))
  {
    if (a.StoreForLock? || a.StoreForUnlock?) && a.c in s.reserved {
      HolderKeptByStore(s, a, a.c);
    } else {
      HolderKeptByOthers(s, a);
    }
  }

  lemma HolderKeptByOthers(s: State, a: Step)
    requires Inv(s) && Enabled(s, a)
    requires (a.StoreForLock? || a.StoreForUnlock?) ==> a.c !in s.reserved
    ensures HolderInv(Do(s, a))
  {
    hide Ours, Theirs, WithoutOurs, WithTheirs, WithoutTheirs, TwoBits;
    Bits(s.word);
    var s' := Do(s, a);
    assert forall c | 0 <= c < |s.cpus| :: Holds(s.cpus[c]) <==> Holds(s'.cpus[c]);
  }

  lemma WakeKept(s: State, a: Step)
    requires Inv(s) && Enabled(s, a)
    ensures WakeInv(Do(s, a))
  {
    hide Ours, Theirs, WithoutOurs, WithTheirs, WithoutTheirs, TwoBits, HolderInv, MonitorInv;
    Bits(s.word);
    var s' := Do(s, a);
    if a.StoreForUnlock? && a.c in s.reserved {
      assert WillSignal(s'.cpus[a.c]);
    } else if a.ReadBack? {
      assert Theirs(s.word) ==> WillSignal(s'.cpus[a.c]);
    } else if !a.Signal? {
      assert forall c | 0 <= c < |s.cpus| :: WillSignal(s.cpus[c]) ==> WillSignal(s'.cpus[c]);
    }
  }

  lemma StepKeepsInv(s: State, a: Step)
    requires Inv(s) && Enabled(s, a)
    ensures Inv(Do(s, a))
  {
    MonitorsKept(s, a);
    WordKept(s, a);
    HolderKept(s, a);
    WakeKept(s, a);
  }

  // ----- Every run -----

  predicate IsRun(s: State, steps: seq<Step>)
    decreases |steps|
  {
    steps != [] ==> Enabled(s, steps[0]) && IsRun(Do(s, steps[0]), steps[1..])
  }

  function Final(s: State, steps: seq<Step>): (s': State)
    requires IsRun(s, steps)
    ensures |s'.cpus| == |s.cpus|
    decreases |steps|
  {
    if steps == [] then s else Final(Do(s, steps[0]), steps[1..])
  }

  function Initial(cpus: nat): State {
    State(0, seq(cpus, _ => Outside), {}, Away, false)
  }

  lemma {:induction false} RunKeepsInv(s: State, steps: seq<Step>)
    requires Inv(s) && IsRun(s, steps)
    ensures Inv(Final(s, steps)) && |Final(s, steps).cpus| == |s.cpus|
    decreases |steps|
  {
    hide Inv, Do, Enabled;
    if steps != [] {
      StepKeepsInv(s, steps[0]);
      RunKeepsInv(Do(s, steps[0]), steps[1..]);
    }
  }

  lemma InitialInv(cpus: nat)
    ensures Inv(Initial(cpus))
  {
    Bits(0);
  }

  /** At most one holder among the processors of both machines, at any time. */
  lemma MutualExclusion(cpus: nat, steps: seq<Step>, c: nat, d: nat)
    requires IsRun(Initial(cpus), steps) && c < cpus && d < cpus
    ensures var s := Final(Initial(cpus), steps);
            && |s.cpus| == cpus
            && (Holds(s.cpus[c]) && Holds(s.cpus[d]) ==> c == d)
            && (Holds(s.cpus[c]) ==> !s.other.Entered?)
  {
    InitialInv(cpus);
    hide Ours, Theirs, TwoBits, MonitorInv, WakeInv, Do, Enabled;
    RunKeepsInv(Initial(cpus), steps);
  }

  // ----- The lock is taken -----

  /** A store that tries to take the lock does, exactly if the processor's reservation is still armed, that
      is, if the word was free and nobody has stored to it since. Then the word says that we hold it and
      nothing else; otherwise the processor is back outside and the word as it was. */
  lemma StoreTakesIff(s: State, c: nat)
    requires Inv(s) && Enabled(s, StoreForLock(c))
    ensures var s' := Do(s, StoreForLock(c));
            && (Holds(s'.cpus[c]) <==> c in s.reserved)
            && (c in s.reserved ==> s.word == 0 && s'.word == 1 && s'.reserved == {} && Ours(s'.word) && !Theirs(s'.word))
            && (c !in s.reserved ==> s'.word == s.word && s'.cpus[c].Outside?)
            && (forall d | 0 <= d < |s.cpus| && d != c :: s'.cpus[d] == s.cpus[d])
  {
    BitsOfNone(s.word);
  }

  /** A processor that finds the word free and is not disturbed holds the lock after its load and store; one
      that finds it taken stays outside. */
  lemma LockUndisturbed(s: State, c: nat)
    requires c < |s.cpus| && s.cpus[c].Outside?
    ensures Enabled(s, LoadForLock(c))
    ensures var s1 := Do(s, LoadForLock(c));
            if s.word == 0 then
              && Enabled(s1, StoreForLock(c))
              && var s2 := Do(s1, StoreForLock(c));
                s2 == State(1, s.cpus[c := Inside], {}, s.other, s.wake) && Holds(s2.cpus[c])
            else s1.cpus == s.cpus && s1.word == s.word
  {
    hide Ours, Theirs, WithoutOurs, WithTheirs, WithoutTheirs, TwoBits;
  }

  /** The word is free exactly if nobody here holds the lock and the other machine neither holds nor wants it. */
  lemma FreeIff(s: State)
    requires Inv(s)
    ensures s.word == 0 <==> s.other.Away? && forall c | 0 <= c < |s.cpus| :: !Holds(s.cpus[c])
  {
    hide Ours, Theirs, WithoutOurs, WithTheirs, WithoutTheirs, TwoBits, Holds;
    BitsOfNone(s.word);
  }

  /** A processor of the machine takes the lock and gives it back, with nobody else about. */
  lemma LockAndUnlock(s: State, c: nat)
    requires Inv(s) && c < |s.cpus| && s.cpus[c].Outside? && s.word == 0
    ensures IsRun(s, [LoadForLock(c), StoreForLock(c)])
    ensures var s2 := Final(s, [LoadForLock(c), StoreForLock(c)]);
            && Inv(s2) && Holds(s2.cpus[c]) && s2.cpus[c].Inside?
            && Unlocked(s2, c) == State(0, s.cpus, {}, s.other, s.wake)
  {
    LockUndisturbed(s, c);
    var s1 := Do(s, LoadForLock(c));
    var s2 := Do(s1, StoreForLock(c));
    assert [LoadForLock(c), StoreForLock(c)][1..] == [StoreForLock(c)];
    assert Final(s1, [StoreForLock(c)]) == s2;
    StepKeepsInv(s, LoadForLock(c));
    StepKeepsInv(s1, StoreForLock(c));
    FreeIff(s);
    UnlockedIs(s2, c);
    assert WithoutOurs(1) == 0;
  }

  /** The other machine enters at once iff we do not hold the lock, and only that is kept waiting. */
  lemma OtherEntersIff(s: State)
    requires Inv(s) && Enabled(s, OtherRequests)
    ensures var s' := Do(s, OtherRequests);
            && (s'.other.Entered? <==> forall c | 0 <= c < |s.cpus| :: !Holds(s.cpus[c]))
            && (s'.other.Entered? || s'.other.Waiting?) && s'.cpus == s.cpus
  {
    hide Ours, Theirs, WithoutOurs, WithTheirs, WithoutTheirs, TwoBits, Holds;
  }

  /** When the other machine leaves, the word is free. */
  lemma OtherLeavesFree(s: State)
    requires Inv(s) && Enabled(s, OtherReleases)
    ensures var s' := Do(s, OtherReleases); s'.word == 0 && s'.other.Away? && s'.cpus == s.cpus
  {
    StepKeepsInv(s, OtherReleases);
    BitsWithoutTheirs(s.word);
    BitsOfNone(WithoutTheirs(s.word));
  }

  /** From the start, any processor can come to hold the lock. */
  lemma HolderIsReachable(cpus: nat, c: nat)
    requires c < cpus
    ensures IsRun(Initial(cpus), [LoadForLock(c), StoreForLock(c)])
    ensures Holds(Final(Initial(cpus), [LoadForLock(c), StoreForLock(c)]).cpus[c])
  {
    InitialInv(cpus);
    LockAndUnlock(Initial(cpus), c);
  }

  /** No step of ours touches the other machine's bit. */
  lemma RequestKept(s: State, a: Step)
    requires Inv(s) && Enabled(s, a) && !a.OtherRequests? && !a.OtherWakes? && !a.OtherReleases?
    ensures (Theirs(Do(s, a).word) <==> Theirs(s.word)) && Do(s, a).other == s.other
  {
    hide Ours, Theirs, WithoutOurs, WithTheirs, WithoutTheirs, TwoBits, HolderInv, WakeInv;
    Bits(s.word);
  }

  /** While the other machine's bit is on, nobody here takes the lock: whoever holds it afterwards
      held it before. */
  lemma {:induction false} NoOvertaking(s: State, steps: seq<Step>, c: nat)
    requires Inv(s) && !s.other.Away? && IsRun(s, steps) && OtherReleases !in steps && c < |s.cpus|
    ensures |Final(s, steps).cpus| == |s.cpus|
    ensures Holds(Final(s, steps).cpus[c]) ==> Holds(s.cpus[c])
    decreases |steps|
  {
    if steps != [] {
      var s' := Do(s, steps[0]);
      assert steps[0] in steps && OtherReleases !in steps[1..];
      StepKeepsInv(s, steps[0]);
      NobodyTakes(s, steps[0], c);
      NoOvertaking(s', steps[1..], c);
    }
  }

  lemma NobodyTakes(s: State, a: Step, c: nat)
    requires Inv(s) && !s.other.Away? && Enabled(s, a) && !a.OtherReleases? && c < |s.cpus|
    ensures !Do(s, a).other.Away?
    ensures Holds(Do(s, a).cpus[c]) ==> Holds(s.cpus[c])
  {
    hide Ours, Theirs, WithoutOurs, WithTheirs, WithoutTheirs, TwoBits, HolderInv, WakeInv;
    Bits(s.word);
  }

  /** In every run: a machine that waits while nobody here holds the lock or is giving it back has a
      signal to wake it, and then enters. */
  lemma NoLostWakeUp(cpus: nat, steps: seq<Step>)
    requires IsRun(Initial(cpus), steps) && Final(Initial(cpus), steps).other.Waiting?
    requires forall c | 0 <= c < |Final(Initial(cpus), steps).cpus| ::
               var cpu := Final(Initial(cpus), steps).cpus[c]; !Holds(cpu) && !WillSignal(cpu)
    ensures var s := Final(Initial(cpus), steps); Enabled(s, OtherWakes) && Do(s, OtherWakes).other.Entered?
  {
    hide Ours, Theirs, TwoBits, Initial, Final, IsRun;
    InitialInv(cpus);
    RunKeepsInv(Initial(cpus), steps);
  }

  /** A processor giving the lock back without being disturbed. */
  function Unlocked(s: State, c: nat): (s': State)
    requires c < |s.cpus| && s.cpus[c].Inside?
  {
    var s1 := Do(s, LoadForUnlock(c));
    var s2 := Do(s1, StoreForUnlock(c));
    Do(s2, ReadBack(c))
  }

  lemma UnlockedIs(s: State, c: nat)
    requires Inv(s) && c < |s.cpus| && s.cpus[c].Inside?
    ensures var s' := Unlocked(s, c);
            && s' == State(WithoutOurs(s.word), s.cpus[c := if s.other.Away? then Outside else Signaling],
                           {}, s.other, s.wake)
            && !Ours(s'.word)
  {
    hide Ours, Theirs, WithoutOurs, WithTheirs, WithoutTheirs, TwoBits;
    Bits(s.word);
    var s2 := Do(Do(s, LoadForUnlock(c)), StoreForUnlock(c));
    assert s2.word == WithoutOurs(s.word);
  }

  /** The holder's own way out lets a waiting machine in. */
  lemma UnlockLetsOtherIn(s: State, c: nat)
    requires Inv(s) && s.other.Waiting? && c < |s.cpus| && s.cpus[c].Inside?
    ensures var s1 := Unlocked(s, c);
            && Enabled(s1, Signal(c))
            && var s2 := Do(s1, Signal(c));
            && Enabled(s2, OtherWakes)
            && Do(s2, OtherWakes) == s1.(cpus := s.cpus[c := Outside], wake := false, other := Entered)
  {
    hide Ours, Theirs, WithoutOurs, WithTheirs, WithoutTheirs, TwoBits, Inv, Unlocked;
    UnlockedIs(s, c);
  }

  lemma {:induction false} StaysIn(s: State, steps: seq<Step>)
    requires Inv(s) && !s.other.Away? && IsRun(s, steps) && OtherReleases !in steps
    ensures !Final(s, steps).other.Away?
    decreases |steps|
  {
    hide Inv, Theirs, Ours, WithoutOurs, WithTheirs, WithoutTheirs;
    if steps != [] {
      assert steps[0] in steps && OtherReleases !in steps[1..];
      StepKeepsInv(s, steps[0]);
      StaysIn(Do(s, steps[0]), steps[1..]);
    }
  }

  /** However the unlock is disturbed, by lost reservations, by other processors or by the other machine:
      once those that held the lock when the other machine began to wait no longer do, and nobody has a
      signal left to send, the other machine is in, or has a signal that lets it in. */
  lemma AnyUnlockLetsOtherIn(s: State, steps: seq<Step>)
    requires Inv(s) && s.other.Waiting? && IsRun(s, steps) && OtherReleases !in steps
    ensures |Final(s, steps).cpus| == |s.cpus|
    ensures var s' := Final(s, steps);
            (forall c | 0 <= c < |s.cpus| :: (Holds(s.cpus[c]) ==> !Holds(s'.cpus[c])) && !WillSignal(s'.cpus[c])) ==>
              s'.other.Entered? || (Enabled(s', OtherWakes) && Do(s', OtherWakes).other.Entered?)
  {
    RunKeepsInv(s, steps);
    StaysIn(s, steps);
    var s' := Final(s, steps);
    hide Ours, Theirs, TwoBits, IsRun, Final;
    forall c | 0 <= c < |s.cpus| ensures Holds(s'.cpus[c]) ==> Holds(s.cpus[c]) {
      NoOvertaking(s, steps, c);
    }
  }
}
