/** Speculative sync fences: arrays that are created full of references to one dummy fence, are
    bound to real fences at most once, and are kept in a tracker until they are signaled or the
    device is closed. */
module SpecSync {

  const FENCE_MIN: nat := 1
  const FENCE_MAX: nat := 32
  const MAX_DEVICES: nat := 2

  const ENODEV: int := 19
  const ENOMEM: int := 12
  const EFAULT: int := 14
  const EINVAL: int := 22
  const EEXIST: int := 17
  const ERANGE: int := 34

  datatype Child = Dummy | User(id: nat)

  /** A fence array. It is released, its children put, when its last reference goes. The references
      are the tracker's, that of its file while `open`, and any number of `others`. History: how many of
      its children it has counted as signaled, and how often a forced clearing has counted it down. */
  datatype FenceArray = FenceArray(
    refs: int, open: bool, others: nat,
    fences: seq<Child>, signalAny: bool, pending: int,
    enableBit: bool, signaled: bool, error: int, bound: bool, heard: nat, forced: nat)

  /** The driver's state; `userRefs` are the references to user fences that arrays hold. */
  datatype State = State(
    available: nat, arrays: seq<FenceArray>, tracker: seq<nat>, dummyRefs: int, userRefs: multiset<nat>)

  const INITIAL: State := State(0, [], [], 1, multiset{})

  function Dummies(fences: seq<Child>): nat {
    if fences == [] then 0 else Dummies(fences[..|fences| - 1]) + if fences[|fences| - 1].Dummy? then 1 else 0
  }

  function Users(fences: seq<Child>): multiset<nat> {
    if fences == [] then multiset{}
    else Users(fences[..|fences| - 1]) + UsersIn(fences[|fences| - 1])
  }

  function UsersIn(c: Child): multiset<nat> {
    match c case Dummy => multiset{} case User(u) => multiset{u}
  }

  lemma CountNone()
    ensures Dummies([]) == 0 && Users([]) == multiset{}
  {
  }

  lemma CountOneMore(fences: seq<Child>, i: nat)
    requires i < |fences|
    ensures Dummies(fences[..i + 1]) == Dummies(fences[..i]) + if fences[i].Dummy? then 1 else 0
    ensures Users(fences[..i + 1]) == Users(fences[..i]) + UsersIn(fences[i])
  {
    assert fences[..i + 1][..i] == fences[..i];
  }

  lemma TakeTwice(all: multiset<nat>, a: multiset<nat>, b: multiset<nat>)
    ensures all - (a + b) == all - a - b
  {
  }

  function AllDummies(n: nat): seq<Child> {
    seq(n, _ => Dummy)
  }

  // ----- References and signaling -----

  function Get(s: State, x: nat): State
    requires x < |s.arrays|
  {
    s.(arrays := s.arrays[x := s.arrays[x].(refs := s.arrays[x].refs + 1)])
  }

  /** Dropping a reference; the last one releases the array. */
  function Put(s: State, x: nat): (s': State)
    requires x < |s.arrays|
    ensures |s'.arrays| == |s.arrays| && s'.tracker == s.tracker && s'.available == s.available
  {
    var a := s.arrays[x].(refs := s.arrays[x].refs - 1);
    var s' := s.(arrays := s.arrays[x := a]);
    if a.refs != 0 then s'
    else s'.(dummyRefs := s.dummyRefs - Dummies(a.fences), userRefs := s.userRefs - Users(a.fences))
  }

  function IsSignaled(a: FenceArray): bool {
    a.signaled || a.pending <= 0
  }

  /** Asking whether an array is signaled signals it if nothing is pending. */
  function Polled(a: FenceArray): FenceArray {
    a.(signaled := IsSignaled(a))
  }

  /** Counting one child down. */
  function CountedDown(a: FenceArray): FenceArray {
    a.(pending := a.pending - 1, signaled := a.signaled || a.pending == 1)
  }

  // ----- The tracker -----

  /** What clearing does to one tracked array, before the tracker drops it. */
  function Cleared(a: FenceArray, force: bool): FenceArray {
    if force && !IsSignaled(a) then CountedDown(a).(forced := a.forced + 1) else Polled(a)
  }

  predicate TrackerOk(s: State) {
    forall i | 0 <= i < |s.tracker| :: s.tracker[i] < |s.arrays|
  }

  function ClearFrom(s: State, i: nat, force: bool): (s': State)
    requires TrackerOk(s)
    ensures |s'.arrays| == |s.arrays| && s'.available == s.available && TrackerOk(s')
    decreases |s.tracker| - i
  {
    if i >= |s.tracker| then s
    else
      var x := s.tracker[i];
      var s1 := s.(arrays := s.arrays[x := Cleared(s.arrays[x], force)]);
      if force || IsSignaled(s.arrays[x])
      then ClearFrom(Put(s1, x).(tracker := s.tracker[..i] + s.tracker[i + 1..]), i, force)
      else ClearFrom(s1, i + 1, force)
  }

  lemma ClearStep(s: State, i: nat, force: bool)
    requires TrackerOk(s) && i <= |s.tracker|
    ensures i == |s.tracker| ==> ClearFrom(s, i, force) == s
    ensures i < |s.tracker| ==>
              var x := s.tracker[i];
              var s1 := s.(arrays := s.arrays[x := Cleared(s.arrays[x], force)]);
              var s2 := Put(s1, x).(tracker := s.tracker[..i] + s.tracker[i + 1..]);
              && TrackerOk(s1) && TrackerOk(s2)
              && ClearFrom(s, i, force) == if force || IsSignaled(s.arrays[x]) then ClearFrom(s2, i, force)
                                           else ClearFrom(s1, i + 1, force)
  {
  }

  // ----- Opening and closing the device -----

  function Open(s: State): (int, State) {
    if s.available >= MAX_DEVICES then (-EEXIST, s) else (0, s.(available := s.available + 1))
  }

  function Release(s: State): (int, State)
    requires TrackerOk(s)
  {
    if s.available == 0 then (-ENODEV, s)
    else
      var s' := s.(available := s.available - 1);
      (0, if s'.available == 0 then ClearFrom(s', 0, true) else s')
  }

  // ----- Creating an array -----

  /** Which of the kernel's allocations fails, if any. */
  datatype Failing = Nothing | Fd | FenceList | ArrayItself | SyncFile | Node

  function NewArray(n: nat, signalAny: bool): FenceArray {
    FenceArray(1, false, 0, AllDummies(n), signalAny, if signalAny then 1 else n, true, false, 0, false, 0, 0)
  }

  /** Only an array that makes it into the tracker takes references to the dummy fence; one whose file or
      node fails is gone again. */
  function Create(s: State, n: nat, signalAny: bool, failing: Failing): (int, State) {
    if failing.Fd? then (-EINVAL, s)
    else if n < FENCE_MIN || n > FENCE_MAX then (-ERANGE, s)
    else if failing.FenceList? then (-ENOMEM, s)
    else if failing.ArrayItself? then (-EINVAL, s)
    else if failing.SyncFile? then (-EINVAL, s.(arrays := s.arrays + [NewArray(n, signalAny).(refs := 0)]))
    else if failing.Node? then (-ENOMEM, s.(arrays := s.arrays + [NewArray(n, signalAny).(refs := 0)]))
    else (0, s.(arrays := s.arrays + [NewArray(n, signalAny).(refs := 2, open := true)],
                tracker := s.tracker + [|s.arrays|], dummyRefs := s.dummyRefs + n))
  }

  // ----- Binding -----

  /** What a file descriptor stands for: no fence, a fence of someone else's, or an array's own file. */
  datatype Target = NoFence | Foreign | ArrayFile(x: nat)

  datatype Copy = Copied | NoMemory | Fault

  /** The fence that the i-th descriptor of the caller stands for. */
  datatype Lookup = Missing | Found(id: nat)

  function FdAt(fds: seq<Lookup>, i: nat): Lookup {
    if i < |fds| then fds[i] else Missing
  }

  /** How many of the descriptors, from the first on, stand for fences. */
  function GoodFds(fds: seq<Lookup>, i: nat, n: nat): (k: nat)
    requires i <= n
    ensures i <= k <= n
    decreases n - i
  {
    if i < n && FdAt(fds, i).Found? then GoodFds(fds, i + 1, n) else i
  }

  /** Switching signaling on counts the children down that are signaled already. */
  function Enabled(a: FenceArray, signaledChildren: nat): FenceArray {
    var pending := if a.pending > signaledChildren then a.pending - signaledChildren else 0;
    a.(enableBit := true, pending := if a.pending <= 0 then a.pending else pending,
       signaled := a.signaled || a.pending <= signaledChildren, heard := signaledChildren)
  }

  /** One child replaced: a reference goes from the dummy fence to the caller's fence. */
  function FillOne(s: State, x: nat, i: nat, id: nat): (s': State)
    requires x < |s.arrays| && i < |s.arrays[x].fences|
    ensures |s'.arrays| == |s.arrays| && |s'.arrays[x].fences| == |s.arrays[x].fences|
  {
    s.(arrays := s.arrays[x := s.arrays[x].(fences := s.arrays[x].fences[i := User(id)])],
       dummyRefs := s.dummyRefs - 1, userRefs := s.userRefs + multiset{id})
  }

  /** The loop over the caller's fences, from child `i` on, up to the first descriptor without one. */
  function FillFrom(s: State, x: nat, fds: seq<Lookup>, i: nat): (s': State)
    requires x < |s.arrays| && i <= |s.arrays[x].fences|
    ensures |s'.arrays| == |s.arrays| && |s'.arrays[x].fences| == |s.arrays[x].fences|
    ensures s'.tracker == s.tracker
    decreases |s.arrays[x].fences| - i
  {
    if i < |s.arrays[x].fences| && FdAt(fds, i).Found? then FillFrom(FillOne(s, x, i, FdAt(fds, i).id), x, fds, i + 1)
    else s
  }

  predicate AllDummy(fences: seq<Child>) {
    forall i | 0 <= i < |fences| :: fences[i].Dummy?
  }

  /** After the checks have passed. If a descriptor is bad the array stays half filled, but is marked
      bound, signaled with an error, and dropped from the tracker. */
  function BindChecked(s: State, x: nat, fds: seq<Lookup>, signaledChildren: nat): (r: (int, State))
    requires x < |s.arrays| && TrackerOk(s)
    ensures |r.1.arrays| == |s.arrays| && TrackerOk(r.1)
  {
    var s1 := FillFrom(s, x, fds, 0);
    var a := s1.arrays[x];
    if GoodFds(fds, 0, |a.fences|) == |a.fences| then
      var s2 := ClearFrom(s1.(arrays := s1.arrays[x := Enabled(a, signaledChildren)]), 0, false);
      (0, s2.(arrays := s2.arrays[x := s2.arrays[x].(bound := true)]))
    else
      (-EINVAL, ClearFrom(s1.(arrays := s1.arrays[x := a.(bound := true, error := -EINVAL, signaled := true)]), 0, false))
  }

  function Bind(s: State, out: Target, copy: Copy, fds: seq<Lookup>, signaledChildren: nat): (r: (int, State))
    requires TrackerOk(s) && (out.ArrayFile? ==> out.x < |s.arrays|)
    ensures TrackerOk(r.1)
  {
    match out
    case NoFence => (-EINVAL, s)
    case Foreign => (-EINVAL, s)
    case ArrayFile(x) =>
      var got := Get(s, x);
      var s1 := got.(arrays := got.arrays[x := Polled(got.arrays[x])]);
      var r :=
        if s1.arrays[x].signaled || x !in s1.tracker || !AllDummy(s1.arrays[x].fences) then (-EINVAL, s1)
        else if copy.NoMemory? then (-ENOMEM, s1)
        else if copy.Fault? then (-EFAULT, s1)
        else BindChecked(s1, x, fds, signaledChildren);
      (r.0, Put(r.1, x))
  }

  // ----- The driver -----

  /** Before the new array is tracked. */
  function WithArray(s: State, n: nat, a: FenceArray): State {
    s.(arrays := s.arrays + [a], dummyRefs := s.dummyRefs + n)
  }

  /** Dropping all references to an array that is not yet tracked undoes those to the dummy. */
  lemma AbandonedIsGone(s: State, n: nat, signalAny: bool)
    ensures var a, x := NewArray(n, signalAny), |s.arrays|;
            var gone := s.(arrays := s.arrays + [a.(refs := 0)]);
            && Put(WithArray(s, n, a), x) == gone
            && Put(Put(WithArray(s, n, a.(refs := 2)), x), x) == gone
  {
    CountAllDummies(n);
    assert s.userRefs - multiset{} == s.userRefs;
    hide Dummies, Users, AllDummies;
  }

  lemma CreateIs(s: State, n: nat, signalAny: bool, failing: Failing)
    requires FENCE_MIN <= n <= FENCE_MAX && (failing.Nothing? || failing.SyncFile? || failing.Node?)
    ensures var a := NewArray(n, signalAny);
            Create(s, n, signalAny, failing) ==
            if failing.Nothing? then
              (0, WithArray(s, n, a.(refs := 2, open := true)).(tracker := s.tracker + [|s.arrays|]))
            else (if failing.SyncFile? then -EINVAL else -ENOMEM, s.(arrays := s.arrays + [a.(refs := 0)]))
  {
  }

  class SyncDevice {
    var available: nat
    var arrays: seq<FenceArray>
    var tracker: seq<nat>
    var dummyRefs: int
    var userRefs: multiset<nat>

    constructor ()
      ensures Now() == INITIAL
    {
      available, arrays, tracker, dummyRefs, userRefs := 0, [], [], 1, multiset{};
    }

    function Now(): State
      reads this
    {
      State(available, arrays, tracker, dummyRefs, userRefs)
    }

    /** `dma_fence_put` of an array, with the array's own release. */
    method PutArray(x: nat)
      requires x < |arrays|
      modifies this
      ensures Now() == Put(old(Now()), x)
    {
      hide Dummies, Users;
      var a := arrays[x].(refs := arrays[x].refs - 1);
      arrays := arrays[x := a];
      if a.refs == 0 {
        PutChildren(a.fences);
      }
    }

    method PutChildren(fences: seq<Child>)
      modifies this`dummyRefs, this`userRefs
      ensures dummyRefs == old(dummyRefs) - Dummies(fences) && userRefs == old(userRefs) - Users(fences)
    {
      hide Dummies, Users;
      CountNone();
      assert fences[..0] == [];
      var i := 0;
      while i < |fences|
        invariant 0 <= i <= |fences|
        invariant dummyRefs == old(dummyRefs) - Dummies(fences[..i])
        invariant userRefs == old(userRefs) - Users(fences[..i])
      {
        CountOneMore(fences, i);
        TakeTwice(old(userRefs), Users(fences[..i]), UsersIn(fences[i]));
        match fences[i] {
          case Dummy => dummyRefs := dummyRefs - 1;
          case User(u) => userRefs := userRefs - multiset{u};
        }
        i := i + 1;
      }
      assert fences[..i] == fences;
    }

    /** `clear_fence_array_tracker` */
    method ClearTracker(force: bool)
      requires TrackerOk(Now())
      modifies this
      ensures Now() == ClearFrom(old(Now()), 0, force)
    {
      hide Put, ClearFrom, Dummies, Users;
      var i := 0;
      while i < |tracker|
        invariant 0 <= i <= |tracker| && TrackerOk(Now())
        invariant ClearFrom(Now(), i, force) == ClearFrom(old(Now()), 0, force)
        decreases |tracker| - i
      {
        ghost var s := Now();
        var x := tracker[i];
        var isSignaled := IsSignaled(arrays[x]);
        arrays := arrays[x := Polled(arrays[x])];
        if force && !isSignaled {
          var a := arrays[x].(pending := arrays[x].pending - 1, forced := arrays[x].forced + 1);
          if a.pending == 0 {
            a := a.(signaled := true);
          }
          arrays := arrays[x := a];
        }
        assert arrays == s.arrays[x := Cleared(s.arrays[x], force)];
        ClearStep(s, i, force);
        if force || isSignaled {
          PutArray(x);
          tracker := tracker[..i] + tracker[i + 1..];
        } else {
          i := i + 1;
        }
      }
      ClearStep(Now(), i, force);
    }

    /** `sanitize_fence_array` */
    method IsTracked(x: nat) returns (found: bool)
      ensures found <==> x in tracker
    {
      var i := 0;
      while i < |tracker|
        invariant 0 <= i <= |tracker| && x !in tracker[..i]
      {
        if tracker[i] == x {
          return true;
        }
        i := i + 1;
      }
      found := false;
    }

    /** `spec_sync_open` */
    method OpenDevice() returns (ret: int)
      modifies this
      ensures (ret, Now()) == Open(old(Now()))
    {
      if available >= MAX_DEVICES {
        return -EEXIST;
      }
      available := available + 1;
      ret := 0;
    }

    /** `spec_sync_release` */
    method ReleaseDevice() returns (ret: int)
      requires TrackerOk(Now())
      modifies this
      ensures (ret, Now()) == Release(old(Now()))
    {
      if available == 0 {
        return -ENODEV;
      }
      available := available - 1;
      if available == 0 {
        ClearTracker(true);
      }
      ret := 0;
    }

    /** `spec_sync_create_array` */
    method CreateArray(n: nat, signalAny: bool, failing: Failing) returns (ret: int)
      modifies this
      ensures (ret, Now()) == Create(old(Now()), n, signalAny, failing)
    {
      if failing.Fd? {
        return -EINVAL;
      }
      if n < FENCE_MIN || n > FENCE_MAX {
        return -ERANGE;
      }
      if failing.FenceList? {
        return -ENOMEM;
      }
      ghost var s := Now();
      var fences := TakeDummies(n);
      if failing.ArrayItself? {
        DropDummies(n);
        return -EINVAL;
      }
      ret := Install(fences, signalAny, failing, s);
    }

    method TakeDummies(n: nat) returns (fences: seq<Child>)
      modifies this`dummyRefs
      ensures dummyRefs == old(dummyRefs) + n && fences == AllDummies(n)
    {
      fences := [];
      var i := 0;
      while i < n
        invariant 0 <= i <= n && fences == AllDummies(i) && dummyRefs == old(dummyRefs) + i
      {
        fences := fences + [Dummy];
        dummyRefs := dummyRefs + 1;
        i := i + 1;
      }
    }

    method DropDummies(n: nat)
      modifies this`dummyRefs
      ensures dummyRefs == old(dummyRefs) - n
    {
      var i := 0;
      while i < n
        invariant 0 <= i <= n && dummyRefs == old(dummyRefs) - i
      {
        dummyRefs := dummyRefs - 1;
        i := i + 1;
      }
    }

    /** The second half of a creation, from state `s` on plus the references taken since. */
    method Install(fences: seq<Child>, signalAny: bool, failing: Failing, ghost s: State) returns (ret: int)
      requires Now() == s.(dummyRefs := s.dummyRefs + |fences|) && fences == AllDummies(|fences|)
      requires FENCE_MIN <= |fences| <= FENCE_MAX && (failing.Nothing? || failing.SyncFile? || failing.Node?)
      modifies this
      ensures (ret, Now()) == Create(s, |fences|, signalAny, failing)
    {
      var n, x := |fences|, |arrays|;
      AbandonedIsGone(s, n, signalAny);
      CreateIs(s, n, signalAny, failing);
      hide Put, Dummies, Users, AllDummies, Create;
      arrays := arrays + [FenceArray(1, false, 0, fences, signalAny, if signalAny then 1 else n, true, false, 0, false, 0, 0)];
      assert Now() == WithArray(s, n, NewArray(n, signalAny));
      hide NewArray;
      if failing.SyncFile? {
        PutArray(x);
        return -EINVAL;
      }
      if failing.Node? {
        arrays := arrays[x := arrays[x].(refs := 2)];
        assert Now() == WithArray(s, n, NewArray(n, signalAny).(refs := 2));
        PutArray(x);
        PutArray(x);
        return -ENOMEM;
      }
      arrays := arrays[x := arrays[x].(refs := 2, open := true)];
      assert Now() == WithArray(s, n, NewArray(n, signalAny).(refs := 2, open := true));
      tracker := tracker + [x];
      ret := 0;
    }

    /** `spec_sync_bind_array` */
    method BindArray(out: Target, copy: Copy, fds: seq<Lookup>, signaledChildren: nat) returns (ret: int)
      requires TrackerOk(Now()) && (out.ArrayFile? ==> out.x < |arrays|)
      modifies this
      ensures (ret, Now()) == Bind(old(Now()), out, copy, fds, signaledChildren)
    {
      if !out.ArrayFile? {
        return -EINVAL;
      }
      var x := out.x;
      arrays := arrays[x := arrays[x].(refs := arrays[x].refs + 1)];
      arrays := arrays[x := Polled(arrays[x])];
      ret := BindGotten(x, copy, fds, signaledChildren);
      PutArray(x);
    }

    /** Binding between taking and dropping the reference. */
    method BindGotten(x: nat, copy: Copy, fds: seq<Lookup>, signaledChildren: nat) returns (ret: int)
      requires TrackerOk(Now()) && x < |arrays|
      modifies this
      ensures TrackerOk(Now()) && |arrays| == |old(arrays)|
      ensures if old(arrays[x].signaled) || x !in old(tracker) || !AllDummy(old(arrays[x].fences))
              then ret == -EINVAL && Now() == old(Now())
              else if copy.NoMemory? then ret == -ENOMEM && Now() == old(Now())
              else if copy.Fault? then ret == -EFAULT && Now() == old(Now())
              else (ret, Now()) == BindChecked(old(Now()), x, fds, signaledChildren)
    {
      if arrays[x].signaled {
        return -EINVAL;
      }
      var tracked := IsTracked(x);
      if !tracked {
        return -EINVAL;
      }
      var n := |arrays[x].fences|;
      var i := 0;
      while i < n
        invariant 0 <= i <= n && Now() == old(Now())
        invariant forall j | 0 <= j < i :: arrays[x].fences[j].Dummy?
      {
        if !arrays[x].fences[i].Dummy? {
          return -EINVAL;
        }
        i := i + 1;
      }
      match copy {
        case NoMemory => return -ENOMEM;
        case Fault => return -EFAULT;
        case Copied =>
      }
      i := FillArray(x, fds);
      if i == n {
        arrays := arrays[x := Enabled(arrays[x], signaledChildren)];
        ClearTracker(false);
        arrays := arrays[x := arrays[x].(bound := true)];
        ret := 0;
      } else {
        arrays := arrays[x := arrays[x].(bound := true, error := -EINVAL, signaled := true)];
        ClearTracker(false);
        ret := -EINVAL;
      }
    }

    /** The loop that replaces the dummies, up to the first descriptor without a fence. */
    method FillArray(x: nat, fds: seq<Lookup>) returns (i: nat)
      requires x < |arrays|
      modifies this
      ensures Now() == FillFrom(old(Now()), x, fds, 0) && i == GoodFds(fds, 0, |old(arrays[x].fences)|)
    {
      var n := |arrays[x].fences|;
      i := 0;
      while i < n && FdAt(fds, i).Found?
        invariant 0 <= i <= n && |old(arrays)| == |arrays| && |arrays[x].fences| == n
        invariant GoodFds(fds, i, n) == GoodFds(fds, 0, n)
        invariant FillFrom(Now(), x, fds, i) == FillFrom(old(Now()), x, fds, 0)
      {
        ghost var s := Now();
        arrays := arrays[x := arrays[x].(fences := arrays[x].fences[i := User(FdAt(fds, i).id)])];
        dummyRefs := dummyRefs - 1;
        userRefs := userRefs + multiset{FdAt(fds, i).id};
        assert Now() == FillOne(s, x, i, FdAt(fds, i).id);
        i := i + 1;
      }
    }
  }

  lemma CountAllDummies(n: nat)
    ensures Dummies(AllDummies(n)) == n && Users(AllDummies(n)) == multiset{}
  {
    if n > 0 {
      assert AllDummies(n)[..n - 1] == AllDummies(n - 1);
      CountAllDummies(n - 1);
    }
  }
}
