/** What holds of the speculative sync device over all runs of its calls. */
module SpecSyncProperties {
  import opened SpecSync

  // ----- References in use -----

  /** References to the dummy fence that the arrays still hold. */
  function TotalDummies(arrays: seq<FenceArray>): int {
    if arrays == [] then 0 else TotalDummies(arrays[..|arrays| - 1]) + DummiesHeld(arrays[|arrays| - 1])
  }

  function DummiesHeld(a: FenceArray): nat {
    if a.refs != 0 then Dummies(a.fences) else 0
  }

  function TotalUsers(arrays: seq<FenceArray>): multiset<nat> {
    if arrays == [] then multiset{} else TotalUsers(arrays[..|arrays| - 1]) + UsersHeld(arrays[|arrays| - 1])
  }

  function UsersHeld(a: FenceArray): multiset<nat> {
    if a.refs != 0 then Users(a.fences) else multiset{}
  }

  lemma {:induction false} TotalsAfterUpdate(arrays: seq<FenceArray>, x: nat, a: FenceArray)
    requires x < |arrays|
    ensures TotalDummies(arrays[x := a]) == TotalDummies(arrays) - DummiesHeld(arrays[x]) + DummiesHeld(a)
    ensures TotalUsers(arrays[x := a]) + UsersHeld(arrays[x]) == TotalUsers(arrays) + UsersHeld(a)
    decreases |arrays|
  {
    hide DummiesHeld, UsersHeld;
    var n := |arrays| - 1;
    if x == n {
      assert arrays[x := a][..n] == arrays[..n];
    } else {
      assert arrays[x := a][..n] == arrays[..n][x := a];
      TotalsAfterUpdate(arrays[..n], x, a);
      AddToBoth(TotalUsers(arrays[..n][x := a]), UsersHeld(arrays[x]), TotalUsers(arrays[..n]), UsersHeld(a),
                UsersHeld(arrays[n]));
    }
  }

  lemma AddToBoth(a: multiset<nat>, b: multiset<nat>, c: multiset<nat>, d: multiset<nat>, e: multiset<nat>)
    requires a + b == c + d
    ensures (a + e) + b == (c + e) + d
  {
    assert (a + e) + b == (a + b) + e;
    assert (c + e) + d == (c + d) + e;
  }

  lemma TotalsAfterAppend(arrays: seq<FenceArray>, a: FenceArray)
    ensures TotalDummies(arrays + [a]) == TotalDummies(arrays) + DummiesHeld(a)
    ensures TotalUsers(arrays + [a]) == TotalUsers(arrays) + UsersHeld(a)
  {
    assert (arrays + [a])[..|arrays|] == arrays;
  }

  // ----- The invariant -----

  predicate NoDummy(fences: seq<Child>) {
    forall i | 0 <= i < |fences| :: fences[i].User?
  }

  /** How many children have to signal for the array to: one, or all. */
  function Needed(a: FenceArray): nat {
    if a.signalAny then 1 else |a.fences|
  }

  /** How often the array was counted down: by its children, and by forced clearings. */
  function Counted(a: FenceArray): nat {
    a.heard + a.forced
  }

  predicate FailedBind(a: FenceArray) {
    a.bound && a.error == -EINVAL
  }

  /** The array is signaled exactly if it was counted down often enough or its bind failed. */
  predicate SignaledInv(a: FenceArray) {
    && a.heard <= |a.fences|
    && (a.pending > 0 ==> a.pending == Needed(a) - Counted(a)) && (a.pending <= 0 <==> Counted(a) >= Needed(a))
    && (a.signaled <==> Counted(a) >= Needed(a) || FailedBind(a))
  }

  predicate ArrayInv(a: FenceArray) {
    && FENCE_MIN <= |a.fences| <= FENCE_MAX
    && SignaledInv(a)
    && (AllDummy(a.fences) ==> a.heard == 0)
    && (a.error == 0 || FailedBind(a))
    && (a.bound ==> NoDummy(a.fences) || (a.signaled && a.error == -EINVAL))
  }

  /** One reference to the dummy fence is the driver's own; every other one, and every reference to a
      user fence, is a child of an array that is not released. */
  predicate Conserved(s: State) {
    s.dummyRefs == 1 + TotalDummies(s.arrays) && s.userRefs == TotalUsers(s.arrays)
  }

  predicate NoDuplicates(l: seq<nat>) {
    forall i, j | 0 <= i < j < |l| :: l[i] != l[j]
  }

  /** Each array's references are those of the tracker, its file and others; one more for an array
      that a call has got and not yet put (`borrowed`). */
  predicate RefsInv(s: State, borrowed: int) {
    forall x | 0 <= x < |s.arrays| ::
      s.arrays[x].refs == (if x in s.tracker then 1 else 0) + (if s.arrays[x].open then 1 else 0)
                          + s.arrays[x].others + (if x == borrowed then 1 else 0)
  }

  predicate InvWith(s: State, borrowed: int) {
    && TrackerOk(s) && NoDuplicates(s.tracker) && s.available <= MAX_DEVICES
    && RefsInv(s, borrowed) && Conserved(s)
    && forall x | 0 <= x < |s.arrays| :: ArrayInv(s.arrays[x])
  }

  predicate Inv(s: State) {
    InvWith(s, -1)
  }

  // ----- Putting and clearing -----

  lemma PutConserves(s: State, x: nat)
    requires Conserved(s) && x < |s.arrays| && s.arrays[x].refs > 0
    ensures Conserved(Put(s, x))
  {
    hide Dummies, Users;
    var a := s.arrays[x].(refs := s.arrays[x].refs - 1);
    TotalsAfterUpdate(s.arrays, x, a);
    if a.refs == 0 {
      Takes(TotalUsers(s.arrays), TotalUsers(s.arrays[x := a]), Users(a.fences));
    } else {
      Keeps(TotalUsers(s.arrays), TotalUsers(s.arrays[x := a]), Users(a.fences));
    }
  }

  lemma Takes(all: multiset<nat>, rest: multiset<nat>, part: multiset<nat>)
    requires rest + part == all + multiset{}
    ensures all - part == rest
  {
    assert rest + part == all;
  }

  lemma Keeps(a: multiset<nat>, b: multiset<nat>, part: multiset<nat>)
    requires b + part == a + part
    ensures a == b
  {
    assert a + part - part == a && b + part - part == b;
  }

  /** Changes that leave references and children alone. */
  lemma SameChildrenConserve(s: State, x: nat, a: FenceArray)
    requires Conserved(s) && x < |s.arrays| && a.refs == s.arrays[x].refs && a.fences == s.arrays[x].fences
    ensures Conserved(s.(arrays := s.arrays[x := a]))
  {
    hide Dummies, Users;
    TotalsAfterUpdate(s.arrays, x, a);
    Keeps(TotalUsers(s.arrays), TotalUsers(s.arrays[x := a]), UsersHeld(a));
  }

  lemma RemovedFromTracker(l: seq<nat>, i: nat)
    requires i < |l| && NoDuplicates(l)
    ensures NoDuplicates(l[..i] + l[i + 1..])
    ensures forall x :: x in l[..i] + l[i + 1..] <==> x in l && x != l[i]
  {
    var r := l[..i] + l[i + 1..];
    forall x ensures x in r <==> x in l && x != l[i] {
      if x in l && x != l[i] {
        var j :| 0 <= j < |l| && l[j] == x;
        assert r[if j < i then j else j - 1] == x;
      }
    }
  }

  lemma ClearedKeepsArray(a: FenceArray, force: bool)
    requires ArrayInv(a)
    ensures ArrayInv(Cleared(a, force))
  {
  }

  lemma ClearedKeepsInv(s: State, x: nat, force: bool, borrowed: int)
    requires InvWith(s, borrowed) && x < |s.arrays|
    ensures InvWith(s.(arrays := s.arrays[x := Cleared(s.arrays[x], force)]), borrowed)
  {
    hide Dummies, Users, TotalDummies, TotalUsers, Conserved, ArrayInv;
    ClearedKeepsArray(s.arrays[x], force);
    SameChildrenConserve(s, x, Cleared(s.arrays[x], force));
  }

  /** The tracker's reference goes with its entry. */
  lemma UntrackKeepsInv(s: State, i: nat, borrowed: int)
    requires InvWith(s, borrowed) && i < |s.tracker|
    ensures InvWith(Put(s, s.tracker[i]).(tracker := s.tracker[..i] + s.tracker[i + 1..]), borrowed)
  {
    hide Dummies, Users, TotalDummies, TotalUsers, ArrayInv;
    var a := s.arrays[s.tracker[i]];
    SameArrayInv(a, a.refs - 1, a.open, a.others);
    assert s.tracker[i] in s.tracker;
    PutConserves(s, s.tracker[i]);
    RemovedFromTracker(s.tracker, i);
  }

  /** Any other reference: its holder must give it up. */
  lemma PutKeepsInv(s: State, x: nat)
    requires InvWith(s, x) && x < |s.arrays|
    ensures Inv(Put(s, x))
  {
    hide Dummies, Users, TotalDummies, TotalUsers, ArrayInv;
    var a := s.arrays[x];
    SameArrayInv(a, a.refs - 1, a.open, a.others);
    PutConserves(s, x);
  }

  lemma {:induction false} ClearKeepsInv(s: State, i: nat, force: bool, borrowed: int)
    requires TrackerOk(s) && InvWith(s, borrowed)
    ensures InvWith(ClearFrom(s, i, force), borrowed)
    decreases |s.tracker| - i
  {
    if i < |s.tracker| {
      hide ClearFrom, Put, InvWith, Cleared;
      var x := s.tracker[i];
      var s1 := s.(arrays := s.arrays[x := Cleared(s.arrays[x], force)]);
      ClearStep(s, i, force);
      ClearedKeepsInv(s, x, force, borrowed);
      UntrackKeepsInv(s1, i, borrowed);
      if force || IsSignaled(s.arrays[x]) {
        ClearKeepsInv(Put(s1, x).(tracker := s.tracker[..i] + s.tracker[i + 1..]), i, force, borrowed);
      } else {
        ClearKeepsInv(s1, i + 1, force, borrowed);
      }
    }
  }

  // ----- Every call -----

  datatype Call =
    | OpenDevice
    | ReleaseDevice
    | CreateArray(n: nat, signalAny: bool, failing: Failing)
    | BindArray(out: Target, copy: Copy, fds: seq<Lookup>, signaledChildren: nat)
    | CloseFile(x: nat)
    | TakeReference(x: nat)
    | DropReference(x: nat)
    | ChildSignals(x: nat)

  /** What can happen: files are closed once, others drop only what they took from an array that is
      still there, and only real children signal. */
  predicate Possible(s: State, c: Call) {
    && TrackerOk(s)
    && match c
       case BindArray(out, copy, fds, signaledChildren) =>
         out.ArrayFile? ==> out.x < |s.arrays| && s.arrays[out.x].open && signaledChildren <= |s.arrays[out.x].fences|
       case CloseFile(x) => x < |s.arrays| && s.arrays[x].open
       case TakeReference(x) => x < |s.arrays| && s.arrays[x].refs > 0
       case DropReference(x) => x < |s.arrays| && s.arrays[x].others > 0
       case ChildSignals(x) =>
         && x < |s.arrays| && s.arrays[x].refs > 0
         && s.arrays[x].bound && !FailedBind(s.arrays[x]) && s.arrays[x].heard < |s.arrays[x].fences|
       case _ => true
  }

  /** One more child has signaled. */
  function Heard(a: FenceArray): FenceArray {
    CountedDown(a).(heard := a.heard + 1)
  }

  function Do(s: State, c: Call): State
    requires Possible(s, c)
  {
    match c
    case OpenDevice => Open(s).1
    case ReleaseDevice => Release(s).1
    case CreateArray(n, signalAny, failing) => Create(s, n, signalAny, failing).1
    case BindArray(out, copy, fds, signaledChildren) => Bind(s, out, copy, fds, signaledChildren).1
    case CloseFile(x) => Put(s.(arrays := s.arrays[x := s.arrays[x].(open := false)]), x)
    case TakeReference(x) =>
      s.(arrays := s.arrays[x := s.arrays[x].(refs := s.arrays[x].refs + 1, others := s.arrays[x].others + 1)])
    case DropReference(x) =>
      Put(s.(arrays := s.arrays[x := s.arrays[x].(others := s.arrays[x].others - 1)]), x)
    case ChildSignals(x) => s.(arrays := s.arrays[x := Heard(s.arrays[x])])
  }

  lemma InitialInv()
    ensures Inv(INITIAL)
  {
  }

  lemma ReleaseKeepsInv(s: State)
    requires Inv(s)
    ensures Inv(Release(s).1)
  {
    hide TotalDummies, TotalUsers, ClearFrom;
    if s.available == 1 {
      ClearKeepsInv(s.(available := 0), 0, true, -1);
    }
  }

  lemma CreateKeepsInv(s: State, n: nat, signalAny: bool, failing: Failing)
    requires Inv(s)
    ensures Inv(Create(s, n, signalAny, failing).1)
  {
    hide Dummies, Users, TotalDummies, TotalUsers, AllDummies;
    CountAllDummies(n);
    AllDummiesAre(n);
    var a := NewArray(n, signalAny);
    TotalsAfterAppend(s.arrays, a.(refs := 0));
    TotalsAfterAppend(s.arrays, a.(refs := 2, open := true));
    assert forall m: multiset<nat> :: m + multiset{} == m;
    assert |s.arrays| !in s.tracker;
  }

  lemma AllDummiesAre(n: nat)
    ensures |AllDummies(n)| == n && AllDummy(AllDummies(n))
  {
  }

  /** Changes of an array that keep its references and children. */
  lemma ChangeKeepsInv(s: State, x: nat, a: FenceArray, borrowed: int)
    requires x < |s.arrays| && InvWith(s, borrowed) && ArrayInv(a) && a.fences == s.arrays[x].fences
    requires a.refs == s.arrays[x].refs && a.open == s.arrays[x].open && a.others == s.arrays[x].others
    ensures InvWith(s.(arrays := s.arrays[x := a]), borrowed)
  {
    hide Conserved, ArrayInv;
    SameChildrenConserve(s, x, a);
  }

  lemma SameArrayInv(a: FenceArray, refs: int, open: bool, others: nat)
    requires ArrayInv(a)
    ensures ArrayInv(a.(refs := refs, open := open, others := others))
  {
  }

  lemma HeardKeepsArray(a: FenceArray)
    requires ArrayInv(a) && a.bound && !FailedBind(a) && a.heard < |a.fences|
    ensures ArrayInv(Heard(a))
  {
    DummyOrNot(a.fences);
  }

  /** A file is closed, or another holder lets go: the reference is then nobody's until it is put. */
  lemma LettingGoKeepsInv(s: State, x: nat, a: FenceArray)
    requires Inv(s) && x < |s.arrays|
    requires a == s.arrays[x].(open := a.open, others := a.others)
    requires (if a.open then 1 else 0) + a.others == (if s.arrays[x].open then 1 else 0) + s.arrays[x].others - 1
    ensures Inv(Put(s.(arrays := s.arrays[x := a]), x))
  {
    hide Dummies, Users, TotalDummies, TotalUsers, Put, Conserved, ArrayInv;
    SameArrayInv(s.arrays[x], a.refs, a.open, a.others);
    SameChildrenConserve(s, x, a);
    PutKeepsInv(s.(arrays := s.arrays[x := a]), x);
  }

  lemma FileAndOthersKeepInv(s: State, c: Call)
    requires Inv(s) && Possible(s, c)
    requires c.CloseFile? || c.TakeReference? || c.DropReference? || c.ChildSignals?
    ensures Inv(Do(s, c))
  {
    hide Dummies, Users, TotalDummies, TotalUsers, Put, Conserved, ArrayInv;
    var x := c.x;
    match c
    case CloseFile(_) => LettingGoKeepsInv(s, x, s.arrays[x].(open := false));
    case TakeReference(_) =>
      var a := s.arrays[x].(refs := s.arrays[x].refs + 1, others := s.arrays[x].others + 1);
      SameArrayInv(s.arrays[x], a.refs, a.open, a.others);
      MoreReferencesConserve(s, x, a);
    case DropReference(_) => LettingGoKeepsInv(s, x, s.arrays[x].(others := s.arrays[x].others - 1));
    case ChildSignals(_) =>
      HeardKeepsArray(s.arrays[x]);
      ChangeKeepsInv(s, x, Heard(s.arrays[x]), -1);
  }

  lemma MoreReferencesConserve(s: State, x: nat, a: FenceArray)
    requires Conserved(s) && x < |s.arrays| && s.arrays[x].refs > 0 && a.refs > 0 && a.fences == s.arrays[x].fences
    ensures Conserved(s.(arrays := s.arrays[x := a]))
  {
    hide Dummies, Users;
    TotalsAfterUpdate(s.arrays, x, a);
    Keeps(TotalUsers(s.arrays), TotalUsers(s.arrays[x := a]), UsersHeld(a));
  }

  // ----- Binding -----

  lemma CountLast(fences: seq<Child>)
    requires fences != []
    ensures var n := |fences| - 1;
            && Dummies(fences) == Dummies(fences[..n]) + (if fences[n].Dummy? then 1 else 0)
            && Users(fences) == Users(fences[..n]) + UsersIn(fences[n])
  {
  }

  lemma SwapSummands(a: multiset<nat>, b: multiset<nat>, c: multiset<nat>)
    ensures (a + b) + c == (a + c) + b
  {
  }

  lemma {:induction false} DummiesAfterUpdate(fences: seq<Child>, i: nat, id: nat)
    requires i < |fences| && fences[i].Dummy?
    ensures Dummies(fences[i := User(id)]) == Dummies(fences) - 1
    ensures Users(fences[i := User(id)]) == Users(fences) + multiset{id}
    decreases |fences|
  {
    hide Dummies, Users;
    var n, f' := |fences| - 1, fences[i := User(id)];
    CountLast(fences);
    CountLast(f');
    if i == n {
      assert f'[..n] == fences[..n];
    } else {
      assert f'[..n] == fences[..n][i := User(id)];
      DummiesAfterUpdate(fences[..n], i, id);
      SwapSummands(Users(fences[..n]), multiset{id}, UsersIn(fences[n]));
    }
  }

  /** Filling in one child moves one reference from the dummy fence to the user's. */
  lemma FillOneConserves(s: State, x: nat, i: nat, id: nat)
    requires Conserved(s) && x < |s.arrays| && s.arrays[x].refs > 0
    requires i < |s.arrays[x].fences| && s.arrays[x].fences[i].Dummy?
    ensures Conserved(FillOne(s, x, i, id))
  {
    hide Dummies, Users;
    var old_, new_ := s.arrays[x], FillOne(s, x, i, id).arrays[x];
    DummiesAfterUpdate(old_.fences, i, id);
    TotalsAfterUpdate(s.arrays, x, new_);
    Moves(TotalUsers(s.arrays), TotalUsers(s.arrays[x := new_]), Users(old_.fences), multiset{id});
  }

  lemma Moves(a: multiset<nat>, b: multiset<nat>, part: multiset<nat>, extra: multiset<nat>)
    requires b + part == a + (part + extra)
    ensures b == a + extra
  {
    assert b + part - part == b && a + (part + extra) - part == a + extra;
  }

  /** The children from `i` on replaced up to `k`, where the first descriptor without a fence is. */
  predicate FilledUpTo(f: seq<Child>, f': seq<Child>, fds: seq<Lookup>, i: nat, k: nat) {
    && |f'| == |f|
    && forall j | 0 <= j < |f| ::
         && (j < i ==> f'[j] == f[j])
         && (i <= j < k ==> FdAt(fds, j).Found? && f'[j] == User(FdAt(fds, j).id))
         && (i <= j && k <= j ==> f'[j] == f[j])
  }

  /** Only the children of array `x` differ, and the references. */
  predicate OnlyChildrenOf(s: State, s': State, x: nat)
    requires x < |s.arrays| && |s'.arrays| == |s.arrays|
  {
    && s' == s.(arrays := s'.arrays, dummyRefs := s'.dummyRefs, userRefs := s'.userRefs)
    && s'.arrays == s.arrays[x := s.arrays[x].(fences := s'.arrays[x].fences)]
  }

  lemma {:induction false} FillFromIs(s: State, x: nat, fds: seq<Lookup>, i: nat)
    requires x < |s.arrays| && i <= |s.arrays[x].fences|
    ensures var s' := FillFrom(s, x, fds, i);
            && OnlyChildrenOf(s, s', x)
            && FilledUpTo(s.arrays[x].fences, s'.arrays[x].fences, fds, i, GoodFds(fds, i, |s.arrays[x].fences|))
    decreases |s.arrays[x].fences| - i
  {
    hide FilledUpTo;
    assert s.arrays[x := s.arrays[x]] == s.arrays;
    var f := s.arrays[x].fences;
    if i < |f| && FdAt(fds, i).Found? {
      var s1 := FillOne(s, x, i, FdAt(fds, i).id);
      FillFromStep(s, x, fds, i);
      FillOneIs(s, x, i, FdAt(fds, i).id);
      hide FillFrom, GoodFds, FillOne, OnlyChildrenOf;
      FillFromIs(s1, x, fds, i + 1);
      OnlyChildrenTwice(s, s1, FillFrom(s, x, fds, i), x);
      FilledOneMore(f, FillFrom(s, x, fds, i).arrays[x].fences, fds, i, GoodFds(fds, i, |f|));
    } else {
      NoneFilled(f, fds, i);
    }
  }

  lemma FillFromStep(s: State, x: nat, fds: seq<Lookup>, i: nat)
    requires x < |s.arrays| && i < |s.arrays[x].fences| && FdAt(fds, i).Found?
    ensures FillFrom(s, x, fds, i) == FillFrom(FillOne(s, x, i, FdAt(fds, i).id), x, fds, i + 1)
    ensures var n := |s.arrays[x].fences|; i < GoodFds(fds, i, n) && GoodFds(fds, i, n) == GoodFds(fds, i + 1, n)
  {
  }

  lemma FillOneIs(s: State, x: nat, i: nat, id: nat)
    requires x < |s.arrays| && i < |s.arrays[x].fences|
    ensures OnlyChildrenOf(s, FillOne(s, x, i, id), x)
    ensures FillOne(s, x, i, id).arrays[x].fences == s.arrays[x].fences[i := User(id)]
  {
  }

  lemma OnlyChildrenTwice(s: State, s': State, s'': State, x: nat)
    requires x < |s.arrays| == |s'.arrays| == |s''.arrays|
    requires OnlyChildrenOf(s, s', x) && OnlyChildrenOf(s', s'', x)
    ensures OnlyChildrenOf(s, s'', x)
  {
  }

  lemma FilledOneMore(f: seq<Child>, f': seq<Child>, fds: seq<Lookup>, i: nat, k: nat)
    requires i < |f| && i < k && FdAt(fds, i).Found?
    requires FilledUpTo(f[i := User(FdAt(fds, i).id)], f', fds, i + 1, k)
    ensures FilledUpTo(f, f', fds, i, k)
  {
    var f1 := f[i := User(FdAt(fds, i).id)];
    assert forall j | 0 <= j < |f| && j != i :: f1[j] == f[j];
  }

  lemma NoneFilled(f: seq<Child>, fds: seq<Lookup>, i: nat)
    ensures FilledUpTo(f, f, fds, i, i)
  {
  }

  lemma {:induction false} FillFromConserves(s: State, x: nat, fds: seq<Lookup>, i: nat)
    requires x < |s.arrays| && s.arrays[x].refs > 0 && i <= |s.arrays[x].fences| && Conserved(s)
    requires forall j | i <= j < |s.arrays[x].fences| :: s.arrays[x].fences[j].Dummy?
    ensures Conserved(FillFrom(s, x, fds, i))
    decreases |s.arrays[x].fences| - i
  {
    hide Conserved;
    if i < |s.arrays[x].fences| && FdAt(fds, i).Found? {
      FillOneConserves(s, x, i, FdAt(fds, i).id);
      FillFromConserves(FillOne(s, x, i, FdAt(fds, i).id), x, fds, i + 1);
    }
  }

  /** What clearing the tracker leaves alone in every array. */
  predicate SameChildren(a: FenceArray, b: FenceArray) {
    && b.fences == a.fences && b.bound == a.bound && b.error == a.error && b.open == a.open && b.others == a.others
    && (a.signaled ==> b.signaled)
  }

  lemma {:induction false} ClearKeepsChildren(s: State, i: nat, force: bool)
    requires TrackerOk(s)
    ensures forall y | 0 <= y < |s.arrays| :: SameChildren(s.arrays[y], ClearFrom(s, i, force).arrays[y])
    decreases |s.tracker| - i
  {
    if i < |s.tracker| {
      var x := s.tracker[i];
      var s1 := s.(arrays := s.arrays[x := Cleared(s.arrays[x], force)]);
      ClearStep(s, i, force);
      hide ClearFrom;
      if force || IsSignaled(s.arrays[x]) {
        ClearKeepsChildren(Put(s1, x).(tracker := s.tracker[..i] + s.tracker[i + 1..]), i, force);
      } else {
        ClearKeepsChildren(s1, i + 1, force);
      }
    }
  }

  /** Between the checks and the reference that is put at the end. */
  predicate Bindable(s: State, x: nat) {
    && x < |s.arrays| && InvWith(s, x) && s.arrays[x].open && !s.arrays[x].signaled && AllDummy(s.arrays[x].fences)
  }

  lemma FillKeepsInv(s: State, x: nat, fds: seq<Lookup>)
    requires Bindable(s, x)
    ensures InvWith(FillFrom(s, x, fds, 0), x) && !s.arrays[x].bound
  {
    ArraysAreOk(s, x, x);
    hide Conserved, FilledUpTo, FillFrom, ArrayInv;
    FillFromIs(s, x, fds, 0);
    FillFromConserves(s, x, fds, 0);
    FilledUpToLength(s, x, fds);
    FilledKeepsArray(s.arrays[x], FillFrom(s, x, fds, 0).arrays[x].fences);
  }

  lemma DummyOrNot(fences: seq<Child>)
    ensures |fences| > 0 ==> !(AllDummy(fences) && NoDummy(fences))
  {
    assert |fences| > 0 ==> fences[0].Dummy? || fences[0].User?;
  }

  lemma FilledUpToLength(s: State, x: nat, fds: seq<Lookup>)
    requires x < |s.arrays|
    ensures |FillFrom(s, x, fds, 0).arrays[x].fences| == |s.arrays[x].fences|
  {
  }

  /** Filling in changes no more than children; the array is not signaled and not bound. */
  lemma FilledKeepsArray(a: FenceArray, f: seq<Child>)
    requires ArrayInv(a) && AllDummy(a.fences) && !a.signaled && |f| == |a.fences|
    ensures ArrayInv(a.(fences := f)) && !a.bound && a.heard == 0
  {
    DummyOrNot(a.fences);
  }

  lemma EnabledKeepsArray(a: FenceArray, signaledChildren: nat)
    requires ArrayInv(a) && NoDummy(a.fences) && !a.signaled && !a.bound && a.heard == 0 && signaledChildren <= |a.fences|
    ensures var e := Enabled(a.(enableBit := false), signaledChildren);
            && e == Enabled(a, signaledChildren) && ArrayInv(e) && e.heard == signaledChildren
            && (e.signaled <==> signaledChildren + a.forced >= Needed(a))
  {
    DummyOrNot(a.fences);
  }

  lemma BoundKeepsArray(a: FenceArray)
    requires ArrayInv(a)
    ensures NoDummy(a.fences) ==> ArrayInv(a.(bound := true)) || FailedBind(a.(bound := true))
    ensures a.error == 0 && NoDummy(a.fences) ==> ArrayInv(a.(bound := true))
    ensures ArrayInv(a.(bound := true, error := -EINVAL, signaled := true))
  {
  }

  lemma BindCheckedKeepsInv(s: State, x: nat, fds: seq<Lookup>, signaledChildren: nat)
    requires Bindable(s, x) && signaledChildren <= |s.arrays[x].fences|
    ensures InvWith(BindChecked(s, x, fds, signaledChildren).1, x)
  {
    FillKeepsInv(s, x, fds);
    FillFromIs(s, x, fds, 0);
    var s1 := FillFrom(s, x, fds, 0);
    var a, n := s1.arrays[x], |s.arrays[x].fences|;
    ArraysAreOk(s, x, x);
    ArraysAreOk(s1, x, x);
    FilledKeepsArray(s.arrays[x], a.fences);
    if GoodFds(fds, 0, n) == n {
      assert NoDummy(a.fences);
      hide InvWith, ClearFrom, FillFrom, ArrayInv, SignaledInv, Enabled;
      EnabledKeepsArray(a, signaledChildren);
      EnabledKeepsRefs(a, signaledChildren);
      ChangeKeepsInv(s1, x, Enabled(a, signaledChildren), x);
      var s2 := s1.(arrays := s1.arrays[x := Enabled(a, signaledChildren)]);
      ClearKeepsInv(s2, 0, false, x);
      ClearKeepsChildren(s2, 0, false);
      var s3 := ClearFrom(s2, 0, false);
      ArraysAreOk(s3, x, x);
      BoundKeepsArray(s3.arrays[x]);
      ChangeKeepsInv(s3, x, s3.arrays[x].(bound := true), x);
    } else {
      hide InvWith, ClearFrom, FillFrom, ArrayInv, SignaledInv;
      var failed := a.(bound := true, error := -EINVAL, signaled := true);
      BoundKeepsArray(a);
      ChangeKeepsInv(s1, x, failed, x);
      ClearKeepsInv(s1.(arrays := s1.arrays[x := failed]), 0, false, x);
    }
  }

  lemma EnabledKeepsRefs(a: FenceArray, signaledChildren: nat)
    ensures var e := Enabled(a, signaledChildren);
            e.refs == a.refs && e.open == a.open && e.others == a.others && e.fences == a.fences && e.error == a.error
  {
  }

  lemma ArraysAreOk(s: State, x: nat, borrowed: int)
    requires InvWith(s, borrowed) && x < |s.arrays|
    ensures ArrayInv(s.arrays[x])
  {
  }

  /** The state in which `Bind` makes its checks. */
  function Gotten(s: State, x: nat): State
    requires x < |s.arrays|
  {
    var got := Get(s, x);
    got.(arrays := got.arrays[x := Polled(got.arrays[x])])
  }

  lemma GottenKeepsInv(s: State, x: nat)
    requires Inv(s) && x < |s.arrays| && s.arrays[x].open
    ensures InvWith(Gotten(s, x), x)
  {
    hide Conserved;
    var got := Get(s, x);
    MoreReferencesConserve(s, x, s.arrays[x].(refs := s.arrays[x].refs + 1));
    assert InvWith(got, x);
    ClearedKeepsInv(got, x, false, x);
  }

  predicate PassesChecks(s: State, x: nat, copy: Copy)
    requires x < |s.arrays|
  {
    !IsSignaled(s.arrays[x]) && x in s.tracker && AllDummy(s.arrays[x].fences) && copy.Copied?
  }

  lemma BindIs(s: State, x: nat, copy: Copy, fds: seq<Lookup>, signaledChildren: nat)
    requires TrackerOk(s) && x < |s.arrays|
    ensures var r := Bind(s, ArrayFile(x), copy, fds, signaledChildren);
            if PassesChecks(s, x, copy)
            then var b := BindChecked(Gotten(s, x), x, fds, signaledChildren); r == (b.0, Put(b.1, x))
            else r.0 < 0 && r.1 == Put(Gotten(s, x), x)
  {
  }

  lemma BindKeepsInv(s: State, out: Target, copy: Copy, fds: seq<Lookup>, signaledChildren: nat)
    requires Inv(s) && Possible(s, BindArray(out, copy, fds, signaledChildren))
    ensures Inv(Bind(s, out, copy, fds, signaledChildren).1)
  {
    if out.ArrayFile? {
      var x := out.x;
      BindIs(s, x, copy, fds, signaledChildren);
      GottenKeepsInv(s, x);
      hide Bind, BindChecked, Put;
      if PassesChecks(s, x, copy) {
        assert Bindable(Gotten(s, x), x);
        BindCheckedKeepsInv(Gotten(s, x), x, fds, signaledChildren);
        PutKeepsInv(BindChecked(Gotten(s, x), x, fds, signaledChildren).1, x);
      } else {
        PutKeepsInv(Gotten(s, x), x);
      }
    }
  }

  lemma CallKeepsInv(s: State, c: Call)
    requires Inv(s) && Possible(s, c)
    ensures Inv(Do(s, c))
  {
    hide Inv, Bind, Release, Create, Put;
    match c
    case OpenDevice => OpenKeepsInv(s);
    case ReleaseDevice => ReleaseKeepsInv(s);
    case CreateArray(n, signalAny, failing) => CreateKeepsInv(s, n, signalAny, failing);
    case BindArray(out, copy, fds, signaledChildren) => BindKeepsInv(s, out, copy, fds, signaledChildren);
    case CloseFile(x) => FileAndOthersKeepInv(s, c);
    case TakeReference(x) => FileAndOthersKeepInv(s, c);
    case DropReference(x) => FileAndOthersKeepInv(s, c);
    case ChildSignals(x) => FileAndOthersKeepInv(s, c);
  }

  lemma OpenKeepsInv(s: State)
    requires Inv(s)
    ensures Inv(Open(s).1)
  {
    hide TotalDummies, TotalUsers;
  }

  // ----- Every run -----

  predicate IsRun(s: State, calls: seq<Call>)
    decreases |calls|
  {
    calls != [] ==> Possible(s, calls[0]) && IsRun(Do(s, calls[0]), calls[1..])
  }

  function Final(s: State, calls: seq<Call>): State
    requires IsRun(s, calls)
    decreases |calls|
  {
    if calls == [] then s else Final(Do(s, calls[0]), calls[1..])
  }

  lemma {:induction false} RunKeepsInv(s: State, calls: seq<Call>)
    requires Inv(s) && IsRun(s, calls)
    ensures Inv(Final(s, calls))
    decreases |calls|
  {
    hide Inv, Do, Possible;
    if calls != [] {
      CallKeepsInv(s, calls[0]);
      RunKeepsInv(Do(s, calls[0]), calls[1..]);
    }
  }

  /** In every run the references to the dummy fence are the driver's own and one for every dummy child of
      an array that is not released; the same goes for user fences. No tracked or open array is released. */
  lemma ReferencesBalance(calls: seq<Call>)
    requires IsRun(INITIAL, calls)
    ensures var s := Final(INITIAL, calls);
            && s.dummyRefs == 1 + TotalDummies(s.arrays)
            && s.userRefs == TotalUsers(s.arrays)
            && s.available <= MAX_DEVICES
            && (forall x | 0 <= x < |s.arrays| :: x in s.tracker || s.arrays[x].open ==> s.arrays[x].refs > 0)
  {
    InitialInv();
    RunKeepsInv(INITIAL, calls);
    hide TotalDummies, TotalUsers, Final;
  }

  // ----- At most one binding -----

  /** What a call leaves alone once an array is bound. */
  lemma CallKeepsBound(s: State, c: Call, x: nat)
    requires Inv(s) && Possible(s, c) && x < |s.arrays| && s.arrays[x].bound
    ensures x < |Do(s, c).arrays| && Do(s, c).arrays[x].bound
    ensures Do(s, c).arrays[x].fences == s.arrays[x].fences
  {
    hide Inv, ClearFrom, FillFrom;
    match c
    case ReleaseDevice =>
      if s.available == 1 {
        ClearKeepsChildren(s.(available := 0), 0, true);
      }
    case BindArray(out, copy, fds, signaledChildren) =>
      if out.ArrayFile? {
        BindKeepsOthers(s, out.x, copy, fds, signaledChildren, x);
      }
    case _ =>
  }

  lemma BindCheckedKeepsOthers(s: State, y: nat, fds: seq<Lookup>, signaledChildren: nat, x: nat)
    requires y < |s.arrays| && TrackerOk(s) && x < |s.arrays| && x != y
    ensures SameChildren(s.arrays[x], BindChecked(s, y, fds, signaledChildren).1.arrays[x])
  {
    FillFromIs(s, y, fds, 0);
    hide FillFrom, ClearFrom, FilledUpTo, Enabled;
    var s1 := FillFrom(s, y, fds, 0);
    var a := s1.arrays[y];
    ClearKeepsChildren(s1.(arrays := s1.arrays[y := Enabled(a, signaledChildren)]), 0, false);
    ClearKeepsChildren(s1.(arrays := s1.arrays[y := a.(bound := true, error := -EINVAL, signaled := true)]), 0, false);
  }

  lemma PutAndGetKeepChildren(s: State, y: nat, x: nat)
    requires x < |s.arrays| && y < |s.arrays|
    ensures SameChildren(s.arrays[x], Put(s, y).arrays[x]) && SameChildren(s.arrays[x], Gotten(s, y).arrays[x])
  {
  }

  lemma BindKeepsOthers(s: State, y: nat, copy: Copy, fds: seq<Lookup>, signaledChildren: nat, x: nat)
    requires Inv(s) && y < |s.arrays| && s.arrays[y].open && x < |s.arrays| && s.arrays[x].bound
    ensures var s' := Bind(s, ArrayFile(y), copy, fds, signaledChildren).1;
            && x < |s'.arrays| && s'.arrays[x].bound && s'.arrays[x].fences == s.arrays[x].fences
    ensures x == y ==> Bind(s, ArrayFile(y), copy, fds, signaledChildren).0 < 0
  {
    BindIs(s, y, copy, fds, signaledChildren);
    GottenKeepsInv(s, y);
    var g := Gotten(s, y);
    PutAndGetKeepChildren(s, y, x);
    if PassesChecks(s, y, copy) {
      FillKeepsInv(g, y, fds);
      hide Inv, InvWith, Bind, BindChecked, Put, Gotten;
      BindCheckedKeepsOthers(g, y, fds, signaledChildren, x);
      PutAndGetKeepChildren(BindChecked(g, y, fds, signaledChildren).1, y, x);
    } else {
      hide Inv, InvWith, Bind, BindChecked, Put, Gotten;
      PutAndGetKeepChildren(g, y, x);
    }
  }

  /** Once an array is bound, whatever happens since, it keeps its children and every later bind of it is
      refused; it has no dummy child left, or it is signaled with an error. */
  lemma {:induction false} BoundAtMostOnce(s: State, x: nat, calls: seq<Call>, copy: Copy, fds: seq<Lookup>, signaledChildren: nat)
    requires Inv(s) && x < |s.arrays| && s.arrays[x].bound && IsRun(s, calls)
    requires x < |Final(s, calls).arrays| ==>
               Possible(Final(s, calls), BindArray(ArrayFile(x), copy, fds, signaledChildren))
    ensures var s' := Final(s, calls);
            && x < |s'.arrays| && TrackerOk(s')
            && s'.arrays[x].fences == s.arrays[x].fences
            && (NoDummy(s'.arrays[x].fences) || (s'.arrays[x].signaled && s'.arrays[x].error == -EINVAL))
            && Bind(s', ArrayFile(x), copy, fds, signaledChildren).0 < 0
    decreases |calls|
  {
    hide Inv, Do, Bind;
    if calls == [] {
      BoundIsOk(s, x);
      BindKeepsOthers(s, x, copy, fds, signaledChildren, x);
    } else {
      CallKeepsInv(s, calls[0]);
      CallKeepsBound(s, calls[0], x);
      BoundAtMostOnce(Do(s, calls[0]), x, calls[1..], copy, fds, signaledChildren);
    }
  }

  lemma BoundIsOk(s: State, x: nat)
    requires Inv(s) && x < |s.arrays| && s.arrays[x].bound
    ensures TrackerOk(s)
    ensures NoDummy(s.arrays[x].fences) || (s.arrays[x].signaled && s.arrays[x].error == -EINVAL)
  {
  }

  // ----- Clearing the tracker -----

  /** Whether clearing the tracker drops an array. */
  predicate Drops(a: FenceArray, force: bool) {
    force || IsSignaled(a)
  }

  /** What clearing the tracker from entry `i` on does to array `y` and to its entry. */
  predicate ClearedAs(s: State, s': State, i: nat, force: bool, y: nat)
    requires |s'.arrays| == |s.arrays| && y < |s.arrays| && i <= |s.tracker|
  {
    var a := s.arrays[y];
    && s'.arrays[y] == (if y in s.tracker[i..] && Drops(a, force) then Cleared(a, force).(refs := a.refs - 1) else a)
    && (y in s'.tracker <==> y in s.tracker[..i] || (y in s.tracker[i..] && !Drops(a, force)))
  }

  lemma {:induction false} ClearFromIs(s: State, i: nat, force: bool, y: nat)
    requires TrackerOk(s) && NoDuplicates(s.tracker) && i <= |s.tracker| && y < |s.arrays|
    ensures ClearedAs(s, ClearFrom(s, i, force), i, force, y)
    decreases |s.tracker| - i
  {
    hide ClearFrom, Put, Cleared, Drops, ClearedAs;
    ClearStep(s, i, force);
    DropsIs();
    if i < |s.tracker| {
      var x := s.tracker[i];
      RemovedFromTracker(s.tracker, i);
      if Drops(s.arrays[x], force) {
        var s2 := Put(s.(arrays := s.arrays[x := Cleared(s.arrays[x], force)]), x)
                  .(tracker := s.tracker[..i] + s.tracker[i + 1..]);
        ClearFromIs(s2, i, force, y);
        ClearedAsDropped(s, ClearFrom(s2, i, force), i, force, y);
      } else {
        UnchangedIfKept(s, x, force);
        ClearFromIs(s, i + 1, force, y);
        ClearedAsKept(s, ClearFrom(s, i + 1, force), i, force, y);
      }
    } else {
      ClearedAsNothing(s, force, y);
    }
  }

  lemma DropsIs()
    ensures forall a: FenceArray, force: bool :: Drops(a, force) <==> force || IsSignaled(a)
  {
  }

  lemma UnchangedIfKept(s: State, x: nat, force: bool)
    requires x < |s.arrays| && !Drops(s.arrays[x], force)
    ensures s.(arrays := s.arrays[x := Cleared(s.arrays[x], force)]) == s
  {
  }

  lemma ClearedAsNothing(s: State, force: bool, y: nat)
    requires y < |s.arrays|
    ensures ClearedAs(s, s, |s.tracker|, force, y)
  {
    assert s.tracker[..|s.tracker|] == s.tracker;
  }

  lemma ClearedAsKept(s: State, s': State, i: nat, force: bool, y: nat)
    requires TrackerOk(s) && i < |s.tracker| && y < |s.arrays| == |s'.arrays| && NoDuplicates(s.tracker)
    requires !Drops(s.arrays[s.tracker[i]], force) && ClearedAs(s, s', i + 1, force, y)
    ensures ClearedAs(s, s', i, force, y)
  {
    hide Cleared, IsSignaled, Drops;
    var l := s.tracker;
    assert l[i..] == [l[i]] + l[i + 1..] && l[..i + 1] == l[..i] + [l[i]];
    assert l[i] !in l[i + 1..];
  }

  lemma ClearedAsDropped(s: State, s': State, i: nat, force: bool, y: nat)
    requires TrackerOk(s) && i < |s.tracker| && y < |s.arrays| == |s'.arrays| && NoDuplicates(s.tracker)
    requires var x := s.tracker[i];
             && Drops(s.arrays[x], force)
             && var s2 := Put(s.(arrays := s.arrays[x := Cleared(s.arrays[x], force)]), x)
                          .(tracker := s.tracker[..i] + s.tracker[i + 1..]);
             ClearedAs(s2, s', i, force, y)
    ensures ClearedAs(s, s', i, force, y)
  {
    hide Cleared, IsSignaled, Drops;
    var l, x := s.tracker, s.tracker[i];
    var r := l[..i] + l[i + 1..];
    assert r[i..] == l[i + 1..] && r[..i] == l[..i];
    assert l[i..] == [x] + l[i + 1..];
    assert x !in l[i + 1..] && x !in l[..i];
    ClearedKeepsRefs(s.arrays[x], force);
    PutArraysAre(s.(arrays := s.arrays[x := Cleared(s.arrays[x], force)]), x);
    hide Put, NoDuplicates;
  }

  lemma PutArraysAre(s: State, x: nat)
    requires x < |s.arrays|
    ensures Put(s, x).arrays == s.arrays[x := s.arrays[x].(refs := s.arrays[x].refs - 1)]
  {
    hide Dummies, Users;
  }

  lemma ClearedKeepsRefs(a: FenceArray, force: bool)
    ensures Cleared(a, force).refs == a.refs
  {
  }

  /** Closing the device for the last time empties the tracker. An array that is not yet signaled is
      counted down once: it is signaled exactly if one child was pending, so an array that waits for
      several children is dropped unsignaled. */
  lemma LastReleaseOutcome(s: State, x: nat)
    requires Inv(s) && s.available == 1 && x < |s.arrays|
    ensures var s' := Release(s).1;
            && s'.available == 0 && s'.tracker == []
            && (x !in s.tracker ==> s'.arrays[x] == s.arrays[x])
            && (x in s.tracker ==>
                  && s'.arrays[x].refs == s.arrays[x].refs - 1
                  && s'.arrays[x].pending == s.arrays[x].pending - (if IsSignaled(s.arrays[x]) then 0 else 1)
                  && (s'.arrays[x].signaled <==> IsSignaled(s.arrays[x]) || s.arrays[x].pending == 1)
                  && s'.arrays[x].fences == s.arrays[x].fences && s'.arrays[x].error == s.arrays[x].error)
            && (s.arrays[x].signalAny && x in s.tracker ==> s'.arrays[x].signaled)
  {
    hide Dummies, Users, TotalDummies, TotalUsers, ClearFrom;
    var s0 := s.(available := 0);
    assert s.tracker[0..] == s.tracker;
    ClearFromIs(s0, 0, true, x);
    var t := ClearFrom(s0, 0, true).tracker;
    forall y | 0 <= y < |s.arrays| ensures y !in t {
      ClearFromIs(s0, 0, true, y);
    }
    FirstIsIn(t);
  }

  lemma FirstIsIn(t: seq<nat>)
    ensures t == [] || t[0] in t
  {
  }

  /** After a bind, exactly the arrays that were tracked and are not signaled are tracked. */
  lemma UnforcedClearOutcome(s: State, y: nat)
    requires TrackerOk(s) && NoDuplicates(s.tracker) && y < |s.arrays|
    ensures var s' := ClearFrom(s, 0, false);
            && (y in s'.tracker <==> y in s.tracker && !IsSignaled(s.arrays[y]))
            && s'.arrays[y] == s.arrays[y].(refs := s'.arrays[y].refs,
                                            signaled := if y in s.tracker then IsSignaled(s.arrays[y]) else s.arrays[y].signaled)
            && s'.arrays[y].refs == s.arrays[y].refs - (if y in s.tracker && IsSignaled(s.arrays[y]) then 1 else 0)
  {
    assert s.tracker[0..] == s.tracker;
    ClearFromIs(s, 0, false, y);
  }

  /** What a bind comes to that gets past the checks. */
  lemma BindOutcome(s: State, x: nat, fds: seq<Lookup>, signaledChildren: nat)
    requires Inv(s) && x < |s.arrays| && s.arrays[x].open && PassesChecks(s, x, Copied)
    requires signaledChildren <= |s.arrays[x].fences|
    ensures var r := Bind(s, ArrayFile(x), Copied, fds, signaledChildren);
            var a, n := r.1.arrays[x], |s.arrays[x].fences|;
            var k := GoodFds(fds, 0, n);
            && a.bound && FilledUpTo(s.arrays[x].fences, a.fences, fds, 0, k)
            && (r.0 == 0 <==> k == n)
            && (k == n ==> a.heard == signaledChildren && a.error == 0
                           && (a.signaled <==> signaledChildren + a.forced >= Needed(s.arrays[x]))
                           && (x in r.1.tracker <==> !a.signaled))
            && (k < n ==> r.0 == -EINVAL && a.signaled && a.error == -EINVAL && x !in r.1.tracker)
            && forall y | 0 <= y < |s.arrays| && y != x :: SameChildren(s.arrays[y], r.1.arrays[y])
  {
    BindIs(s, x, Copied, fds, signaledChildren);
    GottenKeepsInv(s, x);
    var g := Gotten(s, x);
    GottenIs(s, x);
    ArraysAreOk(g, x, x);
    BindCheckedOutcome(g, x, fds, signaledChildren);
    hide Inv, InvWith, Bind, BindChecked, FilledUpTo, ArrayInv, Gotten;
    forall y | 0 <= y < |s.arrays| && y != x
      ensures SameChildren(s.arrays[y], Bind(s, ArrayFile(x), Copied, fds, signaledChildren).1.arrays[y])
    {
      PutAndGetKeepChildren(s, x, y);
      BindCheckedKeepsOthers(g, x, fds, signaledChildren, y);
      PutAndGetKeepChildren(BindChecked(g, x, fds, signaledChildren).1, x, y);
    }
  }

  lemma GottenIs(s: State, x: nat)
    requires x < |s.arrays|
    ensures var a, g := s.arrays[x], Gotten(s, x);
            && |g.arrays| == |s.arrays| && g.tracker == s.tracker
            && g.arrays[x] == a.(refs := a.refs + 1, signaled := IsSignaled(a))
  {
  }

  lemma BindCheckedOutcome(s: State, x: nat, fds: seq<Lookup>, signaledChildren: nat)
    requires Bindable(s, x) && x in s.tracker && signaledChildren <= |s.arrays[x].fences|
    ensures var r := BindChecked(s, x, fds, signaledChildren);
            var a, n := r.1.arrays[x], |s.arrays[x].fences|;
            var k := GoodFds(fds, 0, n);
            && a.bound && FilledUpTo(s.arrays[x].fences, a.fences, fds, 0, k)
            && (r.0 == 0 <==> k == n)
            && (k == n ==> a.heard == signaledChildren && a.error == 0
                           && (a.signaled <==> signaledChildren + a.forced >= Needed(s.arrays[x]))
                           && (x in r.1.tracker <==> !a.signaled))
            && (k < n ==> r.0 == -EINVAL && a.signaled && a.error == -EINVAL && x !in r.1.tracker)
  {
    FillFromIs(s, x, fds, 0);
    FillKeepsInv(s, x, fds);
    FilledUpToLength(s, x, fds);
    ArraysAreOk(s, x, x);
    var s1 := FillFrom(s, x, fds, 0);
    var a, n := s1.arrays[x], |s.arrays[x].fences|;
    FilledKeepsArray(s.arrays[x], a.fences);
    ArraysAreOk(s1, x, x);
    hide InvWith, FillFrom, ClearFrom, ArrayInv, SignaledInv;
    if GoodFds(fds, 0, n) == n {
      AllFilled(s.arrays[x].fences, a.fences, fds, n);
      EnabledKeepsArray(a, signaledChildren);
      EnabledKeepsRefs(a, signaledChildren);
      var s2 := s1.(arrays := s1.arrays[x := Enabled(a, signaledChildren)]);
      TrackerIsSet(s2, s);
      UnforcedClearOutcome(s2, x);
      SignaledIsPolled(Enabled(a, signaledChildren));
    } else {
      var s2 := s1.(arrays := s1.arrays[x := a.(bound := true, error := -EINVAL, signaled := true)]);
      TrackerIsSet(s2, s);
      UnforcedClearOutcome(s2, x);
    }
  }

  lemma AllFilled(f: seq<Child>, f': seq<Child>, fds: seq<Lookup>, n: nat)
    requires FilledUpTo(f, f', fds, 0, n) && n == |f|
    ensures NoDummy(f')
  {
  }

  lemma TrackerIsSet(s': State, s: State)
    requires InvWith(s, -1) || exists x :: InvWith(s, x)
    requires s'.tracker == s.tracker && |s'.arrays| == |s.arrays|
    ensures TrackerOk(s') && NoDuplicates(s'.tracker)
  {
  }

  lemma SignaledIsPolled(a: FenceArray)
    requires ArrayInv(a)
    ensures IsSignaled(a) == a.signaled
  {
  }

  /** When the module goes, its own reference is the last one unless an array with dummies is still held. */
  lemma DummyGoesLast(s: State)
    requires Inv(s)
    ensures s.dummyRefs >= 1
    ensures s.dummyRefs == 1 <==> forall x | 0 <= x < |s.arrays| :: DummiesHeld(s.arrays[x]) == 0
  {
    hide Dummies, Users;
    NothingHeldIff(s.arrays);
  }

  lemma {:induction false} NothingHeldIff(arrays: seq<FenceArray>)
    ensures TotalDummies(arrays) >= 0
    ensures TotalDummies(arrays) == 0 <==> forall x | 0 <= x < |arrays| :: DummiesHeld(arrays[x]) == 0
    decreases |arrays|
  {
    hide DummiesHeld;
    if arrays != [] {
      var n := |arrays| - 1;
      NothingHeldIff(arrays[..n]);
      assert forall x | 0 <= x < n :: arrays[..n][x] == arrays[x];
    }
  }

  // ----- What is created, and when it is signaled -----

  /** A create within bounds that no allocation fails appends one array: open, tracked, with a reference for
      each, full of as many dummies as asked for, unsignaled, waiting for one child or for all. */
  lemma CreateOutcome(s: State, n: nat, signalAny: bool, failing: Failing)
    requires Inv(s)
    ensures var r := Create(s, n, signalAny, failing);
            && (r.0 == 0 <==> failing.Nothing? && 1 <= n <= 32)
            && r.0 in {-34, -22, -12, 0}
            && (r.0 == -34 <==> !failing.Fd? && !(1 <= n <= 32))
            && (r.0 == -12 <==> 1 <= n <= 32 && (failing.FenceList? || failing.Node?))
            && (r.0 == 0 ==>
                  && |r.1.arrays| == |s.arrays| + 1 && r.1.arrays[..|s.arrays|] == s.arrays
                  && var a := r.1.arrays[|s.arrays|];
                  && a.open && a.refs == 2 && a.others == 0 && |s.arrays| in r.1.tracker && |s.arrays| !in s.tracker
                  && |a.fences| == n && AllDummy(a.fences)
                  && a.signalAny == signalAny && a.pending == (if signalAny then 1 else n)
                  && !a.signaled && !a.bound && a.error == 0 && a.heard == 0 && a.forced == 0 && a.enableBit
                  && r.1.dummyRefs == s.dummyRefs + n && r.1.userRefs == s.userRefs
                  && r.1.tracker == s.tracker + [|s.arrays|] && r.1.available == s.available)
            && (r.0 != 0 ==>
                  && r.1.tracker == s.tracker && r.1.dummyRefs == s.dummyRefs && r.1.userRefs == s.userRefs
                  && r.1.available == s.available && |r.1.arrays| >= |s.arrays| && r.1.arrays[..|s.arrays|] == s.arrays
                  && forall x | |s.arrays| <= x < |r.1.arrays| :: r.1.arrays[x].refs == 0)
  {
    AllDummiesAre(n);
    hide AllDummies, Conserved;
  }

  /** In every run, an array is signaled exactly if its bind failed or it was counted down as often as it
      needs: once if any child will do, and once for each child if not. */
  lemma SignaledExactly(calls: seq<Call>, x: nat)
    requires IsRun(INITIAL, calls) && x < |Final(INITIAL, calls).arrays|
    ensures var a := Final(INITIAL, calls).arrays[x];
            && 1 <= |a.fences| <= 32 && a.heard <= |a.fences|
            && (a.signaled <==> (a.bound && a.error == -EINVAL) || a.heard + a.forced >= if a.signalAny then 1 else |a.fences|)
  {
    InitialInv();
    RunKeepsInv(INITIAL, calls);
    ArraysAreOk(Final(INITIAL, calls), x, -1);
  }

  /** So in every run, an array whose bind did not fail and that no forced clearing has counted down is
      signaled exactly when one of its children has signaled, or all of them. */
  lemma SignaledByChildren(calls: seq<Call>, x: nat)
    requires IsRun(INITIAL, calls) && x < |Final(INITIAL, calls).arrays|
    ensures var a := Final(INITIAL, calls).arrays[x];
            !(a.bound && a.error == -EINVAL) && a.forced == 0 ==>
              if a.signalAny then a.signaled <==> a.heard > 0 else a.signaled <==> a.heard == |a.fences|
  {
    SignaledExactly(calls, x);
  }

  /** What a child's signal does: one more is counted, and the array is signaled with the last that it needs. */
  lemma ChildOutcome(s: State, x: nat)
    requires Inv(s) && Possible(s, ChildSignals(x))
    ensures var a, s' := s.arrays[x], Do(s, ChildSignals(x));
            && s'.arrays[x] == a.(pending := a.pending - 1, heard := a.heard + 1, signaled := s'.arrays[x].signaled)
            && (s'.arrays[x].signaled <==> a.signaled || a.heard + 1 + a.forced >= if a.signalAny then 1 else |a.fences|)
            && s' == s.(arrays := s.arrays[x := s'.arrays[x]])
  {
    ArraysAreOk(s, x, -1);
    HeardKeepsArray(s.arrays[x]);
    hide Conserved;
  }

  /** A bind is refused for no fence, somebody else's, one that is signaled, not tracked or filled already, and
      for failing to copy the descriptors, each with its error; it then leaves everything as it was. */
  lemma RefusedBindChangesNothing(s: State, x: nat, copy: Copy, fds: seq<Lookup>, signaledChildren: nat)
    requires Inv(s) && x < |s.arrays| && s.arrays[x].open && !PassesChecks(s, x, copy)
    ensures Bind(s, ArrayFile(x), copy, fds, signaledChildren).1 == s
    ensures Bind(s, ArrayFile(x), copy, fds, signaledChildren).0 ==
            if s.arrays[x].signaled || x !in s.tracker || exists i :: 0 <= i < |s.arrays[x].fences| && s.arrays[x].fences[i].User?
            then -22 else if copy.NoMemory? then -12 else -14
    ensures Bind(s, NoFence, copy, fds, signaledChildren) == Bind(s, Foreign, copy, fds, signaledChildren) == (-22, s)
  {
    BindIs(s, x, copy, fds, signaledChildren);
    BindErrorIs(s, x, copy, fds, signaledChildren);
    ArraysAreOk(s, x, -1);
    SignaledIsPolled(s.arrays[x]);
    RefsPositive(s, x);
    hide Bind, Inv, ArrayInv, Dummies, Users;
    assert Put(Gotten(s, x), x).arrays == s.arrays;
  }

  lemma BindErrorIs(s: State, x: nat, copy: Copy, fds: seq<Lookup>, signaledChildren: nat)
    requires TrackerOk(s) && x < |s.arrays| && !PassesChecks(s, x, copy)
    ensures Bind(s, ArrayFile(x), copy, fds, signaledChildren).0 ==
            if IsSignaled(s.arrays[x]) || x !in s.tracker || exists i :: 0 <= i < |s.arrays[x].fences| && s.arrays[x].fences[i].User?
            then -EINVAL else if copy.NoMemory? then -ENOMEM else -EFAULT
    ensures Bind(s, NoFence, copy, fds, signaledChildren) == Bind(s, Foreign, copy, fds, signaledChildren) == (-EINVAL, s)
  {
    assert AllDummy(s.arrays[x].fences) <==> !exists i :: 0 <= i < |s.arrays[x].fences| && s.arrays[x].fences[i].User?;
  }

  lemma RefsPositive(s: State, x: nat)
    requires Inv(s) && x < |s.arrays| && s.arrays[x].open
    ensures s.arrays[x].refs > 0
  {
  }

  /** Opening succeeds while there is a device left, closing while one is open. */
  lemma OpenAndClose(s: State)
    requires Inv(s)
    ensures (Open(s).0 == 0 <==> s.available < 2) && Open(s).1 == s.(available := s.available + if Open(s).0 == 0 then 1 else 0)
    ensures (Release(s).0 == 0 <==> s.available > 0) && (Release(s).0 != 0 ==> Release(s).1 == s)
    ensures s.available > 1 ==> Release(s).1 == s.(available := s.available - 1)
  {
    hide ClearFrom, Conserved;
  }
}
