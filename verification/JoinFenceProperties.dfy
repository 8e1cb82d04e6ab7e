/** What one call of `hw_fence_process_fence_array` achieves: when exactly it succeeds, what it
    leaves in the table, and that a failed call leaves no trace. */
module JoinFenceProperties {
  import opened HwFences
  import opened FenceTables
  import opened JoinFences

  /** Live fences have at most two parents, each a live slot; the rest of the list is unused. */
  ghost predicate ParentsInv(t: seq<HwFence>) {
    forall i | 0 <= i < |t| :: if t[i].valid then ParentListInv(t, t[i]) else t[i].parentsCnt == 0
  }

  ghost predicate ParentListInv(t: seq<HwFence>, f: HwFence) {
    && f.parentsCnt <= MAX_JOIN_PARENTS - 1
    && (forall p | 0 <= p < f.parentsCnt :: f.parents[p] < |t| && t[f.parents[p]].valid)
    && (forall p | f.parentsCnt <= p < MAX_JOIN_PARENTS :: f.parents[p] == INVALID_PARENT)
  }

  /** Callers bring an array that is not in the table, and children other than the array. */
  ghost predicate Ready(t: seq<HwFence>, arr: DmaFenceArray) {
    && TableInv(t) && ParentsInv(t)
    && |t| < U32_LIMIT && |arr.fences| < U32_LIMIT
    && arr.key != FREE_KEY && arr.key !in Abs(t)
    && (forall c | c in arr.fences :: c.key != FREE_KEY && c.key != arr.key)
  }

  /** How often a key occurs among the first `n` children. */
  function Count(cs: seq<DmaFence>, n: nat, k: Key): (c: nat)
    requires n <= |cs|
  {
    if n == 0 then 0 else Count(cs, n - 1, k) + if cs[n - 1].key == k then 1 else 0
  }

  /** How many of the first `n` children are already signaled. */
  ghost function SignaledAmong(m: map<Key, HwFence>, cs: seq<DmaFence>, n: nat): (c: nat)
    requires n <= |cs|
    ensures c <= n
  {
    if n == 0 then 0
    else SignaledAmong(m, cs, n - 1) + if cs[n - 1].key in m && m[cs[n - 1].key].signaled then 1 else 0
  }

  /** A fence with a parent appended `n` times. */
  function Mark(f: HwFence, h: u64, n: nat): HwFence {
    if n == 0 then f else AppendParent(Mark(f, h, n - 1), h)
  }

  /** How often the first `n` children put the join into a fence's parent list. */
  function Occ(f: HwFence, cs: seq<DmaFence>, n: nat): nat
    requires n <= |cs|
  {
    if f.signaled then 0 else Count(cs, n, f.key)
  }

  /** The children that the driver accepts, in the caller's terms. */
  ghost predicate Accepts(m: map<Key, HwFence>, cs: seq<DmaFence>, n: nat)
    requires n <= |cs|
  {
    forall q | 0 <= q < n :: AcceptsChild(m, cs[q], Count(cs, n, cs[q].key))
  }

  ghost predicate AcceptsChild(m: map<Key, HwFence>, c: DmaFence, times: nat) {
    && !c.isArray && c.enabled && c.key in m
    && (m[c.key].signaled || m[c.key].parentsCnt + times <= MAX_JOIN_PARENTS - 1)
  }

  // ----- Tables that differ in nothing that a probe looks at -----

  ghost predicate SameShape(t: seq<HwFence>, t': seq<HwFence>) {
    && |t| == |t'|
    && forall i | 0 <= i < |t| :: t'[i].valid == t[i].valid && t'[i].key == t[i].key && t'[i].allocator == t[i].allocator
  }

  lemma {:induction false} SameShapeScan(t: seq<HwFence>, t': seq<HwFence>, home: nat, step: nat, op: LookupOp, k: Key)
    requires SameShape(t, t') && home < |t| && step <= |t|
    ensures Scan(t', home, step, op, k) == Scan(t, home, step, op, k)
    decreases |t| - step
  {
    if step < |t| {
      SameShapeScan(t, t', home, step + 1, op, k);
    }
  }

  lemma SameShapeProbe(t: seq<HwFence>, t': seq<HwFence>, op: LookupOp, k: Key)
    requires SameShape(t, t')
    ensures Probe(t', op, k) == Probe(t, op, k)
  {
    if t != [] {
      SameShapeScan(t, t', HomeSlot(|t|, k), 0, op, k);
    }
  }

  // ----- The child loop -----

  lemma MarkShape(f: HwFence, h: u64, n: nat)
    requires f.parentsCnt + n <= MAX_JOIN_PARENTS - 1
    ensures var g := Mark(f, h, n);
            && g == f.(parents := g.parents, parentsCnt := f.parentsCnt + n)
            && (forall p | 0 <= p < f.parentsCnt :: g.parents[p] == f.parents[p])
            && (forall p | f.parentsCnt <= p < f.parentsCnt + n :: g.parents[p] == h)
            && (forall p | f.parentsCnt + n <= p < MAX_JOIN_PARENTS :: g.parents[p] == f.parents[p])
  {
    if n > 0 {
      MarkShape(f, h, n - 1);
    }
  }

  /** A slot after the first `n` children, told from what it was before them. */
  ghost predicate VisitedSlot(f0: HwFence, f: HwFence, h: u64, cs: seq<DmaFence>, n: nat)
    requires n <= |cs|
  {
    f0.parentsCnt + Occ(f0, cs, n) <= MAX_JOIN_PARENTS - 1 && f == Mark(f0, h, Occ(f0, cs, n))
  }

  /** The table after the first `n` children, told from the table `t0` before them and its map `m`. */
  ghost predicate Visited(m: map<Key, HwFence>, t0: seq<HwFence>, t: seq<HwFence>, h: u64, cs: seq<DmaFence>, n: nat)
    requires n <= |cs|
  {
    && |t| == |t0| && h < |t0|
    && t[h] == t0[h].(pendingChildCnt := t[h].pendingChildCnt)
    && t[h].pendingChildCnt == |cs| - SignaledAmong(m, cs, n)
    && (forall s | 0 <= s < |t| && s != h :: VisitedSlot(t0[s], t[s], h, cs, n))
  }

  /** The table just before the child loop. */
  ghost predicate JoinReserved(t0: seq<HwFence>, h: u64, cs: seq<DmaFence>) {
    && TableInv(t0) && h < |t0| < U32_LIMIT && |cs| < U32_LIMIT
    && t0[h].valid && t0[h].parentsCnt == 0 && !t0[h].signaled && t0[h].pendingChildCnt == |cs|
    && (forall c | c in cs :: c.key != FREE_KEY && c.key != t0[h].key)
    && (forall s | 0 <= s < |t0| :: t0[s].parentsCnt <= MAX_JOIN_PARENTS - 1)
  }

  lemma VisitedSlotShape(f0: HwFence, f: HwFence, h: u64, cs: seq<DmaFence>, n: nat)
    requires n <= |cs| && VisitedSlot(f0, f, h, cs, n)
    ensures f == f0.(parents := f.parents, parentsCnt := f0.parentsCnt + Occ(f0, cs, n))
  {
    MarkShape(f0, h, Occ(f0, cs, n));
  }

  lemma VisitedShape(m: map<Key, HwFence>, t0: seq<HwFence>, t: seq<HwFence>, h: u64, cs: seq<DmaFence>, n: nat)
    requires n <= |cs| && Visited(m, t0, t, h, cs, n)
    ensures SameShape(t0, t)
    ensures forall s | 0 <= s < |t| && s != h ::
              t[s] == t0[s].(parents := t[s].parents, parentsCnt := t0[s].parentsCnt + Occ(t0[s], cs, n))
  {
    forall s | 0 <= s < |t| && s != h
      ensures t[s] == t0[s].(parents := t[s].parents, parentsCnt := t0[s].parentsCnt + Occ(t0[s], cs, n))
    {
      VisitedSlotShape(t0[s], t[s], h, cs, n);
    }
  }

  /** A slot of another key does not notice the next child, nor does a signaled one. */
  lemma SlotKept(f0: HwFence, f: HwFence, h: u64, cs: seq<DmaFence>, n: nat)
    requires n < |cs| && VisitedSlot(f0, f, h, cs, n) && (f0.key != cs[n].key || f0.signaled)
    ensures VisitedSlot(f0, f, h, cs, n + 1)
  {
  }

  lemma {:induction false} VisitSignaled(m: map<Key, HwFence>, t0: seq<HwFence>, t: seq<HwFence>, h: u64, cs: seq<DmaFence>, n: nat)
    requires n < |cs| < U32_LIMIT && Visited(m, t0, t, h, cs, n)
    requires cs[n].key in m && m[cs[n].key].signaled
    requires forall i | 0 <= i < |t0| && i != h && t0[i].key == cs[n].key :: t0[i].signaled
    ensures Visited(m, t0, t[h := t[h].(pendingChildCnt := WrapU32(t[h].pendingChildCnt - 1))], h, cs, n + 1)
    ensures WrapU32(t[h].pendingChildCnt - 1) == |cs| - SignaledAmong(m, cs, n + 1)
  {
    forall i | 0 <= i < |t| && i != h ensures VisitedSlot(t0[i], t[i], h, cs, n + 1) {
      SlotKept(t0[i], t[i], h, cs, n);
    }
  }

  lemma VisitUnsignaled(m: map<Key, HwFence>, t0: seq<HwFence>, t: seq<HwFence>, h: u64, cs: seq<DmaFence>, n: nat, s: nat)
    requires n < |cs| && Visited(m, t0, t, h, cs, n)
    requires cs[n].key in m && !m[cs[n].key].signaled
    requires s < |t0| && s != h && !t0[s].signaled && t0[s].key == cs[n].key && t[s].parentsCnt < MAX_JOIN_PARENTS - 1
    requires forall i | 0 <= i < |t0| && i != s :: t0[i].key != cs[n].key
    ensures Visited(m, t0, t[s := AppendParent(t[s], h)], h, cs, n + 1)
  {
    forall i | 0 <= i < |t| && i != h && i != s ensures VisitedSlot(t0[i], t[i], h, cs, n + 1) {
      SlotKept(t0[i], t[i], h, cs, n);
    }
    VisitedSlotShape(t0[s], t[s], h, cs, n);
    assert VisitedSlot(t0[s], AppendParent(t[s], h), h, cs, n + 1);
  }

  /** Child `n` is accepted iff its fence is there and has room, and the table stays as told. */
  lemma VisitStep(t0: seq<HwFence>, t: seq<HwFence>, h: u64, cs: seq<DmaFence>, n: nat)
    requires JoinReserved(t0, h, cs) && n < |cs| && Visited(Abs(t0), t0, t, h, cs, n)
    ensures var v := VisitChild(t, h, cs[n]);
            && (v.ok <==> AcceptsChild(Abs(t0), cs[n], Count(cs, n + 1, cs[n].key)))
            && (if v.ok then Visited(Abs(t0), t0, v.t, h, cs, n + 1) else v.t == t)
            && (v.reachedZero <==> v.ok && SignaledAmong(Abs(t0), cs, n + 1) == |cs|)
  {
    var c, m := cs[n], Abs(t0);
    assert c in cs;
    VisitedShape(m, t0, t, h, cs, n);
    SameShapeProbe(t0, t, Find, c.key);
    MatchProbe(t0, Find, c.key);
    if c.key in m {
      var s := Probe(t0, Find, c.key).slot;
      AbsLookup(t0, s, c.key);
      OnlySlot(t0, s, c.key);
      VisitFound(m, t0, t, h, cs, n, s);
    }
  }

  lemma VisitFound(m: map<Key, HwFence>, t0: seq<HwFence>, t: seq<HwFence>, h: u64, cs: seq<DmaFence>, n: nat, s: nat)
    requires n < |cs| < U32_LIMIT && Visited(m, t0, t, h, cs, n)
    requires s < |t0| && t0[s].key == cs[n].key && Probe(t, Find, cs[n].key) == Hit(s)
    requires cs[n].key in m && m[cs[n].key] == t0[s] && t0[h].key != cs[n].key
    requires forall i | 0 <= i < |t0| && i != s :: t0[i].key != cs[n].key
    ensures var v := VisitChild(t, h, cs[n]);
            && (v.ok <==> AcceptsChild(m, cs[n], Count(cs, n + 1, cs[n].key)))
            && (if v.ok then Visited(m, t0, v.t, h, cs, n + 1) else v.t == t)
            && (v.reachedZero <==> v.ok && SignaledAmong(m, cs, n + 1) == |cs|)
  {
    hide HomeSlot;
    VisitedSlotShape(t0[s], t[s], h, cs, n);
    if t0[s].signaled {
      VisitSignaled(m, t0, t, h, cs, n);
    } else if t[s].parentsCnt < MAX_JOIN_PARENTS - 1 {
      VisitUnsignaled(m, t0, t, h, cs, n, s);
    }
  }

  lemma OnlySlot(t: seq<HwFence>, s: nat, k: Key)
    requires TableInv(t) && Holds(t, s, k) && k != FREE_KEY
    ensures forall i | 0 <= i < |t| && i != s :: t[i].key != k
  {
  }

  ghost predicate AcceptedUpTo(m: map<Key, HwFence>, cs: seq<DmaFence>, n: nat)
    requires n <= |cs|
  {
    forall q | 0 <= q < n :: AcceptsChild(m, cs[q], Count(cs, q + 1, cs[q].key))
  }

  lemma {:induction false} VisitAllEnd(t0: seq<HwFence>, t: seq<HwFence>, h: u64, cs: seq<DmaFence>, n: nat, signal: bool)
    requires JoinReserved(t0, h, cs) && n <= |cs| && Visited(Abs(t0), t0, t, h, cs, n)
    requires signal <==> 0 < n && SignaledAmong(Abs(t0), cs, n) == |cs|
    requires AcceptedUpTo(Abs(t0), cs, n)
    ensures var e := VisitAll(t, h, cs, n, signal);
            && Visited(Abs(t0), t0, e.t, h, cs, e.next)
            && (e.ok <==> AcceptedUpTo(Abs(t0), cs, |cs|))
            && (e.ok ==> (e.signal <==> cs != [] && SignaledAmong(Abs(t0), cs, |cs|) == |cs|))
    decreases |cs| - n
  {
    hide VisitChild, Abs, AcceptsChild, TableInv, SignaledAmong, Count, VisitedSlot;
    if n < |cs| {
      VisitStep(t0, t, h, cs, n);
      var v := VisitChild(t, h, cs[n]);
      if v.ok {
        assert (signal || v.reachedZero) <==> SignaledAmong(Abs(t0), cs, n + 1) == |cs|;
        VisitAllEnd(t0, v.t, h, cs, n + 1, signal || v.reachedZero);
      }
    }
  }

  lemma {:induction false} CountGrows(cs: seq<DmaFence>, a: nat, b: nat, k: Key)
    requires a <= b <= |cs|
    ensures Count(cs, a, k) <= Count(cs, b, k)
  {
    if a < b {
      CountGrows(cs, a, b - 1, k);
    }
  }

  lemma {:induction false} LastOccurrence(cs: seq<DmaFence>, n: nat, k: Key) returns (q: nat)
    requires n <= |cs| && 0 < Count(cs, n, k)
    ensures q < n && cs[q].key == k && Count(cs, q + 1, k) == Count(cs, n, k)
  {
    if cs[n - 1].key == k {
      q := n - 1;
    } else {
      q := LastOccurrence(cs, n - 1, k);
    }
  }

  lemma {:induction false} CountsWhatOccurs(cs: seq<DmaFence>, n: nat, k: Key)
    requires n <= |cs|
    ensures 0 < Count(cs, n, k) <==> exists q :: 0 <= q < n && cs[q].key == k
  {
    if n > 0 {
      CountsWhatOccurs(cs, n - 1, k);
    }
  }

  /** Accepting the children one by one is accepting them all: only how often a child occurs in the
      whole array matters. The flags of a repeated child are looked at each time. */
  lemma AcceptsOneByOne(m: map<Key, HwFence>, cs: seq<DmaFence>)
    ensures Accepts(m, cs, |cs|) <==> AcceptedUpTo(m, cs, |cs|)
  {
    forall q | 0 <= q < |cs| ensures Count(cs, q + 1, cs[q].key) <= Count(cs, |cs|, cs[q].key) {
      CountGrows(cs, q + 1, |cs|, cs[q].key);
    }
    if AcceptedUpTo(m, cs, |cs|) {
      forall q | 0 <= q < |cs| ensures AcceptsChild(m, cs[q], Count(cs, |cs|, cs[q].key)) {
        CountsWhatOccurs(cs, |cs|, cs[q].key);
        var last := LastOccurrence(cs, |cs|, cs[q].key);
        assert AcceptsChild(m, cs[last], Count(cs, last + 1, cs[last].key));
        assert AcceptsChild(m, cs[q], Count(cs, q + 1, cs[q].key));
      }
    }
  }

  // ----- Rolling back -----

  /** Dropping a parent undoes appending it, as long as it is at the end of the list. */
  lemma DropUndoesMark(f: HwFence, h: u64, n: nat)
    requires f.parentsCnt + n <= MAX_JOIN_PARENTS - 1 && h != INVALID_PARENT
    requires forall p | 0 <= p < f.parentsCnt :: f.parents[p] != h
    requires forall p | f.parentsCnt <= p < MAX_JOIN_PARENTS :: f.parents[p] == INVALID_PARENT
    ensures DropParents(Mark(f, h, n), h, f.parentsCnt + n) == f
  {
    MarkShape(f, h, n);
    var g := Mark(f, h, n);
    var j := f.parentsCnt + n;
    if n == 0 {
      DropNothing(f, h, j);
    } else {
      var g' := g.(parents := g.parents[j - 1 := INVALID_PARENT], parentsCnt := j - 1);
      assert g'.parents == Mark(f, h, n - 1).parents by {
        MarkShape(f, h, n - 1);
      }
      assert g' == Mark(f, h, n - 1) by {
        MarkShape(f, h, n - 1);
      }
      DropUndoesMark(f, h, n - 1);
    }
  }

  lemma {:induction false} DropNothing(f: HwFence, h: u64, j: nat)
    requires j <= MAX_JOIN_PARENTS && forall p | 0 <= p < j :: f.parents[p] != h
    ensures DropParents(f, h, j) == f
  {
    if j > 0 {
      DropNothing(f, h, j - 1);
    }
  }

  ghost predicate Hits(t: seq<HwFence>, cs: seq<DmaFence>, m: nat, s: nat)
    requires m <= |cs|
  {
    exists q :: 0 <= q < m && Probe(t, Find, cs[q].key) == Hit(s)
  }

  /** Every slot but the join's is as before the child loop, or still marked by it. */
  ghost predicate PartlyRestored(t0: seq<HwFence>, t: seq<HwFence>, h: u64, cs: seq<DmaFence>, n: nat)
    requires n <= |cs|
  {
    && SameShape(t0, t)
    && forall s | 0 <= s < |t| && s != h :: t[s] == t0[s] || t[s] == Mark(t0[s], h, Occ(t0[s], cs, n))
  }

  /** Parent lists as they must be before the call for the join to end up at their tails. */
  ghost predicate Undoable(t0: seq<HwFence>, h: u64, cs: seq<DmaFence>, n: nat)
    requires n <= |cs|
  {
    && h < |t0| < U32_LIMIT
    && forall s | 0 <= s < |t0| && s != h && t0[s].valid ::
         && t0[s].parentsCnt + Occ(t0[s], cs, n) <= MAX_JOIN_PARENTS - 1
         && (forall p | 0 <= p < t0[s].parentsCnt :: t0[s].parents[p] != h)
         && (forall p | t0[s].parentsCnt <= p < MAX_JOIN_PARENTS :: t0[s].parents[p] == INVALID_PARENT)
  }

  /** A child that is found is live, and is not the join. */
  ghost predicate FindsChild(t0: seq<HwFence>, h: u64, c: DmaFence) {
    var r := Probe(t0, Find, c.key);
    r.Hit? ==> t0[r.slot].valid && r.slot != h
  }

  lemma RollbackChildStep(t0: seq<HwFence>, t: seq<HwFence>, h: u64, cs: seq<DmaFence>, n: nat, c: DmaFence)
    requires n <= |cs| && PartlyRestored(t0, t, h, cs, n) && Undoable(t0, h, cs, n) && FindsChild(t0, h, c)
    ensures var t' := RollbackChild(t, h, c);
            && PartlyRestored(t0, t', h, cs, n) && t'[h] == t[h]
            && (forall s | 0 <= s < |t| && s != h && Probe(t0, Find, c.key) == Hit(s) :: t'[s] == t0[s])
            && (forall s | 0 <= s < |t| && s != h && t[s] == t0[s] :: t'[s] == t0[s])
  {
    hide HomeSlot;
    SameShapeProbe(t0, t, Find, c.key);
    var r := Probe(t0, Find, c.key);
    if r.Hit? {
      var s := r.slot;
      MarkShape(t0[s], h, Occ(t0[s], cs, n));
      DropUndoesMark(t0[s], h, Occ(t0[s], cs, n));
      DropUndoesMark(t0[s], h, 0);
      assert DropParents(t[s], h, t[s].parentsCnt) == t0[s];
    }
  }

  /** Rolling back the first `m` children restores every slot that one of them names. */
  lemma {:induction false} RollbackRestores(t0: seq<HwFence>, t: seq<HwFence>, h: u64, cs: seq<DmaFence>, n: nat, m: nat)
    requires n <= |cs| && m <= |cs| && PartlyRestored(t0, t, h, cs, n) && Undoable(t0, h, cs, n)
    requires forall c | c in cs :: FindsChild(t0, h, c)
    ensures var t' := Rollback(t, h, cs, m);
            && PartlyRestored(t0, t', h, cs, n) && t'[h] == t[h]
            && (forall s | 0 <= s < |t| && s != h && (Hits(t0, cs, m, s) || t[s] == t0[s]) :: t'[s] == t0[s])
    decreases m
  {
    hide HomeSlot, Probe, RollbackChild, Undoable, FindsChild, SameShape, Mark;
    if m > 0 {
      RollbackChildStep(t0, t, h, cs, n, cs[m - 1]);
      RollbackRestores(t0, RollbackChild(t, h, cs[m - 1]), h, cs, n, m - 1);
    }
  }

  /** Rolling back from the failing child on undoes the whole child loop, repeated children included. */
  lemma RollbackUndoesVisits(t0: seq<HwFence>, t: seq<HwFence>, h: u64, cs: seq<DmaFence>, n: nat)
    requires JoinReserved(t0, h, cs) && n < |cs| && Visited(Abs(t0), t0, t, h, cs, n) && Undoable(t0, h, cs, n)
    ensures Rollback(t, h, cs, n + 1) == t0[h := t[h]]
  {
    hide HomeSlot, Probe, Rollback, TableInv, Abs, Undoable, SignaledAmong;
    VisitedIsMarked(Abs(t0), t0, t, h, cs, n);
    FindsChildren(t0, h, cs);
    RollbackRestores(t0, t, h, cs, n, n + 1);
    var t' := Rollback(t, h, cs, n + 1);
    forall s | 0 <= s < |t0| && s != h ensures t'[s] == t0[s] {
      if 0 < Occ(t0[s], cs, n) {
        OccurringChildHits(t0, h, cs, n, s);
      } else {
        assert VisitedSlot(t0[s], t[s], h, cs, n);
        assert t[s] == t0[s];
      }
    }
    assert t' == t0[h := t[h]];
  }

  lemma VisitedIsMarked(m: map<Key, HwFence>, t0: seq<HwFence>, t: seq<HwFence>, h: u64, cs: seq<DmaFence>, n: nat)
    requires n <= |cs| && Visited(m, t0, t, h, cs, n)
    ensures PartlyRestored(t0, t, h, cs, n)
  {
    VisitedShape(m, t0, t, h, cs, n);
    forall s | 0 <= s < |t| && s != h ensures t[s] == Mark(t0[s], h, Occ(t0[s], cs, n)) {
      assert VisitedSlot(t0[s], t[s], h, cs, n);
    }
  }

  lemma FindsChildren(t0: seq<HwFence>, h: u64, cs: seq<DmaFence>)
    requires JoinReserved(t0, h, cs)
    ensures forall c | c in cs :: FindsChild(t0, h, c)
  {
    hide HomeSlot;
    forall c | c in cs ensures FindsChild(t0, h, c) {
      MatchProbe(t0, Find, c.key);
    }
  }

  lemma OccurringChildHits(t0: seq<HwFence>, h: u64, cs: seq<DmaFence>, n: nat, s: nat)
    requires JoinReserved(t0, h, cs) && n < |cs| && s < |t0| && 0 < Occ(t0[s], cs, n)
    ensures Hits(t0, cs, n + 1, s)
  {
    hide HomeSlot;
    var q := LastOccurrence(cs, n, t0[s].key);
    assert cs[q] in cs;
    MatchProbe(t0, Find, t0[s].key);
    AbsLookup(t0, s, t0[s].key);
    OnlySlot(t0, s, t0[s].key);
    assert Probe(t0, Find, cs[q].key) == Hit(s);
  }

  // ----- The call as a whole -----

  /** The join fence as the call reserves it. */
  function JoinFence(arr: DmaFenceArray, client: u32): HwFence
    requires |arr.fences| < U32_LIMIT
  {
    WithWaiter(Reserved(arr.key, JOIN_CLIENT_ID, |arr.fences|), client)
  }

  /** Reserving the join fence, in a table with room. */
  lemma ReserveJoin(t: seq<HwFence>, client: u32, arr: DmaFenceArray)
    requires Ready(t, arr) && |Abs(t)| < |t|
    ensures var r := Probe(t, CreateJoin, arr.key);
            && r.Hit? && !t[r.slot].valid
            && Lookup(t, CreateJoin, arr.key, JOIN_CLIENT_ID, |arr.fences|)
               == t[r.slot := Reserved(arr.key, JOIN_CLIENT_ID, |arr.fences|)]
            && JoinReserved(t[r.slot := JoinFence(arr, client)], r.slot, arr.fences)
            && Abs(t[r.slot := JoinFence(arr, client)]) == Abs(t)[arr.key := JoinFence(arr, client)]
  {
    hide HomeSlot;
    CreateProbe(t, CreateJoin, arr.key);
    ReserveRefines(t, Probe(t, CreateJoin, arr.key).slot, JoinFence(arr, client));
  }

  lemma CallReserves(t: seq<HwFence>, client: u32, arr: DmaFenceArray, h: nat)
    requires Ready(t, arr) && h < |t|
    ensures var t1 := t[h := Reserved(arr.key, JOIN_CLIENT_ID, |arr.fences|)];
            t1[h := WithWaiter(t1[h], client)] == t[h := JoinFence(arr, client)]
  {
  }

  lemma ReservedIsUndoable(t: seq<HwFence>, client: u32, arr: DmaFenceArray, h: u64, t': seq<HwFence>, n: nat)
    requires Ready(t, arr) && h < |t| && !t[h].valid && n <= |arr.fences|
    requires Visited(Abs(t)[arr.key := JoinFence(arr, client)], t[h := JoinFence(arr, client)], t', h, arr.fences, n)
    ensures Undoable(t[h := JoinFence(arr, client)], h, arr.fences, n)
  {
    var t0 := t[h := JoinFence(arr, client)];
    forall s | 0 <= s < |t0| && s != h && t0[s].valid
      ensures t0[s].parentsCnt + Occ(t0[s], arr.fences, n) <= MAX_JOIN_PARENTS - 1
      ensures forall p | 0 <= p < t0[s].parentsCnt :: t0[s].parents[p] != h
      ensures forall p | t0[s].parentsCnt <= p < MAX_JOIN_PARENTS :: t0[s].parents[p] == INVALID_PARENT
    {
      assert VisitedSlot(t0[s], t'[s], h, arr.fences, n);
      assert ParentListInv(t, t[s]);
    }
  }

  lemma DestroyJoin(t0: seq<HwFence>, t: seq<HwFence>, h: nat, k: Key)
    requires TableInv(t0) && SameShape(t0, t) && Holds(t0, h, k) && k != FREE_KEY
    ensures Lookup(t, Destroy, k, JOIN_CLIENT_ID, 0) == t[h := CLEAN_FENCE]
  {
    hide HomeSlot;
    SameShapeProbe(t0, t, Destroy, k);
    MatchProbe(t0, Destroy, k);
    AbsLookup(t0, h, k);
  }

  lemma {:induction false} SameForChildren(m: map<Key, HwFence>, k: Key, f: HwFence, cs: seq<DmaFence>, n: nat)
    requires n <= |cs| && forall c | c in cs :: c.key != k
    ensures SignaledAmong(m[k := f], cs, n) == SignaledAmong(m, cs, n)
    ensures Accepts(m[k := f], cs, n) <==> Accepts(m, cs, n)
  {
    forall q | 0 <= q < n
      ensures AcceptsChild(m[k := f], cs[q], Count(cs, n, cs[q].key)) <==> AcceptsChild(m, cs[q], Count(cs, n, cs[q].key))
    {
      assert cs[q] in cs;
    }
    if n > 0 {
      assert cs[n - 1] in cs;
      SameForChildren(m, k, f, cs, n - 1);
    }
  }

  /** The child loop of a call with room in the table. */
  lemma CallVisits(t: seq<HwFence>, client: u32, arr: DmaFenceArray)
    requires Ready(t, arr) && |Abs(t)| < |t|
    ensures var r := Probe(t, CreateJoin, arr.key);
            r.Hit? && r.slot < |t| && !t[r.slot].valid &&
            var m, t0 := Abs(t)[arr.key := JoinFence(arr, client)], t[r.slot := JoinFence(arr, client)];
            var e := VisitAll(t0, r.slot, arr.fences, 0, false);
            && JoinReserved(t0, r.slot, arr.fences) && Abs(t0) == m
            && Visited(m, t0, e.t, r.slot, arr.fences, e.next)
            && Undoable(t0, r.slot, arr.fences, e.next)
            && (e.ok <==> Accepts(Abs(t), arr.fences, |arr.fences|))
            && (e.ok ==> (e.signal <==>
                  arr.fences != [] && SignaledAmong(Abs(t), arr.fences, |arr.fences|) == |arr.fences|))
  {
    hide HomeSlot, Probe, VisitAll;
    ReserveJoin(t, client, arr);
    var h := Probe(t, CreateJoin, arr.key).slot;
    var m, t0 := Abs(t)[arr.key := JoinFence(arr, client)], t[h := JoinFence(arr, client)];
    forall s | 0 <= s < |t0| && s != h ensures VisitedSlot(t0[s], t0[s], h, arr.fences, 0) {
    }
    assert SignaledAmong(m, arr.fences, 0) == 0;
    assert Visited(m, t0, t0, h, arr.fences, 0);
    VisitAllEnd(t0, t0, h, arr.fences, 0, false);
    AcceptsOneByOne(m, arr.fences);
    SameForChildren(Abs(t), arr.key, JoinFence(arr, client), arr.fences, |arr.fences|);
    var e := VisitAll(t0, h, arr.fences, 0, false);
    ReservedIsUndoable(t, client, arr, h, e.t, e.next);
  }

  lemma {:induction false} UnsignaledDoesNotOccur(m: map<Key, HwFence>, cs: seq<DmaFence>, n: nat, k: Key)
    requires n <= |cs| && SignaledAmong(m, cs, n) == n && k in m && !m[k].signaled
    ensures Count(cs, n, k) == 0
  {
    if n > 0 {
      UnsignaledDoesNotOccur(m, cs, n - 1, k);
    }
  }

  lemma {:induction false} FreeKeyDoesNotOccur(cs: seq<DmaFence>, n: nat)
    requires n <= |cs| && forall c | c in cs :: c.key != FREE_KEY
    ensures Count(cs, n, FREE_KEY) == 0
  {
    if n > 0 {
      assert cs[n - 1] in cs;
      FreeKeyDoesNotOccur(cs, n - 1);
    }
  }

  /** If every child is signaled already, no parent list has changed. */
  lemma NoneMarked(t0: seq<HwFence>, t: seq<HwFence>, h: u64, cs: seq<DmaFence>)
    requires JoinReserved(t0, h, cs) && Visited(Abs(t0), t0, t, h, cs, |cs|)
    requires SignaledAmong(Abs(t0), cs, |cs|) == |cs|
    ensures t == t0[h := t[h]]
  {
    hide HomeSlot;
    FreeKeyDoesNotOccur(cs, |cs|);
    forall s | 0 <= s < |t0| && s != h ensures t[s] == t0[s] {
      assert VisitedSlot(t0[s], t[s], h, cs, |cs|);
      if t0[s].valid && !t0[s].signaled {
        AbsLookup(t0, s, t0[s].key);
        UnsignaledDoesNotOccur(Abs(t0), cs, |cs|, t0[s].key);
      }
    }
  }

  lemma FreeSlotCleaned(t: seq<HwFence>, h: nat)
    requires TableInv(t) && h < |t| && !t[h].valid
    ensures TableInv(t[h := CLEAN_FENCE]) && Abs(t[h := CLEAN_FENCE]) == Abs(t)
  {
    var t' := t[h := CLEAN_FENCE];
    CleanKeepsInv(t, h);
    forall s: nat | s < |t'| && t'[s].valid ensures t'[s].key in Abs(t) && Abs(t)[t'[s].key] == t'[s] {
      AbsLookup(t, s, t[s].key);
    }
    forall q | q in Abs(t) ensures exists s: nat :: Holds(t', s, q) {
      var s := AbsSlot(t, q);
      assert Holds(t', s, q);
    }
    AbsIs(t', Abs(t));
  }

  lemma AbsBounded(t: seq<HwFence>, arr: DmaFenceArray)
    requires Ready(t, arr)
    ensures |Abs(t)| < |t| || !Probe(t, CreateJoin, arr.key).Hit?
  {
    hide HomeSlot;
    AbsSize(t);
    CreateProbe(t, CreateJoin, arr.key);
  }

  /** What the call depends on, all of it visible to its caller beforehand. */
  ghost predicate Proceeds(t: seq<HwFence>, client: u32, arr: DmaFenceArray, data: u64)
    requires TableInv(t)
  {
    && (data == 0 || ClientDataId(client) < CLIENTS_WITH_DATA)
    && |Abs(t)| < |t|
    && arr.fences != []
    && Accepts(Abs(t), arr.fences, |arr.fences|)
  }

  /** Parts of the call that end by destroying the join fence leave its slot free and clean. */
  lemma JoinDestroyed(t: seq<HwFence>, client: u32, arr: DmaFenceArray, h: u64, t': seq<HwFence>)
    requires Ready(t, arr) && h < |t| && !t[h].valid && TableInv(t[h := JoinFence(arr, client)])
    requires |t'| == |t| && SameShape(t[h := JoinFence(arr, client)], t')
    requires t' == t[h := t'[h]]
    ensures Lookup(t', Destroy, arr.key, JOIN_CLIENT_ID, 0) == t[h := CLEAN_FENCE]
  {
    DestroyJoin(t[h := JoinFence(arr, client)], t', h, arr.key);
  }

  /** The call succeeds exactly when it should, and a call that fails at whatever child leaves the
      table's map as it was: every parent list and count restored, the join's slot free again. */
  lemma FailedCallLeavesNoTrace(t: seq<HwFence>, client: u32, arr: DmaFenceArray, data: u64)
    requires Ready(t, arr)
    ensures var r := ProcessArray(t, client, arr, data);
            && (r.ok <==> Proceeds(t, client, arr, data))
            && (!r.ok ==>
                  && r.sent == [] && !r.arraySignaled
                  && TableInv(r.t) && Abs(r.t) == Abs(t)
                  && (r.t == t || (r.hash < |t| && !t[r.hash].valid && r.t == t[r.hash := CLEAN_FENCE])))
  {
    hide HomeSlot, Probe, VisitAll, Rollback, Abs, TableInv, Accepts, SignaledAmong;
    AbsBounded(t, arr);
    if |Abs(t)| < |t| && (data == 0 || ClientDataId(client) < CLIENTS_WITH_DATA) {
      CallVisits(t, client, arr);
      ReserveJoin(t, client, arr);
      var h := Probe(t, CreateJoin, arr.key).slot;
      FreeSlotCleaned(t, h);
      var t0 := t[h := JoinFence(arr, client)];
      CallReserves(t, client, arr, h);
      var e := VisitAll(t0, h, arr.fences, 0, false);
      VisitedShape(Abs(t0), t0, e.t, h, arr.fences, e.next);
      if !e.ok {
        RollbackUndoesVisits(t0, e.t, h, arr.fences, e.next);
        JoinDestroyed(t, client, arr, h, t0[h := e.t[h]]);
      } else if arr.fences == [] {
        EmptyVisit(Abs(t0), t0, e.t, h);
        assert e.t[h := WithData(e.t[h], client, data)] == t[h := WithData(e.t[h], client, data)];
        JoinDestroyed(t, client, arr, h, e.t[h := WithData(e.t[h], client, data)]);
      }
    }
  }

  lemma EmptyVisit(m: map<Key, HwFence>, t0: seq<HwFence>, t: seq<HwFence>, h: u64)
    requires Visited(m, t0, t, h, [], 0)
    ensures t == t0[h := t[h]]
  {
    forall s | 0 <= s < |t0| && s != h ensures t[s] == t0[s] {
      assert VisitedSlot(t0[s], t[s], h, [], 0);
    }
  }

  /** A call that succeeds on signaled children alone notifies its client at once and takes the join
      fence away again. The data ends up in the error field. */
  lemma SignaledCallFinishes(t: seq<HwFence>, client: u32, arr: DmaFenceArray, data: u64)
    requires Ready(t, arr) && Proceeds(t, client, arr, data)
    requires SignaledAmong(Abs(t), arr.fences, |arr.fences|) == |arr.fences|
    ensures var r := ProcessArray(t, client, arr, data);
            && r.ok && r.arraySignaled
            && r.hash < |t| && !t[r.hash].valid && r.t == t[r.hash := CLEAN_FENCE]
            && r.sent == [Signal(client, arr.key, r.hash, 0, WrapU32(data))]
  {
    hide HomeSlot, Probe, VisitAll, Rollback, Abs, TableInv, Accepts, SignaledAmong;
    CallVisits(t, client, arr);
    ReserveJoin(t, client, arr);
    var h := Probe(t, CreateJoin, arr.key).slot;
    var t0 := t[h := JoinFence(arr, client)];
    CallReserves(t, client, arr, h);
    var e := VisitAll(t0, h, arr.fences, 0, false);
    SameForChildren(Abs(t), arr.key, JoinFence(arr, client), arr.fences, |arr.fences|);
    NoneMarked(t0, e.t, h, arr.fences);
    assert e.t[h := WithData(e.t[h], client, data)] == t[h := WithData(e.t[h], client, data)];
    VisitedShape(Abs(t0), t0, e.t, h, arr.fences, e.next);
    JoinDestroyed(t, client, arr, h, e.t[h := WithData(e.t[h], client, data)]);
  }

  /** A call that succeeds with a child unsignaled leaves a join fence that waits for exactly the
      unsignaled children, each of which lists it as often as it occurs. */
  lemma PendingCallRegisters(t: seq<HwFence>, client: u32, arr: DmaFenceArray, data: u64)
    requires Ready(t, arr) && Proceeds(t, client, arr, data)
    requires SignaledAmong(Abs(t), arr.fences, |arr.fences|) < |arr.fences|
    ensures var r := ProcessArray(t, client, arr, data);
            && r.ok && !r.arraySignaled && r.sent == []
            && |r.t| == |t| && r.hash < |t| && !t[r.hash].valid
            && r.t[r.hash] == WithData(JoinFence(arr, client), client, data).(
                                pendingChildCnt := |arr.fences| - SignaledAmong(Abs(t), arr.fences, |arr.fences|))
            && forall s | 0 <= s < |t| && s != r.hash ::
                 VisitedSlot(t[s], r.t[s], r.hash, arr.fences, |arr.fences|)
  {
    hide HomeSlot, Probe, VisitAll, Rollback, Abs, TableInv, Accepts, SignaledAmong, VisitedSlot;
    CallVisits(t, client, arr);
    ReserveJoin(t, client, arr);
    CallReserves(t, client, arr, Probe(t, CreateJoin, arr.key).slot);
    SameForChildren(Abs(t), arr.key, JoinFence(arr, client), arr.fences, |arr.fences|);
  }

  lemma MarkKeepsParentListInv(t: seq<HwFence>, t': seq<HwFence>, f0: HwFence, f: HwFence, h: u64, cs: seq<DmaFence>)
    requires |t'| == |t| < U32_LIMIT && h < |t| && ParentListInv(t, f0) && VisitedSlot(f0, f, h, cs, |cs|)
    requires t'[h].valid && forall s | 0 <= s < |t| && t[s].valid :: t'[s].valid
    ensures ParentListInv(t', f)
  {
    MarkShape(f0, h, Occ(f0, cs, |cs|));
  }

  /** Whatever its outcome, the call keeps the table and its parent lists in order. */
  lemma CallKeepsInvariants(t: seq<HwFence>, client: u32, arr: DmaFenceArray, data: u64)
    requires Ready(t, arr)
    ensures var r := ProcessArray(t, client, arr, data);
            TableInv(r.t) && ParentsInv(r.t)
  {
    hide HomeSlot, ProcessArray, Abs, Accepts, SignaledAmong;
    var r := ProcessArray(t, client, arr, data);
    FailedCallLeavesNoTrace(t, client, arr, data);
    if r.ok {
      if SignaledAmong(Abs(t), arr.fences, |arr.fences|) == |arr.fences| {
        SignaledCallFinishes(t, client, arr, data);
        FreeSlotCleaned(t, r.hash);
      } else {
        PendingCallRegisters(t, client, arr, data);
        PendingCallKeeps(t, r.t, r.hash, client, arr);
      }
    }
    if !(r.ok && !r.arraySignaled) && r.t != t {
      assert r.t == t[r.hash := CLEAN_FENCE] && !t[r.hash].valid;
      forall i | 0 <= i < |t| && r.t[i].valid ensures ParentListInv(r.t, r.t[i]) {
        assert ParentListInv(t, t[i]);
      }
    }
  }

  lemma PendingCallKeeps(t: seq<HwFence>, t': seq<HwFence>, h: u64, client: u32, arr: DmaFenceArray)
    requires Ready(t, arr) && |t'| == |t| && h < |t| && !t[h].valid
    requires t'[h].valid && t'[h].key == arr.key && t'[h].parentsCnt == 0
    requires t'[h].parents == CLEAN_FENCE.parents
    requires forall s | 0 <= s < |t| && s != h :: VisitedSlot(t[s], t'[s], h, arr.fences, |arr.fences|)
    ensures TableInv(t') && ParentsInv(t')
  {
    forall s | 0 <= s < |t| && s != h ensures t'[s] == t[s].(parents := t'[s].parents, parentsCnt := t'[s].parentsCnt)
    {
      VisitedSlotShape(t[s], t'[s], h, arr.fences, |arr.fences|);
    }
    FreeKeyDoesNotOccur(arr.fences, |arr.fences|);
    forall s | 0 <= s < |t| ensures if t'[s].valid then ParentListInv(t', t'[s]) else t'[s].parentsCnt == 0 {
      if s != h && t[s].valid {
        MarkKeepsParentListInv(t, t', t[s], t'[s], h, arr.fences);
      } else if s != h {
        VisitedSlotShape(t[s], t'[s], h, arr.fences, |arr.fences|);
      }
    }
    forall s | 0 <= s < |t| && s != h && t[s].valid ensures t[s].key != arr.key {
      AbsLookup(t, s, t[s].key);
    }
  }

  /** Whatever its outcome, the call changes nothing about live fences but their parent lists, to which
      it can only have added a join fence; a free slot stays free or takes that join fence. */
  ghost predicate CalledSlot(t: seq<HwFence>, t': seq<HwFence>, arr: DmaFenceArray, h: u64, i: nat)
    requires |t'| == |t| && i < |t|
  {
    var f, f' := t[i], t'[i];
    if f.valid then
      && f' == f.(parents := f'.parents, parentsCnt := f'.parentsCnt)
      && forall p | 0 <= p < f'.parentsCnt && p < MAX_JOIN_PARENTS ::
           || (p < f.parentsCnt && f'.parents[p] == f.parents[p])
           || (f'.parents[p] == h && h < |t| && t'[h].valid && t'[h].allocator == JOIN_CLIENT_ID)
    else
      || f' == f || f' == CLEAN_FENCE
      || (f'.valid && f'.allocator == JOIN_CLIENT_ID && f'.key == arr.key && f'.parentsCnt == 0)
  }

  lemma CallChangesLittle(t: seq<HwFence>, client: u32, arr: DmaFenceArray, data: u64, i: nat)
    requires Ready(t, arr) && i < |t|
    ensures var r := ProcessArray(t, client, arr, data); |r.t| == |t| && CalledSlot(t, r.t, arr, r.hash, i)
  {
    hide HomeSlot, ProcessArray, Abs, Accepts, SignaledAmong;
    var r := ProcessArray(t, client, arr, data);
    FailedCallLeavesNoTrace(t, client, arr, data);
    if r.ok {
      if SignaledAmong(Abs(t), arr.fences, |arr.fences|) == |arr.fences| {
        SignaledCallFinishes(t, client, arr, data);
      } else {
        PendingCallRegisters(t, client, arr, data);
        PendingSlot(t, r.t, r.hash, client, arr, i);
      }
    }
  }

  lemma PendingSlot(t: seq<HwFence>, t': seq<HwFence>, h: u64, client: u32, arr: DmaFenceArray, i: nat)
    requires Ready(t, arr) && |t'| == |t| && h < |t| && !t[h].valid && i < |t|
    requires t'[h].valid && t'[h].key == arr.key && t'[h].allocator == JOIN_CLIENT_ID && t'[h].parentsCnt == 0
    requires i != h ==> VisitedSlot(t[i], t'[i], h, arr.fences, |arr.fences|)
    ensures CalledSlot(t, t', arr, h, i)
  {
    if i != h {
      FreeKeyDoesNotOccur(arr.fences, |arr.fences|);
      MarkShape(t[i], h, Occ(t[i], arr.fences, |arr.fences|));
    }
  }

  /** A join fence as it waits: its client alone waits for it, with its data if there is any. */
  predicate IsPendingJoin(j: HwFence, client: u32, arr: DmaFenceArray, data: u64, pending: nat) {
    && j.valid && j.key == arr.key && j.allocator == JOIN_CLIENT_ID && j.waitMask == {client} && !j.signaled
    && j.parentsCnt == 0 && j.pendingChildCnt == pending
    && forall d | 0 <= d < CLIENTS_WITH_DATA ::
         j.clientData[d] == if data != 0 && d == ClientDataId(client) then data else 0
  }

  /** A fence that lists `h` so many times more than before, after what it listed, and is otherwise the same. */
  predicate ListsMore(f: HwFence, f': HwFence, h: u64, times: nat) {
    && f' == f.(parents := f'.parents, parentsCnt := f'.parentsCnt) && f'.parentsCnt == f.parentsCnt + times <= 2
    && forall p | 0 <= p < f'.parentsCnt :: f'.parents[p] == if p < f.parentsCnt then f.parents[p] else h
  }

  /** What a successful call leaves, field by field: a join fence that counts the unsignaled children, and
      those list it as often as they occur. */
  lemma PendingOutcome(t: seq<HwFence>, client: u32, arr: DmaFenceArray, data: u64, i: nat)
    requires Ready(t, arr) && Proceeds(t, client, arr, data) && i < |t|
    requires SignaledAmong(Abs(t), arr.fences, |arr.fences|) < |arr.fences|
    ensures var r := ProcessArray(t, client, arr, data);
            && r.ok && r.hash < |t| && !t[r.hash].valid
            && IsPendingJoin(r.t[r.hash], client, arr, data, |arr.fences| - SignaledAmong(Abs(t), arr.fences, |arr.fences|))
            && (i != r.hash ==>
                  ListsMore(t[i], r.t[i], r.hash, if t[i].signaled then 0 else Count(arr.fences, |arr.fences|, t[i].key)))
  {
    hide HomeSlot, ProcessArray, Abs, Accepts, SignaledAmong;
    PendingCallRegisters(t, client, arr, data);
    var r := ProcessArray(t, client, arr, data);
    if i != r.hash {
      MarkShape(t[i], r.hash, Occ(t[i], arr.fences, |arr.fences|));
    }
  }

  /** How many children are signaled, told child by child. */
  lemma {:induction false} SignaledAmongIs(m: map<Key, HwFence>, cs: seq<DmaFence>, n: nat)
    requires n <= |cs|
    ensures SignaledAmong(m, cs, n) == |set q | 0 <= q < n && cs[q].key in m && m[cs[q].key].signaled|
    decreases n
  {
    var s := set q | 0 <= q < n && cs[q].key in m && m[cs[q].key].signaled;
    if n > 0 {
      SignaledAmongIs(m, cs, n - 1);
      var s0 := set q | 0 <= q < n - 1 && cs[q].key in m && m[cs[q].key].signaled;
      assert s == if cs[n - 1].key in m && m[cs[n - 1].key].signaled then s0 + {n - 1} else s0;
    } else {
      assert s == {};
    }
  }

  /** How often a key occurs, likewise. */
  lemma {:induction false} CountIs(cs: seq<DmaFence>, n: nat, k: Key)
    requires n <= |cs|
    ensures Count(cs, n, k) == |set q | 0 <= q < n && cs[q].key == k|
    decreases n
  {
    var s := set q | 0 <= q < n && cs[q].key == k;
    if n > 0 {
      CountIs(cs, n - 1, k);
      var s0 := set q | 0 <= q < n - 1 && cs[q].key == k;
      assert s == if cs[n - 1].key == k then s0 + {n - 1} else s0;
    } else {
      assert s == {};
    }
  }
}
