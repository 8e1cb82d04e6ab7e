/** The HFI ring queues of a client: payloads of 16 words in a ring that keeps one slot free, with a
    read index, a write index and, for transmit queues whose client publishes by itself, a staging
    index (`tx_wm`). All indices count words. */
module RingQueues {
  import opened HwFences

  const PAYLOAD_WORDS: nat := 16
  const PAYLOAD_BYTES: u32 := 64

  /** Payload type 1 in the low half, version 1.0 in the high half of the second word. */
  const TYPE_AND_VERSION: u32 := 0x0100_0001

  datatype Payload = Payload(ctx: u64, seqno: u64, hash: u64, flags: u64, clientData: u64, error: u32)

  function Lo(x: u64): u32 { x % U32_LIMIT }

  function Hi(x: u64): u32 { x / U32_LIMIT }

  function Join(lo: u32, hi: u32): u64 { hi * U32_LIMIT + lo }

  /** The words that the driver stores for a payload; the last word of a slot is reserved. */
  function Image(p: Payload, qtime: u64): (ws: seq<u32>)
    ensures |ws| == PAYLOAD_WORDS - 1
  {
    [PAYLOAD_BYTES, TYPE_AND_VERSION,
     Lo(p.ctx), Hi(p.ctx), Lo(p.seqno), Hi(p.seqno), Lo(p.hash), Hi(p.hash), Lo(p.flags), Hi(p.flags),
     Lo(p.clientData), Hi(p.clientData), p.error, Lo(qtime), Hi(qtime)]
  }

  /** The payload in the slot that starts at word `at`. */
  function Decode(ws: seq<u32>, at: nat): Payload
    requires at + PAYLOAD_WORDS - 1 <= |ws|
  {
    Payload(Join(ws[at + 2], ws[at + 3]), Join(ws[at + 4], ws[at + 5]), Join(ws[at + 6], ws[at + 7]),
            Join(ws[at + 8], ws[at + 9]), Join(ws[at + 10], ws[at + 11]), ws[at + 12])
  }

  /** Reading back what was written. */
  lemma DecodeImage(p: Payload, qtime: u64)
    ensures Decode(Image(p, qtime), 0) == p
  {
  }

  /** Where each field of a payload is, low word first: what both sides of the queue have agreed on. */
  lemma PayloadLayout(p: Payload, qtime: u64)
    ensures var ws := Image(p, qtime);
            && ws[0] == 64 && ws[1] % 0x1_0000 == 1 && ws[1] / 0x1_0000 == 1 * 0x100 + 0
            && ws[2] + ws[3] * U32_LIMIT == p.ctx && ws[4] + ws[5] * U32_LIMIT == p.seqno
            && ws[6] + ws[7] * U32_LIMIT == p.hash && ws[8] + ws[9] * U32_LIMIT == p.flags
            && ws[10] + ws[11] * U32_LIMIT == p.clientData && ws[12] == p.error
            && ws[13] + ws[14] * U32_LIMIT == qtime
  {
  }

  // ----- The ring -----

  /** Position `from + k` of a ring of `n` slots. */
  function SlotAt(n: nat, from: nat, k: nat): (slot: nat)
    requires from < n && k <= n
    ensures slot < n
  {
    if from + k < n then from + k else from + k - n
  }

  /** Slots from one index round to another. */
  function Dist(n: nat, from: nat, to: nat): (d: nat)
    requires from < n && to < n
    ensures d < n && SlotAt(n, from, d) == to
  {
    if from <= to then to - from else n - from + to
  }

  /** `count` slots from slot `from` on. */
  function Segment<T>(r: seq<T>, from: nat, count: nat): (s: seq<T>)
    requires from < |r| && count <= |r|
    ensures |s| == count
  {
    if from + count <= |r| then r[from..from + count] else r[from..] + r[..from + count - |r|]
  }

  lemma SegmentAt<T>(r: seq<T>, from: nat, count: nat, k: nat)
    requires from < |r| && k < count <= |r|
    ensures Segment(r, from, count)[k] == r[SlotAt(|r|, from, k)]
  {
  }

  lemma SegmentGrows<T>(r: seq<T>, from: nat, count: nat, p: T)
    requires from < |r| && count < |r|
    ensures Segment(r[SlotAt(|r|, from, count) := p], from, count + 1) == Segment(r, from, count) + [p]
  {
    var r' := r[SlotAt(|r|, from, count) := p];
    forall k | 0 <= k < count + 1 ensures Segment(r', from, count + 1)[k] == (Segment(r, from, count) + [p])[k] {
      SegmentAt(r', from, count + 1, k);
      if k < count {
        SegmentAt(r, from, count, k);
      }
    }
  }

  lemma SegmentSplits<T>(r: seq<T>, from: nat, count: nat, k: nat)
    requires from < |r| && k <= count <= |r|
    ensures Segment(r, from, count) == Segment(r, from, k) + Segment(r, SlotAt(|r|, from, k), count - k)
  {
    hide Segment;
    forall i | 0 <= i < count
      ensures Segment(r, from, count)[i] == (Segment(r, from, k) + Segment(r, SlotAt(|r|, from, k), count - k))[i]
    {
      SegmentAt(r, from, count, i);
      if i < k {
        SegmentAt(r, from, k, i);
      } else {
        SegmentAt(r, SlotAt(|r|, from, k), count - k, i - k);
      }
    }
  }

  lemma SegmentUntouched<T>(r: seq<T>, from: nat, count: nat, k: nat, p: T)
    requires from < |r| && count <= k < |r|
    ensures Segment(r[SlotAt(|r|, from, k) := p], from, count) == Segment(r, from, count)
  {
    var r' := r[SlotAt(|r|, from, k) := p];
    forall i | 0 <= i < count ensures Segment(r', from, count)[i] == Segment(r, from, count)[i] {
      SegmentAt(r', from, count, i);
      SegmentAt(r, from, count, i);
    }
  }

  /** The payloads that the words of a queue hold, slot by slot. */
  function Ring(ws: seq<u32>): (r: seq<Payload>)
    ensures |r| == |ws| / PAYLOAD_WORDS
  {
    seq(|ws| / PAYLOAD_WORDS, s requires 0 <= s < |ws| / PAYLOAD_WORDS => Decode(ws, PAYLOAD_WORDS * s))
  }

  /** Storing the image of a payload into one slot changes that slot alone. */
  lemma RingStored(ws: seq<u32>, ws': seq<u32>, slot: nat, p: Payload, qtime: u64)
    requires slot < |ws| / PAYLOAD_WORDS && |ws'| == |ws|
    requires forall i | 0 <= i < |ws| && !(PAYLOAD_WORDS * slot <= i < PAYLOAD_WORDS * (slot + 1)) :: ws'[i] == ws[i]
    requires ws'[PAYLOAD_WORDS * slot..PAYLOAD_WORDS * slot + PAYLOAD_WORDS - 1] == Image(p, qtime)
    ensures Ring(ws') == Ring(ws)[slot := p]
  {
    forall s | 0 <= s < |ws| / PAYLOAD_WORDS ensures Decode(ws', PAYLOAD_WORDS * s) == Ring(ws)[slot := p][s] {
      if s == slot {
        DecodeSlice(ws', PAYLOAD_WORDS * s);
        DecodeImage(p, qtime);
      } else {
        assert Decode(ws', PAYLOAD_WORDS * s) == Decode(ws, PAYLOAD_WORDS * s);
      }
    }
  }

  lemma DecodeSlice(ws: seq<u32>, at: nat)
    requires at + PAYLOAD_WORDS - 1 <= |ws|
    ensures Decode(ws, at) == Decode(ws[at..at + PAYLOAD_WORDS - 1], 0)
  {
  }

  /** Words free for the producer: of a ring of `size` words, one payload is never used. */
  function FreeWords(size: nat, readIdx: nat, writeIdx: nat): nat
    requires readIdx < size && writeIdx < size
  {
    if readIdx <= writeIdx then size - (writeIdx - readIdx) else readIdx - writeIdx
  }

  /** The index one payload on. */
  function NextIdx(size: nat, idx: nat): nat {
    if idx + PAYLOAD_WORDS >= size then 0 else idx + PAYLOAD_WORDS
  }

  datatype ReadResult = Empty | Read(payload: Payload)

  class RingQueue {
    const words: array<u32>
    /** The driver writes at `txWm` and the client moves `writeIdx` after it. */
    const staged: bool
    var readIdx: nat
    var writeIdx: nat
    var txWm: nat

    function Slots(): nat
    {
      words.Length / PAYLOAD_WORDS
    }

    ghost predicate Valid()
      reads this
    {
      && 0 < words.Length < U32_LIMIT && words.Length % PAYLOAD_WORDS == 0
      && readIdx < words.Length && readIdx % PAYLOAD_WORDS == 0
      && writeIdx < words.Length && writeIdx % PAYLOAD_WORDS == 0
      && txWm < words.Length && txWm % PAYLOAD_WORDS == 0
      && (staged ==> PublishedCount() + StagedCount() < Slots())
    }

    ghost function PublishedCount(): nat
      requires 0 < words.Length && words.Length % PAYLOAD_WORDS == 0 && readIdx < words.Length && writeIdx < words.Length
      reads this
    {
      Dist(Slots(), readIdx / PAYLOAD_WORDS, writeIdx / PAYLOAD_WORDS)
    }

    ghost function StagedCount(): nat
      requires 0 < words.Length && words.Length % PAYLOAD_WORDS == 0 && txWm < words.Length && writeIdx < words.Length
      reads this
    {
      Dist(Slots(), writeIdx / PAYLOAD_WORDS, txWm / PAYLOAD_WORDS)
    }

    /** What the consumer may read. */
    ghost function Published(): seq<Payload>
      requires Valid()
      reads this, words
    {
      Segment(Ring(words[..]), readIdx / PAYLOAD_WORDS, PublishedCount())
    }

    /** What the driver wrote and the client has yet to publish. */
    ghost function Staged(): seq<Payload>
      requires Valid()
      reads this, words
    {
      Segment(Ring(words[..]), writeIdx / PAYLOAD_WORDS, StagedCount())
    }

    constructor (slots: nat, staged: bool)
      requires 0 < slots * PAYLOAD_WORDS < U32_LIMIT
      ensures Valid() && fresh(words) && Slots() == slots && this.staged == staged
      ensures Published() == [] && Staged() == []
    {
      words := new u32[slots * PAYLOAD_WORDS](_ => 0);
      this.staged := staged;
      readIdx, writeIdx, txWm := 0, 0, 0;
    }

    /** The stores of one payload. */
    method Store(p: Payload, qtime: u64, at: nat)
      requires at + PAYLOAD_WORDS <= words.Length && at % PAYLOAD_WORDS == 0 && words.Length % PAYLOAD_WORDS == 0
      modifies words
      ensures Ring(words[..]) == Ring(old(words[..]))[at / PAYLOAD_WORDS := p]
    {
      ghost var ws := words[..];
      var image := Image(p, qtime);
      var k := 0;
      while k < PAYLOAD_WORDS - 1
        invariant 0 <= k <= PAYLOAD_WORDS - 1
        invariant forall i | 0 <= i < |ws| && !(at <= i < at + k) :: words[i] == ws[i]
        invariant forall i | 0 <= i < k :: words[at + i] == image[i]
      {
        words[at + k] := image[k];
        k := k + 1;
      }
      assert words[at..at + PAYLOAD_WORDS - 1] == image;
      RingStored(ws, words[..], at / PAYLOAD_WORDS, p, qtime);
    }

    /** `hw_fence_update_queue`: accepted exactly when fewer than all but one slot are taken; the payload
        goes to the end, and nothing else in the queue changes. */
    method Update(p: Payload, qtime: u64) returns (ok: bool)
      requires Valid()
      modifies this`writeIdx, this`txWm, words
      ensures Valid()
      ensures ok == (|old(Published())| + (if staged then |old(Staged())| else 0) < Slots() - 1)
      ensures Published() == if ok && !staged then old(Published()) + [p] else old(Published())
      ensures staged ==> Staged() == if ok then old(Staged()) + [p] else old(Staged())
      ensures if staged then writeIdx == old(writeIdx) else txWm == old(txWm)
    {
      hide Ring, Decode, Image, Segment, Dist, SlotAt, FreeWords, NextIdx;
      var wrPtr := if staged then txWm else writeIdx;
      ghost var r, n, rd, wr, at := Ring(words[..]), Slots(), readIdx / PAYLOAD_WORDS, writeIdx / PAYLOAD_WORDS, wrPtr / PAYLOAD_WORDS;
      ghost var taken := Dist(n, rd, at);
      FreeWordsIs(words.Length, readIdx, wrPtr);
      if staged {
        DistAdds(n, rd, wr, at);
      }
      if FreeWords(words.Length, readIdx, wrPtr) <= PAYLOAD_WORDS {
        return false;
      }
      Store(p, qtime, wrPtr);
      assert Ring(words[..]) == r[at := p];
      NextIdxIs(words.Length, wrPtr);
      if staged {
        SegmentUntouched(r, rd, PublishedCount(), taken, p);
        SegmentGrows(r, wr, StagedCount(), p);
        DistNext(n, wr, at);
        txWm := NextIdx(words.Length, wrPtr);
      } else {
        SegmentGrows(r, rd, taken, p);
        DistNext(n, rd, at);
        writeIdx := NextIdx(words.Length, wrPtr);
      }
      ok := true;
    }

    /** `hw_fence_read_queue`: the oldest published payload, if there is one. Its result does not
        tell reading the last payload from finding none. */
    method ReadQueue() returns (r: ReadResult, ret: int)
      requires Valid()
      modifies this`readIdx
      ensures Valid()
      ensures r.Empty? <==> old(Published()) == []
      ensures r.Empty? ==> readIdx == old(readIdx)
      ensures r.Read? ==> [r.payload] + Published() == old(Published())
      ensures Staged() == old(Staged())
      ensures ret == if |old(Published())| > 1 then 1 else 0
    {
      hide Decode, Segment, Dist, SlotAt, NextIdx;
      ghost var ring, n, rd, wr := Ring(words[..]), Slots(), readIdx / PAYLOAD_WORDS, writeIdx / PAYLOAD_WORDS;
      DistZero(n, rd, wr);
      if readIdx == writeIdx {
        return Empty, 0;
      }
      var payload := Decode(words[..], readIdx);
      assert payload == ring[rd];
      hide Ring;
      SegmentHead(ring, rd, PublishedCount());
      NextIdxIs(words.Length, readIdx);
      DistPrev(n, rd, wr);
      if staged {
        DistAdds(n, rd, wr, txWm / PAYLOAD_WORDS);
      }
      var next := NextIdx(words.Length, readIdx);
      DistZero(n, next / PAYLOAD_WORDS, wr);
      readIdx := next;
      ret := if next == writeIdx then 0 else 1;
      r := Read(payload);
    }

    /** The loop of `_process_gfx_client_loopback`: everything that is published, in order. */
    method Drain() returns (got: seq<Payload>)
      requires Valid()
      modifies this`readIdx
      ensures Valid() && got == old(Published()) && Published() == [] && Staged() == old(Staged())
    {
      got := [];
      var read := 1;
      while read != 0
        invariant Valid() && got + Published() == old(Published()) && Staged() == old(Staged())
        invariant read == 0 ==> Published() == []
        invariant 0 <= read
        decreases |Published()|, read
      {
        var r;
        r, read := ReadQueue();
        if r.Read? {
          got := got + [r.payload];
        }
      }
    }

    /** Client reset of the transmit queue: published payloads are dropped, staged ones stay. */
    method ResetTx()
      requires Valid()
      modifies this`readIdx
      ensures Valid() && Published() == [] && Staged() == old(Staged())
    {
      readIdx := writeIdx;
    }

    /** Client reset of the receive queue: the write index goes back to the last read. */
    method ResetRx()
      requires Valid() && !staged
      modifies this`writeIdx
      ensures Valid() && Published() == [] && readIdx == old(readIdx)
    {
      writeIdx := readIdx;
    }

    /** The client's own step on a staged queue: it publishes the first `k` staged payloads. */
    method ClientPublishes(k: nat)
      requires Valid() && staged && k <= |Staged()|
      modifies this`writeIdx
      ensures Valid()
      ensures Published() == old(Published()) + old(Staged())[..k] && Staged() == old(Staged())[k..]
    {
      hide Ring, Decode, Segment, Dist, SlotAt;
      ghost var ring, n, rd, wr, wm := Ring(words[..]), Slots(), readIdx / PAYLOAD_WORDS, writeIdx / PAYLOAD_WORDS, txWm / PAYLOAD_WORDS;
      DistMoves(n, rd, wr, wm, k);
      SegmentSplits(ring, wr, StagedCount(), k);
      SegmentSplits(ring, rd, PublishedCount() + k, PublishedCount());
      writeIdx := PAYLOAD_WORDS * SlotAt(Slots(), writeIdx / PAYLOAD_WORDS, k);
    }
  }

  const RX_QUEUE: nat := 1

  /** Refused: a queue that the client does not have, or a receive queue whose client has no lock. */
  predicate Refused(queuesNum: nat, queueType: nat, clientId: u32, lockCount: nat) {
    queueType >= queuesNum || (queueType == RX_QUEUE && WrapU32(clientId - 1) >= lockCount)
  }

  /** An update goes through to the queue iff the client has that queue, and for a receive queue, a lock: its
      id is then one of the first so many, from 1 on. */
  lemma RefusedIs(queuesNum: nat, queueType: nat, clientId: u32, lockCount: nat)
    requires lockCount < U32_LIMIT
    ensures !Refused(queuesNum, queueType, clientId, lockCount)
            <==> queueType < queuesNum && (queueType == 1 ==> 1 <= clientId <= lockCount)
  {
  }

  /** `hw_fence_update_queue`, from the choice of the queue on. */
  method UpdateQueue(queues: seq<RingQueue>, queueType: nat, clientId: u32, lockCount: nat, p: Payload, qtime: u64)
      returns (ok: bool)
    requires queueType < |queues| ==> queues[queueType].Valid()
    modifies if queueType < |queues| then {queues[queueType], queues[queueType].words} else {}
    ensures Refused(|queues|, queueType, clientId, lockCount) ==> !ok
    ensures queueType < |queues| ==>
              var q := queues[queueType];
              && q.Valid()
              && (ok <==> !Refused(|queues|, queueType, clientId, lockCount)
                          && |old(q.Published())| + (if q.staged then |old(q.Staged())| else 0) < q.Slots() - 1)
              && q.Published() == (if ok && !q.staged then old(q.Published()) + [p] else old(q.Published()))
              && (q.staged ==> q.Staged() == if ok then old(q.Staged()) + [p] else old(q.Staged()))
  {
    hide Ring, Decode, Image, Segment, Dist, SlotAt, FreeWords, NextIdx;
    if queueType >= |queues| {
      return false;
    }
    if queueType == RX_QUEUE && WrapU32(clientId - 1) >= lockCount {
      return false;
    }
    ok := queues[queueType].Update(p, qtime);
  }

  lemma FreeWordsIs(size: nat, readIdx: nat, wrPtr: nat)
    requires size % PAYLOAD_WORDS == 0 && readIdx < size && wrPtr < size
    requires readIdx % PAYLOAD_WORDS == 0 && wrPtr % PAYLOAD_WORDS == 0
    ensures FreeWords(size, readIdx, wrPtr) ==
            size - PAYLOAD_WORDS * Dist(size / PAYLOAD_WORDS, readIdx / PAYLOAD_WORDS, wrPtr / PAYLOAD_WORDS)
  {
  }

  /** Along the ring, read to write to staged adds up as long as it is less than one turn. */
  lemma DistAdds(n: nat, a: nat, b: nat, c: nat)
    requires a < n && b < n && c < n && Dist(n, a, b) + Dist(n, b, c) < n
    ensures Dist(n, a, c) == Dist(n, a, b) + Dist(n, b, c)
  {
  }

  lemma DistNext(n: nat, from: nat, to: nat)
    requires from < n && to < n && Dist(n, from, to) + 1 < n
    ensures Dist(n, from, SlotAt(n, to, 1)) == Dist(n, from, to) + 1
  {
  }

  lemma DistPrev(n: nat, from: nat, to: nat)
    requires from < n && to < n && from != to
    ensures Dist(n, SlotAt(n, from, 1), to) == Dist(n, from, to) - 1
  {
  }

  lemma DistZero(n: nat, from: nat, to: nat)
    requires from < n && to < n
    ensures Dist(n, from, to) == 0 <==> from == to
  {
  }

  /** Moving the middle index `k` slots on, within what is staged. */
  lemma DistMoves(n: nat, a: nat, b: nat, c: nat, k: nat)
    requires a < n && b < n && c < n && Dist(n, a, b) + Dist(n, b, c) < n && k <= Dist(n, b, c)
    ensures Dist(n, a, SlotAt(n, b, k)) == Dist(n, a, b) + k
    ensures Dist(n, SlotAt(n, b, k), c) == Dist(n, b, c) - k
  {
  }

  lemma SegmentHead<T>(r: seq<T>, from: nat, count: nat)
    requires from < |r| && 0 < count <= |r|
    ensures Segment(r, from, count) == [r[from]] + Segment(r, SlotAt(|r|, from, 1), count - 1)
  {
    SegmentSplits(r, from, count, 1);
  }

  lemma NextIdxIs(size: nat, idx: nat)
    requires size % PAYLOAD_WORDS == 0 && idx < size && idx % PAYLOAD_WORDS == 0
    ensures NextIdx(size, idx) < size && NextIdx(size, idx) % PAYLOAD_WORDS == 0
    ensures NextIdx(size, idx) / PAYLOAD_WORDS == SlotAt(size / PAYLOAD_WORDS, idx / PAYLOAD_WORDS, 1)
  {
  }
}
