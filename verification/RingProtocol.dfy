/** A ring queue while all its parties are at work, one memory access a step. Producers (which hold the
    client's lock, so there is one at a time) load both indices, store the words of the payload and
    then the index after it. In a staged queue that is `tx_wm`, and the client moves the write index
    after it. The consumer loads both indices, loads words and stores the read index. A reset loads one
    index and stores it over another. */
module RingProtocol {
  import opened HwFences
  import opened Remainders
  import opened RingQueues

  /** Words of an image that the consumer loads: from the context to the error. */
  const FIRST_LOADED: nat := 2
  const LOADED_WORDS: nat := 11
  const IMAGE_WORDS: nat := PAYLOAD_WORDS - 1

  datatype Message = Message(payload: Payload, qtime: u64)

  function Words(m: Message): (ws: seq<u32>)
    ensures |ws| == IMAGE_WORDS
  {
    Image(m.payload, m.qtime)
  }

  /** Where a write is, or the reset of a receive queue, which holds the same lock. `sawTaken` and `sawHead`
      are history: the payloads in the ring, and those gone from it, at the load of the read index. */
  datatype Producer =
    | Away
    | KnowsRead(m: Message, rd: u32, sawTaken: nat)
    | KnowsBoth(m: Message, rd: u32, wr: u32, sawTaken: nat)
    | Storing(m: Message, wr: u32, stored: nat)
    | Retracting(rd: u32, sawHead: nat)

  /** Where a read is. `sawTaken` is history: the payloads published at the load of the write index. */
  datatype Consumer =
    | Resting
    | HasRead(rd: u32)
    | Loading(rd: u32, wr: u32, got: seq<u32>, sawTaken: nat)

  /** Where the reset of a transmit queue is. `upTo` is history: how many payloads had ever been
      published at the load of the write index. */
  datatype Resetter = NoReset | Dropping(wr: u32, upTo: nat)

  /** What kind of queue it is: a staged one publishes by another index than the driver writes at. */
  datatype Kind = Tx | StagedTx | Rx

  /** The shared words and indices, and where the parties are. History: the messages whose write
      completed, how many of them were published, and how many of those consumed or dropped. */
  datatype State = State(
    kind: Kind, words: seq<u32>, readIdx: u32, writeIdx: u32, txWm: u32,
    producer: Producer, consumer: Consumer, resetter: Resetter,
    written: seq<Message>, published: nat, head: nat)

  datatype Step =
    | LoadReadIdx(m: Message)
    | LoadWriteIdx
    | CheckFit
    | StoreWord
    | StoreWriteIdx
    | Publish(k: nat)
    | ConsumerLoadsRead
    | ConsumerLoadsWrite
    | ConsumerLoadsWord
    | ConsumerStoresRead
    | ResetTxLoads
    | ResetTxStores
    | ResetRxLoads
    | ResetRxStores

  /** What may come next. Nothing here keeps a reset from happening during a read. */
  predicate Enabled(s: State, a: Step) {
    && |s.words| < U32_LIMIT
    && match a
    case LoadReadIdx(m) => s.producer.Away?
    case LoadWriteIdx => s.producer.KnowsRead?
    case CheckFit => s.producer.KnowsBoth?
    case StoreWord => s.producer.Storing? && s.producer.stored < IMAGE_WORDS
    case StoreWriteIdx => s.producer.Storing? && s.producer.stored == IMAGE_WORDS
    case Publish(k) => s.kind.StagedTx? && |s.words| >= PAYLOAD_WORDS && s.published + k <= |s.written|
    case ConsumerLoadsRead => s.consumer.Resting?
    case ConsumerLoadsWrite => s.consumer.HasRead?
    case ConsumerLoadsWord => s.consumer.Loading? && |s.consumer.got| < LOADED_WORDS
    case ConsumerStoresRead => s.consumer.Loading? && |s.consumer.got| == LOADED_WORDS
    case ResetTxLoads => s.resetter.NoReset? && !s.kind.Rx?
    case ResetTxStores => s.resetter.Dropping? && !s.kind.Rx?
    case ResetRxLoads => s.producer.Away? && s.kind.Rx?
    case ResetRxStores => s.producer.Retracting? && s.kind.Rx?
  }

  function Slots(s: State): nat {
    |s.words| / PAYLOAD_WORDS
  }

  /** The word at which payload number `j` starts. */
  function At(n: nat, j: nat): (at: nat)
    requires n > 0
    ensures at % PAYLOAD_WORDS == 0 && at + PAYLOAD_WORDS <= PAYLOAD_WORDS * n
  {
    PAYLOAD_WORDS * (j % n)
  }

  /** Payloads in the ring, published or staged. */
  function Taken(s: State): nat {
    if s.head <= |s.written| then |s.written| - s.head else 0
  }

  /** Payloads that the consumer may read. */
  function Queued(s: State): nat {
    if s.head <= s.published then s.published - s.head else 0
  }

  /** The index that a producer writes at. */
  function WriteAt(s: State): u32 {
    if s.kind.StagedTx? then s.txWm else s.writeIdx
  }

  /** The test of `hw_fence_update_queue`, on the indices that it loaded. */
  predicate Fits(s: State, rd: u32, wr: u32) {
    rd < |s.words| && wr < |s.words| && FreeWords(|s.words|, rd, wr) > PAYLOAD_WORDS
  }

  function Do(s: State, a: Step): (s': State)
    requires Enabled(s, a)
    ensures |s'.words| == |s.words| && s'.kind == s.kind
  {
    match a
    case LoadReadIdx(m) => s.(producer := KnowsRead(m, s.readIdx, Taken(s)))
    case LoadWriteIdx =>
      s.(producer := KnowsBoth(s.producer.m, s.producer.rd, WriteAt(s), s.producer.sawTaken))
    case CheckFit =>
      s.(producer := if Fits(s, s.producer.rd, s.producer.wr) then Storing(s.producer.m, s.producer.wr, 0) else Away)
    case StoreWord =>
      var at := s.producer.wr + s.producer.stored;
      s.(words := if at < |s.words| then s.words[at := Words(s.producer.m)[s.producer.stored]] else s.words,
         producer := s.producer.(stored := s.producer.stored + 1))
    case StoreWriteIdx =>
      var next := NextIdx(|s.words|, s.producer.wr);
      var s' := s.(producer := Away, written := s.written + [s.producer.m]);
      if s.kind.StagedTx? then s'.(txWm := next) else s'.(writeIdx := next, published := |s'.written|)
    case Publish(k) => s.(writeIdx := At(Slots(s), s.published + k), published := s.published + k)
    case ConsumerLoadsRead => s.(consumer := HasRead(s.readIdx))
    case ConsumerLoadsWrite =>
      if s.consumer.rd == s.writeIdx then s.(consumer := Resting)
      else s.(consumer := Loading(s.consumer.rd, s.writeIdx, [], Queued(s)))
    case ConsumerLoadsWord =>
      var at := s.consumer.rd + FIRST_LOADED + |s.consumer.got|;
      s.(consumer := s.consumer.(got := s.consumer.got + [if at < |s.words| then s.words[at] else 0]))
    case ConsumerStoresRead =>
      s.(readIdx := NextIdx(|s.words|, s.consumer.rd), consumer := Resting, head := s.head + 1)
    case ResetTxLoads => s.(resetter := Dropping(s.writeIdx, s.published))
    case ResetTxStores => s.(readIdx := s.resetter.wr, resetter := NoReset, head := s.resetter.upTo)
    case ResetRxLoads => s.(producer := Retracting(s.readIdx, s.head))
    case ResetRxStores =>
      var keep := if s.producer.sawHead <= |s.written| then s.producer.sawHead else |s.written|;
      s.(writeIdx := s.producer.rd, producer := Away, written := s.written[..keep], published := keep)
  }

  /** When a step is safe. A reset's store is, exactly if nobody consumed past what it had loaded, and
      no read in progress holds an index that it makes stale. */
  predicate Safe(s: State, a: Step) {
    match a
    case ResetTxStores =>
      s.resetter.Dropping? && s.head <= s.resetter.upTo && (s.consumer.Resting? || s.head == s.resetter.upTo)
    case ResetRxStores => s.producer.Retracting? && s.head == s.producer.sawHead && !s.consumer.Loading?
    case _ => true
  }

  // ----- What every step keeps -----

  /** The words from `at` on start with these. */
  predicate HoldsAt(words: seq<u32>, at: nat, image: seq<u32>) {
    at + |image| <= |words| && forall i | 0 <= i < |image| :: words[at + i] == image[i]
  }

  predicate IndicesInv(s: State) {
    && 0 < |s.words| < U32_LIMIT && |s.words| % PAYLOAD_WORDS == 0
    && s.head <= s.published <= |s.written| < s.head + Slots(s)
    && s.readIdx == At(Slots(s), s.head)
    && s.writeIdx == At(Slots(s), s.published)
    && WriteAt(s) == At(Slots(s), |s.written|)
    && (!s.kind.StagedTx? ==> s.published == |s.written|)
  }

  /** Payload number `j` is in the ring, whole. */
  predicate InPlace(s: State, j: nat)
    requires IndicesInv(s) && j < |s.written|
  {
    HoldsAt(s.words, At(Slots(s), j), Words(s.written[j]))
  }

  predicate QueuedInv(s: State)
    requires IndicesInv(s)
  {
    forall j: nat | s.head <= j < |s.written| :: InPlace(s, j)
  }

  predicate ReadLoadWas(s: State, rd: u32, sawTaken: nat)
    requires IndicesInv(s)
  {
    Taken(s) <= sawTaken <= |s.written| && sawTaken < Slots(s) && rd == At(Slots(s), |s.written| - sawTaken)
  }

  predicate ProducerInv(s: State)
    requires IndicesInv(s)
  {
    match s.producer
    case Away => true
    case KnowsRead(m, rd, sawTaken) => ReadLoadWas(s, rd, sawTaken)
    case KnowsBoth(m, rd, wr, sawTaken) => ReadLoadWas(s, rd, sawTaken) && wr == WriteAt(s)
    case Storing(m, wr, stored) =>
      && stored <= IMAGE_WORDS && wr == WriteAt(s) && Taken(s) + 1 < Slots(s)
      && HoldsAt(s.words, wr, Words(m)[..stored])
    case Retracting(rd, sawHead) => s.kind.Rx? && sawHead <= s.head && rd == At(Slots(s), sawHead)
  }

  predicate ConsumerInv(s: State)
    requires IndicesInv(s)
  {
    match s.consumer
    case Resting => true
    case HasRead(rd) => rd == s.readIdx
    case Loading(rd, wr, got, sawTaken) =>
      && rd == s.readIdx && 0 < sawTaken <= Queued(s) && wr == At(Slots(s), s.head + sawTaken)
      && |got| <= LOADED_WORDS
      && got == Words(s.written[s.head])[FIRST_LOADED..FIRST_LOADED + |got|]
  }

  predicate ResetterInv(s: State)
    requires IndicesInv(s)
  {
    s.resetter.Dropping? ==> !s.kind.Rx? && s.resetter.upTo <= s.published && s.resetter.wr == At(Slots(s), s.resetter.upTo)
  }

  predicate Inv(s: State) {
    IndicesInv(s) && QueuedInv(s) && ProducerInv(s) && ConsumerInv(s) && ResetterInv(s)
  }

  // ----- Indices -----

  lemma AtNext(n: nat, j: nat)
    requires n > 0
    ensures At(n, j + 1) == NextIdx(PAYLOAD_WORDS * n, At(n, j))
  {
    NextRemainder(j, n);
  }

  /** The words free that a producer computes from two loaded indices. */
  lemma FreeWordsFrom(n: nat, j: nat, taken: nat)
    requires n > 0 && taken < n && taken <= j
    ensures FreeWords(PAYLOAD_WORDS * n, At(n, j - taken), At(n, j)) == PAYLOAD_WORDS * (n - taken)
  {
    NearRemainders(j, j - taken, n);
  }

  lemma SlotsApart(n: nat, j: nat, k: nat)
    requires n > 0 && j < k < j + n
    ensures At(n, j) + PAYLOAD_WORDS <= At(n, k) || At(n, k) + PAYLOAD_WORDS <= At(n, j)
  {
    NearRemainders(k, j, n);
  }

  lemma EqualIndicesIffEmpty(s: State)
    requires IndicesInv(s)
    ensures s.readIdx == s.writeIdx <==> Queued(s) == 0
  {
    NearRemainders(s.published, s.head, Slots(s));
  }

  // ----- What a producer may do -----

  /** The verdict on a write is the one that held when it loaded the read index: it is accepted
      exactly when fewer than all but one slot were taken then. */
  lemma VerdictIs(s: State)
    requires Inv(s) && Enabled(s, CheckFit)
    ensures Do(s, CheckFit).producer.Storing? <==> s.producer.sawTaken < Slots(s) - 1
  {
    FreeWordsFrom(Slots(s), |s.written|, s.producer.sawTaken);
  }

  /** No store touches a word of a payload that is still queued. */
  lemma StoresMissQueued(s: State, j: nat, i: nat)
    requires Inv(s) && Enabled(s, StoreWord) && s.head <= j < |s.written| && i < PAYLOAD_WORDS
    ensures At(Slots(s), j) + i < |s.words|
    ensures Do(s, StoreWord).words[At(Slots(s), j) + i] == s.words[At(Slots(s), j) + i]
  {
    SlotsApart(Slots(s), j, |s.written|);
  }

  // ----- Every step keeps the invariant -----

  /** Steps that change neither words nor indices. */
  lemma LoadsKeepInv(s: State, a: Step)
    requires Inv(s) && Enabled(s, a)
    requires a.LoadReadIdx? || a.LoadWriteIdx? || a.ConsumerLoadsRead? || a.ResetTxLoads? || a.ResetRxLoads?
    ensures Inv(Do(s, a))
  {
    hide At, Words, HoldsAt;
    assert forall j: nat | s.head <= j < |s.written| :: InPlace(s, j) ==> InPlace(Do(s, a), j);
  }

  lemma CheckKeepsInv(s: State)
    requires Inv(s) && Enabled(s, CheckFit)
    ensures Inv(Do(s, CheckFit))
  {
    VerdictIs(s);
    hide At, Words, FreeWords;
    assert forall j: nat | s.head <= j < |s.written| :: InPlace(s, j) ==> InPlace(Do(s, CheckFit), j);
  }

  lemma StoreKeepsQueued(s: State, j: nat)
    requires Inv(s) && Enabled(s, StoreWord) && s.head <= j < |s.written|
    ensures IndicesInv(Do(s, StoreWord)) && InPlace(Do(s, StoreWord), j)
  {
    hide At, Words;
    assert InPlace(s, j);
    forall i | 0 <= i < |Words(s.written[j])|
      ensures Do(s, StoreWord).words[At(Slots(s), j) + i] == Words(s.written[j])[i]
    {
      StoresMissQueued(s, j, i);
    }
  }

  lemma StoreKeepsInv(s: State)
    requires Inv(s) && Enabled(s, StoreWord)
    ensures Inv(Do(s, StoreWord))
  {
    hide At, Words;
    var s' := Do(s, StoreWord);
    forall j: nat | s.head <= j < |s.written| ensures IndicesInv(s') && InPlace(s', j) {
      StoreKeepsQueued(s, j);
    }
    assert ConsumerInv(s');
  }

  lemma StoredMovesIndex(s: State)
    requires Inv(s) && Enabled(s, StoreWriteIdx)
    ensures IndicesInv(Do(s, StoreWriteIdx)) && InPlace(Do(s, StoreWriteIdx), |s.written|)
  {
    AtNext(Slots(s), |s.written|);
    hide At, Words, NextIdx;
    assert Words(s.producer.m)[..IMAGE_WORDS] == Words(s.producer.m);
  }

  lemma StoredKeepsInv(s: State)
    requires Inv(s) && Enabled(s, StoreWriteIdx)
    ensures Inv(Do(s, StoreWriteIdx))
  {
    StoredMovesIndex(s);
    hide At, Words, NextIdx, HoldsAt, Slots;
    var s' := Do(s, StoreWriteIdx);
    forall j: nat | s.head <= j < |s'.written| ensures InPlace(s', j) {
      assert j < |s.written| ==> InPlace(s, j);
    }
  }

  /** The client moves the write index over payloads that the driver has staged. */
  lemma PublishKeepsInv(s: State, k: nat)
    requires Inv(s) && Enabled(s, Publish(k))
    ensures Inv(Do(s, Publish(k)))
  {
    hide At, Words, HoldsAt;
    assert forall j: nat | s.head <= j < |s.written| :: InPlace(s, j) ==> InPlace(Do(s, Publish(k)), j);
  }

  lemma OnlyConsumerMoves(s: State, s': State)
    requires Inv(s) && s' == s.(consumer := s'.consumer)
    ensures IndicesInv(s') && QueuedInv(s') && ProducerInv(s') && ResetterInv(s')
  {
    hide At, Words, HoldsAt;
    assert Slots(s') == Slots(s);
    assert forall j: nat | s.head <= j < |s.written| :: InPlace(s, j) ==> InPlace(s', j);
  }

  lemma ConsumerLoadsWriteKeepsInv(s: State)
    requires Inv(s) && Enabled(s, ConsumerLoadsWrite)
    ensures Inv(Do(s, ConsumerLoadsWrite))
  {
    EqualIndicesIffEmpty(s);
    hide At, Words, HoldsAt, Slots;
    var s' := Do(s, ConsumerLoadsWrite);
    assert s' == s.(consumer := s'.consumer);
    OnlyConsumerMoves(s, s');
  }

  lemma ConsumerLoadsWordKeepsInv(s: State)
    requires Inv(s) && Enabled(s, ConsumerLoadsWord)
    ensures Inv(Do(s, ConsumerLoadsWord))
  {
    hide At, Words;
    assert InPlace(s, s.head);
    assert forall j: nat | s.head <= j < |s.written| :: InPlace(s, j) ==> InPlace(Do(s, ConsumerLoadsWord), j);
  }

  lemma ConsumeKeepsInv(s: State)
    requires Inv(s) && Enabled(s, ConsumerStoresRead)
    ensures Inv(Do(s, ConsumerStoresRead))
  {
    AtNext(Slots(s), s.head);
    hide At, Words, HoldsAt;
    assert forall j: nat | s.head + 1 <= j < |s.written| :: InPlace(s, j) ==> InPlace(Do(s, ConsumerStoresRead), j);
  }

  // ----- Resets -----

  lemma ResetTxKeepsInv(s: State)
    requires Inv(s) && Enabled(s, ResetTxStores) && Safe(s, ResetTxStores)
    ensures Inv(Do(s, ResetTxStores))
  {
    hide At, Words, HoldsAt;
    var s' := Do(s, ResetTxStores);
    assert forall j: nat | s'.head <= j < |s.written| :: InPlace(s, j) ==> InPlace(s', j);
  }

  lemma ResetRxKeepsInv(s: State)
    requires Inv(s) && Enabled(s, ResetRxStores) && Safe(s, ResetRxStores)
    ensures Inv(Do(s, ResetRxStores))
  {
    hide At, Words, HoldsAt;
  }

  lemma StepKeepsInv(s: State, a: Step)
    requires Inv(s) && Enabled(s, a) && Safe(s, a)
    ensures Inv(Do(s, a))
  {
    hide Inv, Do;
    match a
    case LoadReadIdx(m) => LoadsKeepInv(s, a);
    case LoadWriteIdx => LoadsKeepInv(s, a);
    case CheckFit => CheckKeepsInv(s);
    case StoreWord => StoreKeepsInv(s);
    case StoreWriteIdx => StoredKeepsInv(s);
    case Publish(k) => PublishKeepsInv(s, k);
    case ConsumerLoadsRead => LoadsKeepInv(s, a);
    case ConsumerLoadsWrite => ConsumerLoadsWriteKeepsInv(s);
    case ConsumerLoadsWord => ConsumerLoadsWordKeepsInv(s);
    case ConsumerStoresRead => ConsumeKeepsInv(s);
    case ResetTxLoads => LoadsKeepInv(s, a);
    case ResetTxStores => ResetTxKeepsInv(s);
    case ResetRxLoads => LoadsKeepInv(s, a);
    case ResetRxStores => ResetRxKeepsInv(s);
  }

  // ----- Every run is a run of a bounded first-in first-out queue -----

  /** What the parties observe. */
  datatype Event =
    | Put(p: Payload)
    | NoRoom
    | Published(k: nat)
    | Get(p: Payload, more: bool)
    | FoundNone
    | Dropped(k: nat)

  /** A queue whose operations are atomic: what the consumer may take, and what was written after that. */
  datatype Contents = Contents(q: seq<Payload>, staged: seq<Payload>)

  /** A queue of at most `cap` payloads, one event at a time. A Get says `more` only if there is more. */
  function Fifo(kind: Kind, c: Contents, cap: nat, e: Event): Option<Contents> {
    match e
    case Put(p) =>
      if |c.q| + |c.staged| >= cap then None
      else Some(if kind.StagedTx? then c.(staged := c.staged + [p]) else c.(q := c.q + [p]))
    case NoRoom => if |c.q| + |c.staged| == cap then Some(c) else None
    case Published(k) => if k <= |c.staged| then Some(Contents(c.q + c.staged[..k], c.staged[k..])) else None
    case Get(p, more) => if c.q != [] && c.q[0] == p && (more ==> |c.q| > 1) then Some(c.(q := c.q[1..])) else None
    case FoundNone => if c.q == [] then Some(c) else None
    case Dropped(k) => if k <= |c.q| then Some(c.(q := c.q[k..])) else None
  }

  function FifoRun(kind: Kind, c: Contents, cap: nat, events: seq<Event>): Option<Contents>
    decreases |events|
  {
    if events == [] then Some(c)
    else match Fifo(kind, c, cap, events[0]) case None => None case Some(c') => FifoRun(kind, c', cap, events[1..])
  }

  function Received(got: seq<u32>): Payload
    requires |got| == LOADED_WORDS
  {
    Payload(Join(got[0], got[1]), Join(got[2], got[3]), Join(got[4], got[5]), Join(got[6], got[7]),
            Join(got[8], got[9]), got[10])
  }

  /** Where each operation takes effect: a write that will be refused when it loads the read index,
      one that is accepted when it stores the index after the payload; a read that finds nothing when
      it loads the write index, any other when it stores the read index; a reset when it stores. */
  function EventOf(s: State, a: Step): (e: seq<Event>)
    requires Enabled(s, a)
    ensures |e| <= 1
  {
    match a
    case LoadReadIdx(m) => if Fits(s, s.readIdx, WriteAt(s)) then [] else [NoRoom]
    case StoreWriteIdx => [Put(s.producer.m.payload)]
    case Publish(k) => [Published(k)]
    case ConsumerLoadsWrite => if s.consumer.rd == s.writeIdx then [FoundNone] else []
    case ConsumerStoresRead =>
      [Get(Received(s.consumer.got), NextIdx(|s.words|, s.consumer.rd) != s.consumer.wr)]
    case ResetTxStores => [Dropped(if s.head <= s.resetter.upTo then s.resetter.upTo - s.head else 0)]
    case ResetRxStores => [Dropped(Queued(s))]
    case _ => []
  }

  function Payloads(ms: seq<Message>, from: nat, to: nat): (ps: seq<Payload>)
    requires from <= to <= |ms|
    ensures |ps| == to - from
  {
    seq(to - from, k requires 0 <= k < to - from => ms[from + k].payload)
  }

  /** What a state stands for. */
  function Content(s: State): Contents {
    if s.head <= s.published <= |s.written|
    then Contents(Payloads(s.written, s.head, s.published), Payloads(s.written, s.published, |s.written|))
    else Contents([], [])
  }

  lemma ReceivedIs(m: Message)
    ensures Received(Words(m)[FIRST_LOADED..FIRST_LOADED + LOADED_WORDS]) == m.payload
  {
  }

  /** A reader reports more exactly if more was published when it loaded the write index. */
  lemma MoreIs(s: State)
    requires Inv(s) && Enabled(s, ConsumerStoresRead)
    ensures NextIdx(|s.words|, s.consumer.rd) != s.consumer.wr <==> s.consumer.sawTaken > 1
  {
    AtNext(Slots(s), s.head);
    NearRemainders(s.head + s.consumer.sawTaken, s.head + 1, Slots(s));
  }

  lemma FitsIs(s: State)
    requires Inv(s)
    ensures Fits(s, s.readIdx, WriteAt(s)) <==> Taken(s) < Slots(s) - 1
  {
    FreeWordsFrom(Slots(s), |s.written|, Taken(s));
  }

  lemma QuietStepIsFifo(s: State, a: Step)
    requires Inv(s) && Enabled(s, a)
    requires a.LoadReadIdx? || a.LoadWriteIdx? || a.CheckFit? || a.StoreWord? || a.ConsumerLoadsRead?
             || a.ConsumerLoadsWrite? || a.ConsumerLoadsWord? || a.ResetTxLoads? || a.ResetRxLoads?
    ensures FifoRun(s.kind, Content(s), Slots(s) - 1, EventOf(s, a)) == Some(Content(Do(s, a)))
  {
    FitsIs(s);
    EqualIndicesIffEmpty(s);
    hide At, Words, HoldsAt, NextIdx, FreeWords, Slots;
    var s' := Do(s, a);
    assert s'.written == s.written && s'.published == s.published && s'.head == s.head;
    assert Content(s') == Content(s);
  }

  lemma MovingStepIsFifo(s: State, a: Step)
    requires Inv(s) && Enabled(s, a) && (a.StoreWriteIdx? || a.Publish? || a.ConsumerStoresRead?)
    ensures FifoRun(s.kind, Content(s), Slots(s) - 1, EventOf(s, a)) == Some(Content(Do(s, a)))
  {
    hide At, Words, HoldsAt, NextIdx, FreeWords;
    var c, c' := Content(s), Content(Do(s, a));
    match a
    case StoreWriteIdx =>
      assert s.kind.StagedTx? ==> c'.q == c.q && c'.staged == c.staged + [s.producer.m.payload];
      assert !s.kind.StagedTx? ==> c'.q == c.q + [s.producer.m.payload] && c'.staged == c.staged;
    case Publish(k) => assert c'.q == c.q + c.staged[..k] && c'.staged == c.staged[k..];
    case ConsumerStoresRead =>
      ReceivedIs(s.written[s.head]);
      MoreIs(s);
      assert c'.q == c.q[1..] && c'.staged == c.staged;
  }

  lemma PayloadsFrom(ms: seq<Message>, from: nat, k: nat, to: nat)
    requires from <= from + k <= to <= |ms|
    ensures Payloads(ms, from, to)[k..] == Payloads(ms, from + k, to)
  {
  }

  lemma DroppedContent(s: State, s': State, k: nat)
    requires s.head <= s.head + k <= s.published <= |s.written|
    requires s' == s.(readIdx := s'.readIdx, resetter := NoReset, head := s.head + k)
    ensures Content(s') == Contents(Content(s).q[k..], Content(s).staged)
  {
    hide Payloads;
    PayloadsFrom(s.written, s.head, k, s.published);
  }

  lemma OneEvent(kind: Kind, c: Contents, cap: nat, e: Event)
    ensures FifoRun(kind, c, cap, [e]) == Fifo(kind, c, cap, e)
  {
    assert [e][1..] == [];
  }

  lemma ResetTxIsFifo(s: State)
    requires Inv(s) && Enabled(s, ResetTxStores) && Safe(s, ResetTxStores)
    ensures FifoRun(s.kind, Content(s), Slots(s) - 1, EventOf(s, ResetTxStores)) == Some(Content(Do(s, ResetTxStores)))
  {
    ContentSizes(s);
    InvHasSlots(s);
    hide At, Words, HoldsAt, NextIdx, FreeWords, Content, FifoRun, QueuedInv, Slots;
    var k := s.resetter.upTo - s.head;
    DroppedContent(s, Do(s, ResetTxStores), k);
    OneEvent(s.kind, Content(s), Slots(s) - 1, Dropped(k));
  }

  lemma ResetRxIsFifo(s: State)
    requires Inv(s) && Enabled(s, ResetRxStores) && Safe(s, ResetRxStores)
    ensures FifoRun(s.kind, Content(s), Slots(s) - 1, EventOf(s, ResetRxStores)) == Some(Content(Do(s, ResetRxStores)))
  {
    ContentSizes(s);
    InvHasSlots(s);
    var s' := Do(s, ResetRxStores);
    assert Content(s') == Contents([], []) && Content(s).staged == [];
    hide At, Words, HoldsAt, NextIdx, FreeWords, Content, FifoRun, QueuedInv, Slots;
    OneEvent(s.kind, Content(s), Slots(s) - 1, Dropped(Queued(s)));
    assert Content(s).q[Queued(s)..] == [];
  }

  lemma ResetIsFifo(s: State, a: Step)
    requires Inv(s) && Enabled(s, a) && Safe(s, a) && (a.ResetTxStores? || a.ResetRxStores?)
    ensures FifoRun(s.kind, Content(s), Slots(s) - 1, EventOf(s, a)) == Some(Content(Do(s, a)))
  {
    InvHasSlots(s);
    hide Inv, Do, Content, EventOf, Safe, Slots, Enabled;
    if a.ResetTxStores? {
      ResetTxIsFifo(s);
    } else {
      ResetRxIsFifo(s);
    }
  }

  lemma StepIsFifo(s: State, a: Step)
    requires Inv(s) && Enabled(s, a) && Safe(s, a)
    ensures Slots(s) > 0 && FifoRun(s.kind, Content(s), Slots(s) - 1, EventOf(s, a)) == Some(Content(Do(s, a)))
  {
    InvHasSlots(s);
    hide Inv, Do, Content, EventOf, Safe, Slots, Enabled;
    match a
    case StoreWriteIdx => MovingStepIsFifo(s, a);
    case Publish(k) => MovingStepIsFifo(s, a);
    case ConsumerStoresRead => MovingStepIsFifo(s, a);
    case ResetTxStores => ResetIsFifo(s, a);
    case ResetRxStores => ResetIsFifo(s, a);
    case _ => QuietStepIsFifo(s, a);
  }

  /** A step keeps the ring sound, and does what its event says, exactly if it is safe. */
  lemma StepIsSoundIff(s: State, a: Step)
    requires Inv(s) && Enabled(s, a)
    ensures Inv(Do(s, a)) && FifoRun(s.kind, Content(s), Slots(s) - 1, EventOf(s, a)) == Some(Content(Do(s, a)))
            <==> Safe(s, a)
  {
    if Safe(s, a) {
      StepKeepsInv(s, a);
      StepIsFifo(s, a);
    } else if a.ResetTxStores? {
      UnsafeTx(s);
    } else {
      UnsafeRx(s);
    }
  }

  lemma UnsafeTx(s: State)
    requires Inv(s) && Enabled(s, ResetTxStores) && !Safe(s, ResetTxStores)
    ensures s.head <= s.resetter.upTo ==> !Inv(Do(s, ResetTxStores))
    ensures s.head > s.resetter.upTo ==>
              FifoRun(s.kind, Content(s), Slots(s) - 1, EventOf(s, ResetTxStores)) != Some(Content(Do(s, ResetTxStores)))
  {
    hide Words, HoldsAt;
    if s.head <= s.resetter.upTo {
      NearRemainders(s.resetter.upTo, s.head, Slots(s));
    } else {
      assert |Content(Do(s, ResetTxStores)).q| > |Content(s).q|;
    }
  }

  lemma UnsafeRx(s: State)
    requires Inv(s) && Enabled(s, ResetRxStores) && !Safe(s, ResetRxStores)
    ensures !Inv(Do(s, ResetRxStores))
  {
    hide At, Words, HoldsAt;
  }

  // ----- Runs -----

  predicate IsRun(s: State, steps: seq<Step>)
    decreases |steps|
  {
    steps != [] ==> Enabled(s, steps[0]) && IsRun(Do(s, steps[0]), steps[1..])
  }

  predicate AllSafe(s: State, steps: seq<Step>)
    requires IsRun(s, steps)
    decreases |steps|
  {
    steps != [] ==> Safe(s, steps[0]) && AllSafe(Do(s, steps[0]), steps[1..])
  }

  function Final(s: State, steps: seq<Step>): State
    requires IsRun(s, steps)
    decreases |steps|
  {
    if steps == [] then s else Final(Do(s, steps[0]), steps[1..])
  }

  function Events(s: State, steps: seq<Step>): seq<Event>
    requires IsRun(s, steps)
    decreases |steps|
  {
    if steps == [] then [] else EventOf(s, steps[0]) + Events(Do(s, steps[0]), steps[1..])
  }

  lemma InvHasSlots(s: State)
    requires Inv(s)
    ensures Slots(s) > 0
  {
  }

  lemma FifoRunChains(kind: Kind, c: Contents, cap: nat, e: seq<Event>, more: seq<Event>)
    requires |e| <= 1 && FifoRun(kind, c, cap, e).Some?
    ensures FifoRun(kind, c, cap, e + more) == FifoRun(kind, FifoRun(kind, c, cap, e).value, cap, more)
  {
    if e == [] {
      assert e + more == more;
    } else {
      assert (e + more)[1..] == more;
    }
  }

  /** However the accesses of the parties interleave, what they observe is what they would of a queue
      whose operations are atomic, as long as every reset's store is safe. */
  lemma {:induction false} RunIsFifo(s: State, steps: seq<Step>)
    requires Inv(s) && IsRun(s, steps) && AllSafe(s, steps)
    ensures Inv(Final(s, steps))
    ensures FifoRun(s.kind, Content(s), Slots(s) - 1, Events(s, steps)) == Some(Content(Final(s, steps)))
    decreases |steps|
  {
    hide Inv, Enabled, Do, Content, Fifo, EventOf, Safe;
    if steps != [] {
      var a := steps[0];
      StepKeepsInv(s, a);
      StepIsFifo(s, a);
      RunIsFifo(Do(s, a), steps[1..]);
      InvHasSlots(s);
      FifoRunChains(s.kind, Content(s), Slots(s) - 1, EventOf(s, a), Events(Do(s, a), steps[1..]));
    }
  }

  function PutOf(events: seq<Event>): seq<Payload>
    decreases |events|
  {
    if events == [] then []
    else (if events[0].Put? then [events[0].p] else []) + PutOf(events[1..])
  }

  function GotOf(events: seq<Event>): seq<Payload>
    decreases |events|
  {
    if events == [] then []
    else (if events[0].Get? then [events[0].p] else []) + GotOf(events[1..])
  }

  /** Everything in the queue, oldest first. */
  function All(c: Contents): seq<Payload> {
    c.q + c.staged
  }

  lemma FifoStepConserves(kind: Kind, c: Contents, cap: nat, e: Event)
    requires Fifo(kind, c, cap, e).Some? && !e.Dropped? && (kind.StagedTx? || c.staged == [])
    ensures var c' := Fifo(kind, c, cap, e).value;
            && All(c) + (if e.Put? then [e.p] else []) == (if e.Get? then [e.p] else []) + All(c')
            && (kind.StagedTx? || c'.staged == [])
  {
    var c' := Fifo(kind, c, cap, e).value;
    match e
    case Put(p) =>
      if kind.StagedTx? {
        assert All(c') == All(c) + [p];
      } else {
        assert All(c) == c.q && All(c') == c.q + [p];
      }
    case Published(k) =>
      assert c.staged == c.staged[..k] + c.staged[k..];
      assert All(c') == All(c);
    case Get(p, more) =>
      assert c.q == [p] + c.q[1..];
      assert All(c) == [p] + All(c');
    case NoRoom =>
    case FoundNone =>
  }

  lemma {:induction false} FifoConserves(kind: Kind, c: Contents, cap: nat, events: seq<Event>)
    requires FifoRun(kind, c, cap, events).Some? && (kind.StagedTx? || c.staged == [])
    requires forall e | e in events :: !e.Dropped?
    ensures All(c) + PutOf(events) == GotOf(events) + All(FifoRun(kind, c, cap, events).value)
    decreases |events|
  {
    hide Fifo, All;
    if events != [] {
      var e, rest := events[0], events[1..];
      var c' := Fifo(kind, c, cap, e).value;
      var put, got := if e.Put? then [e.p] else [], if e.Get? then [e.p] else [];
      assert e in events;
      FifoStepConserves(kind, c, cap, e);
      FifoConserves(kind, c', cap, rest);
      Regroup(All(c), put, PutOf(rest), got, All(c'), GotOf(rest), All(FifoRun(kind, c', cap, rest).value));
    }
  }

  lemma Regroup<T>(a: seq<T>, put: seq<T>, puts: seq<T>, got: seq<T>, b: seq<T>, gots: seq<T>, end: seq<T>)
    requires a + put == got + b && b + puts == gots + end
    ensures a + (put + puts) == (got + gots) + end
  {
    calc {
      a + (put + puts);
      (a + put) + puts;
      got + (b + puts);
      (got + gots) + end;
    }
  }

  /** Without resets nothing is lost, made up, duplicated or reordered. */
  lemma DeliveredInOrder(s: State, steps: seq<Step>)
    requires Inv(s) && IsRun(s, steps) && forall a | a in steps :: !a.ResetTxStores? && !a.ResetRxStores?
    ensures All(Content(s)) + PutOf(Events(s, steps)) == GotOf(Events(s, steps)) + All(Content(Final(s, steps)))
  {
    InvHasSlots(s);
    ContentIsStaged(s);
    hide Inv, Content, All;
    NoResetsIsSafe(s, steps);
    RunIsFifo(s, steps);
    FifoConserves(s.kind, Content(s), Slots(s) - 1, Events(s, steps));
  }

  lemma ContentIsStaged(s: State)
    requires Inv(s)
    ensures s.kind.StagedTx? || Content(s).staged == []
  {
  }

  lemma {:induction false} NoResetsIsSafe(s: State, steps: seq<Step>)
    requires IsRun(s, steps) && forall a | a in steps :: !a.ResetTxStores? && !a.ResetRxStores?
    ensures AllSafe(s, steps) && forall e | e in Events(s, steps) :: !e.Dropped?
    decreases |steps|
  {
    hide Enabled, Do;
    if steps != [] {
      assert steps[0] in steps;
      NoResetsIsSafe(Do(s, steps[0]), steps[1..]);
    }
  }

  /** A write is refused later exactly if there was no room when it loaded the read index, whatever is
      read, published or dropped meanwhile. */
  lemma RefusalSettledAtLoad(s: State, m: Message, steps: seq<Step>)
    requires Inv(s) && s.producer.Away? && IsRun(s, [LoadReadIdx(m)] + steps)
    requires AllSafe(s, [LoadReadIdx(m)] + steps) && CheckFit !in steps
    requires Enabled(Final(s, [LoadReadIdx(m)] + steps), CheckFit)
    ensures Do(Final(s, [LoadReadIdx(m)] + steps), CheckFit).producer.Away?
            <==> EventOf(s, LoadReadIdx(m)) == [NoRoom]
  {
    hide Inv, At, NextIdx, FreeWords;
    var s1 := Do(s, LoadReadIdx(m));
    assert ([LoadReadIdx(m)] + steps)[1..] == steps;
    StepKeepsInv(s, LoadReadIdx(m));
    FitsIs(s);
    PendingWriteKeepsSight(s1, steps);
    VerdictIs(Final(s1, steps));
  }

  lemma {:induction false} PendingWriteKeepsSight(s: State, steps: seq<Step>)
    requires Inv(s) && IsRun(s, steps) && (s.producer.KnowsRead? || s.producer.KnowsBoth?)
    requires AllSafe(s, steps) && CheckFit !in steps
    ensures var s' := Final(s, steps);
            && Inv(s') && |s'.words| == |s.words| && (s'.producer.KnowsRead? || s'.producer.KnowsBoth?)
            && s'.producer.sawTaken == s.producer.sawTaken
    decreases |steps|
  {
    hide Inv, At, NextIdx, FreeWords, Safe;
    if steps != [] {
      assert steps[0] in steps && CheckFit !in steps[1..];
      StepKeepsInv(s, steps[0]);
      PendingWriteKeepsSight(Do(s, steps[0]), steps[1..]);
    }
  }

  // ----- Reads and writes get through -----

  /** One more step at the front of a run. */
  lemma FirstStep(s: State, a: Step, rest: seq<Step>)
    requires Enabled(s, a) && IsRun(Do(s, a), rest)
    ensures IsRun(s, [a] + rest) && Events(s, [a] + rest) == EventOf(s, a) + Events(Do(s, a), rest)
    ensures Final(s, [a] + rest) == Final(Do(s, a), rest)
    ensures AllSafe(s, [a] + rest) <==> Safe(s, a) && AllSafe(Do(s, a), rest)
  {
    hide Enabled, Do, EventOf, Safe;
    assert ([a] + rest)[1..] == rest;
  }

  /** The rest of a write that was found to fit. */
  lemma {:induction false} FinishWrite(s: State) returns (steps: seq<Step>)
    requires |s.words| < U32_LIMIT && s.producer.Storing? && s.producer.stored <= IMAGE_WORDS
    ensures IsRun(s, steps) && AllSafe(s, steps) && Events(s, steps) == [Put(s.producer.m.payload)]
    decreases IMAGE_WORDS - s.producer.stored
  {
    if s.producer.stored == IMAGE_WORDS {
      steps := [StoreWriteIdx];
      assert steps == [StoreWriteIdx] + [];
      FirstStep(s, StoreWriteIdx, []);
    } else {
      var rest := FinishWrite(Do(s, StoreWord));
      steps := [StoreWord] + rest;
      FirstStep(s, StoreWord, rest);
    }
  }

  /** Left alone, a write with room in the ring puts its payload at the end, in the staged part of a staged
      queue; one without is refused and changes nothing. */
  lemma WriteGoesThrough(s: State, m: Message) returns (steps: seq<Step>)
    requires Inv(s) && s.producer.Away?
    ensures IsRun(s, steps) && AllSafe(s, steps)
    ensures var c, c' := Content(s), Content(Final(s, steps));
            if |c.q| + |c.staged| < Slots(s) - 1 then
              if s.kind.StagedTx? then c' == Contents(c.q, c.staged + [m.payload])
              else c' == Contents(c.q + [m.payload], c.staged)
            else c' == c
  {
    var s1 := Do(s, LoadReadIdx(m));
    var s2 := Do(s1, LoadWriteIdx);
    var s3 := Do(s2, CheckFit);
    StepKeepsInv(s, LoadReadIdx(m));
    StepKeepsInv(s1, LoadWriteIdx);
    VerdictIs(s2);
    FitsIs(s);
    ContentSizes(s);
    hide Inv, At, NextIdx, FreeWords, Words, HoldsAt, Content, Fits;
    var rest: seq<Step> := [];
    if s3.producer.Storing? {
      rest := FinishWrite(s3);
    }
    FirstStep(s2, CheckFit, rest);
    FirstStep(s1, LoadWriteIdx, [CheckFit] + rest);
    FirstStep(s, LoadReadIdx(m), [LoadWriteIdx] + ([CheckFit] + rest));
    steps := [LoadReadIdx(m)] + ([LoadWriteIdx] + ([CheckFit] + rest));
    RunIsFifo(s, steps);
    InvHasSlots(s);
    assert Events(s, steps) == if s3.producer.Storing? then [Put(m.payload)] else [NoRoom];
  }

  lemma ContentSizes(s: State)
    requires Inv(s)
    ensures |Content(s).q| == Queued(s) && |Content(s).q| + |Content(s).staged| == Taken(s)
  {
  }

  /** Left alone, a read takes the oldest published payload, if there is one, and finds nothing if not. */
  lemma ReadGoesThrough(s: State) returns (steps: seq<Step>)
    requires Inv(s) && s.consumer.Resting?
    ensures IsRun(s, steps) && AllSafe(s, steps)
    ensures var c, c' := Content(s), Content(Final(s, steps));
            if c.q != [] then c' == Contents(c.q[1..], c.staged) && GotOf(Events(s, steps)) == [c.q[0]]
            else c' == c && GotOf(Events(s, steps)) == []
  {
    var s1 := Do(s, ConsumerLoadsRead);
    EqualIndicesIffEmpty(s);
    ContentSizes(s);
    hide Inv, At, NextIdx, FreeWords, Words, HoldsAt, Content;
    if s.readIdx == s.writeIdx {
      FirstStep(s1, ConsumerLoadsWrite, []);
      FirstStep(s, ConsumerLoadsRead, [ConsumerLoadsWrite] + []);
      steps := [ConsumerLoadsRead] + ([ConsumerLoadsWrite] + []);
      assert Events(s, steps) == [FoundNone];
    } else {
      var rest := GoOnReading(s1);
      FirstStep(s, ConsumerLoadsRead, rest);
      steps := [ConsumerLoadsRead] + rest;
      assert Events(s, steps) == Events(s1, rest);
      assert Events(s, steps)[1..] == [];
    }
    RunIsFifo(s, steps);
    InvHasSlots(s);
  }

  // ----- What an unsafe reset does to a reader -----

  /** The rest of a read, from its words on. */
  lemma {:induction false} FinishRead(s: State) returns (steps: seq<Step>)
    requires |s.words| < U32_LIMIT && s.consumer.Loading? && |s.consumer.got| <= LOADED_WORDS
    ensures IsRun(s, steps) && AllSafe(s, steps) && |Events(s, steps)| == 1 && Events(s, steps)[0].Get?
    decreases LOADED_WORDS - |s.consumer.got|
  {
    if |s.consumer.got| == LOADED_WORDS {
      steps := [ConsumerStoresRead];
      assert steps[1..] == [];
    } else {
      var rest := FinishRead(Do(s, ConsumerLoadsWord));
      steps := [ConsumerLoadsWord] + rest;
      assert steps[1..] == rest;
    }
  }

  /** The rest of a read that has loaded the read index, and will not find it equal to the write index. */
  lemma GoOnReading(s: State) returns (steps: seq<Step>)
    requires |s.words| < U32_LIMIT
    requires (s.consumer.HasRead? && s.consumer.rd != s.writeIdx)
             || (s.consumer.Loading? && |s.consumer.got| <= LOADED_WORDS)
    ensures IsRun(s, steps) && AllSafe(s, steps) && |Events(s, steps)| == 1 && Events(s, steps)[0].Get?
  {
    if s.consumer.HasRead? {
      var rest := FinishRead(Do(s, ConsumerLoadsWrite));
      steps := [ConsumerLoadsWrite] + rest;
      assert steps[1..] == rest;
    } else {
      steps := FinishRead(s);
    }
  }

  lemma GetFromNothing(kind: Kind, c: Contents, cap: nat, k: nat, g: Event)
    requires g.Get? && k >= |c.q|
    ensures FifoRun(kind, c, cap, [Dropped(k), g]) == None
  {
    assert [Dropped(k), g][1..] == [g];
  }

  /** Any reset of a transmit queue in the middle of a read, with anything to drop, can be seen: the
      consumer gets a payload from a queue that was emptied. The consumer is the fence controller,
      which nothing stops from reading while the driver resets a client. */
  lemma ResetDuringReadIsSeen(s: State) returns (steps: seq<Step>)
    requires Inv(s) && Enabled(s, ResetTxLoads) && !s.consumer.Resting? && Queued(s) > 0
    ensures IsRun(s, steps)
    ensures FifoRun(s.kind, Content(s), Slots(s) - 1, Events(s, steps)) == None
  {
    EqualIndicesIffEmpty(s);
    hide At, Words, HoldsAt, NextIdx, FreeWords;
    var s1 := Do(s, ResetTxLoads);
    var s2 := Do(s1, ResetTxStores);
    var rest := GoOnReading(s2);
    steps := [ResetTxLoads, ResetTxStores] + rest;
    TwoSteps(s, ResetTxLoads, ResetTxStores, rest);
    var g := Events(s2, rest)[0];
    assert Events(s, steps) == [Dropped(Queued(s)), g];
    GetFromNothing(s.kind, Content(s), Slots(s) - 1, Queued(s), g);
  }

  /** So can a reset of a receive queue, once the read has loaded the write index. */
  lemma ResetRxDuringReadIsSeen(s: State) returns (steps: seq<Step>)
    requires Inv(s) && Enabled(s, ResetRxLoads) && s.consumer.Loading?
    ensures IsRun(s, steps)
    ensures FifoRun(s.kind, Content(s), Slots(s) - 1, Events(s, steps)) == None
  {
    hide At, Words, HoldsAt, NextIdx, FreeWords, QueuedInv;
    var s1 := Do(s, ResetRxLoads);
    var s2 := Do(s1, ResetRxStores);
    var rest := GoOnReading(s2);
    steps := [ResetRxLoads, ResetRxStores] + rest;
    TwoSteps(s, ResetRxLoads, ResetRxStores, rest);
    var g := Events(s2, rest)[0];
    assert Events(s, steps) == [Dropped(Queued(s)), g];
    GetFromNothing(s.kind, Content(s), Slots(s) - 1, Queued(s), g);
  }

  lemma TwoSteps(s: State, a: Step, b: Step, rest: seq<Step>)
    requires Enabled(s, a) && Enabled(Do(s, a), b) && IsRun(Do(Do(s, a), b), rest)
    ensures IsRun(s, [a, b] + rest)
    ensures Events(s, [a, b] + rest) == EventOf(s, a) + EventOf(Do(s, a), b) + Events(Do(Do(s, a), b), rest)
  {
    hide Enabled, Do, EventOf;
    assert ([a, b] + rest)[1..] == [b] + rest;
    assert ([b] + rest)[1..] == rest;
  }

  /** An empty ring at rest, from which all of this starts. */
  lemma StartsEmpty(kind: Kind, words: seq<u32>)
    requires 0 < |words| < U32_LIMIT && |words| % PAYLOAD_WORDS == 0
    ensures var s := State(kind, words, 0, 0, 0, Away, Resting, NoReset, [], 0, 0);
            Inv(s) && Content(s) == Contents([], [])
  {
  }
}
