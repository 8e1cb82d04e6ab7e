/** The carved-out memory: sizes from the device tree, guarded against overflow, and the layout of the
    ctrl queues, the locks, the fence table and a region for each client. */
module Carveout {
  import opened HwFences
  import opened ClientIndex

  const EINVAL: int := 22
  const U32_MAX: nat := 0xFFFF_FFFF
  const PAGE: nat := 4096
  const FENCE_BYTES: nat := 160
  const LOCK_BYTES: nat := 8
  const CTRL_PAYLOAD_BYTES: nat := 24
  const CLIENT_PAYLOAD_BYTES: nat := 64
  const CTRL_QUEUES: nat := 2
  const MAX_CLIENT_MEM: nat := 0x10_0000

  /** Bytes of the two kinds of queue header, which are not known here. */
  datatype Headers = Headers(table: nat, queue: nat)

  predicate HeadersOk(h: Headers) {
    0 < h.table <= PAGE && 0 < h.queue <= PAGE
  }

  function HeadersSize(h: Headers, queues: nat): nat {
    h.table + h.queue * queues
  }

  function PageAlign(x: nat): nat {
    (x + PAGE - 1) / PAGE * PAGE
  }

  /** The four numbers of a client type's property. */
  datatype TypeProps = TypeProps(clients: u32, queues: u32, entries: u32, skip: u32)

  datatype QueueSize = QueueSize(queuesNum: u32, entries: u32, memSize: u32, startOffset: u32, skipsWriteIdx: bool)

  const NO_QUEUES: QueueSize := QueueSize(0, 0, 0, 0, false)

  // ----- One client type -----

  /** A type with what the device tree says of it. */
  function Asked(d: ClientType, props: Option<TypeProps>, defaultEntries: u32): ClientType {
    match props
    case None => d.(entries := defaultEntries)
    case Some(p) => d.(clientsNum := p.clients, queuesNum := p.queues, entries := p.entries, skipsWriteIdx := p.skip == 1)
  }

  /** Bytes that a client of the type takes, over the unbounded integers. */
  function TrueMemSize(h: Headers, d: ClientType): nat {
    PageAlign(HeadersSize(h, d.queuesNum) + CLIENT_PAYLOAD_BYTES * d.entries * d.queuesNum)
  }

  predicate TypeFits(h: Headers, d: ClientType) {
    && d.clientsNum <= d.maxClients && 0 < d.queuesNum <= CLIENT_QUEUES && 0 < d.entries
    && TrueMemSize(h, d) <= MAX_CLIENT_MEM
  }

  predicate PropsOk(props: Option<TypeProps>) {
    props.Some? ==> props.value.skip <= 1
  }

  function Parsed(h: Headers, d: ClientType, props: Option<TypeProps>, defaultEntries: u32): (r: ClientType)
    requires TypeFits(h, Asked(d, props, defaultEntries))
  {
    var a := Asked(d, props, defaultEntries);
    a.(memSize := TrueMemSize(h, a))
  }

  /** A type is accepted, in the property's own four numbers (or the type's defaults without it), iff it has
      no more sub-clients than there may be, one or two queues, entries, a flag that is 0 or 1, and a size,
      rounded up to a page, of at most a mebibyte. */
  lemma AcceptedIff(h: Headers, d: ClientType, props: Option<TypeProps>, defaultEntries: u32)
    ensures PropsOk(props) && TypeFits(h, Asked(d, props, defaultEntries)) <==>
            match props
            case Some(p) =>
              && p.skip <= 1 && p.clients <= d.maxClients && 1 <= p.queues <= 2 && p.entries > 0
              && PageAlign(h.table + h.queue * p.queues + 64 * p.entries * p.queues) <= 0x10_0000
            case None =>
              && d.clientsNum <= d.maxClients && 1 <= d.queuesNum <= 2 && defaultEntries > 0
              && PageAlign(h.table + h.queue * d.queuesNum + 64 * defaultEntries * d.queuesNum) <= 0x10_0000
  {
  }

  /** What an accepted type takes from its property: sub-clients, queues, entries and flag, in this order.
      Without a property only the number of entries is set. */
  lemma ParsedFrom(h: Headers, d: ClientType, props: Option<TypeProps>, defaultEntries: u32)
    requires PropsOk(props) && TypeFits(h, Asked(d, props, defaultEntries))
    ensures var r := Parsed(h, d, props, defaultEntries);
            && r.initId == d.initId && r.maxClients == d.maxClients
            && r.memSize == PageAlign(h.table + h.queue * r.queuesNum + 64 * r.entries * r.queuesNum)
            && match props
               case Some(p) => r.clientsNum == p.clients && r.queuesNum == p.queues && r.entries == p.entries
                               && (r.skipsWriteIdx <==> p.skip == 1)
               case None => r.clientsNum == d.clientsNum && r.queuesNum == d.queuesNum && r.entries == defaultEntries
                            && r.skipsWriteIdx == d.skipsWriteIdx
  {
  }

  /** The guards on entries and on the size of one queue, as the driver computes them. */
  predicate EntriesGuard(entries: u32) {
    entries < U32_MAX / CLIENT_PAYLOAD_BYTES
  }

  predicate QueueGuard(h: Headers, queueSize: u32, queues: u32)
    requires queues > 0
  {
    queueSize < (0xFFFF_F000 - HeadersSize(h, queues)) / queues
  }

  /** The size of a client in 32 bits. */
  function MemSize32(h: Headers, queueSize: u32, queues: u32): u32 {
    WrapU32(PageAlign(HeadersSize(h, queues) + WrapU32(queueSize * queues)))
  }

  /** Past the guards nothing wraps, and what the guards reject is too large anyway. */
  lemma MemSizeGuards(h: Headers, d: ClientType)
    requires HeadersOk(h) && 0 < d.queuesNum <= CLIENT_QUEUES && 0 < d.entries
    ensures var queueSize := WrapU32(CLIENT_PAYLOAD_BYTES * d.entries);
            if EntriesGuard(d.entries) && QueueGuard(h, queueSize, d.queuesNum)
            then MemSize32(h, queueSize, d.queuesNum) == TrueMemSize(h, d)
            else TrueMemSize(h, d) > MAX_CLIENT_MEM
  {
    hide PageAlign, WrapU32;
    var headers := HeadersSize(h, d.queuesNum);
    var queueSize := WrapU32(CLIENT_PAYLOAD_BYTES * d.entries);
    if d.queuesNum == 1 {
      OneQueueGuards(headers, d.entries);
      assert queueSize * d.queuesNum == queueSize;
      assert CLIENT_PAYLOAD_BYTES * d.entries * d.queuesNum == CLIENT_PAYLOAD_BYTES * d.entries;
    } else {
      TwoQueueGuards(headers, d.entries);
      assert d.queuesNum == 2;
      assert CLIENT_PAYLOAD_BYTES * d.entries * d.queuesNum == CLIENT_PAYLOAD_BYTES * d.entries * 2;
    }
  }

  lemma OneQueueGuards(headers: nat, entries: u32)
    requires headers <= 3 * PAGE && 0 < entries
    ensures var queueSize := WrapU32(CLIENT_PAYLOAD_BYTES * entries);
            var size := PageAlign(headers + CLIENT_PAYLOAD_BYTES * entries);
            if EntriesGuard(entries) && queueSize < 0xFFFF_F000 - headers
            then WrapU32(PageAlign(headers + WrapU32(queueSize))) == size
            else size > MAX_CLIENT_MEM
  {
    hide PageAlign;
    PageAlignIs(headers + CLIENT_PAYLOAD_BYTES * entries);
  }

  lemma TwoQueueGuards(headers: nat, entries: u32)
    requires headers <= 3 * PAGE && 0 < entries
    ensures var queueSize := WrapU32(CLIENT_PAYLOAD_BYTES * entries);
            var size := PageAlign(headers + CLIENT_PAYLOAD_BYTES * entries * 2);
            if EntriesGuard(entries) && queueSize < (0xFFFF_F000 - headers) / 2
            then WrapU32(PageAlign(headers + WrapU32(queueSize * 2))) == size
            else size > MAX_CLIENT_MEM
  {
    hide PageAlign;
    PageAlignIs(headers + CLIENT_PAYLOAD_BYTES * entries * 2);
  }

  lemma PageAlignIs(x: nat)
    ensures x <= PageAlign(x) < x + PAGE && PageAlign(x) % PAGE == 0
    ensures x <= 0xFFFF_F000 ==> PageAlign(x) <= 0xFFFF_F000
  {
  }

  /** `_parse_client_queue_dt_props_indv`. Its guards and 32-bit arithmetic accept exactly the types
      whose true size is within the limit, and compute that size. */
  method ParseType(h: Headers, d: ClientType, props: Option<TypeProps>, defaultEntries: u32)
      returns (ok: bool, parsed: ClientType)
    requires HeadersOk(h)
    ensures ok <==> PropsOk(props) && TypeFits(h, Asked(d, props, defaultEntries))
    ensures ok ==> parsed == Parsed(h, d, props, defaultEntries)
  {
    hide EntriesGuard, QueueGuard, MemSize32, TrueMemSize;
    parsed := d;
    match props {
      case None => parsed := parsed.(entries := defaultEntries);
      case Some(p) =>
        parsed := parsed.(clientsNum := p.clients, queuesNum := p.queues, entries := p.entries);
        if p.skip > 1 {
          return false, parsed;
        }
        parsed := parsed.(skipsWriteIdx := p.skip == 1);
    }
    if parsed.clientsNum > parsed.maxClients || parsed.queuesNum == 0
       || parsed.queuesNum > CLIENT_QUEUES || parsed.entries == 0
    {
      return false, parsed;
    }
    MemSizeGuards(h, parsed);
    if !EntriesGuard(parsed.entries) {
      return false, parsed;
    }
    var queueSize: u32 := WrapU32(CLIENT_PAYLOAD_BYTES * parsed.entries);
    if !QueueGuard(h, queueSize, parsed.queuesNum) {
      return false, parsed;
    }
    parsed := parsed.(memSize := MemSize32(h, queueSize, parsed.queuesNum));
    ok := parsed.memSize <= MAX_CLIENT_MEM;
  }

  // ----- The whole configuration -----

  /** What an accepted device tree comes to. */
  datatype Config = Config(h: Headers, tableEntries: u32, queueEntries: u32, types: seq<ClientType>)

  function TableSize(tableEntries: nat): nat {
    FENCE_BYTES * tableEntries
  }

  function CtrlSize(h: Headers, queueEntries: u32): nat {
    HeadersSize(h, CTRL_QUEUES) + CTRL_QUEUES * (CTRL_PAYLOAD_BYTES * queueEntries)
  }

  /** The bounds on the two numbers of entries. */
  predicate EntriesFit(h: Headers, tableEntries: u32, queueEntries: u32) {
    && 0 < tableEntries && TableSize(tableEntries + 1) <= U32_MAX
    && 0 < queueEntries && CTRL_PAYLOAD_BYTES * (queueEntries + 1) <= U32_MAX
    && HeadersSize(h, CTRL_QUEUES) + CTRL_QUEUES * (CTRL_PAYLOAD_BYTES * queueEntries + 1) <= U32_MAX
  }

  lemma TableGuard(tableEntries: u32)
    ensures tableEntries < U32_MAX / FENCE_BYTES <==> TableSize(tableEntries + 1) <= U32_MAX
    ensures tableEntries < U32_MAX / FENCE_BYTES ==> WrapU32(FENCE_BYTES * tableEntries) == TableSize(tableEntries)
  {
  }

  lemma CtrlGuards(h: Headers, queueEntries: u32)
    requires HeadersOk(h)
    ensures queueEntries < U32_MAX / CTRL_PAYLOAD_BYTES <==> CTRL_PAYLOAD_BYTES * (queueEntries + 1) <= U32_MAX
    ensures queueEntries < U32_MAX / CTRL_PAYLOAD_BYTES ==>
              var size := WrapU32(CTRL_PAYLOAD_BYTES * queueEntries);
              && size == CTRL_PAYLOAD_BYTES * queueEntries
              && (size < (U32_MAX - HeadersSize(h, CTRL_QUEUES)) / CTRL_QUEUES
                  <==> HeadersSize(h, CTRL_QUEUES) + CTRL_QUEUES * (CTRL_PAYLOAD_BYTES * queueEntries + 1) <= U32_MAX)
              && (size < (U32_MAX - HeadersSize(h, CTRL_QUEUES)) / CTRL_QUEUES ==>
                    WrapU32(HeadersSize(h, CTRL_QUEUES) + CTRL_QUEUES * size) == CtrlSize(h, queueEntries))
  {
  }

  function LocksSize(types: seq<ClientType>): nat
    requires |types| == TYPES
  {
    LOCK_BYTES * RxqClients(types, TYPES)
  }

  /** The regions before those of the clients. */
  function FixedSize(c: Config): nat
    requires |c.types| == TYPES
  {
    CtrlSize(c.h, c.queueEntries) + LocksSize(c.types) + TableSize(c.tableEntries)
  }

  function TypeMem(t: ClientType): nat {
    t.clientsNum * t.memSize
  }

  /** Bytes of the clients of the first `i` types. */
  function MemBefore(types: seq<ClientType>, i: nat): nat
    requires i <= |types|
  {
    if i == 0 then 0 else MemBefore(types, i - 1) + TypeMem(types[i - 1])
  }

  /** Where a client's region starts, over the unbounded integers. */
  function ClientOffset(c: Config, i: nat, j: nat): nat
    requires |c.types| == TYPES && i < TYPES
  {
    PageAlign(FixedSize(c)) + MemBefore(c.types, i) + j * c.types[i].memSize
  }

  function TotalSize(c: Config): nat
    requires |c.types| == TYPES
  {
    PageAlign(FixedSize(c)) + MemBefore(c.types, TYPES)
  }

  predicate ConfigOk(e: Enumeration, c: Config) {
    && HeadersOk(c.h) && EnumerationOk(e) && TypesOk(e, c.types) && EntriesFit(c.h, c.tableEntries, c.queueEntries)
    && forall i | 0 <= i < TYPES :: TypeFits(c.h, c.types[i]) && c.types[i].memSize == TrueMemSize(c.h, c.types[i])
  }

  function QueueSizeOf(c: Config, i: nat, j: nat): QueueSize
    requires |c.types| == TYPES && i < TYPES
  {
    var t := c.types[i];
    QueueSize(t.queuesNum, t.entries, t.memSize, WrapU32(ClientOffset(c, i, j)), t.skipsWriteIdx)
  }

  predicate AllFit(h: Headers, types: seq<ClientType>, props: seq<Option<TypeProps>>, defaultEntries: u32)
    requires |types| == |props|
  {
    forall i | 0 <= i < |types| :: PropsOk(props[i]) && TypeFits(h, Asked(types[i], props[i], defaultEntries))
  }

  function AllParsed(h: Headers, types: seq<ClientType>, props: seq<Option<TypeProps>>, defaultEntries: u32)
      : (r: seq<ClientType>)
    requires |types| == |props| && AllFit(h, types, props, defaultEntries)
    ensures |r| == |types|
  {
    seq(|types|, i requires 0 <= i < |types| => Parsed(h, types[i], props[i], defaultEntries))
  }

  lemma PrefixesAgree(a: seq<ClientType>, b: seq<ClientType>, k: nat)
    requires k <= |a| && k <= |b| && a[..k] == b[..k]
    ensures ConfigurableBefore(a, k) == ConfigurableBefore(b, k) && RxqClients(a, k) == RxqClients(b, k)
  {
    if k > 0 {
      assert a[..k - 1] == a[..k][..k - 1] && b[..k - 1] == b[..k][..k - 1];
      assert a[k - 1] == a[..k][k - 1] == b[k - 1];
      PrefixesAgree(a, b, k - 1);
    }
  }

  lemma StartsCounting(types: seq<ClientType>)
    ensures ConfigurableBefore(types, 0) == 0 && RxqClients(types, 0) == MIN_RXQ_CLIENTS
  {
  }

  lemma CountsNext(before: seq<ClientType>, types: seq<ClientType>, i: nat)
    requires i < |before| == |types| && types == before[i := types[i]]
    ensures RxqClients(types, i + 1) == RxqClients(before, i) +
              if i >= MIN_RXQ_TYPES && types[i].queuesNum == CLIENT_QUEUES then types[i].clientsNum else 0
    ensures ConfigurableBefore(types, i + 1) == ConfigurableBefore(before, i) +
              if i >= STATIC_TYPES then types[i].clientsNum else 0
  {
    PrefixesAgree(before, types, i);
  }

  lemma ParsedIsBounded(h: Headers, e: Enumeration, types: seq<ClientType>, i: nat, props: Option<TypeProps>, entries: u32)
    requires TypesOk(e, types) && i < TYPES && TypeFits(h, Asked(types[i], props, entries))
    ensures Parsed(h, types[i], props, entries).clientsNum <= 32
  {
  }

  class DriverData {
    const h: Headers
    const e: Enumeration
    const types: array<ClientType>
    var tableEntries: u32
    var tableSize: u32
    var queueEntries: u32
    var ctrlQueueSize: u32
    var ctrlMemSize: u32
    var rxqClients: u32
    var clientsNum: u32
    var queueSizes: array<QueueSize>
    var usedMemSize: u32

    constructor (h: Headers, e: Enumeration, types: array<ClientType>)
      ensures this.h == h && this.e == e && this.types == types
    {
      this.h, this.e, this.types := h, e, types;
      queueSizes := new QueueSize[0];
    }

    /** First loop of `_parse_client_queue_dt_props`: the types, and the clients that they come to. */
    method ParseTypes(props: seq<Option<TypeProps>>) returns (ok: bool, configurable: nat)
      requires HeadersOk(h) && TypesOk(e, types[..]) && |props| == TYPES
      modifies types, this`rxqClients
      ensures ok <==> AllFit(h, old(types[..]), props, queueEntries)
      ensures ok ==> types[..] == AllParsed(h, old(types[..]), props, queueEntries)
      ensures ok ==> configurable == ConfigurableBefore(types[..], TYPES) && rxqClients == RxqClients(types[..], TYPES)
    {
      hide TypeFits, Parsed, PropsOk, Asked, RxqClients, ConfigurableBefore;
      ghost var was := types[..];
      configurable := 0;
      StartsCounting(was);
      rxqClients := MIN_RXQ_CLIENTS;
      var i := 0;
      while i < TYPES
        invariant 0 <= i <= TYPES
        invariant forall u | i <= u < TYPES :: types[u] == was[u]
        invariant forall u | 0 <= u < i ::
                    && PropsOk(props[u]) && TypeFits(h, Asked(was[u], props[u], queueEntries))
                    && types[u] == Parsed(h, was[u], props[u], queueEntries)
        invariant configurable == ConfigurableBefore(types[..], i)
        invariant rxqClients == RxqClients(types[..], i) <= MIN_RXQ_CLIENTS + 32 * i
      {
        ghost var before := types[..];
        var parsed;
        ok, parsed := ParseType(h, types[i], props[i], queueEntries);
        types[i] := parsed;
        if !ok {
          return;
        }
        ParsedIsBounded(h, e, was, i, props[i], queueEntries);
        CountsNext(before, types[..], i);
        if i >= MIN_RXQ_TYPES && parsed.queuesNum == CLIENT_QUEUES {
          rxqClients := rxqClients + parsed.clientsNum;
        }
        if i >= STATIC_TYPES {
          configurable := configurable + parsed.clientsNum;
        }
        i := i + 1;
      }
      ok := true;
    }

    /** Second loop: each client's queue sizes at its internal id, offsets in 32 bits. */
    method FillQueueSizes(ghost c: Config)
      requires |c.types| == TYPES && ConfigOk(e, c) && types[..] == c.types && clientsNum == ClientsNum(c.types)
      requires ctrlMemSize == CtrlSize(c.h, c.queueEntries) && tableSize == TableSize(c.tableEntries)
      requires rxqClients == RxqClients(c.types, TYPES)
      modifies this`queueSizes, this`usedMemSize
      ensures fresh(queueSizes) && queueSizes.Length == clientsNum
      ensures forall i: nat, j: nat | IsClient(c.types, i, j) ::
                Id(c.types, i, j) < clientsNum && queueSizes[Id(c.types, i, j)] == QueueSizeOf(c, i, j)
      ensures forall id: nat | id < clientsNum && NoClientHas(c.types, id) :: queueSizes[id] == NO_QUEUES
      ensures usedMemSize == WrapU32(TotalSize(c))
    {
      hide TrueMemSize, PageAlign, ConfigOk, Ext, Id, WrapU32, TypesOk, RxqClients, ConfigurableBefore, FilledUpTo,
        ClientOffset, MemBefore, NoClientHas;
      queueSizes := new QueueSize[clientsNum](_ => NO_QUEUES);
      var startOffset := WrapU32(PageAlign(ctrlMemSize + LOCK_BYTES * rxqClients + tableSize));
      assert startOffset == WrapU32(PageAlign(FixedSize(c)));
      hide FixedSize, LocksSize, CtrlSize, TableSize, HeadersSize, ClientsNum;
      FilledNone(c, queueSizes[..]);
      var i := 0;
      while i < TYPES
        invariant 0 <= i <= TYPES && fresh(queueSizes) && queueSizes.Length == clientsNum
        invariant startOffset == if i < TYPES then WrapU32(ClientOffset(c, i, 0)) else WrapU32(TotalSize(c))
        invariant FilledUpTo(c, queueSizes[..], i, 0)
      {
        var t := types[i];
        assert t == c.types[i];
        var j := 0;
        while j < t.clientsNum
          invariant 0 <= j <= t.clientsNum && fresh(queueSizes) && queueSizes.Length == clientsNum
          invariant startOffset == WrapU32(ClientOffset(c, i, j))
          invariant FilledUpTo(c, queueSizes[..], i, j)
        {
          ExtIsSupported(e, c, i, j);
          var r := GetClientIdPriv(e, types[..], t.initId + j);
          var id := r.id;
          ghost var filled := queueSizes[..];
          queueSizes[id] := QueueSize(t.queuesNum, t.entries, t.memSize, startOffset, t.skipsWriteIdx);
          FillsNext(e, c, filled, i, j, queueSizes[id]);
          startOffset := WrapU32(startOffset + t.memSize);
          NextOffset(c, i, j);
          j := j + 1;
        }
        LastOffset(c, i);
        FilledNextType(c, queueSizes[..], i);
        i := i + 1;
      }
      usedMemSize := startOffset;
      FilledAll(c, queueSizes[..]);
    }

    /** `_parse_client_queue_dt_props` */
    method ParseClients(props: seq<Option<TypeProps>>) returns (ok: bool)
      requires HeadersOk(h) && EnumerationOk(e) && TypesOk(e, types[..]) && |props| == TYPES
      requires EntriesFit(h, tableEntries, queueEntries) && tableSize == TableSize(tableEntries)
      requires ctrlMemSize == CtrlSize(h, queueEntries) && ctrlQueueSize == CTRL_PAYLOAD_BYTES * queueEntries
      modifies types, this`rxqClients, this`clientsNum, this`queueSizes, this`usedMemSize
      ensures ok <==> AllFit(h, old(types[..]), props, queueEntries)
      ensures ok ==> LaidOut(Config(h, tableEntries, queueEntries, AllParsed(h, old(types[..]), props, queueEntries)))
    {
      ghost var ask := DeviceTree(h, types[..], Some(tableEntries), Some(queueEntries), props);
      assert types.Length == TYPES;
      hide TrueMemSize, PageAlign, Ext, TypesOk, ConfigurableBefore, RxqClients, MemBefore, AllFit, AllParsed,
        ConfigOk, TotalSize, NoClientHas, Id, TableSize, CtrlSize, EntriesFit;
      var configurable;
      ok, configurable := ParseTypes(props);
      if ok {
        ghost var c := ConfigOf(ask);
        ParsedConfigOk(e, ask);
        ClientsNumFits(e, c.types);
        clientsNum := STATIC_IDS + configurable;
        FillQueueSizes(c);
      }
    }

    /** `hw_fence_utils_parse_dt_props`. A number of entries that is present but 0 stops the parsing,
        and yet the call reports success. */
    method ParseDtProps(tableEntriesProp: Option<u32>, queueEntriesProp: Option<u32>, props: seq<Option<TypeProps>>,
                        readError: int) returns (ret: int)
      requires HeadersOk(h) && EnumerationOk(e) && TypesOk(e, types[..]) && |props| == TYPES && readError < 0
      modifies this, types
      ensures var ask := DeviceTree(h, old(types[..]), tableEntriesProp, queueEntriesProp, props);
              && (Accepts(ask) ==> ret == 0 && LaidOut(ConfigOf(ask)))
              && (!Accepts(ask) ==> (ret == 0 <==> StopsAtZero(ask)))
              && (StopsAtZero(ask) ==> usedMemSize == old(usedMemSize) && queueSizes == old(queueSizes))
    {
      assert types.Length == TYPES;
      hide TrueMemSize, PageAlign, Ext, TypesOk, ConfigurableBefore, RxqClients, MemBefore, AllFit, AllParsed,
        ConfigOk, TotalSize, NoClientHas, Id, LaidOut, WrapU32, HeadersSize, TableSize, CtrlSize;
      ghost var ask := DeviceTree(h, types[..], tableEntriesProp, queueEntriesProp, props);
      if tableEntriesProp.None? {
        return readError;
      }
      if tableEntriesProp.value == 0 {
        return 0;
      }
      tableEntries := tableEntriesProp.value;
      TableGuard(tableEntries);
      if tableEntries >= U32_MAX / FENCE_BYTES {
        return -EINVAL;
      }
      tableSize := WrapU32(FENCE_BYTES * tableEntries);
      if queueEntriesProp.None? {
        return readError;
      }
      if queueEntriesProp.value == 0 {
        return 0;
      }
      queueEntries := queueEntriesProp.value;
      CtrlGuards(h, queueEntries);
      if queueEntries >= U32_MAX / CTRL_PAYLOAD_BYTES {
        return -EINVAL;
      }
      ctrlQueueSize := WrapU32(CTRL_PAYLOAD_BYTES * queueEntries);
      if ctrlQueueSize >= (U32_MAX - HeadersSize(h, CTRL_QUEUES)) / CTRL_QUEUES {
        return -EINVAL;
      }
      ctrlMemSize := WrapU32(HeadersSize(h, CTRL_QUEUES) + CTRL_QUEUES * ctrlQueueSize);
      assert EntriesFit(h, tableEntries, queueEntries);
      var ok := ParseClients(props);
      ret := if ok then 0 else -EINVAL;
    }

    /** The driver's data are those of configuration `c`. */
    ghost predicate LaidOut(c: Config)
      reads this, types, queueSizes
    {
      && ConfigOk(e, c) && c.h == h && c.tableEntries == tableEntries && c.queueEntries == queueEntries
      && types[..] == c.types && rxqClients == RxqClients(c.types, TYPES)
      && tableSize == TableSize(tableEntries) && ctrlMemSize == CtrlSize(h, queueEntries)
      && ctrlQueueSize == CTRL_PAYLOAD_BYTES * queueEntries
      && clientsNum == ClientsNum(c.types) == queueSizes.Length
      && (forall i: nat, j: nat | IsClient(c.types, i, j) ::
            Id(c.types, i, j) < clientsNum && queueSizes[Id(c.types, i, j)] == QueueSizeOf(c, i, j))
      && (forall id: nat | id < clientsNum && NoClientHas(c.types, id) :: queueSizes[id] == NO_QUEUES)
      && usedMemSize == WrapU32(TotalSize(c))
    }
  }

  /** The device tree's numbers, with the client types as they were before parsing. */
  datatype DeviceTree = DeviceTree(
    h: Headers, types: seq<ClientType>, tableEntries: Option<u32>, queueEntries: Option<u32>, props: seq<Option<TypeProps>>)

  predicate Accepts(ask: DeviceTree) {
    && |ask.types| == |ask.props| == TYPES && ask.tableEntries.Some? && ask.queueEntries.Some?
    && EntriesFit(ask.h, ask.tableEntries.value, ask.queueEntries.value)
    && AllFit(ask.h, ask.types, ask.props, ask.queueEntries.value)
  }

  function ConfigOf(ask: DeviceTree): (c: Config)
    requires Accepts(ask)
    ensures |c.types| == TYPES
  {
    Config(ask.h, ask.tableEntries.value, ask.queueEntries.value,
           AllParsed(ask.h, ask.types, ask.props, ask.queueEntries.value))
  }

  /** An entry count of 0, after nothing was wrong before it. */
  predicate StopsAtZero(ask: DeviceTree) {
    || ask.tableEntries == Some(0)
    || (ask.tableEntries.Some? && TableSize(ask.tableEntries.value + 1) <= U32_MAX && ask.queueEntries == Some(0))
  }

  /** A device tree is accepted iff its two numbers of entries are there and positive, the table and the ctrl
      queues stay below 4 GiB by the guards' reckoning, and every type is. */
  lemma TreeAcceptedIff(ask: DeviceTree)
    requires |ask.types| == |ask.props| == TYPES
    ensures Accepts(ask) <==>
            && ask.tableEntries.Some? && ask.queueEntries.Some?
            && 0 < ask.tableEntries.value && 160 * (ask.tableEntries.value + 1) <= U32_MAX
            && 0 < ask.queueEntries.value && 24 * (ask.queueEntries.value + 1) <= U32_MAX
            && ask.h.table + ask.h.queue * 2 + 2 * (24 * ask.queueEntries.value + 1) <= U32_MAX
            && forall i | 0 <= i < TYPES ::
                 PropsOk(ask.props[i]) && TypeFits(ask.h, Asked(ask.types[i], ask.props[i], ask.queueEntries.value))
  {
    hide TypeFits, Asked, PropsOk;
  }

  /** What the configuration takes from the device tree. */
  lemma ConfigFrom(ask: DeviceTree, i: nat)
    requires Accepts(ask) && i < TYPES
    ensures var c := ConfigOf(ask);
            && c.h == ask.h && c.tableEntries == ask.tableEntries.value && c.queueEntries == ask.queueEntries.value
            && var d, r := ask.types[i], c.types[i];
            && r.initId == d.initId && r.maxClients == d.maxClients
            && r.memSize == PageAlign(ask.h.table + ask.h.queue * r.queuesNum + 64 * r.entries * r.queuesNum)
            && match ask.props[i]
               case Some(p) => r.clientsNum == p.clients && r.queuesNum == p.queues && r.entries == p.entries
                               && (r.skipsWriteIdx <==> p.skip == 1)
               case None => r.clientsNum == d.clientsNum && r.queuesNum == d.queuesNum
                            && r.entries == ask.queueEntries.value && r.skipsWriteIdx == d.skipsWriteIdx
  {
    ParsedFrom(ask.h, ask.types[i], ask.props[i], ask.queueEntries.value);
    hide Parsed, PageAlign, TrueMemSize;
  }

  lemma ParsedConfigOk(e: Enumeration, ask: DeviceTree)
    requires Accepts(ask) && HeadersOk(ask.h) && EnumerationOk(e) && TypesOk(e, ask.types)
    ensures ConfigOk(e, ConfigOf(ask))
  {
    hide TrueMemSize, Ext;
    var c := ConfigOf(ask);
    forall i | 0 <= i < TYPES
      ensures TypeFits(c.h, c.types[i]) && c.types[i].memSize == TrueMemSize(c.h, c.types[i])
    {
      MemSizeIgnoresItself(ask.h, Asked(ask.types[i], ask.props[i], ask.queueEntries.value), c.types[i].memSize);
    }
  }

  lemma MemSizeIgnoresItself(h: Headers, d: ClientType, m: u32)
    ensures TrueMemSize(h, d.(memSize := m)) == TrueMemSize(h, d)
  {
  }

  lemma {:induction false} ConfigurableBounded(e: Enumeration, types: seq<ClientType>, i: nat)
    requires TypesOk(e, types) && i <= TYPES
    ensures ConfigurableBefore(types, i) <= 32 * i
    decreases i
  {
    if i > STATIC_TYPES {
      ConfigurableBounded(e, types, i - 1);
      assert types[i - 1].clientsNum <= MaxClients(i - 1);
    }
  }

  lemma ClientsNumFits(e: Enumeration, types: seq<ClientType>)
    requires TypesOk(e, types)
    ensures ClientsNum(types) < 1000
  {
    ConfigurableBounded(e, types, TYPES);
  }

  ghost predicate NoClientHas(types: seq<ClientType>, id: nat) {
    forall i: nat, j: nat | IsClient(types, i, j) :: Id(types, i, j) != id
  }

  /** The clients before sub-client `j` of type `i` have their entry, and no entry is anybody else's. */
  ghost predicate FilledUpTo(c: Config, sizes: seq<QueueSize>, i: nat, j: nat)
    requires |c.types| == TYPES
  {
    && (forall a: nat, b: nat | IsClient(c.types, a, b) && Precedes(a, b, i, j) ::
          Id(c.types, a, b) < |sizes| && sizes[Id(c.types, a, b)] == QueueSizeOf(c, a, b))
    && (forall id: nat | id < |sizes| && NoClientHas(c.types, id) :: sizes[id] == NO_QUEUES)
  }

  lemma ExtIsSupported(e: Enumeration, c: Config, i: nat, j: nat)
    requires ConfigOk(e, c) && IsClient(c.types, i, j)
    ensures EnumerationOk(e) && TypesOk(e, c.types)
    ensures c.types[i].initId + j == Ext(e, i, j) < Ext(e, TYPES, 0) <= e.clientMax
    ensures Id(c.types, i, j) < ClientsNum(c.types)
  {
    ClientsHaveSmallNumbers(e, c.types, i, j);
    IdInRange(e, c.types, i, j);
    ExtBelowEnd(e, c.types, i, j);
  }

  lemma FillsNext(e: Enumeration, c: Config, sizes: seq<QueueSize>, i: nat, j: nat, q: QueueSize)
    requires ConfigOk(e, c) && IsClient(c.types, i, j) && |sizes| == ClientsNum(c.types)
    requires FilledUpTo(c, sizes, i, j) && q == QueueSizeOf(c, i, j) && Id(c.types, i, j) < |sizes|
    ensures FilledUpTo(c, sizes[Id(c.types, i, j) := q], i, j + 1)
  {
    hide Id, QueueSizeOf;
    var sizes' := sizes[Id(c.types, i, j) := q];
    forall a: nat, b: nat | IsClient(c.types, a, b) && Precedes(a, b, i, j + 1)
      ensures Id(c.types, a, b) < |sizes'| && sizes'[Id(c.types, a, b)] == QueueSizeOf(c, a, b)
    {
      if Precedes(a, b, i, j) {
        IdsFollowOrder(e, c.types, a, b, i, j);
      }
    }
  }

  lemma FilledNextType(c: Config, sizes: seq<QueueSize>, i: nat)
    requires |c.types| == TYPES && i < TYPES && FilledUpTo(c, sizes, i, c.types[i].clientsNum)
    ensures FilledUpTo(c, sizes, i + 1, 0)
  {
  }

  lemma NextOffset(c: Config, i: nat, j: nat)
    requires |c.types| == TYPES && i < TYPES
    ensures WrapU32(WrapU32(ClientOffset(c, i, j)) + c.types[i].memSize) == WrapU32(ClientOffset(c, i, j + 1))
  {
    hide PageAlign, FixedSize, MemBefore;
    var m := c.types[i].memSize;
    assert (j + 1) * m == j * m + m;
  }

  /** The clients of a type end where those of the next one start. */
  lemma LastOffset(c: Config, i: nat)
    requires |c.types| == TYPES && i < TYPES
    ensures ClientOffset(c, i, c.types[i].clientsNum) ==
            if i + 1 < TYPES then ClientOffset(c, i + 1, 0) else TotalSize(c)
  {
  }

  lemma FilledNone(c: Config, sizes: seq<QueueSize>)
    requires |c.types| == TYPES && forall id | 0 <= id < |sizes| :: sizes[id] == NO_QUEUES
    ensures FilledUpTo(c, sizes, 0, 0) && ClientOffset(c, 0, 0) == PageAlign(FixedSize(c))
  {
  }

  lemma FilledAll(c: Config, sizes: seq<QueueSize>)
    requires |c.types| == TYPES && FilledUpTo(c, sizes, TYPES, 0)
    ensures forall i: nat, j: nat | IsClient(c.types, i, j) ::
              Id(c.types, i, j) < |sizes| && sizes[Id(c.types, i, j)] == QueueSizeOf(c, i, j)
    ensures forall id: nat | id < |sizes| && NoClientHas(c.types, id) :: sizes[id] == NO_QUEUES
  {
  }
}
