/** Who gets which bytes of the carved-out memory, and when nobody gets another's. */
module CarveoutLayout {
  import opened HwFences
  import opened ClientIndex
  import opened Carveout

  /** The parts of the carve-out; a client is known by its type and number. */
  datatype Owner = Ctrl | Locks | Table | Client(i: nat, j: nat)

  datatype Region = Region(start: nat, size: nat)

  predicate Exists(c: Config, o: Owner) {
    o.Client? ==> IsClient(c.types, o.i, o.j)
  }

  /** The region as the driver computes it, in 32 bits. */
  function RegionOf(c: Config, o: Owner): Region
    requires |c.types| == TYPES && Exists(c, o)
  {
    match o
    case Ctrl => Region(0, CtrlSize(c.h, c.queueEntries))
    case Locks => Region(CtrlSize(c.h, c.queueEntries), LocksSize(c.types))
    case Table => Region(WrapU32(CtrlSize(c.h, c.queueEntries) + LocksSize(c.types)), TableSize(c.tableEntries))
    case Client(i, j) => Region(WrapU32(ClientOffset(c, i, j)), c.types[i].memSize)
  }

  predicate Apart(a: Region, b: Region) {
    a.start + a.size <= b.start || b.start + b.size <= a.start
  }

  predicate Inside(a: Region, b: Region) {
    b.start <= a.start && a.start + a.size <= b.start + b.size
  }

  /** All regions are within the memory in use, and no two overlap. */
  ghost predicate LayoutGood(c: Config)
    requires |c.types| == TYPES
  {
    && (forall o: Owner | Exists(c, o) :: Inside(RegionOf(c, o), Region(0, WrapU32(TotalSize(c)))))
    && (forall o: Owner, p: Owner | Exists(c, o) && Exists(c, p) && o != p :: Apart(RegionOf(c, o), RegionOf(c, p)))
  }

  // ----- Sizes -----

  /** The most clients that the first `i` types can have. */
  function CapBefore(i: nat): nat
    requires i <= TYPES
  {
    if i <= STATIC_TYPES then [0, 1, 7, 14, 15, 16][i] else 16 + 32 * (i - STATIC_TYPES)
  }

  lemma ProductBound(n: nat, cap: nat, m: nat, max: nat)
    requires n <= cap && m <= max
    ensures n * m <= cap * max
  {
    assert n * m <= n * max <= cap * max;
  }

  lemma {:induction false} MemBounded(e: Enumeration, c: Config, i: nat)
    requires ConfigOk(e, c) && i <= TYPES
    ensures MemBefore(c.types, i) <= CapBefore(i) * MAX_CLIENT_MEM
    decreases i
  {
    hide TrueMemSize, Ext, PageAlign;
    if i > 0 {
      MemBounded(e, c, i - 1);
      var t := c.types[i - 1];
      assert TypeFits(c.h, t);
      ProductBound(t.clientsNum, MaxClients(i - 1), t.memSize, MAX_CLIENT_MEM);
      assert CapBefore(i) == CapBefore(i - 1) + MaxClients(i - 1);
    }
  }

  lemma {:induction false} MemGrows(types: seq<ClientType>, i: nat, i': nat)
    requires i < i' <= |types|
    ensures MemBefore(types, i) + TypeMem(types[i]) <= MemBefore(types, i')
    decreases i'
  {
    hide TypeMem;
    if i + 1 < i' {
      MemGrows(types, i, i' - 1);
    }
  }

  /** Clients lie one after the other, and all before the end. */
  lemma OffsetsFollowOrder(c: Config, i: nat, j: nat, i': nat, j': nat)
    requires |c.types| == TYPES && IsClient(c.types, i, j) && IsClient(c.types, i', j') && Precedes(i, j, i', j')
    ensures ClientOffset(c, i, j) + c.types[i].memSize <= ClientOffset(c, i', j')
  {
    hide FixedSize, PageAlign, MemBefore;
    var m := c.types[i].memSize;
    if i < i' {
      MemGrows(c.types, i, i');
      ProductBound(j + 1, c.types[i].clientsNum, m, m);
      assert (j + 1) * m == j * m + m;
    } else {
      ProductBound(j + 1, j', m, m);
      assert (j + 1) * m == j * m + m;
    }
  }

  lemma OffsetBeforeEnd(c: Config, i: nat, j: nat)
    requires |c.types| == TYPES && IsClient(c.types, i, j)
    ensures PageAlign(FixedSize(c)) <= ClientOffset(c, i, j)
    ensures ClientOffset(c, i, j) + c.types[i].memSize <= TotalSize(c)
  {
    hide FixedSize, PageAlign, MemBefore;
    var m := c.types[i].memSize;
    MemGrows(c.types, i, TYPES);
    ProductBound(j + 1, c.types[i].clientsNum, m, m);
    assert (j + 1) * m == j * m + m;
  }

  lemma {:induction false} LocksBounded(e: Enumeration, types: seq<ClientType>, i: nat)
    requires TypesOk(e, types) && i <= TYPES
    ensures RxqClients(types, i) <= MIN_RXQ_CLIENTS + 32 * i
    decreases i
  {
    if i > 0 {
      LocksBounded(e, types, i - 1);
      assert types[i - 1].clientsNum <= MaxClients(i - 1);
    }
  }

  lemma LocksFit(e: Enumeration, c: Config)
    requires ConfigOk(e, c)
    ensures LocksSize(c.types) < U32_LIMIT
  {
    LocksBounded(e, c.types, TYPES);
  }

  // ----- The layout -----

  /** The carve-out is laid out without overlap, and within the memory in use, exactly if its size fits in
      32 bits. The guards of the parsing do not see to that: nothing checks the sum. */
  lemma LayoutGoodIff(e: Enumeration, c: Config)
    requires ConfigOk(e, c)
    ensures LayoutGood(c) <==> TotalSize(c) < U32_LIMIT
  {
    if TotalSize(c) < U32_LIMIT {
      FittingIsGood(e, c);
    } else {
      WrappingIsBad(e, c);
    }
  }

  /** Regions where they would be over the unbounded integers. */
  function TrueStart(c: Config, o: Owner): nat
    requires |c.types| == TYPES && Exists(c, o)
  {
    match o
    case Ctrl => 0
    case Locks => CtrlSize(c.h, c.queueEntries)
    case Table => CtrlSize(c.h, c.queueEntries) + LocksSize(c.types)
    case Client(i, j) => ClientOffset(c, i, j)
  }

  lemma TrueEnd(c: Config, o: Owner)
    requires |c.types| == TYPES && Exists(c, o)
    ensures TrueStart(c, o) + RegionOf(c, o).size <= TotalSize(c)
    ensures !o.Client? ==> TrueStart(c, o) + RegionOf(c, o).size <= FixedSize(c) <= PageAlign(FixedSize(c))
    ensures TotalSize(c) < U32_LIMIT && RegionOf(c, o).size > 0 ==> RegionOf(c, o).start == TrueStart(c, o)
  {
    hide PageAlign, ClientOffset;
    PageAlignIs(FixedSize(c));
    if o.Client? {
      OffsetBeforeEnd(c, o.i, o.j);
    }
  }

  lemma SizesPositive(e: Enumeration, c: Config, o: Owner)
    requires ConfigOk(e, c) && Exists(c, o)
    ensures RegionOf(c, o).size > 0
  {
    hide MemBefore, ClientOffset, PageAlign, Ext;
    match o
    case Client(i, j) =>
      var t := c.types[i];
      assert TypeFits(c.h, t);
      PageAlignIs(HeadersSize(c.h, t.queuesNum) + CLIENT_PAYLOAD_BYTES * t.entries * t.queuesNum);
    case Locks => LocksPositive(c.types, TYPES);
    case Ctrl =>
    case Table =>
  }

  lemma LocksPositive(types: seq<ClientType>, i: nat)
    requires i <= |types|
    ensures RxqClients(types, i) > 0
  {
  }

  lemma FittingIsGood(e: Enumeration, c: Config)
    requires |c.types| == TYPES && ConfigOk(e, c) && TotalSize(c) < U32_LIMIT
    ensures LayoutGood(c)
  {
    hide RegionOf, ConfigOk, TotalSize, TrueStart;
    forall o: Owner | Exists(c, o) ensures Inside(RegionOf(c, o), Region(0, WrapU32(TotalSize(c)))) {
      TrueEnd(c, o);
      SizesPositive(e, c, o);
    }
    forall o: Owner, p: Owner | Exists(c, o) && Exists(c, p) && o != p
      ensures Apart(RegionOf(c, o), RegionOf(c, p))
    {
      RegionsApart(e, c, o, p);
    }
  }

  predicate Before(o: Owner, p: Owner) {
    match (o, p)
    case (Client(i, j), Client(i', j')) => Precedes(i, j, i', j')
    case (Ctrl, _) => !p.Ctrl?
    case (Locks, _) => p.Table? || p.Client?
    case (Table, _) => p.Client?
    case (Client(_, _), _) => false
  }

  lemma InOrder(c: Config, o: Owner, p: Owner)
    requires |c.types| == TYPES && Exists(c, o) && Exists(c, p) && Before(o, p)
    ensures TrueStart(c, o) + RegionOf(c, o).size <= TrueStart(c, p)
  {
    hide PageAlign, ClientOffset, TotalSize;
    if o.Client? {
      OffsetsFollowOrder(c, o.i, o.j, p.i, p.j);
    } else if p.Client? {
      TrueEnd(c, o);
      OffsetBeforeEnd(c, p.i, p.j);
    }
  }

  lemma RegionsApart(e: Enumeration, c: Config, o: Owner, p: Owner)
    requires |c.types| == TYPES && ConfigOk(e, c) && TotalSize(c) < U32_LIMIT
    requires Exists(c, o) && Exists(c, p) && o != p
    ensures Apart(RegionOf(c, o), RegionOf(c, p))
  {
    hide RegionOf, ConfigOk, TotalSize, TrueStart;
    TrueEnd(c, o);
    TrueEnd(c, p);
    SizesPositive(e, c, o);
    SizesPositive(e, c, p);
    if Before(o, p) {
      InOrder(c, o, p);
    } else {
      InOrder(c, p, o);
    }
  }

  lemma WrappingIsBad(e: Enumeration, c: Config)
    requires ConfigOk(e, c) && TotalSize(c) >= U32_LIMIT
    ensures !LayoutGood(c)
  {
    var ctrl, locks, table := CtrlSize(c.h, c.queueEntries), LocksSize(c.types), TableSize(c.tableEntries);
    LocksBounded(e, c.types, TYPES);
    MemBounded(e, c, TYPES);
    assert 0 < ctrl < U32_LIMIT && 0 < table < U32_LIMIT && locks < PAGE;
    assert TotalSize(c) == PageAlign(ctrl + locks + table) + MemBefore(c.types, TYPES);
    var used := Region(0, WrapU32(TotalSize(c)));
    assert RegionOf(c, Ctrl) == Region(0, ctrl) && RegionOf(c, Table) == Region(WrapU32(ctrl + locks), table);
    assert Exists(c, Table) && Exists(c, Ctrl);
    hide *;
    WrappedTable(ctrl, locks, table, MemBefore(c.types, TYPES));
    assert !Apart(RegionOf(c, Ctrl), RegionOf(c, Table)) || !Inside(RegionOf(c, Table), used);
    NotGood(c);
  }

  lemma NotGood(c: Config)
    requires |c.types| == TYPES && Exists(c, Ctrl) && Exists(c, Table)
    requires !Apart(RegionOf(c, Ctrl), RegionOf(c, Table))
             || !Inside(RegionOf(c, Table), Region(0, WrapU32(TotalSize(c))))
    ensures !LayoutGood(c)
  {
    hide RegionOf, Apart, Inside, WrapU32, TotalSize;
  }

  /** If the sum wraps, the table overlaps the ctrl queues or ends after the memory in use. */
  lemma WrappedTable(ctrl: nat, locks: nat, table: nat, clients: nat)
    requires 0 < ctrl < U32_LIMIT && 0 < table < U32_LIMIT && locks < PAGE && clients <= 272 * MAX_CLIENT_MEM
    requires PageAlign(ctrl + locks + table) + clients >= U32_LIMIT
    ensures var t := Region(WrapU32(ctrl + locks), table);
            var total := WrapU32(PageAlign(ctrl + locks + table) + clients);
            !Apart(Region(0, ctrl), t) || !Inside(t, Region(0, total))
  {
    PageAlignIs(ctrl + locks + table);
    hide PageAlign;
    var total := PageAlign(ctrl + locks + table) + clients;
    if ctrl + locks < U32_LIMIT {
      assert WrapU32(total) <= total - U32_LIMIT < ctrl + locks + table;
    } else {
      assert WrapU32(ctrl + locks) == ctrl + locks - U32_LIMIT < ctrl;
    }
  }

  /** With at most 272 clients of at most 1 MiB, every client's start is exact if the aligned fixed part
      leaves room for that many. */
  lemma StartsExactIfRoom(e: Enumeration, c: Config, i: nat, j: nat)
    requires |c.types| == TYPES && ConfigOk(e, c) && IsClient(c.types, i, j)
    requires PageAlign(FixedSize(c)) <= U32_LIMIT - 272 * MAX_CLIENT_MEM
    ensures RegionOf(c, Client(i, j)).start == ClientOffset(c, i, j)
    ensures TotalSize(c) <= U32_LIMIT
  {
    hide MemBefore, PageAlign, FixedSize, ClientOffset, ConfigOk, TotalSize, RegionOf, CapBefore;
    TotalBounded(e, c);
    SizesPositive(e, c, Client(i, j));
    OffsetBeforeEnd(c, i, j);
    ClientRegion(c, i, j);
  }

  lemma TotalBounded(e: Enumeration, c: Config)
    requires |c.types| == TYPES && ConfigOk(e, c)
    ensures TotalSize(c) <= PageAlign(FixedSize(c)) + 272 * MAX_CLIENT_MEM
  {
    hide MemBefore, PageAlign, FixedSize, ConfigOk;
    MemBounded(e, c, TYPES);
  }

  lemma ClientRegion(c: Config, i: nat, j: nat)
    requires |c.types| == TYPES && IsClient(c.types, i, j)
    ensures RegionOf(c, Client(i, j)) == Region(WrapU32(ClientOffset(c, i, j)), c.types[i].memSize)
  {
    hide ClientOffset;
  }

  /** The layout, where it fits: ctrl queues, one lock for each counted client, the table, and from the next
      page on the clients, one right after the other, each with room for its headers and payloads and less
      than a page to spare. */
  lemma FixedRegionsAre(e: Enumeration, c: Config)
    requires |c.types| == TYPES && ConfigOk(e, c) && TotalSize(c) < U32_LIMIT
    ensures var ctrl, locks, table := RegionOf(c, Ctrl), RegionOf(c, Locks), RegionOf(c, Table);
            && ctrl.start == 0 && ctrl.size == c.h.table + c.h.queue * 2 + 2 * (24 * c.queueEntries)
            && locks.start == ctrl.size && locks.size == 8 * RxqClients(c.types, TYPES)
            && table.start == locks.start + locks.size && table.size == 160 * c.tableEntries
            && PageAlign(FixedSize(c)) == PageAlign(table.start + table.size)
  {
    hide PageAlign, MemBefore, Ext, RxqClients;
    PageAlignIs(FixedSize(c));
  }

  lemma ClientRegionsAre(e: Enumeration, c: Config, i: nat, j: nat)
    requires |c.types| == TYPES && ConfigOk(e, c) && TotalSize(c) < U32_LIMIT && IsClient(c.types, i, j)
    ensures var t, r := c.types[i], RegionOf(c, Client(i, j));
            var used := c.h.table + c.h.queue * t.queuesNum + 64 * t.entries * t.queuesNum;
            r.start % PAGE == 0 && r.size % PAGE == 0 && used <= r.size < used + PAGE
  {
    hide ConfigOk, RegionOf, TotalSize, ClientOffset, Ext;
    ClientSizeIs(e, c, i);
    StartIsExact(e, c, i, j);
    StartIsAligned(e, c, i, j);
  }

  lemma NextClientIs(e: Enumeration, c: Config, i: nat, j: nat)
    requires |c.types| == TYPES && ConfigOk(e, c) && TotalSize(c) < U32_LIMIT
    requires IsClient(c.types, i, j) && IsClient(c.types, i, j + 1)
    ensures RegionOf(c, Client(i, j + 1)).start == RegionOf(c, Client(i, j)).start + RegionOf(c, Client(i, j)).size
  {
    StartIsExact(e, c, i, j);
    StartIsExact(e, c, i, j + 1);
    hide ConfigOk, RegionOf, TotalSize, Ext, MemBefore, FixedSize, PageAlign;
    var m := c.types[i].memSize;
    assert (j + 1) * m == j * m + m;
  }

  lemma StartIsExact(e: Enumeration, c: Config, i: nat, j: nat)
    requires |c.types| == TYPES && ConfigOk(e, c) && TotalSize(c) < U32_LIMIT && IsClient(c.types, i, j)
    ensures RegionOf(c, Client(i, j)) == Region(ClientOffset(c, i, j), c.types[i].memSize)
  {
    hide ConfigOk, RegionOf, TotalSize, Ext, ClientOffset;
    SizesPositive(e, c, Client(i, j));
    TrueEnd(c, Client(i, j));
    ClientRegion(c, i, j);
  }

  lemma ClientSizeIs(e: Enumeration, c: Config, i: nat)
    requires ConfigOk(e, c) && i < TYPES
    ensures var t := c.types[i];
            var used := c.h.table + c.h.queue * t.queuesNum + 64 * t.entries * t.queuesNum;
            t.memSize % PAGE == 0 && used <= t.memSize < used + PAGE
  {
    hide PageAlign, Ext;
    var t := c.types[i];
    assert TypeFits(c.h, t);
    PageAlignIs(c.h.table + c.h.queue * t.queuesNum + 64 * t.entries * t.queuesNum);
  }

  lemma MultipleOfPage(n: nat, m: nat)
    requires m % PAGE == 0
    ensures (n * m) % PAGE == 0
  {
    var q := m / PAGE;
    PageTimes(n, q, m);
  }

  lemma PageTimes(n: nat, q: nat, m: nat)
    requires m == PAGE * q
    ensures (n * m) % PAGE == 0
  {
    var x := n * q;
    assert n * m == PAGE * x;
  }

  lemma AlignedSum(a: nat, b: nat)
    requires a % PAGE == 0 && b % PAGE == 0
    ensures (a + b) % PAGE == 0
  {
  }

  lemma {:induction false} MemIsAligned(e: Enumeration, c: Config, i: nat)
    requires |c.types| == TYPES && ConfigOk(e, c) && i <= TYPES
    ensures MemBefore(c.types, i) % PAGE == 0
    decreases i
  {
    hide ConfigOk, TypeMem;
    if i > 0 {
      MemIsAligned(e, c, i - 1);
      TypeIsAligned(e, c, i - 1);
      AlignedSum(MemBefore(c.types, i - 1), TypeMem(c.types[i - 1]));
    }
  }

  lemma TypeIsAligned(e: Enumeration, c: Config, i: nat)
    requires ConfigOk(e, c) && i < TYPES
    ensures TypeMem(c.types[i]) % PAGE == 0
  {
    ClientSizeIs(e, c, i);
    hide ConfigOk;
    MultipleOfPage(c.types[i].clientsNum, c.types[i].memSize);
  }

  function Product(n: nat, m: nat): nat {
    n * m
  }

  lemma OffsetParts(c: Config, i: nat, j: nat)
    requires |c.types| == TYPES && i < TYPES
    ensures ClientOffset(c, i, j) == PageAlign(FixedSize(c)) + MemBefore(c.types, i) + Product(j, c.types[i].memSize)
  {
    hide PageAlign, FixedSize, MemBefore;
  }

  lemma ProductIsAligned(e: Enumeration, c: Config, i: nat, j: nat)
    requires ConfigOk(e, c) && i < TYPES
    ensures Product(j, c.types[i].memSize) % PAGE == 0
  {
    ClientSizeIs(e, c, i);
    hide ConfigOk;
    MultipleOfPage(j, c.types[i].memSize);
  }

  lemma StartIsAligned(e: Enumeration, c: Config, i: nat, j: nat)
    requires |c.types| == TYPES && ConfigOk(e, c) && i < TYPES
    ensures ClientOffset(c, i, j) % PAGE == 0
  {
    hide MemBefore, PageAlign, FixedSize, ConfigOk, Product, ClientOffset;
    OffsetParts(c, i, j);
    PageAlignIs(FixedSize(c));
    MemIsAligned(e, c, i);
    ProductIsAligned(e, c, i, j);
    AlignedSum(PageAlign(FixedSize(c)), MemBefore(c.types, i));
    AlignedSum(PageAlign(FixedSize(c)) + MemBefore(c.types, i), Product(j, c.types[i].memSize));
  }

  /** The first client of all starts on the page after the table. */
  lemma FirstClientIs(e: Enumeration, c: Config, i: nat)
    requires |c.types| == TYPES && ConfigOk(e, c) && TotalSize(c) < U32_LIMIT && IsClient(c.types, i, 0)
    requires forall v | 0 <= v < i :: c.types[v].clientsNum == 0
    ensures RegionOf(c, Client(i, 0)).start == PageAlign(FixedSize(c))
  {
    hide Ext, FixedSize, ConfigOk, TotalSize, PageAlign;
    SizesPositive(e, c, Client(i, 0));
    OffsetBeforeEnd(c, i, 0);
    NoneBefore(c.types, i);
  }

  lemma {:induction false} NoneBefore(types: seq<ClientType>, i: nat)
    requires i <= |types| && forall v | 0 <= v < i :: types[v].clientsNum == 0
    ensures MemBefore(types, i) == 0
    decreases i
  {
    if i > 0 {
      NoneBefore(types, i - 1);
    }
  }

  /** The first client of a type starts right after the last one of the types before. */
  lemma NextTypeIs(e: Enumeration, c: Config, u: nat, j: nat, i: nat)
    requires |c.types| == TYPES && ConfigOk(e, c) && TotalSize(c) < U32_LIMIT
    requires u < i && IsClient(c.types, i, 0) && IsClient(c.types, u, j) && j + 1 == c.types[u].clientsNum
    requires forall v | u < v < i :: c.types[v].clientsNum == 0
    ensures RegionOf(c, Client(i, 0)).start == RegionOf(c, Client(u, j)).start + RegionOf(c, Client(u, j)).size
  {
    var r, r' := RegionOf(c, Client(u, j)), RegionOf(c, Client(i, 0));
    hide Ext, FixedSize, ConfigOk, TotalSize, PageAlign, MemBefore, RegionOf;
    SizesPositive(e, c, Client(i, 0));
    SizesPositive(e, c, Client(u, j));
    TrueEnd(c, Client(i, 0));
    TrueEnd(c, Client(u, j));
    NoneBetween(c.types, u, i);
    ClientRegion(c, u, j);
    LastOfType(c, u, j);
    assert r'.start == ClientOffset(c, i, 0);
  }

  lemma LastOfType(c: Config, u: nat, j: nat)
    requires |c.types| == TYPES && u < TYPES && j + 1 == c.types[u].clientsNum
    ensures ClientOffset(c, u, j) + c.types[u].memSize == PageAlign(FixedSize(c)) + MemBefore(c.types, u) + TypeMem(c.types[u])
  {
    hide FixedSize, PageAlign, MemBefore;
    assert (j + 1) * c.types[u].memSize == j * c.types[u].memSize + c.types[u].memSize;
  }

  lemma {:induction false} NoneBetween(types: seq<ClientType>, u: nat, i: nat)
    requires u < i <= |types| && forall v | u < v < i :: types[v].clientsNum == 0
    ensures MemBefore(types, i) == MemBefore(types, u) + TypeMem(types[u])
    decreases i
  {
    if u + 1 < i {
      NoneBetween(types, u, i - 1);
    }
  }

  // ----- Reserving and carving up -----

  datatype Wanted = WantCtrl | WantLocks | WantTable | WantClient(id: int)

  /** Who an id belongs to. */
  ghost predicate Names(c: Config, w: Wanted, o: Owner)
    requires |c.types| == TYPES
  {
    match w
    case WantCtrl => o == Ctrl
    case WantLocks => o == Locks
    case WantTable => o == Table
    case WantClient(id) => o.Client? && IsClient(c.types, o.i, o.j) && Id(c.types, o.i, o.j) == id
  }

  /** `hw_fence_utils_reserve_mem`: a client's region can be had exactly if its id is some client's, and
      every region, only if the carve-out is large enough for it (as computed in 32 bits). */
  method ReserveMem(d: DriverData, ghost c: Config, w: Wanted, carved: nat) returns (r: Option<Region>)
    requires |c.types| == TYPES && d.LaidOut(c)
    ensures forall o: Owner | Exists(c, o) && Names(c, w, o) ::
              r == if WrapU32(RegionOf(c, o).start + RegionOf(c, o).size) <= carved then Some(RegionOf(c, o)) else None
    ensures (forall o: Owner | Exists(c, o) :: !Names(c, w, o)) ==> r == None
  {
    hide TrueMemSize, PageAlign, Ext, MemBefore, RxqClients, ConfigurableBefore, TotalSize, Id, ClientOffset, FixedSize,
      CtrlSize, TableSize, HeadersSize, ConfigOk;
    LocksFit(d.e, c);
    var start, size: u32 := 0, 0;
    match w {
      case WantCtrl =>
        assert Names(c, w, Ctrl);
        size := d.ctrlMemSize;
      case WantLocks =>
        assert Names(c, w, Locks);
        start, size := d.ctrlMemSize, WrapU32(LOCK_BYTES * d.rxqClients);
      case WantTable =>
        assert Names(c, w, Table);
        start, size := WrapU32(d.ctrlMemSize + LOCK_BYTES * d.rxqClients), d.tableSize;
      case WantClient(id) =>
        if id < 0 || id >= d.clientsNum {
          return None;
        }
        start, size := d.queueSizes[id].startOffset, d.queueSizes[id].memSize;
        forall o: Owner | Exists(c, o) && Names(c, w, o)
          ensures size > 0 && RegionOf(c, o) == Region(start, size)
        {
          SizesPositive(d.e, c, o);
        }
        NobodyMeansNone(c, id);
        if size == 0 {
          return None;
        }
    }
    if WrapU32(start + size) > carved {
      return None;
    }
    r := Some(Region(start, size));
  }

  /** If no owner is named by a client id, no client has it. */
  lemma NobodyMeansNone(c: Config, id: nat)
    requires |c.types| == TYPES
    ensures (forall o: Owner | Exists(c, o) :: !Names(c, WantClient(id), o)) ==> NoClientHas(c.types, id)
  {
    hide Id;
    if forall o: Owner | Exists(c, o) :: !Names(c, WantClient(id), o) {
      forall i: nat, j: nat | IsClient(c.types, i, j) ensures Id(c.types, i, j) != id {
        assert !Names(c, WantClient(id), Client(i, j));
      }
    }
  }

  /** Number of queues of an owner, their size, and where the first starts in the owner's region. */
  function QueuesNum(c: Config, o: Owner): nat
    requires |c.types| == TYPES && Exists(c, o)
  {
    match o
    case Ctrl => CTRL_QUEUES
    case Client(i, j) => c.types[i].queuesNum
    case _ => 0
  }

  function QueueBytes(c: Config, o: Owner): nat
    requires |c.types| == TYPES && Exists(c, o)
  {
    match o
    case Ctrl => CTRL_PAYLOAD_BYTES * c.queueEntries
    case Client(i, j) => CLIENT_PAYLOAD_BYTES * c.types[i].entries
    case _ => 0
  }

  function Buffer(c: Config, o: Owner, k: nat): Region
    requires |c.types| == TYPES && Exists(c, o)
  {
    Region(RegionOf(c, o).start + HeadersSize(c.h, QueuesNum(c, o)) + k * QueueBytes(c, o), QueueBytes(c, o))
  }

  /** The queues of a region fill it from the headers on, up to less than a page. */
  lemma QueuesFitRegion(e: Enumeration, c: Config, o: Owner)
    requires ConfigOk(e, c) && Exists(c, o) && (o.Ctrl? || o.Client?)
    ensures HeadersSize(c.h, QueuesNum(c, o)) + QueuesNum(c, o) * QueueBytes(c, o) <= RegionOf(c, o).size
  {
    hide MemBefore, ClientOffset, PageAlign, Ext, FixedSize;
    if o.Client? {
      var t := c.types[o.i];
      assert TypeFits(c.h, t);
      PageAlignIs(HeadersSize(c.h, t.queuesNum) + CLIENT_PAYLOAD_BYTES * t.entries * t.queuesNum);
    }
  }

  /** A queue's buffer is in its owner's region, past the headers, and off every other queue there. */
  lemma BufferInRegion(e: Enumeration, c: Config, o: Owner, k: nat, l: nat)
    requires ConfigOk(e, c) && Exists(c, o) && k < QueuesNum(c, o) && l < QueuesNum(c, o)
    ensures Inside(Buffer(c, o, k), RegionOf(c, o))
    ensures RegionOf(c, o).start + HeadersSize(c.h, QueuesNum(c, o)) <= Buffer(c, o, k).start
    ensures k != l ==> Apart(Buffer(c, o, k), Buffer(c, o, l))
  {
    QueuesFitRegion(e, c, o);
    hide RegionOf, ConfigOk;
    var b := QueueBytes(c, o);
    ProductBound(k + 1, QueuesNum(c, o), b, b);
    assert (k + 1) * b == k * b + b && (l + 1) * b == l * b + b;
    if k < l {
      ProductBound(k + 1, l, b, b);
    } else if l < k {
      ProductBound(l + 1, k, b, b);
    }
  }

  /** Queues and their headers follow each other: the table header, one header for each queue, then the
      payloads of the first queue, and so on. */
  lemma QueuesAreInOrder(c: Config, o: Owner, k: nat)
    requires |c.types| == TYPES && Exists(c, o) && k < QueuesNum(c, o)
    ensures QueueOf(c, o, 0).header == RegionOf(c, o).start + c.h.table
    ensures QueueOf(c, o, k + 1).header == QueueOf(c, o, k).header + c.h.queue
    ensures QueueOf(c, o, QueuesNum(c, o)).header == Buffer(c, o, 0).start == QueueOf(c, o, 0).start
    ensures Buffer(c, o, k + 1).start == Buffer(c, o, k).start + Buffer(c, o, k).size
    ensures o.Ctrl? ==> QueuesNum(c, o) == 2 && Buffer(c, o, k).size == 24 * c.queueEntries
    ensures o.Client? ==> QueuesNum(c, o) == c.types[o.i].queuesNum && Buffer(c, o, k).size == 64 * c.types[o.i].entries
  {
    hide RegionOf;
    var q, b := c.h.queue, QueueBytes(c, o);
    assert (k + 1) * q == k * q + q && (k + 1) * b == k * b + b;
    assert q * QueuesNum(c, o) == QueuesNum(c, o) * q;
  }

  /** No word of a queue is a byte of any other queue, of any headers, or of any region but its own. */
  lemma WordIsNobodyElses(e: Enumeration, c: Config, o: Owner, k: nat, word: nat, p: Owner, l: nat)
    requires |c.types| == TYPES && ConfigOk(e, c) && TotalSize(c) < U32_LIMIT && Exists(c, o) && Exists(c, p)
    requires k < QueuesNum(c, o) && 4 * (word + 1) <= QueueBytes(c, o)
    ensures var w := WordAt(c, o, k, word);
            && Inside(w, RegionOf(c, o))
            && (o != p ==> Apart(w, RegionOf(c, p)))
            && (p.Ctrl? || p.Client? ==> Apart(w, HeadersOf(c, p)))
            && (l < QueuesNum(c, p) && (o, k) != (p, l) ==> Apart(w, Buffer(c, p, l)))
  {
    hide RegionOf, ConfigOk, TotalSize, QueueBytes, QueuesNum, HeadersOf, Buffer, Apart, Inside;
    WordInBuffer(e, c, o, k, word);
    if o == p {
      if l < QueuesNum(c, o) && k != l {
        BufferInRegion(e, c, o, k, l);
        PartsApart(WordAt(c, o, k, word), Buffer(c, o, k), Buffer(c, o, l), Buffer(c, o, l));
      }
    } else {
      RegionsApart(e, c, o, p);
      var region := RegionOf(c, p);
      PartsApart(WordAt(c, o, k, word), RegionOf(c, o), region, region);
      if p.Ctrl? || p.Client? {
        HeadersInRegion(e, c, p);
        PartsApart(WordAt(c, o, k, word), RegionOf(c, o), HeadersOf(c, p), region);
      }
      if l < QueuesNum(c, p) {
        BufferInRegion(e, c, p, l, l);
        PartsApart(WordAt(c, o, k, word), RegionOf(c, o), Buffer(c, p, l), region);
      }
    }
  }

  lemma PartsApart(a: Region, b: Region, a': Region, b': Region)
    requires Inside(a, b) && Inside(a', b') && Apart(b, b')
    ensures Inside(b', b') && Apart(a, a')
  {
  }

  /** The headers at the start of a region with queues. */
  function HeadersOf(c: Config, o: Owner): Region
    requires |c.types| == TYPES && Exists(c, o)
  {
    Region(RegionOf(c, o).start, HeadersSize(c.h, QueuesNum(c, o)))
  }

  function WordAt(c: Config, o: Owner, k: nat, word: nat): Region
    requires |c.types| == TYPES && Exists(c, o)
  {
    Region(Buffer(c, o, k).start + 4 * word, 4)
  }

  lemma WordInBuffer(e: Enumeration, c: Config, o: Owner, k: nat, word: nat)
    requires |c.types| == TYPES && ConfigOk(e, c) && Exists(c, o)
    requires k < QueuesNum(c, o) && 4 * (word + 1) <= QueueBytes(c, o)
    ensures forall b: Region :: Inside(b, b)
    ensures Inside(WordAt(c, o, k, word), Buffer(c, o, k)) && Inside(WordAt(c, o, k, word), RegionOf(c, o))
    ensures Apart(WordAt(c, o, k, word), HeadersOf(c, o))
  {
    hide RegionOf, ConfigOk, QueueBytes, QueuesNum, HeadersSize;
    BufferInRegion(e, c, o, k, k);
  }

  lemma HeadersInRegion(e: Enumeration, c: Config, o: Owner)
    requires |c.types| == TYPES && ConfigOk(e, c) && Exists(c, o)
    ensures o.Ctrl? || o.Client? ==> Inside(HeadersOf(c, o), RegionOf(c, o))
  {
    hide ConfigOk, RegionOf, QueueBytes, HeadersSize;
    if o.Ctrl? || o.Client? {
      QueuesFitRegion(e, c, o);
    }
  }

  /** A queue as the driver keeps it: where its header and its payloads are, and its size. */
  datatype Queue = Queue(header: nat, start: nat, bytes: nat)

  function QueueOf(c: Config, o: Owner, k: nat): Queue
    requires |c.types| == TYPES && Exists(c, o)
  {
    Queue(RegionOf(c, o).start + c.h.table + k * c.h.queue, Buffer(c, o, k).start, QueueBytes(c, o))
  }

  lemma OffsetExact(headersSize: nat, queuesNum: nat, queueSize: nat, i: nat)
    requires headersSize + queuesNum * queueSize < U32_LIMIT && i <= queuesNum
    ensures WrapU32(headersSize + i * queueSize) == headersSize + i * queueSize
  {
    ProductBound(i, queuesNum, queueSize, queueSize);
  }

  /** The loop that puts one queue after the other, past the headers. */
  method CarveQueues(h: Headers, start: nat, queuesNum: nat, queueSize: nat) returns (queues: seq<Queue>)
    requires HeadersSize(h, queuesNum) + queuesNum * queueSize < U32_LIMIT
    ensures |queues| == queuesNum
    ensures forall k | 0 <= k < queuesNum ::
              queues[k] == Queue(start + h.table + k * h.queue, start + HeadersSize(h, queuesNum) + k * queueSize, queueSize)
  {
    hide WrapU32, HeadersSize;
    queues := [];
    var headersSize := HeadersSize(h, queuesNum);
    var i := 0;
    while i < queuesNum
      invariant 0 <= i <= queuesNum && |queues| == i
      invariant forall k | 0 <= k < i ::
                  queues[k] == Queue(start + h.table + k * h.queue, start + headersSize + k * queueSize, queueSize)
    {
      OffsetExact(headersSize, queuesNum, queueSize, i);
      var startQueueOffset := WrapU32(headersSize + i * queueSize);
      queues := queues + [Queue(start + h.table + i * h.queue, start + startQueueOffset, queueSize)];
      i := i + 1;
    }
  }

  /** `init_hw_fences_queues` */
  method InitQueues(d: DriverData, ghost c: Config, w: Wanted, carved: nat) returns (ok: bool, queues: seq<Queue>)
    requires |c.types| == TYPES && d.LaidOut(c)
    ensures ok ==> exists o: Owner :: Exists(c, o) && Names(c, w, o)
    ensures forall o: Owner | Exists(c, o) && Names(c, w, o) && ok ::
              && |queues| == QueuesNum(c, o)
              && forall k | 0 <= k < |queues| :: queues[k] == QueueOf(c, o, k)
    ensures forall o: Owner | Exists(c, o) && Names(c, w, o) && (o.Ctrl? || o.Client?) ::
              ok <==> WrapU32(RegionOf(c, o).start + RegionOf(c, o).size) <= carved
  {
    hide TrueMemSize, PageAlign, Ext, MemBefore, RxqClients, ConfigurableBefore, TotalSize, Id, ClientOffset, FixedSize,
      CtrlSize, TableSize, HeadersSize, RegionOf, ConfigOk;
    ok, queues := false, [];
    var queueSize: nat, queuesNum: nat;
    match w {
      case WantCtrl =>
        assert Names(c, w, Ctrl);
        queueSize, queuesNum := d.ctrlQueueSize, CTRL_QUEUES;
      case WantClient(id) =>
        if id < 0 || id >= d.clientsNum {
          return;
        }
        queueSize, queuesNum := CLIENT_PAYLOAD_BYTES * d.queueSizes[id].entries, d.queueSizes[id].queuesNum;
      case _ => return;
    }
    var region := ReserveMem(d, c, w, carved);
    if region.None? {
      return;
    }
    ghost var o: Owner :| Exists(c, o) && Names(c, w, o);
    assert queueSize == QueueBytes(c, o) && queuesNum == QueuesNum(c, o) && region.value == RegionOf(c, o);
    QueuesFitRegion(d.e, c, o);
    RegionSizesFit(d.e, c, o);
    queues := CarveQueues(d.h, region.value.start, queuesNum, queueSize);
    NamesOne(d.e, c, w, o);
    ok := true;
  }

  lemma RegionSizesFit(e: Enumeration, c: Config, o: Owner)
    requires ConfigOk(e, c) && Exists(c, o)
    ensures o.Ctrl? || o.Client? ==> RegionOf(c, o).size < U32_LIMIT
  {
    hide Ext, MemBefore, PageAlign, ClientOffset;
  }

  /** A request names at most one owner. */
  lemma NamesOne(e: Enumeration, c: Config, w: Wanted, o: Owner)
    requires ConfigOk(e, c) && Exists(c, o) && Names(c, w, o)
    ensures forall p: Owner | Exists(c, p) && Names(c, w, p) :: p == o
  {
    hide Id, Ext;
    forall p: Owner | Exists(c, p) && Names(c, w, p) ensures p == o {
      if w.WantClient? && p != o {
        if Precedes(o.i, o.j, p.i, p.j) {
          IdsFollowOrder(e, c.types, o.i, o.j, p.i, p.j);
        } else {
          IdsFollowOrder(e, c.types, p.i, p.j, o.i, o.j);
        }
        assert false;
      }
    }
  }

  /** `hw_fence_utils_skips_txq_wr_idx`: what the client's type says; clients that do not exist do not. */
  method SkipsTxqWrIdx(d: DriverData, ghost c: Config, id: int) returns (skips: bool)
    requires |c.types| == TYPES && d.LaidOut(c) && 0 <= id
    ensures forall i: nat, j: nat | IsClient(c.types, i, j) && Id(c.types, i, j) == id :: skips == c.types[i].skipsWriteIdx
    ensures NoClientHas(c.types, id) ==> !skips
  {
    hide ConfigOk, Id, ClientOffset, TotalSize, RxqClients, ConfigurableBefore;
    if id >= d.clientsNum {
      return false;
    }
    skips := d.queueSizes[id].skipsWriteIdx;
  }
}
